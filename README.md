# Later: a verified model of a single-assignment future

`Later.cs` implements a "Later". This is a future that starts pending and is
completed once by its producer. Consumers wait for it with C#'s `await`. Its
state is four fields:

- `_isComplete`: the completion flag.
- `_result`: the stored result.
- `_onComplete`: a protected event of `Action<TResult>` observers.
- `_completionSource`: a `TaskCompletionSource` created lazily by `GetAwaiter`.

`ResultLater<T>` completes with a value. `VoidLater` is a `BaseLater<byte>` that
completes with the sentinel `0`.

The model has two modules.

- `LaterSpec` (`later_spec.dfy`) is the value-level view. `LaterState` holds the
  four fields, plus a ghost trace of observer invocations. Each operation is a
  function on that state: `Completed`, `Subscribed`, `ResultAwaited`,
  `VoidAwaited`, and the corrected awaiter `CorrectedAwaited`. `Run` applies any
  sequence of calls. The lemmas state what holds over every such history.
- `Laters` (`later.dfy`) holds the classes, which are updated in place.
  - `CompletionSource` is the task completion source, reduced to a set-once value.
  - `BaseLater` holds the four fields, the event add and `_complete`, written as
    `CompleteInternal`. Its drain is a loop over the captured observers.
  - `ResultLater` and `VoidLater` hold their `Complete` wrappers and `GetAwaiter`.

  C# inheritance becomes composition: each sealed Later owns a `BaseLater` core.
  The public methods of `BaseLater`, `ResultLater` and `VoidLater` (event add,
  `_complete`, `Complete`, `GetAwaiter` and the corrected awaiters) are proved to
  move the object's state as the matching `LaterSpec` function says. The drain
  (`Drain`, `Invoke`) is stated through `Fired` and `ResolvedBy`, and
  `CompletionSource.TrySetResult` through its own set-once contract. The client methods at the end of the file show the main
  behaviours on concrete values.

The observers in the event are opaque consumer code, `Handler(id)`. Two further
kinds of observer are modelled:

- `Recomplete(v)` is consumer code that calls `Complete(v)` again while the event
  is draining. `Invoke` really re-enters `CompleteInternal`, and the proof shows
  that the inner call returns at once, because the flag is already set.
- `ResolveBridge` resolves the completion source. Only the corrected awaiter adds
  it (see Findings).

Each invocation is recorded with the flag and the stored result that the observer
would read at that moment. This proves two things: the flag is set before any
observer runs, and every observer sees the final result.

Two behaviours of `Later.cs` are worth stating plainly.

- There is no path that runs a callback subscribed after completion at once. The
  event is protected. A handler added after completion stays in `_onComplete`,
  because every later `_complete` returns early. See `RunAfterComplete` and
  `CompleteTwiceThenSubscribe`.
- `Complete` never resolves an awaiter created while the Later was pending (see
  Findings).

## Model

| member | source | states |
|---|---|---|
| LaterSpec.Fired | Later.cs:44-48 | one drain runs every captured observer exactly once, in registration order, each with the completion value and after the flag was set |
| LaterSpec.Completed | Later.cs:38-49 | `_complete(v)` on values: the Later ends complete, and a second completion changes nothing. A first completion stores v and empties the event. The trace only grows, by exactly one invocation per captured observer. The source is neither created nor dropped |
| LaterSpec.Subscribed | Later.cs:34 | `_onComplete +=` on values: the observer is appended after the existing ones, whatever the completion state. Nothing runs, and the flag, result and source are unchanged |
| LaterSpec.ResultAwaited | Later.cs:74-87 | the result `GetAwaiter` on values: afterwards a source exists, and an existing source is kept unchanged (set-once). A new source is resolved exactly when the Later is already complete, and then with the stored result. The event, flag, result and trace are unchanged, so nothing is registered on the pending path |
| LaterSpec.VoidAwaited | Later.cs:55-68 | the void `GetAwaiter` on values: as ResultAwaited, except that a new source on a complete Later is resolved with the sentinel 0 |
| LaterSpec.CorrectedAwaited | Later.cs:83-84 | the corrected result awaiter on values: a source exists afterwards and an existing one is kept. A new one is resolved exactly when the Later is complete, with the stored result. On the pending path a resolver is in the event afterwards; the event only grows, and the flag, result and trace are unchanged |
| LaterSpec.VoidCorrectedAwaited | Later.cs:64-65 | the corrected void awaiter on values: as CorrectedAwaited, except that a new source on a complete Later is resolved with the sentinel 0 |
| LaterSpec.Step | Later.cs:22-87 | one call on a Later, as written (Complete, event add or await): once complete, the call keeps the flag, the result and the trace. The trace only grows, and an existing source is never dropped |
| LaterSpec.Run | Later.cs:22-87 | a history of calls, applied in order: once complete, the flag, the result and the trace stay fixed. The trace only grows, and an existing source is never dropped |
| LaterSpec.CorrectedStep | Later.cs:83-84 | one call on a Later with the corrected awaiter: the same guarantees as Step |
| LaterSpec.CorrectedRun | Later.cs:83-84 | a history of calls with the corrected awaiter: the same guarantees as Run |
| LaterSpec.FiredSnoc | Later.cs:48 | running one more captured observer appends exactly its own invocation to the drain |
| LaterSpec.FirstCompletion | Later.cs:38-48 | the first `_complete(v)` stores v, empties the event and sets the flag; the trace grows by one invocation per registered observer, in order, each with v |
| LaterSpec.StepConsistent | Later.cs:38-87 | every call keeps the state consistent: nothing runs before completion, every observer saw the flag set and the stored result, and a resolved source holds the stored result |
| LaterSpec.RunConsistent | Later.cs:38-87 | the state stays consistent over any sequence of calls |
| LaterSpec.RunAfterComplete | Later.cs:38-40 | once complete, any further calls keep the flag set and the result unchanged and run no observer. The event becomes exactly the old event followed by the observers those calls added, none of which ever runs |
| LaterSpec.RunWithoutComplete | Later.cs:35-47 | without a call to Complete, a Later stays pending and no observer runs. The event becomes exactly the old event followed by the added observers, in call order |
| LaterSpec.RunCompleteIff | Later.cs:35-47 | a Later ends complete if and only if it started complete or some call in the history completed it |
| LaterSpec.RunFirstCompleteWins | Later.cs:38-48 | after any history, the stored result is the value of the first Complete call. The only observers that ever ran are those in the event at the start, then those added before that call, each once, in order, with that value |
| LaterSpec.RunAppend | Later.cs:38-87 | running one history and then another gives the same state as running the two in one sequence |
| LaterSpec.RunBridgeSetOnce | Later.cs:55-87 | once a source exists it is never removed, and once it is resolved its value never changes |
| LaterSpec.RunPendingBridgeNeverResolves | Later.cs:74-86 | as written, a source created while the Later is pending stays unresolved through any later calls, Complete included |
| LaterSpec.AwaitBeforeCompleteHangs | Later.cs:74-86 | as written, awaiting a new Later and then completing it leaves the source unresolved |
| LaterSpec.CorrectedStepWired | Later.cs:83-84 | with the corrected awaiter, every call keeps each source either resolved with the stored result, or pending with a resolver in the event |
| LaterSpec.CorrectedRunResolves | Later.cs:74-86 | with the corrected awaiter, once the Later is complete, any source that exists holds the stored result, whenever it was created |
| LaterSpec.CorrectedAwaitBeforeComplete | Later.cs:74-86 | with the corrected awaiter, two awaits before completion share one source, and Complete(v) resolves it with v |
| LaterSpec.CorrectedStepConsistent | Later.cs:38-87 | the corrected awaiter also keeps the state consistent |
| LaterSpec.VoidAwaitAgrees | Later.cs:53-68 | when a void Later's stored result is the sentinel 0, its awaiter, as written and as corrected, acts exactly as the result awaiter |
| Laters.CompletionSource.constructor | Later.cs:59 | a new completion source is unresolved |
| Laters.CompletionSource.TrySetResult | Later.cs:63 | sets the value only when none is set yet, and reports whether it did |
| Laters.BaseLater.constructor | Later.cs:32-36 | a new Later is pending, with an empty event, no source and no invocations |
| Laters.BaseLater.AddOnComplete | Later.cs:34 | `_onComplete +=` appends the observer whether or not the Later is complete, and changes nothing else |
| Laters.BaseLater.CompleteInternal | Later.cs:38-49 | once complete it changes nothing. Otherwise it stores v, empties the event, sets the flag and runs the captured observers in order with v. It touches the source only through a resolver in the event. The new state is `Completed` of the old |
| Laters.BaseLater.Drain | Later.cs:48 | runs the captured observers one by one, in order, each with the stored result, leaving the flag, result and event as they were |
| Laters.BaseLater.Invoke | Later.cs:48 | runs one observer with the stored result while the flag is set: records it, re-enters completion as a no-op, or resolves the source if it is unresolved |
| Laters.ResultLater.constructor | Later.cs:20-23 | a new result Later is pending with a fresh core |
| Laters.ResultLater.Complete | Later.cs:22 | completing a result Later is `_complete` with the given value |
| Laters.ResultLater.GetAwaiter | Later.cs:74-87 | returns the existing source unchanged. Otherwise it creates a fresh one, resolved with the stored result if the Later is complete and unresolved with nothing registered if not |
| Laters.ResultLater.CorrectedGetAwaiter | Later.cs:83-84 | as GetAwaiter, except that on the pending path it adds a resolver for the new source to the event |
| Laters.VoidLater.constructor | Later.cs:26-29 | a new void Later is pending with a fresh core |
| Laters.VoidLater.Complete | Later.cs:28 | completing a void Later is `_complete(0)`, so its stored result is always the sentinel |
| Laters.VoidLater.GetAwaiter | Later.cs:55-68 | as the result awaiter, but a source created after completion is resolved with 0 |
| Laters.VoidLater.CorrectedGetAwaiter | Later.cs:64-65 | as the void GetAwaiter, except that on the pending path it adds a resolver for the new source to the event |
| Laters.CompleteTwiceThenSubscribe | Later.cs:38-49 | Complete(42) then Complete(99) leaves 42 stored. The trace is exactly one invocation, of the handler added before, with 42. A handler added afterwards stays in the event |
| Laters.AwaitAfterComplete | Later.cs:81-82 | awaiting a complete Later gives a source already resolved with the result |
| Laters.VoidAwaitAfterComplete | Later.cs:62-63 | awaiting a complete void Later gives a source resolved with 0 |
| Laters.AwaitWhilePending | Later.cs:83-84 | as written, awaiting a pending Later and then completing it leaves the awaiter unresolved |
| Laters.CorrectedAwaitWhilePending | Later.cs:83-84 | with the corrected awaiter, two awaits on a pending Later both resolve with the completion value |
| Laters.VoidAwaitWhilePending | Later.cs:64-65 | as written, awaiting a pending void Later and then completing it leaves the awaiter unresolved |
| Laters.VoidCorrectedAwaitWhilePending | Later.cs:64-65 | with the corrected void awaiter, two awaits on a pending void Later both resolve with 0 |

## Findings

| source | as written | input that shows it | evidently intended | confidence | as-written member | corrected member |
|---|---|---|---|---|---|---|
| Later.cs:83-84 | On the pending path, the continuation that calls `TrySetResult` is registered on the awaiter of the source's own task. That task completes only when the source is resolved, and `_complete` never touches the source. The same holds for the void awaiter at Later.cs:64-65; `VoidAwaitWhilePending` and `VoidCorrectedAwaitWhilePending` show both halves for it. | `GetAwaiter()` on a new `ResultLater`, then `Complete(v)`: the source stays unresolved, so `await` never resumes | the pending path adds a resolver for the source to `_onComplete`, so that `_complete` resolves it with the result | high; not executed | LaterSpec.RunPendingBridgeNeverResolves | LaterSpec.CorrectedRunResolves |

## Left out

- The `TaskCompletionSource`/`TaskAwaiter` machinery and the scheduler are library code. The source is a set-once value, and `GetAwaiter` returns the source object itself in place of its task's awaiter.
- The continuation `awaiter.OnCompleted(...)` runs only when the source's own task completes. Nothing in `Later.cs` completes that task, so it is modelled as registering nothing.
- The marker interfaces `ILater`, `IVoidLater` and `IResultLater` carry no behaviour.
- Thread safety is not modelled. The code has no locks, so the model is sequential.
- Observers can only do the three modelled things. A handler that throws would stop the drain; one that subscribes from inside the drain would land in the emptied event and never run. Neither is modelled.
- Laters.BaseLater.Invoke: if a resolver runs while no source exists, it does nothing. The C# lambda would throw a `NullReferenceException`. Only the corrected awaiter adds a resolver, and it creates the source first.
- Event removal (`-=`) is not used by `Later.cs`.
- The access rules of C# are not enforced by the model. In `Later.cs`, `_complete` and `_onComplete` are protected members of the public abstract `BaseLater<TResult>`. Any subclass of the public abstract `BaseVoidLater` or `BaseResultLater` can reach them. The model lets any client reach them through the public `core` constant of each Later.
