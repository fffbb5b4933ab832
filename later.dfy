/** The Later classes: a single-assignment future whose completion drains an
    event of observers, and whose `await` bridge is a lazily created
    completion source. C# inheritance (ResultLater : BaseResultLater :
    BaseLater) becomes composition: each sealed Later owns a BaseLater core. */
module Laters {
  import opened LaterSpec

  /** The completion source behind `await`, reduced to a set-once value. */
  class CompletionSource<T> {
    var resolved: Option<T>

    constructor ()
      ensures resolved == None
    {
      resolved := None;
    }

    /** Set the value if none is set yet; report whether this call set it. */
    method TrySetResult(v: T) returns (ok: bool)
      modifies this
      ensures ok <==> old(resolved).None?
      ensures resolved == if ok then Some(v) else old(resolved)
    {
      ok := resolved.None?;
      if ok {
        resolved := Some(v);
      }
    }
  }

  /** The fields shared by every Later and the completion step. */
  class BaseLater<T(0)> {
    var completionSource: CompletionSource?<T>
    var onComplete: seq<Observer<T>>
    var isComplete: bool
    var result: T
    /** Every observer invocation so far, in order. */
    ghost var trace: seq<Invocation<T>>

    ghost function Source(): Bridge<T>
      reads this, completionSource
    {
      if completionSource == null then NoBridge else Bridge(completionSource.resolved)
    }

    ghost function State(): LaterState<T>
      reads this, completionSource
    {
      LaterState(isComplete, result, onComplete, trace, Source())
    }

    ghost predicate Valid()
      reads this, completionSource
    {
      Consistent(State())
    }

    /** A pending Later with an empty event, no source, and the default result. */
    constructor ()
      ensures Valid()
      ensures !isComplete && onComplete == [] && trace == [] && completionSource == null
      ensures State() == Initial(result)
    {
      completionSource := null;
      onComplete := [];
      isComplete := false;
      trace := [];
    }

    /** `_onComplete += o`. */
    method AddOnComplete(o: Observer<T>)
      requires Valid()
      modifies this
      ensures Valid()
      ensures onComplete == old(onComplete) + [o]
      ensures isComplete == old(isComplete) && result == old(result) && trace == old(trace)
      ensures completionSource == old(completionSource)
      ensures State() == Subscribed(old(State()), o)
    {
      onComplete := onComplete + [o];
    }

    /** `_complete(v)`. A Recomplete observer re-enters this method while the
        outer call is draining; the flag is already set, so it returns at once. */
    method CompleteInternal(v: T)
      requires Valid()
      modifies this, completionSource
      decreases if isComplete then 0 else 1, 0
      ensures Valid()
      ensures completionSource == old(completionSource)
      ensures old(isComplete) ==> unchanged(this) && (completionSource != null ==> unchanged(completionSource))
      ensures !old(isComplete) ==>
        && isComplete && result == v && onComplete == []
        && trace == old(trace) + Fired(old(onComplete), v)
        && Source() == ResolvedBy(old(Source()), old(onComplete), v)
      ensures State() == Completed(old(State()), v)
    {
      if isComplete {
        return;
      }
      result := v;
      var toComplete := onComplete;
      onComplete := [];
      isComplete := true;
      Drain(toComplete);
    }

    /** `toComplete?.Invoke(_result)`: run the captured observers in order. */
    method Drain(toComplete: seq<Observer<T>>)
      requires Valid() && isComplete
      modifies this, completionSource
      decreases 0, 2
      ensures Valid() && isComplete
      ensures result == old(result) && onComplete == old(onComplete)
      ensures completionSource == old(completionSource)
      ensures trace == old(trace) + Fired(toComplete, result)
      ensures Source() == ResolvedBy(old(Source()), toComplete, result)
    {
      var arg := result;
      var i := 0;
      while i < |toComplete|
        invariant 0 <= i <= |toComplete|
        invariant isComplete && result == arg && onComplete == old(onComplete)
        invariant completionSource == old(completionSource)
        invariant trace == old(trace) + Fired(toComplete[..i], arg)
        invariant Source() == ResolvedBy(old(Source()), toComplete[..i], arg)
        invariant Valid()
      {
        var o := toComplete[i];
        assert toComplete[..i + 1] == toComplete[..i] + [o];
        assert HasResolver(toComplete[..i + 1]) <==> HasResolver(toComplete[..i]) || o.ResolveBridge?;
        FiredSnoc(toComplete[..i], o, arg);
        Invoke(o, arg);
        i := i + 1;
      }
      assert toComplete[..i] == toComplete;
    }

    /** Run one observer of the event with `arg`, recording the invocation. */
    method Invoke(o: Observer<T>, arg: T)
      requires Valid() && isComplete && result == arg
      modifies this, completionSource
      decreases 0, 1
      ensures Valid()
      ensures isComplete && result == arg && onComplete == old(onComplete)
      ensures completionSource == old(completionSource)
      ensures trace == old(trace) + [Invocation(o, arg, true, arg)]
      ensures Source() == ResolvedBy(old(Source()), [o], arg)
    {
      trace := trace + [Invocation(o, arg, isComplete, result)];
      match o {
        case Handler(_) =>
        case Recomplete(w) =>
          CompleteInternal(w);
        case ResolveBridge =>
          assert [o][0].ResolveBridge?;
          if completionSource != null {
            var _ := completionSource.TrySetResult(arg);
          }
      }
    }
  }

  /** A Later carrying a result of type T. */
  class ResultLater<T(0)> {
    const core: BaseLater<T>

    ghost predicate Valid()
      reads this, core, core.completionSource
    {
      core.Valid()
    }

    constructor ()
      ensures Valid() && fresh(core)
      ensures core.State() == Initial(core.result)
    {
      core := new BaseLater<T>();
    }

    /** `Complete(result) => _complete(result)`. */
    method Complete(v: T)
      requires Valid()
      modifies core, core.completionSource
      ensures Valid()
      ensures core.completionSource == old(core.completionSource)
      ensures core.State() == Completed(old(core.State()), v)
    {
      core.CompleteInternal(v);
    }

    /** `GetAwaiter()`: the source is created on the first call only, resolved at
        once with the stored result if the Later is complete, and otherwise left
        to a continuation on its own task, which nothing ever triggers. */
    method GetAwaiter() returns (awaiter: CompletionSource<T>)
      requires Valid()
      modifies core
      ensures Valid()
      ensures core.completionSource == awaiter
      ensures old(core.completionSource) != null ==> awaiter == old(core.completionSource)
      ensures old(core.completionSource) == null ==> fresh(awaiter)
      ensures core.State() == ResultAwaited(old(core.State()))
    {
      if core.completionSource != null {
        return core.completionSource;
      }
      awaiter := new CompletionSource<T>();
      core.completionSource := awaiter;
      if core.isComplete {
        var _ := awaiter.TrySetResult(core.result);
      }
    }

    /** GetAwaiter as evidently intended: on the pending path the source is
        resolved by a handler on the completion event. */
    method CorrectedGetAwaiter() returns (awaiter: CompletionSource<T>)
      requires Valid()
      modifies core
      ensures Valid()
      ensures core.completionSource == awaiter
      ensures old(core.completionSource) != null ==> awaiter == old(core.completionSource)
      ensures old(core.completionSource) == null ==> fresh(awaiter)
      ensures core.State() == CorrectedAwaited(old(core.State()))
    {
      if core.completionSource != null {
        return core.completionSource;
      }
      awaiter := new CompletionSource<T>();
      core.completionSource := awaiter;
      if core.isComplete {
        var _ := awaiter.TrySetResult(core.result);
      } else {
        core.AddOnComplete(ResolveBridge);
      }
    }
  }

  /** A Later with no result: it completes with the sentinel 0. */
  class VoidLater {
    const core: BaseLater<byte>

    ghost predicate Valid()
      reads this, core, core.completionSource
    {
      core.Valid() && (core.isComplete ==> core.result == 0)
    }

    constructor ()
      ensures Valid() && fresh(core)
      ensures core.State() == Initial(core.result)
    {
      core := new BaseLater<byte>();
    }

    /** `Complete() => _complete(0)`. */
    method Complete()
      requires Valid()
      modifies core, core.completionSource
      ensures Valid()
      ensures core.completionSource == old(core.completionSource)
      ensures core.State() == Completed(old(core.State()), 0)
    {
      core.CompleteInternal(0);
    }

    /** `GetAwaiter()`: as for ResultLater, resolving with 0 instead of the result. */
    method GetAwaiter() returns (awaiter: CompletionSource<byte>)
      requires Valid()
      modifies core
      ensures Valid()
      ensures core.completionSource == awaiter
      ensures old(core.completionSource) != null ==> awaiter == old(core.completionSource)
      ensures old(core.completionSource) == null ==> fresh(awaiter)
      ensures core.State() == VoidAwaited(old(core.State()))
    {
      if core.completionSource != null {
        return core.completionSource;
      }
      awaiter := new CompletionSource<byte>();
      core.completionSource := awaiter;
      if core.isComplete {
        var _ := awaiter.TrySetResult(0);
      }
    }

    /** GetAwaiter as evidently intended: on the pending path the source is
        resolved by a handler on the completion event, which passes the sentinel. */
    method CorrectedGetAwaiter() returns (awaiter: CompletionSource<byte>)
      requires Valid()
      modifies core
      ensures Valid()
      ensures core.completionSource == awaiter
      ensures old(core.completionSource) != null ==> awaiter == old(core.completionSource)
      ensures old(core.completionSource) == null ==> fresh(awaiter)
      ensures core.State() == VoidCorrectedAwaited(old(core.State()))
    {
      if core.completionSource != null {
        return core.completionSource;
      }
      awaiter := new CompletionSource<byte>();
      core.completionSource := awaiter;
      if core.isComplete {
        var _ := awaiter.TrySetResult(0);
      } else {
        core.AddOnComplete(ResolveBridge);
      }
    }
  }

  // ---------------------------------------------------------------------------
  // Clients

  /** Complete(42), then Complete(99), then a late handler: the result stays 42,
      the handler attached before completion ran once with 42, and the late one
      stays in the event without running. */
  method CompleteTwiceThenSubscribe() returns (stored: int, waiting: seq<Observer<int>>, ghost ran: seq<Invocation<int>>)
    ensures stored == 42
    ensures waiting == [Handler(1)]
    ensures ran == [Invocation(Handler(0), 42, true, 42)]
  {
    var later := new ResultLater<int>();
    later.core.AddOnComplete(Handler(0));
    later.Complete(42);
    assert later.core.trace == [Invocation(Handler(0), 42, true, 42)];
    later.Complete(99);
    later.core.AddOnComplete(Handler(1));
    assert later.core.trace == [Invocation(Handler(0), 42, true, 42)];
    stored, waiting := later.core.result, later.core.onComplete;
    ran := later.core.trace;
  }

  /** Awaiting a complete Later yields a source already resolved with the result. */
  method AwaitAfterComplete(v: int) returns (resolved: Option<int>)
    ensures resolved == Some(v)
  {
    var later := new ResultLater<int>();
    later.Complete(v);
    var awaiter := later.GetAwaiter();
    resolved := awaiter.resolved;
  }

  /** The void variant's awaiter on a complete Later carries the sentinel. */
  method VoidAwaitAfterComplete() returns (resolved: Option<byte>)
    ensures resolved == Some(0)
  {
    var later := new VoidLater();
    later.Complete();
    var awaiter := later.GetAwaiter();
    resolved := awaiter.resolved;
  }

  /** As written: awaiting a pending Later, then completing it, leaves the
      awaited source unresolved. */
  method AwaitWhilePending(v: int) returns (resolved: Option<int>)
    ensures resolved == None
  {
    var later := new ResultLater<int>();
    var awaiter := later.GetAwaiter();
    later.Complete(v);
    resolved := awaiter.resolved;
  }

  /** Corrected: two awaits on a pending Later share one source, and completing
      the Later resolves it with the value. */
  method CorrectedAwaitWhilePending(v: int) returns (first: Option<int>, second: Option<int>)
    ensures first == Some(v) && second == Some(v)
  {
    var later := new ResultLater<int>();
    var a1 := later.CorrectedGetAwaiter();
    var a2 := later.CorrectedGetAwaiter();
    later.Complete(v);
    first, second := a1.resolved, a2.resolved;
  }

  /** As written, for the void variant: awaiting a pending VoidLater, then
      completing it, leaves the awaited source unresolved. */
  method VoidAwaitWhilePending() returns (resolved: Option<byte>)
    ensures resolved == None
  {
    var later := new VoidLater();
    var awaiter := later.GetAwaiter();
    later.Complete();
    resolved := awaiter.resolved;
  }

  /** Corrected, for the void variant: two awaits on a pending VoidLater share
      one source, and completing it resolves the source with the sentinel. */
  method VoidCorrectedAwaitWhilePending() returns (first: Option<byte>, second: Option<byte>)
    ensures first == Some(0) && second == Some(0)
  {
    var later := new VoidLater();
    var a1 := later.CorrectedGetAwaiter();
    var a2 := later.CorrectedGetAwaiter();
    later.Complete();
    first, second := a1.resolved, a2.resolved;
  }
}
