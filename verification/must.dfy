/** The raise/recover mechanism of xerrors/must.go.

    Go tunnels a failing step's error to the deferred `Catch` with `panic` and
    `recover`. Here that tunnel is explicit data: a function body ends with an
    `Exit` (a normal return or a panic carrying a `PanicValue`), each raiser
    invocation ends in a `Step` (it returns a value or raises), and a body of
    sequential steps is a fold that stops at the first raise. `Catch` is a
    function of the exit it observes.
 */
module MustCatch {
  import opened Errors

  // ----- Handler chains -----

  /** The outcome of running a handler chain: the error left at the end
      (`None` if some handler resolved it), the handlers' state afterwards, and
      how many handlers were called. */
  datatype ChainResult<S> = ChainResult(err: Option<Error>, state: S, calls: nat)

  /** The result of running a chain, seen from `offset` handlers further left. */
  function Shift<S>(r: ChainResult<S>, offset: nat): ChainResult<S> {
    r.(calls := r.calls + offset)
  }

  /** The handler loop shared by `Must`, `Must2` and `Catch`: each handler gets
      the previous handler's output, and the first `None` ends the chain. */
  function EvalChain<S>(e: Error, hs: seq<Handler<S>>, s: S): (r: ChainResult<S>)
    ensures r.calls <= |hs|
    ensures hs == [] ==> r.err == Some(e) && r.state == s
    ensures r.calls < |hs| ==> r.err == None
    ensures |hs| > 0 ==> r.calls > 0
    decreases |hs|
  {
    if hs == [] then ChainResult(Some(e), s, 0)
    else
      var (next, s') := hs[0](e, s);
      match next
      case None => ChainResult(None, s', 1)
      case Some(e') => Shift(EvalChain(e', hs[1..], s'), 1)
  }

  /** The chain as xerrors/must.go writes it, a `for ... range` loop that breaks at
      the first nil; it computes exactly `EvalChain`. */
  method RunHandlers<S>(e: Error, hs: seq<Handler<S>>, s: S)
    returns (err: Option<Error>, state: S, calls: nat)
    ensures ChainResult(err, state, calls) == EvalChain(e, hs, s)
  {
    err, state, calls := Some(e), s, 0;
    while calls < |hs| && err.Some?
      invariant calls <= |hs|
      invariant err.Some? ==> EvalChain(e, hs, s) == Shift(EvalChain(err.value, hs[calls..], state), calls)
      invariant err.None? ==> EvalChain(e, hs, s) == ChainResult(err, state, calls)
    {
      assert hs[calls..][0] == hs[calls];
      assert hs[calls..][1..] == hs[calls + 1..];
      var (next, state') := hs[calls](err.value, state);
      err, state, calls := next, state', calls + 1;
    }
  }

  /** Running `hs1 + hs2` runs `hs1`; only if `hs1` leaves an error does `hs2`
      run, starting from that error and state. */
  lemma {:induction false} ChainConcat<S>(e: Error, hs1: seq<Handler<S>>, hs2: seq<Handler<S>>, s: S)
    ensures var r1 := EvalChain(e, hs1, s);
      EvalChain(e, hs1 + hs2, s)
        == if r1.err == None then r1 else Shift(EvalChain(r1.err.value, hs2, r1.state), r1.calls)
    decreases |hs1|
  {
    if hs1 == [] {
      assert hs1 + hs2 == hs2;
    } else {
      assert (hs1 + hs2)[0] == hs1[0];
      assert (hs1 + hs2)[1..] == hs1[1..] + hs2;
      var (next, s') := hs1[0](e, s);
      if next.Some? {
        ChainConcat(next.value, hs1[1..], hs2, s');
      }
    }
  }

  /** Once a chain resolves, handlers appended after it are never called. */
  lemma ChainIgnoresLaterHandlers<S>(e: Error, hs: seq<Handler<S>>, later: seq<Handler<S>>, s: S)
    requires EvalChain(e, hs, s).err == None
    ensures EvalChain(e, hs + later, s) == EvalChain(e, hs, s)
  {
    ChainConcat(e, hs, later, s);
  }

  // ----- The panic channel -----

  /** `mustError`: the marker that carries a non-nil error from a raiser to `Catch`. */
  datatype MustError = MustError(error: Error) {
    /** `mustError.Unwrap`: recovers exactly the error the marker was built from. */
    function Unwrap(): (r: Error)
      ensures MustError(r) == this
    {
      error
    }
  }

  /** What a goroutine can be panicking with, as far as `Catch` distinguishes. */
  datatype PanicValue =
    /** `panic(mustError{err})` from `Must` or `Must2` */
    | Signal(must: MustError)
    /** `panic(err)` with a plain error value, as `Catch` does when it has no target */
    | BareError(err: Error)
    /** any other panic (a runtime fault, a library's own panic) */
    | Foreign(description: string)

  /** How a function body ended. */
  datatype Exit = Normal | Panicking(value: PanicValue)

  /** One raiser invocation: it returns a value, or raises and never returns. */
  datatype Step<T> = Continue(value: T) | Raise(panic: PanicValue)

  // ----- Must and Must2 -----

  /** The closure `Must`/`Must2` return: a no-op (nil error) or one that runs
      the handler chain on its captured error. */
  datatype Raiser<T> = Ready(value: T) | Armed(value: T, err: Error)

  /** `Must(err)` */
  function Must(err: Option<Error>): (r: Raiser<()>)
    ensures r.Ready? <==> err == None
    ensures r.Armed? ==> Some(r.err) == err
  {
    match err
    case None => Ready(())
    case Some(e) => Armed((), e)
  }

  /** `Must2(v, err)` */
  function Must2<T>(v: T, err: Option<Error>): (r: Raiser<T>)
    ensures r.value == v
    ensures r.Ready? <==> err == None
    ensures r.Armed? ==> Some(r.err) == err
  {
    match err
    case None => Ready(v)
    case Some(e) => Armed(v, e)
  }

  /** The outcome of invoking a raiser with a handler chain. */
  datatype Invocation<T, S> = Invocation(step: Step<T>, state: S, calls: nat)

  /** Invoking the closure returned by `Must(err)` or `Must2(v, err)` with `hs`. */
  function Invoke<T, S>(r: Raiser<T>, hs: seq<Handler<S>>, s: S): (o: Invocation<T, S>)
    ensures r.Ready? ==> o == Invocation(Continue(r.value), s, 0)
    ensures o.step.Continue? ==> o.step.value == r.value
    ensures o.step.Raise? ==> o.step.panic.Signal?
    ensures r.Armed? ==>
      var c := EvalChain(r.err, hs, s);
      && o.state == c.state && o.calls == c.calls
      && (o.step.Raise? <==> c.err.Some?)
      && (c.err.Some? ==> o.step == Raise(Signal(MustError(c.err.value))))
  {
    match r
    case Ready(v) => Invocation(Continue(v), s, 0)
    case Armed(v, e) =>
      var c := EvalChain(e, hs, s);
      match c.err
      case None => Invocation(Continue(v), c.state, c.calls)
      case Some(final) => Invocation(Raise(Signal(MustError(final))), c.state, c.calls)
  }

  /** `Must(e)` invoked with no handlers raises a `mustError` wrapping exactly `e`. */
  lemma MustWithoutHandlersRaisesOriginal<S>(e: Error, s: S)
    ensures Invoke(Must(Some(e)), [], s) == Invocation(Raise(Signal(MustError(e))), s, 0)
    ensures Invoke(Must(Some(e)), [], s).step.panic.must.Unwrap() == e
  {
  }

  /** A raiser with a nil error ignores its handlers entirely; `Must2` hands its value back. */
  lemma NilErrorNeverRaises<T, S>(v: T, hs: seq<Handler<S>>, s: S)
    ensures Invoke(Must(None), hs, s) == Invocation(Continue(()), s, 0)
    ensures Invoke(Must2(v, None), hs, s) == Invocation(Continue(v), s, 0)
  {
  }

  // ----- Catch -----

  /** The `target *error` argument of `Catch`: nil, or a slot holding an error. */
  datatype Target = NoTarget | Slot(value: Option<Error>)

  /** What `Catch` leaves behind: the target's contents, how the function exits,
      and the handlers' state. */
  datatype Recovery<S> = Recovery(target: Target, exit: Exit, state: S)

  /** The deferred `Catch(target, hs...)` run when a body ended with `exit`. */
  function Catch<S>(exit: Exit, target: Target, hs: seq<Handler<S>>, s: S): (r: Recovery<S>)
    ensures exit.Normal? ==> r == Recovery(target, Normal, s)
    ensures exit.Panicking? && !exit.value.Signal? ==> r == Recovery(target, exit, s)
    ensures r.target.NoTarget? <==> target.NoTarget?
    ensures r.exit.Panicking? ==> !r.exit.value.Signal?
    ensures exit.Panicking? && exit.value.Signal? ==>
      var c := EvalChain(exit.value.must.Unwrap(), hs, s);
      && r.state == c.state
      && (c.err.None? ==> r == Recovery(target, Normal, c.state))
      && (c.err.Some? && target.Slot? ==> r == Recovery(Slot(c.err), Normal, c.state))
      && (c.err.Some? && target.NoTarget? ==> r.exit == Panicking(BareError(c.err.value)))
  {
    match exit
    case Normal => Recovery(target, Normal, s)
    case Panicking(p) =>
      match p
      case Signal(m) =>
        var c := EvalChain(m.Unwrap(), hs, s);
        if c.err.None? then Recovery(target, Normal, c.state)
        else if target.NoTarget? then Recovery(target, Panicking(BareError(c.err.value)), c.state)
        else Recovery(Slot(c.err), Normal, c.state)
      case _ => Recovery(target, exit, s)
  }

  /** Without a target, `Catch` re-panics the bare error, not a `mustError`, so
      an enclosing `Catch` treats it as a foreign panic: it passes it on and
      leaves its own target as it was. */
  lemma UntargetedCatchEscapesEnclosingCatch<S>(e: Error, outer: Target, hs: seq<Handler<S>>, s: S)
    ensures Catch(Panicking(Signal(MustError(e))), NoTarget, [], s) == Recovery(NoTarget, Panicking(BareError(e)), s)
    ensures var inner := Catch(Panicking(Signal(MustError(e))), NoTarget, [], s);
      Catch(inner.exit, outer, hs, inner.state) == Recovery(outer, Panicking(BareError(e)), s)
  {
  }

  // ----- Function bodies made of Must steps -----

  /** One statement `Must(err)(handlers...)`, where `err` is what the step's
      fallible call returned. */
  datatype MustStep<!S> = MustStep(err: Option<Error>, handlers: seq<Handler<S>>)

  /** How a body of steps ended, with the number of steps that ran. */
  datatype BodyRun<S> = BodyRun(exit: Exit, state: S, ran: nat)

  /** The statements of a body run in order until one raises; later steps
      (including the fallible calls that produce their errors) do not run. */
  function RunSteps<S>(steps: seq<MustStep<S>>, s: S): (r: BodyRun<S>)
    ensures r.ran <= |steps|
    ensures r.exit.Normal? ==> r.ran == |steps|
    ensures r.exit.Panicking? ==> r.exit.value.Signal? && r.ran > 0
    decreases |steps|
  {
    if steps == [] then BodyRun(Normal, s, 0)
    else
      var o := Invoke(Must(steps[0].err), steps[0].handlers, s);
      match o.step
      case Raise(p) => BodyRun(Panicking(p), o.state, 1)
      case Continue(_) =>
        var rest := RunSteps(steps[1..], o.state);
        rest.(ran := rest.ran + 1)
  }

  /** Invoking step `i` of a body from state `s`. */
  function StepOutcome<S>(steps: seq<MustStep<S>>, i: nat, s: S): Invocation<(), S>
    requires i < |steps|
  {
    Invoke(Must(steps[i].err), steps[i].handlers, s)
  }

  /** The handler state after the first `i` steps of a body, each of which
      returned normally. */
  function StateAt<S>(steps: seq<MustStep<S>>, i: nat, s: S): S
    requires i <= |steps|
    decreases i
  {
    if i == 0 then s else StateAt(steps[1..], i - 1, StepOutcome(steps, 0, s).state)
  }

  /** The first step that raises decides the body's exit: the steps before it
      returned (their errors nil or resolved by their handlers, whose side
      effects accumulate in the state), and none after it runs. */
  lemma {:induction false} FirstFailureWins<S>(steps: seq<MustStep<S>>, k: nat, s: S)
    requires k < |steps|
    requires forall i :: 0 <= i < k ==> StepOutcome(steps, i, StateAt(steps, i, s)).step.Continue?
    requires StepOutcome(steps, k, StateAt(steps, k, s)).step.Raise?
    ensures var o := StepOutcome(steps, k, StateAt(steps, k, s));
      RunSteps(steps, s) == BodyRun(Panicking(o.step.panic), o.state, k + 1)
    decreases k
  {
    if k > 0 {
      var s1 := StepOutcome(steps, 0, s).state;
      assert StepOutcome(steps, 0, StateAt(steps, 0, s)).step.Continue?;
      forall i | 0 <= i < k - 1
        ensures StepOutcome(steps[1..], i, StateAt(steps[1..], i, s1)).step.Continue?
      {
        assert StepOutcome(steps, i + 1, StateAt(steps, i + 1, s)).step.Continue?;
      }
      FirstFailureWins(steps[1..], k - 1, s1);
    }
  }

  /** A body none of whose steps raises (each error is nil or resolved by its
      handlers) runs every step, returns normally, and ends in the state the
      handlers built up. */
  lemma {:induction false} NoRaiseRunsEverything<S>(steps: seq<MustStep<S>>, s: S)
    requires forall i :: 0 <= i < |steps| ==> StepOutcome(steps, i, StateAt(steps, i, s)).step.Continue?
    ensures RunSteps(steps, s) == BodyRun(Normal, StateAt(steps, |steps|, s), |steps|)
    decreases |steps|
  {
    if steps != [] {
      var s1 := StepOutcome(steps, 0, s).state;
      assert StepOutcome(steps, 0, StateAt(steps, 0, s)).step.Continue?;
      forall i | 0 <= i < |steps| - 1
        ensures StepOutcome(steps[1..], i, StateAt(steps[1..], i, s1)).step.Continue?
      {
        assert StepOutcome(steps, i + 1, StateAt(steps, i + 1, s)).step.Continue?;
      }
      NoRaiseRunsEverything(steps[1..], s1);
    }
  }

  /** A body whose steps all have nil errors runs every step and returns
      normally with the state untouched. */
  lemma {:induction false} AllNilRunsEverything<S>(steps: seq<MustStep<S>>, s: S)
    requires forall i :: 0 <= i < |steps| ==> steps[i].err == None
    ensures RunSteps(steps, s) == BodyRun(Normal, s, |steps|)
    decreases |steps|
  {
    if steps != [] {
      AllNilRunsEverything(steps[1..], s);
    }
  }

  // ----- A function guarded by `defer Catch(&_err, hs...)` -----

  /** How a call of a Go function ends: it returns its results, or it panics. */
  datatype Call<T> = Returned(value: T, err: Option<Error>) | Panicked(panic: PanicValue)

  /** The end of `func f() (_ T, _err error) { defer Catch(&_err, hs...); ...; return ret, nil }`.
      On a normal exit the function returns `ret`; when the body panicked the
      return statement never ran, so the result is still its zero value. */
  function Guarded<T, S>(ret: T, zero: T, exit: Exit, hs: seq<Handler<S>>, s: S): (r: (Call<T>, S))
    ensures exit.Normal? ==> r == (Returned(ret, None), s)
    ensures r.0.Panicked? <==> exit.Panicking? && !exit.value.Signal?
    ensures r.0.Panicked? ==> r.0.panic == exit.value
    ensures exit.Panicking? && exit.value.Signal? ==>
      var c := EvalChain(exit.value.must.Unwrap(), hs, s);
      r == (Returned(zero, c.err), c.state)
  {
    var rec := Catch(exit, Slot(None), hs, s);
    match rec.exit
    case Panicking(p) => (Panicked(p), rec.state)
    case Normal => (Returned(if exit.Normal? then ret else zero, rec.target.value), rec.state)
  }

  /** A guarded body of `Must` steps: the result error is the first raising
      step's error after its handlers and the `Catch` handlers. */
  lemma {:induction false} GuardedBodyReturnsFirstFailure<S>(steps: seq<MustStep<S>>, k: nat, hs: seq<Handler<S>>, s: S)
    requires k < |steps|
    requires forall i :: 0 <= i < k ==> StepOutcome(steps, i, StateAt(steps, i, s)).step.Continue?
    requires StepOutcome(steps, k, StateAt(steps, k, s)).step.Raise?
    ensures var body := RunSteps(steps, s);
      var o := StepOutcome(steps, k, StateAt(steps, k, s));
      var c := EvalChain(o.step.panic.must.Unwrap(), hs, o.state);
      && body.ran == k + 1
      && Guarded((), (), body.exit, hs, body.state) == (Returned((), c.err), c.state)
  {
    FirstFailureWins(steps, k, s);
  }
}
