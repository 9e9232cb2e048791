/** The ready-made handlers of xerrors/handlers.go: `Wrap` and `Collector`. */
module Handlers {
  import opened Errors
  import opened MustCatch

  // ----- Wrap -----

  /** The operands `Wrap(format, args...)` hands to `fmt.Errorf`: the incoming
      error first, then the fixed arguments. */
  function WrapOperands(err: Error, args: seq<Arg>): (r: seq<Arg>)
    ensures |r| == |args| + 1
    ensures r[0] == ErrArg(err)
    ensures r[1..] == args
  {
    [ErrArg(err)] + args
  }

  /** The handler built by `Wrap(format, args...)`. It has no side effect and
      never returns nil. */
  function Wrap<S(!new)>(format: string, args: seq<Arg>): (h: Handler<S>)
    ensures forall e, s :: h(e, s) == (Some(Formatted(format, [ErrArg(e)] + args)), s)
  {
    (err, s) => (Some(Formatted(format, WrapOperands(err, args))), s)
  }

  /** A `Wrap` handler formats with the incoming error in front of the fixed
      arguments, leaves the handler state alone, and never resolves a chain:
      the chain goes on to the next handler with the wrapped error. */
  lemma WrapNeverResolves<S(!new)>(format: string, args: seq<Arg>, e: Error, rest: seq<Handler<S>>, s: S)
    ensures Wrap(format, args)(e, s) == (Some(Formatted(format, WrapOperands(e, args))), s)
    ensures EvalChain(e, [Wrap(format, args)] + rest, s)
         == Shift(EvalChain(Formatted(format, WrapOperands(e, args)), rest, s), 1)
  {
    assert ([Wrap(format, args)] + rest)[1..] == rest;
  }

  /** A chain made of one `Wrap` handler ends with the wrapped error. */
  lemma WrapAloneLeavesWrappedError<S(!new)>(format: string, args: seq<Arg>, e: Error, s: S)
    ensures EvalChain(e, [Wrap(format, args)], s)
         == ChainResult(Some(Formatted(format, WrapOperands(e, args))), s, 1)
    ensures WrapOperands(e, []) == [ErrArg(e)]
  {
    assert [ErrArg(e)] + [] == [ErrArg(e)];
    WrapNeverResolves(format, args, e, [], s);
    assert [Wrap<S>(format, args)] + [] == [Wrap(format, args)];
  }

  /** A literal text without `%`, as the prefix of a `"p%w"` format. */
  predicate PlainText(p: string) {
    forall i :: 0 <= i < |p| ==> p[i] != '%'
  }

  lemma {:induction false} SprintPlainPrefix(p: string, rest: string, ops: seq<Operand>)
    requires PlainText(p)
    ensures Sprint(p + rest, ops) == Prepend(p, Sprint(rest, ops))
    decreases |p|
  {
    if p == [] {
      assert p + rest == rest;
      match Sprint(rest, ops)
      case None =>
      case Some(t) => assert p + t == t;
    } else {
      assert (p + rest)[0] == p[0];
      assert (p + rest)[1..] == p[1..] + rest;
      SprintPlainPrefix(p[1..], rest, ops);
      match Sprint(rest, ops)
      case None =>
      case Some(t) => assert [p[0]] + (p[1..] + t) == p + t;
    }
  }

  lemma {:induction false} WrappedPlainPrefix(p: string, rest: string, args: seq<Arg>)
    requires PlainText(p)
    ensures WrappedErrors(p + rest, args) == WrappedErrors(rest, args)
    decreases |p|
  {
    if p == [] {
      assert p + rest == rest;
    } else {
      assert (p + rest)[0] == p[0];
      assert (p + rest)[1..] == p[1..] + rest;
      WrappedPlainPrefix(p[1..], rest, args);
    }
  }

  /** The form used throughout the example, `Wrap("p%w")`: the wrapped error's
      message is the prefix followed by the incoming message, and it unwraps to
      exactly the incoming error, so `errors.Is` still finds it. */
  lemma PrefixWrap<S(!new)>(p: string, e: Error, s: S)
    requires PlainText(p)
    ensures Wrap(p + "%w", [])(e, s) == (Some(Formatted(p + "%w", [ErrArg(e)])), s)
    ensures var w := Formatted(p + "%w", [ErrArg(e)]);
      && Message(w) == Prepend(p, Message(e))
      && Causes(w) == [e]
      && Is(w, e)
  {
    var w := Formatted(p + "%w", [ErrArg(e)]);
    assert [ErrArg(e)] + [] == [ErrArg(e)];
    WrappedPlainPrefix(p, "%w", [ErrArg(e)]);
    assert [ErrArg(e)][1..] == [];
    assert e in Causes(w) && Is(e, e);
    match Message(e)
    case None =>
    case Some(m) =>
      MessageOfFormatted(p + "%w", [ErrArg(e)], [OpError(m)]);
      SprintPlainPrefix(p, "%w", [OpError(m)]);
      assert "%w"[2..] == "";
      assert [OpError(m)][1..] == [];
      assert m + "" == m;
      assert Sprint("%w", [OpError(m)]) == Some(m);
  }

  /** `Sprintf("%s: %w", err, "a")`: the error fills `%s`, and `%w` gets a string. */
  lemma SprintErrorThenString(m: string)
    ensures Sprint("%s: %w", [OpError(m), OpString("a")]) == Some(m + ": %!w(string=a)")
  {
    var a := [OpString("a")];
    var bad := "%!w(string=a)";
    assert Sprint("%w", a) == Some(bad) by {
      assert "%w"[2..] == "" && a[1..] == [];
      assert BadVerb('w', "string", "a") == bad;
      assert bad + "" == bad;
    }
    assert Sprint(" %w", a) == Some(" " + bad) by {
      assert " %w"[1..] == "%w";
    }
    assert Sprint(": %w", a) == Some(": " + bad) by {
      assert ": %w"[1..] == " %w";
      assert [':'] + (" " + bad) == ": " + bad;
    }
    assert "%s: %w"[2..] == ": %w";
    assert [OpError(m), OpString("a")][1..] == a;
    assert m + (": " + bad) == m + ": %!w(string=a)";
  }

  /** The error `fmt.Errorf("%s: %w", err, "a")`: a message with a bad verb, and nothing wrapped. */
  lemma ErrorThenStringFormatted(e: Error, m: string)
    requires Message(e) == Some(m)
    ensures Message(Formatted("%s: %w", [ErrArg(e), StrArg("a")])) == Some(m + ": %!w(string=a)")
    ensures Causes(Formatted("%s: %w", [ErrArg(e), StrArg("a")])) == []
  {
    var w := Formatted("%s: %w", [ErrArg(e), StrArg("a")]);
    assert Message(w) == Some(m + ": %!w(string=a)") by {
      MessageOfFormatted("%s: %w", w.args, [OpError(m), OpString("a")]);
      SprintErrorThenString(m);
    }
    assert Causes(w) == [] by {
      assert "%s: %w"[2..] == ": %w" && ": %w"[1..] == " %w" && " %w"[1..] == "%w" && "%w"[2..] == "";
      assert w.args[1..] == [StrArg("a")] && [StrArg("a")][1..] == [];
    }
  }

  /** With the incoming error first, `Wrap("%s: %w", "a")` renders the error
      with `%s` and hands the string `"a"` to `%w`, which fmt reports as a bad
      verb: for an incoming message "length must be in range 3-10" the result
      reads "length must be in range 3-10: %!w(string=a)", never
      "a: length must be in range 3-10", and it wraps nothing. */
  lemma WrapPutsIncomingErrorFirst<S(!new)>(e: Error, m: string, s: S)
    requires Message(e) == Some(m)
    ensures var w := Wrap("%s: %w", [StrArg("a")])(e, s).0.value;
      && Message(w) == Some(m + ": %!w(string=a)")
      && Message(w) != Some("a: " + m)
      && Causes(w) == []
  {
    assert Wrap<S>("%s: %w", [StrArg("a")])(e, s).0.value == Formatted("%s: %w", [ErrArg(e), StrArg("a")]);
    ErrorThenStringFormatted(e, m);
    assert |m + ": %!w(string=a)"| != |"a: " + m|;
  }

  // ----- Collector -----

  /** `Collector`: the non-nil errors collected so far, oldest first. */
  datatype Collector = Collector(errs: seq<Error>) {

    /** `c.Collect(err)`: appends a non-nil error and always returns nil. */
    function Collect(err: Option<Error>): (r: (Option<Error>, Collector))
      ensures r.0 == None
      ensures err == None ==> r.1 == this
      ensures err.Some? ==> r.1.errs == errs + [err.value]
    {
      match err
      case None => (None, this)
      case Some(e) => (None, Collector(errs + [e]))
    }

    /** `c.Err()`: nil when nothing was collected, otherwise one error joining
        every collected error in order. */
    function Err(): (r: Option<Error>)
      ensures r == None <==> errs == []
      ensures r.Some? ==> Causes(r.value) == errs
    {
      if errs == [] then None else Some(Joined(errs))
    }
  }

  /** The zero `Collector`. */
  const EmptyCollector := Collector([])

  /** The method value `c.Collect` used as a handler; the collector is the
      handler state. */
  function CollectHandler(): (h: Handler<Collector>)
    ensures forall e, c :: h(e, c) == (None, Collector(c.errs + [e]))
  {
    (e, c: Collector) => c.Collect(Some(e))
  }

  /** The collector after `Collect` was called with each of `es` in turn. */
  function CollectAll(c: Collector, es: seq<Option<Error>>): Collector
    decreases |es|
  {
    if es == [] then c else CollectAll(c.Collect(es[0]).1, es[1..])
  }

  /** The non-nil errors among `es`, in order. */
  function NonNil(es: seq<Option<Error>>): (r: seq<Error>)
    ensures |r| <= |es|
    decreases |es|
  {
    if es == [] then []
    else (if es[0].Some? then [es[0].value] else []) + NonNil(es[1..])
  }

  /** Collecting a series of errors keeps every non-nil one, in order, after
      those already held; nils leave no trace. */
  lemma {:induction false} CollectAllKeepsNonNil(c: Collector, es: seq<Option<Error>>)
    ensures CollectAll(c, es).errs == c.errs + NonNil(es)
    decreases |es|
  {
    if es == [] {
      assert c.errs + [] == c.errs;
    } else {
      var c' := c.Collect(es[0]).1;
      CollectAllKeepsNonNil(c', es[1..]);
      assert CollectAll(c, es) == CollectAll(c', es[1..]);
      match es[0]
      case None =>
        assert NonNil(es) == NonNil(es[1..]);
      case Some(x) =>
        assert NonNil(es) == [x] + NonNil(es[1..]);
        assert c'.errs == c.errs + [x];
        assert c.errs + [x] + NonNil(es[1..]) == c.errs + ([x] + NonNil(es[1..]));
    }
  }

  /** `Err` after a series of `Collect` calls on a fresh collector is nil
      exactly when every call got nil; otherwise every non-nil error is
      reachable from it with `errors.Is`. */
  lemma ErrReportsEveryCollectedError(es: seq<Option<Error>>)
    ensures var c := CollectAll(EmptyCollector, es);
      && (c.Err() == None <==> forall i :: 0 <= i < |es| ==> es[i] == None)
      && (forall i :: 0 <= i < |es| && es[i].Some? ==> c.Err().Some? && Is(c.Err().value, es[i].value))
  {
    CollectAllKeepsNonNil(EmptyCollector, es);
    var c := CollectAll(EmptyCollector, es);
    assert c.errs == NonNil(es);
    forall i | 0 <= i < |es| && es[i].Some?
      ensures c.Err().Some? && Is(c.Err().value, es[i].value)
    {
      NonNilContains(es, i);
      assert es[i].value in Causes(c.Err().value);
      assert Is(es[i].value, es[i].value);
    }
    if forall i :: 0 <= i < |es| ==> es[i] == None {
      NonNilOfAllNil(es);
    } else {
      var i :| 0 <= i < |es| && es[i] != None;
      NonNilContains(es, i);
    }
  }

  lemma {:induction false} NonNilContains(es: seq<Option<Error>>, i: nat)
    requires i < |es| && es[i].Some?
    ensures es[i].value in NonNil(es)
    decreases i
  {
    if i > 0 {
      NonNilContains(es[1..], i - 1);
    }
  }

  lemma {:induction false} NonNilOfAllNil(es: seq<Option<Error>>)
    requires forall i :: 0 <= i < |es| ==> es[i] == None
    ensures NonNil(es) == []
    decreases |es|
  {
    if es != [] {
      NonNilOfAllNil(es[1..]);
    }
  }

  /** The message of `Err` lists each collected message on its own line, in order. */
  lemma ErrMessageJoinsLines(c: Collector, ms: seq<string>)
    requires |c.errs| == |ms| > 0
    requires forall i :: 0 <= i < |ms| ==> Message(c.errs[i]) == Some(ms[i])
    ensures Message(c.Err().value) == Some(JoinLines(ms))
  {
    MessageOfJoined(c.errs, ms);
  }

  // ----- Collect as a handler -----

  /** `Collect` resolves every chain it is in: it records the error it receives
      and no handler after it is called. */
  lemma CollectResolvesChain(e: Error, rest: seq<Handler<Collector>>, c: Collector)
    ensures EvalChain(e, [CollectHandler()] + rest, c) == ChainResult(None, Collector(c.errs + [e]), 1)
  {
    assert ([CollectHandler()] + rest)[0] == CollectHandler();
  }

  /** So `Must(e)(c.Collect, ...)` never raises, and `Catch(&err, c.Collect, ...)`
      absorbs the signal without writing the target; either way `e` is collected. */
  lemma CollectNeverRaises(e: Error, rest: seq<Handler<Collector>>, c: Collector, target: Target)
    ensures Invoke(Must(Some(e)), [CollectHandler()] + rest, c)
         == Invocation(Continue(()), Collector(c.errs + [e]), 1)
    ensures Catch(Panicking(Signal(MustError(e))), target, [CollectHandler()] + rest, c)
         == Recovery(target, Normal, Collector(c.errs + [e]))
  {
    CollectResolvesChain(e, rest, c);
  }

  /** A body whose every step is `Must(err_i)(c.Collect)` runs to the end and
      leaves the collector holding every non-nil `err_i`, in order. */
  lemma {:induction false} CollectingBodyRunsEveryStep(steps: seq<MustStep<Collector>>, c: Collector)
    requires forall i :: 0 <= i < |steps| ==> steps[i].handlers == [CollectHandler()]
    ensures RunSteps(steps, c)
         == BodyRun(Normal, CollectAll(c, seq(|steps|, i requires 0 <= i < |steps| => steps[i].err)), |steps|)
    decreases |steps|
  {
    var es := seq(|steps|, i requires 0 <= i < |steps| => steps[i].err);
    if steps != [] {
      var c' := c.Collect(steps[0].err).1;
      if steps[0].err.Some? {
        CollectResolvesChain(steps[0].err.value, [], c);
        assert [CollectHandler()] + [] == steps[0].handlers;
      }
      assert Invoke(Must(steps[0].err), steps[0].handlers, c).step == Continue(());
      assert Invoke(Must(steps[0].err), steps[0].handlers, c).state == c';
      CollectingBodyRunsEveryStep(steps[1..], c');
      var es' := seq(|steps[1..]|, i requires 0 <= i < |steps[1..]| => steps[1..][i].err);
      assert es' == es[1..];
    }
  }

  /** `Must(e1)(c.Collect); Must(e2)()`: the first statement collects `e1` and
      returns, so the body goes on, and the second raises `e2` with `e1` already
      in the collector. */
  lemma CollectedThenRaised(e1: Error, e2: Error, c: Collector)
    ensures RunSteps([MustStep(Some(e1), [CollectHandler()]), MustStep(Some(e2), [])], c)
         == BodyRun(Panicking(Signal(MustError(e2))), Collector(c.errs + [e1]), 2)
  {
    var steps := [MustStep(Some(e1), [CollectHandler()]), MustStep(Some(e2), [])];
    CollectNeverRaises(e1, [], c, NoTarget);
    assert [CollectHandler()] + [] == steps[0].handlers;
    assert StateAt(steps, 1, c) == Collector(c.errs + [e1]);
    FirstFailureWins(steps, 1, c);
  }
}
