/** The sequential-`Must` scenario of xerrors/must_test.go ("fail at 3"): five
    `Must(checkNumber(i))()` statements under `defer Catch(&_err)`, where
    `checkNumber` refuses every number from 3 on. */
module MustScenarios {
  import opened Errors
  import opened MustCatch
  import opened Handlers

  /** `checkNumber(i)`: nil below 3, otherwise `fmt.Errorf("number %d not ok", i)`. */
  function CheckNumber(i: int): (r: Option<Error>)
    ensures r == None <==> i < 3
  {
    if i >= 3 then Some(Formatted("number %d not ok", [IntArg(i)])) else None
  }

  /** The statements `Must(checkNumber(0))()` ... `Must(checkNumber(n - 1))()`. */
  function CheckSteps(n: nat): (r: seq<MustStep<()>>)
    ensures |r| == n
    ensures forall i :: 0 <= i < n ==> r[i] == MustStep(CheckNumber(i), [])
  {
    seq(n, i requires 0 <= i < n => MustStep(CheckNumber(i), []))
  }

  lemma SprintNotOk()
    ensures Sprint(" not ok", []) == Some(" not ok")
  {
    assert " not ok" == " not ok" + "";
    SprintPlainPrefix(" not ok", "", []);
  }

  lemma SprintNumberVerb(n: int)
    ensures Sprint("%d not ok", [OpInt(n)]) == Some(Decimal(n) + " not ok")
  {
    SprintNotOk();
    assert "%d not ok"[0] == '%' && "%d not ok"[1] == 'd';
    assert "%d not ok"[2..] == " not ok" && [OpInt(n)][1..] == [];
    assert RenderVerb('d', OpInt(n)) == Some(Decimal(n));
  }

  lemma SprintNumberNotOk(n: int)
    ensures Sprint("number %d not ok", [OpInt(n)]) == Some("number " + Decimal(n) + " not ok")
  {
    SprintNumberVerb(n);
    assert "number %d not ok" == "number " + "%d not ok";
    SprintPlainPrefix("number ", "%d not ok", [OpInt(n)]);
    assert "number " + (Decimal(n) + " not ok") == "number " + Decimal(n) + " not ok";
  }

  /** The message of `checkNumber(n)` for a refused `n`. */
  lemma CheckNumberMessage(n: int)
    requires n >= 3
    ensures Message(CheckNumber(n).value) == Some("number " + Decimal(n) + " not ok")
  {
    SprintNumberNotOk(n);
    MessageOfFormatted("number %d not ok", [IntArg(n)], [OpInt(n)]);
  }

  /** Every statement up to `checkNumber(3)` runs, none after it (the test's
      `lastNumber` is 3), and the function returns the error of `checkNumber(3)`. */
  lemma FailAtThree()
    ensures var body := RunSteps(CheckSteps(5), ());
      && body.ran == 4
      && Guarded((), (), body.exit, [], ()).0 == Returned((), CheckNumber(3))
  {
    var steps := CheckSteps(5);
    assert forall i :: 0 <= i < 3 ==> steps[i].err == None;
    FirstFailureWins(steps, 3, ());
  }

  /** That error reads "number 3 not ok", as the test expects. The number is a
      parameter fixed by the precondition so that the decimal rendering is
      reasoned about symbolically rather than as one ground string literal. */
  lemma FailAtThreeMessage(n: int)
    requires n == 3
    ensures Message(CheckNumber(n).value) == Some("number 3 not ok")
  {
    CheckNumberMessage(n);
    assert Decimal(n) == "3";
    assert "number " + "3" + " not ok" == "number 3 not ok";
  }
}
