/** The example package exmaples/parse: two range validators and `ParseAB`,
    which composes them under `defer xerrors.Catch(&_err)`. */
module Parse {
  import opened Errors
  import opened MustCatch
  import opened Handlers

  const LengthMessage := "length must be in range 3-10"
  const RangeMessage := "must be in range 5-100"

  /** `A`: a string of acceptable length. */
  datatype A = A(a: string) {
    /** `A.String` */
    function String(): string { a }
  }

  /** `B`: an integer in range. */
  datatype B = B(b: int) {
    /** `B.Int` */
    function Int(): int { b }
  }

  /** `AB`: the composite `ParseAB` builds. */
  datatype AB = AB(A: A, B: B)

  const ZeroA := A("")
  const ZeroB := B(0)
  const ZeroAB := AB(ZeroA, ZeroB)

  /** `ParseA(s)`: accepts a string of 3 to 10 bytes. */
  function ParseA(s: string): (r: (A, Option<Error>))
    ensures r.1 == None <==> 3 <= |s| <= 10
    ensures r.1 == None ==> r.0.String() == s
    ensures r.1 != None ==> r == (ZeroA, Some(Text(LengthMessage)))
  {
    var l := |s|;
    if l < 3 || l > 10 then (A(""), Some(Text("length must be in range 3-10")))
    else (A(s), None)
  }

  /** `ParseB(i)`: accepts 5 <= i < 100; 100 itself is refused even though the
      message reads "5-100". */
  function ParseB(i: int): (r: (B, Option<Error>))
    ensures r.1 == None <==> 5 <= i < 100
    ensures r.1 == None ==> r.0.Int() == i
    ensures r.1 != None ==> r == (ZeroB, Some(Text(RangeMessage)))
  {
    if i < 5 || i >= 100 then (B(0), Some(Text("must be in range 5-100")))
    else (B(i), None)
  }

  /** The accepted range of `ParseB` is 5 to 99: the upper bound 100 named in
      its message is refused. */
  lemma ParseBBounds()
    ensures ParseB(4).1.Some? && ParseB(5).1 == None
    ensures ParseB(99).1 == None && ParseB(100).1 == Some(Text(RangeMessage))
  {
  }

  /** The body of `ParseAB` up to its deferred `Catch`: the composite literal's
      two `Must2` steps, each wrapping its validator's error with a prefix. The
      second validator runs only when the first step did not raise. */
  function ParseABBody(a: string, b: int): (r: (AB, Exit))
    ensures ParseA(a).1.Some? ==>
      r == (ZeroAB, Panicking(Signal(MustError(Formatted("a: %w", [ErrArg(ParseA(a).1.value)])))))
    ensures ParseA(a).1 == None && ParseB(b).1.Some? ==>
      r == (ZeroAB, Panicking(Signal(MustError(Formatted("b: %w", [ErrArg(ParseB(b).1.value)])))))
    ensures ParseA(a).1 == None && ParseB(b).1 == None ==> r == (AB(A(a), B(b)), Normal)
  {
    var (va, ea) := ParseA(a);
    var (vb, eb) := ParseB(b);
    WrapAloneLeavesWrappedError<()>("a: %w", [], Text(LengthMessage), ());
    WrapAloneLeavesWrappedError<()>("b: %w", [], Text(RangeMessage), ());
    var stepA := Invoke(Must2(va, ea), [Wrap("a: %w", [])], ());
    match stepA.step
    case Raise(p) => (ZeroAB, Panicking(p))
    case Continue(xa) =>
      var stepB := Invoke(Must2(vb, eb), [Wrap("b: %w", [])], ());
      match stepB.step
      case Raise(p) => (ZeroAB, Panicking(p))
      case Continue(xb) => (AB(xa, xb), Normal)
  }

  /** `ParseAB(a, b)`: the first failing validator decides the error, which
      carries that field's prefix; on failure the result is the zero `AB`. */
  function ParseAB(a: string, b: int): (r: Call<AB>)
    ensures r.Returned?
    ensures ParseA(a).1.Some? ==>
      r == Returned(ZeroAB, Some(Formatted("a: %w", [ErrArg(ParseA(a).1.value)])))
    ensures ParseA(a).1 == None && ParseB(b).1.Some? ==>
      r == Returned(ZeroAB, Some(Formatted("b: %w", [ErrArg(ParseB(b).1.value)])))
    ensures ParseA(a).1 == None && ParseB(b).1 == None ==>
      r == Returned(AB(A(a), B(b)), None)
  {
    var body := ParseABBody(a, b);
    Guarded(body.0, ZeroAB, body.1, [], ()).0
  }

  /** The messages `ParseAB` reports, and the cause it keeps: a failing
      `ParseAB` error unwraps to the validator's own error. For `("", 5)` the
      message is "a: length must be in range 3-10"; for `("good", 101)` it is
      "b: must be in range 5-100". */
  lemma ParseABMessages(a: string, b: int)
    ensures ParseA(a).1.Some? ==>
      && ParseAB(a, b).err.Some?
      && Message(ParseAB(a, b).err.value) == Some("a: " + LengthMessage)
      && Is(ParseAB(a, b).err.value, Text(LengthMessage))
    ensures ParseA(a).1 == None && ParseB(b).1.Some? ==>
      && ParseAB(a, b).err.Some?
      && Message(ParseAB(a, b).err.value) == Some("b: " + RangeMessage)
      && Is(ParseAB(a, b).err.value, Text(RangeMessage))
  {
    if ParseA(a).1.Some? {
      PrefixWrap<()>("a: ", Text(LengthMessage), ());
      assert "a: " + "%w" == "a: %w";
    } else if ParseB(b).1.Some? {
      PrefixWrap<()>("b: ", Text(RangeMessage), ());
      assert "b: " + "%w" == "b: %w";
    }
  }
}
