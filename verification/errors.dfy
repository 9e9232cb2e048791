/** Go error values as the xerrors package sees them.

    A Go `error` is an interface that may be nil; here `Option<Error>` stands for
    it, with `None` as nil, so an `Error` is always a non-nil error. Only the
    three constructors the package and its example use are modelled:
    `errors.New`, `fmt.Errorf` and `errors.Join`. Go strings are modelled as
    `string` with one character per byte, so `|s|` is Go's `len(s)`.
 */
module Errors {

  datatype Option<+T> = None | Some(value: T)

  /** An operand passed to `fmt.Errorf`. */
  datatype Arg = ErrArg(err: Error) | StrArg(str: string) | IntArg(num: int)

  datatype Error =
    /** `errors.New(msg)` */
    | Text(msg: string)
    /** `fmt.Errorf(format, args...)` */
    | Formatted(format: string, args: seq<Arg>)
    /** `errors.Join(errs...)` after nil operands are dropped; never empty */
    | Joined(errs: seq<Error>)

  /** A handler `func(error) error`. Handlers may have side effects (a
      Collector appends to its list), so the state they act on is threaded
      through explicitly as `S`. Returning `None` means "resolved". */
  type Handler<!S> = (Error, S) -> (Option<Error>, S)

  // ----- Decimal rendering, for the %d verb -----

  function DigitChar(d: nat): char
    requires d < 10
  {
    "0123456789"[d]
  }

  function Digits(n: nat): (r: string)
    ensures |r| >= 1
    ensures forall i :: 0 <= i < |r| ==> '0' <= r[i] <= '9'
  {
    if n < 10 then [DigitChar(n)] else Digits(n / 10) + [DigitChar(n % 10)]
  }

  /** Go's `%d` rendering of an integer. */
  function Decimal(n: int): string
  {
    if n < 0 then "-" + Digits(-n) else Digits(n)
  }

  // ----- A subset of fmt's formatting -----

  /** An operand after its error (if any) has been rendered to a message. */
  datatype Operand = OpError(text: string) | OpString(str: string) | OpInt(num: int)

  /** The verbs this model interprets. */
  predicate IsVerb(c: char) {
    c == 's' || c == 'v' || c == 'w' || c == 'd'
  }

  /** fmt's "bad verb" rendering, `%!w(string=a)`. */
  function BadVerb(verb: char, typeName: string, value: string): string {
    "%!" + [verb] + "(" + typeName + "=" + value + ")"
  }

  /** How one verb renders one operand; `None` when this model does not
      interpret the combination. */
  function RenderVerb(verb: char, op: Operand): Option<string>
    requires IsVerb(verb)
  {
    match op
    case OpError(t) => if verb == 'd' then None else Some(t)
    case OpString(s) =>
      if verb == 's' || verb == 'v' then Some(s) else Some(BadVerb(verb, "string", s))
    case OpInt(n) =>
      if verb == 'd' || verb == 'v' then Some(Decimal(n))
      else Some(BadVerb(verb, "int", Decimal(n)))
  }

  function Prepend(p: string, rest: Option<string>): Option<string> {
    match rest
    case None => None
    case Some(t) => Some(p + t)
  }

  /** `fmt.Sprintf` restricted to literal text, `%%`, and the verbs `s`, `v`,
      `w`, `d` consuming operands left to right. A verb with no operand left
      renders as `%!w(MISSING)`. Flags, widths, explicit argument indexes,
      other verbs and surplus operands are outside the model (`None`). */
  function Sprint(f: string, ops: seq<Operand>): Option<string>
    decreases |f|
  {
    if f == [] then (if ops == [] then Some("") else None)
    else if f[0] != '%' then Prepend([f[0]], Sprint(f[1..], ops))
    else if |f| == 1 then None
    else if f[1] == '%' then Prepend("%", Sprint(f[2..], ops))
    else if !IsVerb(f[1]) then None
    else if ops == [] then Prepend("%!" + [f[1]] + "(MISSING)", Sprint(f[2..], ops))
    else match RenderVerb(f[1], ops[0])
      case None => None
      case Some(t) => Prepend(t, Sprint(f[2..], ops[1..]))
  }

  /** The operands `fmt.Errorf` records as wrapped: those consumed by a `%w`
      verb that are errors, in order. */
  function WrappedErrors(f: string, args: seq<Arg>): (r: seq<Error>)
    ensures forall c :: c in r ==> ErrArg(c) in args
    decreases |f|
  {
    if f == [] then []
    else if f[0] != '%' then WrappedErrors(f[1..], args)
    else if |f| == 1 then []
    else if f[1] == '%' then WrappedErrors(f[2..], args)
    else if !IsVerb(f[1]) then []
    else if args == [] then WrappedErrors(f[2..], args)
    else (if f[1] == 'w' && args[0].ErrArg? then [args[0].err] else [])
         + WrappedErrors(f[2..], args[1..])
  }

  /** The joined message of `errors.Join`: one line per error. */
  function JoinLines(ms: seq<string>): string
  {
    if ms == [] then ""
    else if |ms| == 1 then ms[0]
    else ms[0] + "\n" + JoinLines(ms[1..])
  }

  // ----- Error() -----

  /** `e.Error()`; `None` when `e` contains a format this model does not interpret. */
  function Message(e: Error): Option<string>
    decreases e
  {
    match e
    case Text(m) => Some(m)
    case Formatted(f, args) =>
      var ops := seq(|args|, i requires 0 <= i < |args| =>
        match args[i]
        case ErrArg(x) => (match Message(x) case None => None case Some(t) => Some(OpError(t)))
        case StrArg(s) => Some(OpString(s))
        case IntArg(n) => Some(OpInt(n)));
      (match AllSome(ops)
       case None => None
       case Some(operands) => Sprint(f, operands))
    case Joined(errs) =>
      var ms := seq(|errs|, i requires 0 <= i < |errs| => Message(errs[i]));
      (match AllSome(ms)
       case None => None
       case Some(lines) => Some(JoinLines(lines)))
  }

  /** The values of `xs` when none is `None`. */
  function AllSome<T>(xs: seq<Option<T>>): (r: Option<seq<T>>)
    ensures r.Some? ==> |r.value| == |xs|
  {
    if xs == [] then Some([])
    else
      match xs[0]
      case None => None
      case Some(x) =>
        match AllSome(xs[1..])
        case None => None
        case Some(rest) => Some([x] + rest)
  }

  lemma {:induction false} AllSomeOfSomes<T>(xs: seq<Option<T>>, ys: seq<T>)
    requires |xs| == |ys|
    requires forall i :: 0 <= i < |xs| ==> xs[i] == Some(ys[i])
    ensures AllSome(xs) == Some(ys)
    decreases |xs|
  {
    if xs != [] {
      AllSomeOfSomes(xs[1..], ys[1..]);
      assert [ys[0]] + ys[1..] == ys;
    }
  }

  /** How `Message` renders one operand. */
  predicate RendersAs(a: Arg, op: Operand) {
    match a
    case ErrArg(x) => op.OpError? && Message(x) == Some(op.text)
    case StrArg(s) => op == OpString(s)
    case IntArg(n) => op == OpInt(n)
  }

  /** The message of a formatted error whose operands all render. */
  lemma MessageOfFormatted(f: string, args: seq<Arg>, ops: seq<Operand>)
    requires |ops| == |args|
    requires forall i :: 0 <= i < |args| ==> RendersAs(args[i], ops[i])
    ensures Message(Formatted(f, args)) == Sprint(f, ops)
  {
    var xs := seq(|args|, i requires 0 <= i < |args| =>
        match args[i]
        case ErrArg(x) => (match Message(x) case None => None case Some(t) => Some(OpError(t)))
        case StrArg(s) => Some(OpString(s))
        case IntArg(n) => Some(OpInt(n)));
    AllSomeOfSomes(xs, ops);
  }

  /** The message of a joined error whose parts all render: one line each. */
  lemma MessageOfJoined(errs: seq<Error>, ms: seq<string>)
    requires |ms| == |errs|
    requires forall i :: 0 <= i < |errs| ==> Message(errs[i]) == Some(ms[i])
    ensures Message(Joined(errs)) == Some(JoinLines(ms))
  {
    var xs := seq(|errs|, i requires 0 <= i < |errs| => Message(errs[i]));
    AllSomeOfSomes(xs, ms);
  }

  // ----- Unwrap and errors.Is -----

  /** The errors `e` unwraps to directly: `Unwrap() error` or `Unwrap() []error`. */
  function Causes(e: Error): (r: seq<Error>)
    ensures forall c :: c in r ==> c < e
  {
    match e
    case Text(_) => []
    case Formatted(f, args) => WrappedErrors(f, args)
    case Joined(errs) => errs
  }

  /** `errors.Is(e, target)`, with errors compared by value. */
  predicate Is(e: Error, target: Error)
    decreases e
  {
    e == target || exists c :: c in Causes(e) && Is(c, target)
  }
}
