# xerrors in Dafny

A model of the `xerrors` package and its example package `exmaples/parse`.
`xerrors` emulates an early-return-with-transform operator in Go: a function
registers `defer xerrors.Catch(&err, handlers...)`, runs fallible steps as
`xerrors.Must(f())(handlers...)` or `v := xerrors.Must2(g())(handlers...)`, and
the first step whose error survives its handler chain panics with an internal
`mustError`. The deferred `Catch` recovers that panic, runs its own handler
chain, and writes the final error into the function's error result. Panics
that are not a `mustError` pass through untouched.

The model replaces Go's `panic`/`recover` with explicit data:

- `Errors` (errors.dfy): Go error values. `Option<Error>` is Go's `error`, with
  `None` as nil. It covers `errors.New`, a subset of `fmt.Errorf` (literal
  text, `%%`, and the verbs `%s %v %w %d` taking operands left to right) and
  `errors.Join`. It also gives `Error()` (`Message`), the unwrap relation
  (`Causes`) and `errors.Is` (`Is`). A handler `func(error) error` is a
  function `(Error, S) -> (Option<Error>, S)`. The state `S` carries a
  handler's side effects, such as a `Collector`'s list.
- `MustCatch` (must.dfy): xerrors/must.go.
  - `EvalChain` is the handler loop as a fold.
  - `RunHandlers` is the same loop as the `for ... range` of xerrors/must.go.
  - `Must`/`Must2` build a `Raiser`. `Invoke` runs it with a chain and returns
    `Continue(v)` or `Raise(Signal(mustError))`.
  - `Catch` maps the observed `Exit` (`Normal` or `Panicking(value)`) to the
    target's new contents and the exit that continues.
  - `RunSteps` is a function body of sequential `Must` statements, folded
    until the first raise.
  - `Guarded` is the end of a function with named results that defers
    `Catch(&_err, ...)`.
- `Handlers` (handlers.dfy): xerrors/handlers.go. It covers `Wrap` and
  `Collector` with `Collect` and `Err`.
- `Parse` (parse.dfy): `ParseA`, `ParseB`, the accessors, and `ParseAB` built
  from `Must2`, `Wrap` and `Catch`.
- `MustScenarios` (scenarios.dfy): the "fail at 3" body of xerrors/must_test.go.

Two behaviours of the code are easy to misread; the model follows the code:

- With a nil target and an unresolved chain, `Catch` re-panics with the bare
  final error (xerrors/must.go:31-32), as its doc comment says
  (xerrors/must.go:15). It does not raise a new `mustError`, so one might
  expect an enclosing `Catch` to recover it, but that `Catch` sees a foreign
  panic and passes it on (xerrors/must.go:35-36). See
  `MustCatch.UntargetedCatchEscapesEnclosingCatch`.
- `Wrap` puts the incoming error first in the format arguments
  (xerrors/handlers.go:13-15), as its doc comment documents
  (xerrors/handlers.go:8-10). The tests in xerrors/handlers_test.go:19-20,
  with their expectations at lines 25 and 42, assume it comes last.
  `Handlers.WrapPutsIncomingErrorFirst` shows what the code produces for
  `Wrap("%s: %w", "a")`.

## Model

| member | source | states |
|---|---|---|
| MustCatch.EvalChain | xerrors/must.go:54-59 | A chain calls at most all its handlers. It stops early only when a handler returned nil. A non-empty chain calls at least one handler. An empty chain leaves the error and state unchanged. |
| MustCatch.RunHandlers | xerrors/must.go:82-87 | The `for ... range` loop of xerrors/must.go, which breaks at the first nil, computes exactly the fold `EvalChain`: the same final error, state and number of calls. |
| MustCatch.ChainConcat | xerrors/must.go:54-59 | Running `hs1 + hs2` runs `hs1` first. `hs2` starts from `hs1`'s leftover error and state only if `hs1` left an error. |
| MustCatch.ChainIgnoresLaterHandlers | xerrors/must.go:25-30 | Once a chain resolves to nil, appending handlers after it changes nothing, so later handlers are never called. |
| MustCatch.Must | xerrors/must.go:49-53 | `Must(nil)` gives the no-op closure. `Must(e)` gives a closure armed with exactly `e`. |
| MustCatch.Must2 | xerrors/must.go:75-81 | `Must2(v, err)` keeps `v`. It is a no-op closure exactly when `err` is nil, and otherwise it is armed with `err`. |
| MustCatch.Invoke | xerrors/must.go:53-63 | A nil-error closure returns its value with no handler call and no state change. An armed closure raises exactly when its chain leaves an error, and only ever raises a `mustError` wrapping that error. Otherwise it returns its value unchanged. |
| MustCatch.MustWithoutHandlersRaisesOriginal | xerrors/must.go:40-45 | `Must(e)()` with no handlers raises a `mustError` whose `Unwrap` is exactly `e`. |
| MustCatch.NilErrorNeverRaises | xerrors/must.go:50-52 | `Must(nil)` and `Must2(v, nil)` ignore any handlers they are given, never raise, and `Must2` hands back `v`. |
| MustCatch.Catch | xerrors/must.go:19-38 | With no panic, `Catch` changes nothing. Any panic that is not a `mustError` continues unchanged and the target is left alone. On a `mustError` it runs its chain on the unwrapped error. If the chain resolves, the function exits normally with the target untouched. Otherwise it writes the target when there is one, and re-panics the bare error when there is not. It never lets a `mustError` escape. |
| MustCatch.UntargetedCatchEscapesEnclosingCatch | xerrors/must.go:31-36 | `Catch(nil)` re-panics the bare error. An enclosing `Catch(&err, ...)` then treats it as foreign: it re-panics it unchanged, does not run its handlers, and does not touch its target. |
| MustCatch.RunSteps | xerrors/must.go:60-62 | A body of `Must` statements runs at most all its steps. A normal exit means every step ran. A panic exit is always a `mustError` raised by a step that ran. |
| MustCatch.FirstFailureWins | xerrors/must.go:54-62 | If steps 0..k-1 each return (their error nil, or resolved by their handlers, whose side effects carry over to the next step) and step k raises, then exactly k+1 steps run and the body panics with step k's `mustError`, in the state its handlers left. |
| MustCatch.NoRaiseRunsEverything | xerrors/must.go:54-62 | If no step raises (each error is nil, or its handlers resolve it, with their side effects carried over to the next step), every step runs and the body returns normally, in the state the handlers built up. |
| MustCatch.AllNilRunsEverything | xerrors/must.go:50-52 | A body whose steps all have nil errors runs every step, exits normally, and leaves the state untouched. |
| MustCatch.Guarded | exmaples/parse/example.go:29-35 | A function guarded by `defer Catch(&_err, hs...)` panics only for foreign panics. On a normal exit it returns its result with a nil error. After a `mustError` it returns the zero result and the error left by the `Catch` chain (nil if that chain resolved). |
| MustCatch.GuardedBodyReturnsFirstFailure | xerrors/must_test.go:23-44 | For the same bodies, the guarded function returns the first raising step's error after the `Catch` handlers have also run on it, and no later step runs. |
| MustCatch.MustError.Unwrap | xerrors/must.go:7-9 | `Unwrap` gives back exactly the error the `mustError` was built from. |
| Handlers.Wrap | xerrors/handlers.go:11-17 | The handler `Wrap(format, args...)` maps any error `e` to `fmt.Errorf(format, e, args...)` and leaves the handler state alone. |
| Handlers.WrapOperands | xerrors/handlers.go:13-15 | The operand list handed to `fmt.Errorf` is one longer than the fixed arguments. The incoming error is first and the fixed arguments follow in order. |
| Handlers.WrapNeverResolves | xerrors/handlers.go:11-17 | A `Wrap` handler returns the formatted error and has no side effect. It never returns nil, so the rest of the chain runs on the wrapped error. |
| Handlers.WrapAloneLeavesWrappedError | xerrors/handlers.go:12-16 | A chain made of one `Wrap` handler calls it once and leaves the wrapped error. |
| Handlers.PrefixWrap | xerrors/handlers.go:16 | For `Wrap("p%w")`, where `p` has no `%`, the message is `p` followed by the incoming message. The new error unwraps to exactly the incoming error, and `errors.Is` finds it. |
| Handlers.WrapPutsIncomingErrorFirst | xerrors/handlers.go:8-16 | `Wrap("%s: %w", "a")` on any error with message `m` gives `m + ": %!w(string=a)"`, never `"a: " + m`, and the result wraps nothing. The incoming error fills `%s` and the string goes to `%w`. |
| Handlers.Collector.Collect | xerrors/handlers.go:27-33 | `Collect` always returns nil. A nil error leaves the collector unchanged. A non-nil error is appended after the earlier entries, which keep their order. |
| Handlers.Collector.Err | xerrors/handlers.go:35-38 | `Err` is nil exactly when nothing was collected. Otherwise it is a joined error whose direct causes are the collected errors, in insertion order. |
| Handlers.CollectHandler | xerrors/handlers.go:28-33 | The method value `c.Collect` used as a handler returns nil and appends the error it receives to the collector. |
| Handlers.CollectAllKeepsNonNil | xerrors/handlers.go:28-31 | A series of `Collect` calls appends exactly the non-nil errors, in call order, after the entries already held. |
| Handlers.ErrReportsEveryCollectedError | xerrors/handlers.go:36-38 | After a series of `Collect` calls on a fresh collector, `Err` is nil exactly when every call got nil. `errors.Is` reaches every collected error from it. |
| Handlers.ErrMessageJoinsLines | xerrors/handlers.go:36-38 | The message of `Err` has each collected message on its own line, in insertion order. |
| Handlers.CollectResolvesChain | xerrors/handlers.go:28-33 | `c.Collect` in a chain records the incoming error and resolves the chain. It is the last handler called. |
| Handlers.CollectNeverRaises | xerrors/handlers.go:32 | `Must(e)(c.Collect, ...)` returns normally after collecting `e`. `Catch(target, c.Collect, ...)` absorbs a `mustError` without touching the target. |
| Handlers.CollectedThenRaised | xerrors/handlers.go:28-33 | `Must(e1)(c.Collect); Must(e2)()` runs both statements: the first collects `e1` and returns, and the second raises `e2` with `e1` already collected. |
| Handlers.CollectingBodyRunsEveryStep | xerrors/handlers.go:20-22 | A body whose steps each use `c.Collect` runs every step and exits normally. The collector ends up holding every non-nil step error, in order. |
| Parse.ParseA | exmaples/parse/types.go:15-21 | `ParseA(s)` succeeds exactly when `s` has 3 to 10 bytes, and `String` then reads back `s`. On failure it returns the zero `A` and the error "length must be in range 3-10". |
| Parse.ParseB | exmaples/parse/types.go:31-36 | `ParseB(i)` succeeds exactly when 5 <= i < 100, and `Int` then reads back `i`. On failure it returns the zero `B` and the error "must be in range 5-100". |
| Parse.ParseBBounds | exmaples/parse/types.go:32-34 | `ParseB` accepts 5 and 99 and refuses 4 and 100, even though its message names 100. |
| Parse.ParseABBody | exmaples/parse/example.go:32-35 | When `ParseA` fails, the body raises `a: %w` around `ParseA`'s error. When only `ParseB` fails, it raises `b: %w` around `ParseB`'s error. In both cases the result is the zero `AB`. When both succeed, the body returns `AB{A: ParseA(a), B: ParseB(b)}` normally. |
| Parse.ParseAB | exmaples/parse/example.go:29-36 | `ParseAB` never panics. A failing `ParseA` gives the zero `AB` and the `a:`-wrapped error. If only `ParseB` fails, it gives the zero `AB` (no partially set `A`) and the `b:`-wrapped error. Otherwise it gives `AB{A(a), B(b)}` and nil. |
| Parse.ParseABMessages | exmaples/parse/example.go:33-34 | A failing `ParseAB` reports "a: length must be in range 3-10" or "b: must be in range 5-100". Its error unwraps to the validator's own error. |
| MustScenarios.CheckNumber | xerrors/must_test.go:16-22 | `checkNumber(i)` returns nil exactly for `i < 3`. |
| MustScenarios.CheckSteps | xerrors/must_test.go:26-30 | The body has one `Must(checkNumber(i))()` statement per `i`, in order, each without handlers. |
| MustScenarios.CheckNumberMessage | xerrors/must_test.go:19 | The error of `checkNumber(n)` reads "number n not ok", with `n` in decimal. |
| MustScenarios.FailAtThree | xerrors/must_test.go:23-44 | The five-statement body runs four statements, so `checkNumber` last ran with 3. The guarded function returns the error of `checkNumber(3)`. |
| MustScenarios.FailAtThreeMessage | xerrors/must_test.go:12 | The returned error reads "number 3 not ok". |

## Left out

- Go's `panic`, `recover` and `defer` machinery is replaced by the `Exit` and
  `Step` data and by explicit propagation. The stack unwinding itself is not
  modelled.
- `fmt.Errorf` is modelled only on a subset of formats: literal text, `%%`,
  and `%s %v %w %d` with operands taken in order. Messages for flags, widths,
  explicit argument indexes (as in xerrors/handlers_test.go:20), other verbs
  and surplus operands are `None` ("not interpreted").
- Errors.WrappedErrors stops at the first directive outside that subset (a
  flag, width, explicit argument index such as `%[1]w`, or another verb) and
  reports no wrapped errors from there on, whereas `fmt.Errorf` would still
  wrap a later or indexed `%w` operand. The model's formats never use such
  directives.
- The expectations in xerrors/handlers_test.go:25 and :42 are not modelled
  as properties. They assume `Wrap` puts the incoming error last, which
  contradicts xerrors/handlers.go:13-15.
- `errors.New` values are compared by value, not by pointer identity. Two
  separate `errors.New` calls with the same text are equal here.
- `mustError` is modelled only as a panic payload. Its use as an `error` value
  (its `Error()`, or a handler returning one) is not modelled.
- Calling one `Must`/`Must2` closure more than once is not modelled. Each
  invocation starts from the error captured at construction, while the Go
  closure overwrites that error.
- Concurrent use of a `Collector` is left out. The type is unsynchronized and
  the mechanism is single-goroutine.
- `main` and `logAndExit` in exmaples/parse/example.go:11-22 are left out.
  They are process I/O (`slog`, `os.Exit`).
- The test scaffolding in xerrors/xerros_test.go is left out. It repeats the
  validators of exmaples/parse/types.go.
- Handlers are total functions that always return: a handler that panics or
  never returns, such as `logAndExit` (exmaples/parse/example.go:18-22) or one
  that itself calls `Must`, cannot be expressed.
- `A.String` and `B.Int` have no contracts of their own. What they return is
  stated in the contracts of `Parse.ParseA` and `Parse.ParseB`.
- Go strings are sequences of characters, one per byte, so `len(s)` is `|s|`.
  Go's `int` is unbounded here. The validators only compare it, so no
  wrap-around arises.
