# funcpy monads in Dafny

A model of the funcpy monad library: the base monad contract with its two
derived operators (`>=` for bind and `>>` for then), the optional-value
family `Maybe` (`Just` / `Nothing`), the state-threading family `State`,
the continuation family `Cont` with `call_cc`, the argument-accumulating
`curry` decorator, and the `StackState` push/pop/top actions the tests run
on `State`. Every part of the library is pure: computations are values
that wrap functions, so the model is datatypes over arrow types, functions
and lemmas.

Modules:

- `Errors`: the two Python exceptions the modelled code can raise
  (`IndexError`, `TypeError`) and a `Result` that carries one.
- `Monad`: `Apply`, the bind and then operators written once against a
  family's `bind`, and the three monad laws as predicates over a family's
  `unit`, `bind`, the computations the laws are claimed for and the
  family's notion of equal computations.
- `Maybe`, `State`, `Cont`: one module per family, each with `Unit`/`Ret`,
  `Bind`, its operators, running, and the laws.
- `Currying`: a curried function as the wrapped function, its arity and the
  arguments gathered so far; one call is `Call`, a sequence of calls is
  `Feed`.
- `StackState`: `Push`, `Pop` and `Top` as `State` actions on a stack kept
  as a sequence whose last element is the top.
- `Scenarios`: the concrete runs of the test suite, including the
  commented-out ones for `Cont` and `curry`. Scenarios written with the
  do-notation are written as the bind chains they stand for.

Functions cannot be compared for equality, so the `State` laws say two
computations give the same outcome on every state, and the `Cont` laws say
two computations give the same result with every continuation. Dafny does
not identify two function values that agree at every argument, so the
`Cont` laws that rebuild a continuation (right identity and associativity)
are proved for computations whose result depends only on what the
continuation returns (`Cont.Extensional`). `Ret`, escapes and binds of
such computations are of that kind. So is `CallCC` of a body that meets
two conditions: it builds such a computation whenever its escapes are of
that kind, and it gives the same result for two escapes that give the same
results. Bodies that run their escape can meet both, as the escaping block
of the tests does.

`monad/cont.py` is an older snapshot of the family: it calls the hooks
`_check_callable` and `_check_type` and defines `bind_implementation` and
`ret`, while the base class at `monad/__init__.py:23-37` has no such hooks
and asks for `bind` and `unit`. As written the class cannot be
instantiated. The model gives its intended meaning: `bind_implementation`
is the family's bind, `ret` its unit, and the hooks are dropped.

In the State scenario of `tests.py:190-200` the stack holds the strings
"1", "2", "3", yet the assertions compare with the integer 3 and the tuple
`(1, 2, "a", "b")`. The model follows the code: the run yields `"3"` and
the stack `["1", "2", "a", "b"]`. The second State scenario
(`tests.py:221-235`) starts from the integers 1, 2, 3 and pushes strings;
it runs on a stack of `Scenarios.Item`, a sum of integers and strings,
since a Dafny sequence has one element type.

## Model

| member | source | states |
|---|---|---|
| Monad.BindOp | monad/__init__.py:33-34 | `m >= f` is the computation `bind(m, f)` of the family whose `bind` is given |
| Monad.ThenOp | monad/__init__.py:36-37 | `m >> n` is `bind(m, _ -> n)`: the payload of `m` is discarded |
| Maybe.LeftIdentity | monad/maybe.py:27-28 | `unit(x).bind(f)` is `f(x)` |
| Maybe.NothingShortCircuits | monad/maybe.py:40-41 | binding `Nothing` gives `Nothing` whatever the function |
| Maybe.ThenDiscards | monad/__init__.py:36-37 | `m >> n`, which binds `m` to `_ -> n`, is `n` when `m` is `Just` (monad/maybe.py:27-28) and `Nothing` when `m` is `Nothing` (monad/maybe.py:40-41), for every `n` |
| Maybe.RightIdentity | monad/maybe.py:17-19 | `m.bind(unit)` is `m` for both variants |
| Maybe.Associativity | monad/maybe.py:27-28 | `m.bind(f).bind(g)` equals `m.bind(x -> f(x).bind(g))` |
| Maybe.IsMonad | monad/maybe.py:16-41 | `unit` and `bind` satisfy the three monad laws, equality being value equality |
| Maybe.FromMonadUnchanged | monad/maybe.py:49-53 | the coercion returns either variant unchanged |
| Maybe.ValueFromMonadTotal | monad/maybe.py:57-66 | extraction never fails: the payload for `Just`, the default otherwise |
| Maybe.ChainFromNothing | monad/maybe.py:40-41 | a chain of binds started from `Nothing` is `Nothing` |
| Maybe.ChainShortCircuits | tests.py:95-102 | once a prefix of a chain gives `Nothing`, the whole chain is `Nothing` |
| Maybe.ChainNestedAgree | tests.py:63-81 | the left-nested and the right-nested chain over the same steps agree |
| State.RunUnit | monad/state.py:33-35 | running `unit(v)` on `s` gives `(v, s)` |
| State.RunBind | monad/state.py:25-31 | running `m.bind(f)` on `s` runs `f(x)` on `s1` where `m` gave `(x, s1)`; an exception from `m` is the result |
| State.LeftIdentity | monad/state.py:25-35 | `unit(x).bind(f)` and `f(x)` agree on every state |
| State.RightIdentity | monad/state.py:25-35 | `m.bind(unit)` and `m` agree on every state |
| State.Associativity | monad/state.py:25-31 | `m.bind(f).bind(g)` and `m.bind(x -> f(x).bind(g))` agree on every state |
| State.IsMonad | monad/state.py:25-35 | the three monad laws hold for every computation, up to agreement on every state |
| State.RunThen | monad/state.py:25-31 | running `m >> n` on `s` runs `n` on the state `m` left, or raises what `m` raised |
| Cont.RunRet | monad/cont.py:23-25 | `ret(v)` run with `k` is `k(v)` |
| Cont.RunBind | monad/cont.py:14-17 | `m.bind(f)` run with `c` is `m` run with `val -> f(val)(c)` |
| Cont.ResumeAt | monad/cont.py:16 | the continuation built by `bind`, given `val`, runs `f(val)` with `c` |
| Cont.RunThen | monad/cont.py:14-17 | `m >> n` run with `c` is `m` run with a continuation that ignores its value and runs `n` with `c` |
| Cont.LeftIdentity | monad/cont.py:14-25 | `ret(x).bind(f)` and `f(x)` agree with every continuation |
| Cont.RetExtensional | monad/cont.py:23-25 | `ret(v)` depends only on what its continuation returns |
| Cont.EscapeExtensional | monad/cont.py:32 | an escape does not depend on its continuation at all |
| Cont.BindExtensional | monad/cont.py:14-17 | binding keeps computations that depend only on continuation results |
| Cont.CallCCExtensional | monad/cont.py:31-32 | `call_cc(f)` depends only on continuation results when `f` builds such a computation from escapes that are such, and treats escapes with equal results alike |
| Cont.RightIdentity | monad/cont.py:14-25 | `m.bind(ret)` and `m` agree with every continuation |
| Cont.Associativity | monad/cont.py:14-17 | `m.bind(f).bind(g)` and `m.bind(x -> f(x).bind(g))` agree with every continuation |
| Cont.IsMonad | monad/cont.py:14-25 | the three monad laws hold, right identity and associativity for every extensional computation |
| Cont.RunCallCC | monad/cont.py:31-32 | `call_cc(f)` run with `h` is `f(esc)` run with `h`, where `esc(a)` delivers `a` to `h` |
| Cont.EscapeDiscards | monad/cont.py:32 | `esc(a).bind(g)` run with any continuation is `h(a)`: what follows the escape is discarded |
| Cont.CallCCUnused | monad/cont.py:31-32 | `call_cc(_ -> m)` run with `h` is `m` run with `h` |
| Cont.ChainAfterEscape | monad/cont.py:14-17 | a computation with a fixed result keeps it however many binds follow |
| Cont.EscapeChainDiscards | monad/cont.py:32 | after an escape to `h` with `a`, every chain of binds gives `h(a)` |
| Currying.FeedBelowArity | currying.py:8-12 | while the running total stays below the arity the function is never invoked, and the partial application holds every argument, in order |
| Currying.FeedFirstSaturating | currying.py:8-12 | the function runs once, at the first call whose running total reaches the arity, on every argument gathered so far, excess included |
| Currying.GroupingIrrelevant | currying.py:8-12 | feeding argument groups one call at a time equals one call with their concatenation, when only the last call saturates |
| Currying.PartialReusable | currying.py:9-12 | a partial application is unchanged by calls: each call sees only what was gathered before it plus its own arguments |
| Currying.CurriedPositional | currying.py:8-12 | a curried function of `n` parameters runs on exactly `n` arguments over any grouping in which only the last call saturates, and with more the wrapped function's `TypeError` comes back |
| StackState.RunPush | tests.py:177-178 | `push(v)` yields the unit value and the stack with `v` on top |
| StackState.RunPop | tests.py:181-182 | `pop` succeeds exactly on a non-empty stack, gives its top and the rest; on an empty one it raises `IndexError` |
| StackState.RunTop | tests.py:185-186 | `top` yields what `pop` would and leaves the stack unchanged; on an empty stack it raises `IndexError` |
| StackState.PushThenPop | tests.py:177-182 | push then pop gives back the pushed value and the original stack |
| StackState.PopThenPush | tests.py:177-182 | pop then pushing the popped value restores a non-empty stack |
| Scenarios.MaybeLeftNested | tests.py:63-71 | the left-nested chain from `Just(5)` extracts to 288 |
| Scenarios.MaybeRightNested | tests.py:73-81 | the right-nested chain extracts to `(288, 5, 8)` |
| Scenarios.MaybeOperatorChain | tests.py:83-88 | the chain written with `>=` extracts to 288 |
| Scenarios.MaybeThenDiscards | tests.py:90-93 | `Just(5) >> Just(11) >= (b -> unit(b * 11))` extracts to 121 |
| Scenarios.MaybeNothingStep | tests.py:95-102 | a chain with a step giving `Nothing` is `Nothing` |
| Scenarios.MaybeDoBlock | tests.py:126-133 | the Maybe do-block from `()` gives `Just((1, 3, 5, 1))` |
| Scenarios.MaybeDoBlockNothing | tests.py:135-142 | with `Nothing` as its second step the do-block gives `Nothing` |
| Scenarios.StackSequence | tests.py:190-200 | pop, push "a", push "b", return on `["1", "2", "3"]` gives `"3"` and `["1", "2", "a", "b"]` |
| Scenarios.StackSequenceEmpty | tests.py:193-198 | the same sequence raises `IndexError` on an empty stack |
| Scenarios.StackPushesAndPops | tests.py:221-235 | the pushes and pops of the State do-block, run on the integers 1, 2, 3, give `("c", "b")` and `(1, 2, "a", "foo", "b")` |
| Scenarios.ContMultiShot | tests.py:240-246 | the continuation called twice yields `[1, 2, 7, 1, 2, 80, 2, 7, 80, 2]` |
| Scenarios.ContDoBlock | tests.py:248-256 | the Cont do-block with `d` run with the identity gives `[1, 2, d, 1, 2]` (77 in the test) |
| Scenarios.SubSequenceCallCCExtensional | tests.py:268-280 | the `call_cc` of the test's block, escaping or not, depends only on continuation results |
| Scenarios.CallCCEscapes | tests.py:268-279 | escaping with 100 and adding 12 gives 112 |
| Scenarios.CallCCRunsThrough | tests.py:268-280 | without the escape the result is 11 + 200 + 12 = 223 |
| Scenarios.Sum5AnyGrouping | tests.py:20-27 | `sum5` gives 17 for every grouping of 5, 3, 1, 1, 7 in which only the last call saturates |
| Scenarios.Sum5Groupings | tests.py:24-27 | the four groupings of the test each give 17 |
| Scenarios.SmallArities | tests.py:43-53 | a function of no parameters runs on the first call, one of one parameter on its first argument |
| Scenarios.ExcessArguments | tests.py:55-59 | three arguments to a curried function of two raise `TypeError` |

## Left out

- The do-notation driver (monad/__init__.py:41-72) is commented out in the source and relies on Python generators. The do-block tests with a fixed result (tests.py:126-142, 221-235, 248-256, 268-280) are modelled as the right-nested bind chains the driver builds; the tests of the driver's own failures (a generator run twice by a multi-shot continuation, tests.py:258-266; wrong yield types, tests.py:144-162) are not.
- `from_monad` raising `TypeError` for a computation of another family (monad/maybe.py:54, monad/state.py:44): Dafny's typing rules this out, so the coercions are identities.
- The `_check_callable` and `_check_type` hooks `Cont` calls (monad/cont.py:11, 16) exist in no base class; they are dropped, as described above.
- The default constructor of `Cont`, whose function calls the continuation with no argument; it is ill-typed against every other use.
- The `constructors()` hook of `Cont`, plumbing of an older base class.
- `curry`'s reflection: the arity, read from the signature in the source, is a parameter; `functools.wraps` name and attribute copying is not modelled. `Currying.Curry` is a plain constructor with no contract of its own; what currying promises is stated by `Currying.FeedBelowArity`, `Currying.FeedFirstSaturating`, `Currying.GroupingIrrelevant` and `Currying.CurriedPositional`.
- The tests that only assert static type errors, and the unittest runner.
- Exceptions other than `IndexError` from popping an empty stack and `TypeError` from a wrong argument count; a step function that raises anything else is outside the model.
- `Maybe.Value`'s default is a required argument; Python's default `None` is not a value of every payload type.
- `Monad.Apply` has no contract of its own: it is plain application, and what applying `bind` through it gives is the contract of `Monad.BindOp` and `Monad.ThenOp`.
- Cont.RightIdentity: stated only for computations satisfying `Cont.Extensional`, because Dafny does not identify function values that agree everywhere.
- Cont.Associativity: stated only for `Cont.Extensional` computations, for the same reason.
- Cont.RunThen: stated only for `Cont.Extensional` computations, for the same reason.
- Cont.IsMonad: claims right identity and associativity for `Cont.Extensional` computations only.
- Currying.GroupingIrrelevant: requires that no call but the last saturates; after a saturating call, the source passes later groups to the function's result, which is outside the model.
