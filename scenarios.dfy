/** The concrete scenarios of the library's tests, as lemmas about the model.
    The do-blocks of the commented-out tests are written as the explicit
    bind chains they stand for. */
module Scenarios {
  import opened Errors
  import Maybe
  import State
  import Cont
  import Currying
  import StackState

  // Maybe

  /** Three left-nested binds from `Just(5)`: 5 + 3, times 11, plus 200. */
  lemma MaybeLeftNested(default: int)
    ensures var m := Maybe.Just(5);
            var res := Maybe.Bind(Maybe.Bind(Maybe.Bind(m, (a: int) => Maybe.Unit(a + 3)),
                                              (b: int) => Maybe.Unit(b * 11)),
                                  (c: int) => Maybe.Unit(c + 200));
            Maybe.ValueFromMonad(res, default) == 288
  {
  }

  /** The right-nested form of the same chain, whose innermost step still
      sees the earlier payloads. */
  lemma MaybeRightNested(default: (int, int, int))
    ensures var m := Maybe.Just(5);
            var res := Maybe.Bind(m, (a: int) =>
                         Maybe.Bind(Maybe.Unit(a + 3), (b: int) =>
                           Maybe.Bind(Maybe.Unit(b * 11), (c: int) => Maybe.Unit((c + 200, a, b)))));
            Maybe.ValueFromMonad(res, default) == (288, 5, 8)
  {
  }

  /** The same chain written with the bind operator `>=`. */
  lemma MaybeOperatorChain(default: int)
    ensures var m := Maybe.Just(5);
            var res := Maybe.BindOp(Maybe.BindOp(Maybe.BindOp(m, (a: int) => Maybe.Unit(a + 3)),
                                                 (b: int) => Maybe.Unit(b * 11)),
                                    (c: int) => Maybe.Unit(c + 200));
            Maybe.ValueFromMonad(res, default) == 288
  {
  }

  /** `Just(5) >> Just(11) >= (b -> unit(b * 11))`: the 5 is discarded. */
  lemma MaybeThenDiscards(default: int)
    ensures var m := Maybe.Just(5);
            var res := Maybe.BindOp(Maybe.ThenOp(m, Maybe.Just(11)), (b: int) => Maybe.Unit(b * 11));
            Maybe.ValueFromMonad(res, default) == 121
  {
  }

  /** A step that yields `Nothing` makes the whole chain `Nothing`. */
  lemma MaybeNothingStep(default: int)
    ensures var m := Maybe.Just(5);
            var res := Maybe.Bind(Maybe.Bind(Maybe.Bind(m, (a: int) => Maybe.Nothing),
                                              (b: int) => Maybe.Unit(b * 11)),
                                  (c: int) => Maybe.Unit(c + 200));
            res.Nothing? && Maybe.ValueFromMonad(res, default) == default
  {
  }

  /** The do-block `b <- Just(a + (1,)); c <- Just(b + (3,));
      d <- unit(c + (5,)); return Just(d + b)`, as the right-nested chain it
      stands for, with the step after `b` given. */
  function DoBlock(a: seq<int>, second: seq<int> -> Maybe.Maybe<seq<int>>): Maybe.Maybe<seq<int>>
  {
    Maybe.Bind(Maybe.Just(a + [1]), (b: seq<int>) => AfterFirst(b, second))
  }

  function AfterFirst(b: seq<int>, second: seq<int> -> Maybe.Maybe<seq<int>>): Maybe.Maybe<seq<int>>
  {
    Maybe.Bind(second(b), (c: seq<int>) => Maybe.Bind(Maybe.Unit(c + [5]), (d: seq<int>) => Maybe.Just(d + b)))
  }

  function AppendThree(b: seq<int>): Maybe.Maybe<seq<int>>
  {
    Maybe.Just(b + [3])
  }

  function NoValue(b: seq<int>): Maybe.Maybe<seq<int>>
  {
    Maybe.Nothing
  }

  lemma {:induction false} MaybeDoBlock()
    ensures DoBlock([], AppendThree) == Maybe.Just([1, 3, 5, 1])
  {
    assert [] + [1] == [1];
    assert [1] + [3] + [5] + [1] == [1, 3, 5, 1];
  }

  /** With `Nothing` as the second step the block is `Nothing`. */
  lemma {:induction false} MaybeDoBlockNothing()
    ensures DoBlock([], NoValue).Nothing?
  {
    assert DoBlock([], NoValue) == AfterFirst([] + [1], NoValue);
    assert NoValue([] + [1]) == Maybe.Nothing;
  }

  // State, over stacks of strings

  type Stack = StackState.Stack<string>

  /** Pop, push "a", push "b", then return what was popped. */
  function PopPushPush(): State.State<Stack, string>
  {
    State.Bind(State.Unit<Stack, ()>(()), (_: ()) => State.Bind(StackState.Pop<string>(), ReturnAfterPushes))
  }

  function ReturnAfterPushes(a: string): State.State<Stack, string>
  {
    State.Bind(StackState.Push("a"), (_: ()) => State.ThenOp(StackState.Push("b"), State.Unit<Stack, string>(a)))
  }

  lemma {:induction false} StackSequence()
    ensures State.Run(PopPushPush(), ["1", "2", "3"]) == Ok(("3", ["1", "2", "a", "b"]))
  {
    var s0: Stack := ["1", "2", "3"];
    State.RunBind(State.Unit<Stack, ()>(()), (_: ()) => State.Bind(StackState.Pop<string>(), ReturnAfterPushes), s0);
    State.RunBind(StackState.Pop<string>(), ReturnAfterPushes, s0);
    assert s0[..2] == ["1", "2"];
    var s1: Stack := ["1", "2"];
    State.RunBind(StackState.Push("a"), (_: ()) => State.ThenOp(StackState.Push("b"), State.Unit<Stack, string>("3")), s1);
    State.RunThen(StackState.Push("b"), State.Unit<Stack, string>("3"), s1 + ["a"]);
    assert s1 + ["a"] + ["b"] == ["1", "2", "a", "b"];
  }

  /** The same sequence raises `IndexError` on an empty stack. */
  lemma {:induction false} StackSequenceEmpty()
    ensures State.Run(PopPushPush(), []) == Raised(IndexError)
  {
    State.RunBind(State.Unit<Stack, ()>(()), (_: ()) => State.Bind(StackState.Pop<string>(), ReturnAfterPushes), []);
    State.RunBind(StackState.Pop<string>(), ReturnAfterPushes, []);
  }

  /** The elements of the stack of the second State scenario, which starts
      from the integers 1, 2, 3 and pushes strings on top of them. */
  datatype Item = Num(n: int) | Str(s: string)

  type MixedStack = StackState.Stack<Item>

  /** Pop, push "a", push `t`, push "b", push "c", pop into `a`, read the top
      into `b`, return `(a, b)`. */
  function PushesAndPops(t: string): State.State<MixedStack, (Item, Item)>
  {
    State.ThenOp(StackState.Pop<Item>(),
    State.ThenOp(StackState.Push(Str("a")),
    State.ThenOp(StackState.Push(Str(t)),
    State.ThenOp(StackState.Push(Str("b")),
    State.ThenOp(StackState.Push(Str("c")), PopAndTop())))))
  }

  function PopAndTop(): State.State<MixedStack, (Item, Item)>
  {
    State.Bind(StackState.Pop<Item>(), PairWithTop)
  }

  function PairWithTop(a: Item): State.State<MixedStack, (Item, Item)>
  {
    State.Bind(StackState.Top<Item>(), (b: Item) => State.Unit((a, b)))
  }

  /** Pushing "c" then popping and reading the top gives ("c", top) and
      leaves the stack as it was. */
  lemma {:induction false} PushPopTop(stack: MixedStack)
    requires |stack| > 0
    ensures State.Run(State.ThenOp(StackState.Push(Str("c")), PopAndTop()), stack) == Ok(((Str("c"), stack[|stack| - 1]), stack))
  {
    State.RunThen(StackState.Push(Str("c")), PopAndTop(), stack);
    assert (stack + [Str("c")])[..|stack|] == stack;
    State.RunBind(StackState.Pop<Item>(), PairWithTop, stack + [Str("c")]);
    State.RunBind(StackState.Top<Item>(), (b: Item) => State.Unit((Str("c"), b)), stack);
  }

  lemma {:induction false} StackPushesAndPops()
    ensures State.Run(PushesAndPops("foo"), [Num(1), Num(2), Num(3)])
            == Ok(((Str("c"), Str("b")), [Num(1), Num(2), Str("a"), Str("foo"), Str("b")]))
  {
    var s0: MixedStack := [Num(1), Num(2), Num(3)];
    var s1: MixedStack := [Num(1), Num(2)];
    var s2: MixedStack := [Num(1), Num(2), Str("a"), Str("foo"), Str("b")];
    var last := State.ThenOp(StackState.Push(Str("c")), PopAndTop());
    var tail2 := State.ThenOp(StackState.Push(Str("b")), last);
    var tail1 := State.ThenOp(StackState.Push(Str("foo")), tail2);
    var tail := State.ThenOp(StackState.Push(Str("a")), tail1);
    State.RunThen(StackState.Pop<Item>(), tail, s0);
    assert s0[..2] == s1;
    State.RunThen(StackState.Push(Str("a")), tail1, s1);
    State.RunThen(StackState.Push(Str("foo")), tail2, s1 + [Str("a")]);
    State.RunThen(StackState.Push(Str("b")), last, s1 + [Str("a")] + [Str("foo")]);
    assert s1 + [Str("a")] + [Str("foo")] + [Str("b")] == s2;
    PushPopTop(s2);
  }

  // Cont

  function Identity<T>(x: T): T
  {
    x
  }

  /** A computation that calls its continuation twice and concatenates the
      two results. */
  function TwoShot(): Cont.Cont<seq<int>, seq<int>>
  {
    Cont.Cont((c: seq<int> -> seq<int>) => c([1]) + c([80]))
  }

  /** `TwoShot` bound through three steps: append 2, append 7, then append
      the second intermediate value again. */
  function MultiShot(): Cont.Cont<seq<int>, seq<int>>
  {
    Cont.Bind(TwoShot(), AppendTwo)
  }

  function AppendTwo(t1: seq<int>): Cont.Cont<seq<int>, seq<int>>
  {
    Cont.Bind(Cont.Ret(t1 + [2]), AppendSevenThenRepeat)
  }

  function AppendSevenThenRepeat(t2: seq<int>): Cont.Cont<seq<int>, seq<int>>
  {
    Cont.Bind(Cont.Ret(t2 + [7]), (t3: seq<int>) => Cont.Ret(t3 + t2))
  }

  lemma {:induction false} AppendSevenThenRepeatRun(t2: seq<int>)
    ensures Cont.Run(AppendSevenThenRepeat(t2), Identity) == t2 + [7] + t2
  {
    var rest := (t3: seq<int>) => Cont.Ret(t3 + t2);
    Cont.RunBind(Cont.Ret(t2 + [7]), rest, Identity);
    Cont.RunRet(t2 + [7], Cont.Resume(rest, Identity));
    Cont.ResumeAt(rest, Identity, t2 + [7]);
    Cont.RunRet(t2 + [7] + t2, Identity);
  }

  lemma {:induction false} AppendTwoRun(t1: seq<int>)
    ensures Cont.Run(AppendTwo(t1), Identity) == (t1 + [2]) + [7] + (t1 + [2])
  {
    Cont.RunBind(Cont.Ret(t1 + [2]), AppendSevenThenRepeat, Identity);
    Cont.RunRet(t1 + [2], Cont.Resume(AppendSevenThenRepeat, Identity));
    Cont.ResumeAt(AppendSevenThenRepeat, Identity, t1 + [2]);
    AppendSevenThenRepeatRun(t1 + [2]);
  }

  /** Both shots run the rest of the chain. */
  lemma TwoShotRun(k: seq<int> -> seq<int>)
    ensures Cont.Run(TwoShot(), k) == k([1]) + k([80])
  {
  }

  /** The continuation `TwoShot` is run with, on either shot. */
  lemma {:induction false} RestOfChain(t1: seq<int>)
    ensures Cont.Resume(AppendTwo, Identity)(t1) == (t1 + [2]) + [7] + (t1 + [2])
  {
    Cont.ResumeAt(AppendTwo, Identity, t1);
    AppendTwoRun(t1);
  }

  lemma {:induction false} ContMultiShot()
    ensures Cont.Run(MultiShot(), Identity) == [1, 2, 7, 1, 2, 80, 2, 7, 80, 2]
  {
    var k := Cont.Resume(AppendTwo, Identity);
    Cont.RunBind(TwoShot(), AppendTwo, Identity);
    TwoShotRun(k);
    assert k([1]) == [1, 2, 7, 1, 2] by { RestOfChain([1]); }
    assert k([80]) == [80, 2, 7, 80, 2] by { RestOfChain([80]); }
  }

  /** The do-block `t1 <- Cont(c -> c((1,))); t2 <- ret(t1 + (2,));
      t3 <- ret(t2 + (d,)); return ret(t3 + t2)`, as the right-nested chain
      it stands for. */
  function OneShot(d: int): Cont.Cont<seq<int>, seq<int>>
  {
    Cont.Bind(SingleShot(), AfterOneShot(d))
  }

  function AfterOneShot(d: int): seq<int> -> Cont.Cont<seq<int>, seq<int>>
  {
    (t1: seq<int>) => AppendThenRepeat(t1, d)
  }

  function SingleShot(): Cont.Cont<seq<int>, seq<int>>
  {
    Cont.Cont((c: seq<int> -> seq<int>) => c([1]))
  }

  lemma SingleShotRun(k: seq<int> -> seq<int>)
    ensures Cont.Run(SingleShot(), k) == k([1])
  {
  }

  function AppendThenRepeat(t1: seq<int>, d: int): Cont.Cont<seq<int>, seq<int>>
  {
    Cont.Bind(Cont.Ret(t1 + [2]), (t2: seq<int>) =>
      Cont.Bind(Cont.Ret(t2 + [d]), (t3: seq<int>) => Cont.Ret(t3 + t2)))
  }

  lemma {:induction false} AppendThenRepeatRun(t2: seq<int>, d: int)
    ensures Cont.Run(Cont.Bind(Cont.Ret(t2 + [d]), (t3: seq<int>) => Cont.Ret(t3 + t2)), Identity) == t2 + [d] + t2
  {
    var rest := (t3: seq<int>) => Cont.Ret(t3 + t2);
    Cont.RunBind(Cont.Ret(t2 + [d]), rest, Identity);
    Cont.RunRet(t2 + [d], Cont.Resume(rest, Identity));
    Cont.ResumeAt(rest, Identity, t2 + [d]);
    Cont.RunRet(t2 + [d] + t2, Identity);
  }

  lemma {:induction false} AppendThenRepeatFrom(t1: seq<int>, d: int)
    ensures Cont.Run(AppendThenRepeat(t1, d), Identity) == (t1 + [2]) + [d] + (t1 + [2])
  {
    var rest := (t2: seq<int>) => Cont.Bind(Cont.Ret(t2 + [d]), (t3: seq<int>) => Cont.Ret(t3 + t2));
    Cont.RunBind(Cont.Ret(t1 + [2]), rest, Identity);
    Cont.RunRet(t1 + [2], Cont.Resume(rest, Identity));
    Cont.ResumeAt(rest, Identity, t1 + [2]);
    AppendThenRepeatRun(t1 + [2], d);
  }

  /** The continuation `SingleShot` is run with. */
  lemma {:induction false} RestOfOneShot(t1: seq<int>, d: int)
    ensures Cont.Resume(AfterOneShot(d), Identity)(t1) == (t1 + [2]) + [d] + (t1 + [2])
  {
    Cont.ResumeAt(AfterOneShot(d), Identity, t1);
    assert AfterOneShot(d)(t1) == AppendThenRepeat(t1, d);
    AppendThenRepeatFrom(t1, d);
  }

  lemma {:induction false} OneShotRun(d: int)
    ensures Cont.Run(OneShot(d), Identity) == ([1] + [2]) + [d] + ([1] + [2])
  {
    var k := Cont.Resume(AfterOneShot(d), Identity);
    Cont.RunBind(SingleShot(), AfterOneShot(d), Identity);
    SingleShotRun(k);
    RestOfOneShot([1], d);
  }

  /** Run with the identity, `OneShot(d)` gives `[1, 2, d, 1, 2]`; the test
      runs it with 77. */
  lemma {:induction false} ContDoBlock(d: int)
    ensures Cont.Run(OneShot(d), Identity) == [1, 2, d, 1, 2]
  {
    OneShotRun(d);
    OneShotResult(d);
  }

  lemma OneShotResult(d: int)
    ensures ([1] + [2]) + [d] + ([1] + [2]) == [1, 2, d, 1, 2]
  {
  }

  /** The body handed to `CallCC`: escapes with 100 when `escape` holds, and
      otherwise returns 11 + 200. */
  function SubSequence(escape: bool, c: int -> Cont.Cont<int, int>): Cont.Cont<int, int>
  {
    if escape then Cont.Bind(c(100), (_: int) => ElevenPlus200()) else ElevenPlus200()
  }

  function ElevenPlus200(): Cont.Cont<int, int>
  {
    Cont.Bind(Cont.Ret(11), (t2: int) => Cont.Ret(t2 + 200))
  }

  function AddTwelve(t1: int): Cont.Cont<int, int>
  {
    Cont.Ret(t1 + 12)
  }

  function CallCCSequence(escape: bool): Cont.Cont<int, int>
  {
    Cont.Bind(Cont.CallCC((c: int -> Cont.Cont<int, int>) => SubSequence(escape, c)), AddTwelve)
  }

  lemma {:induction false} ElevenPlus200Extensional()
    ensures Cont.Extensional(ElevenPlus200())
  {
    var add := (t2: int) => Cont.Ret<int, int>(t2 + 200);
    Cont.RetExtensional<int, int>(11);
    forall t2: int ensures Cont.Extensional(add(t2)) {
      Cont.RetExtensional<int, int>(t2 + 200);
    }
    Cont.BindExtensional(Cont.Ret<int, int>(11), add);
  }

  /** The block of the test, escaping or not, meets the conditions of
      `Cont.CallCCExtensional`, so the laws stated for extensional
      computations apply to the `CallCC` built from it. */
  lemma {:induction false} SubSequenceCallCCExtensional(escape: bool)
    ensures Cont.Extensional(Cont.CallCC((c: int -> Cont.Cont<int, int>) => SubSequence(escape, c)))
  {
    var body := (c: int -> Cont.Cont<int, int>) => SubSequence(escape, c);
    ElevenPlus200Extensional();
    var rest := (_: int) => ElevenPlus200();
    forall esc: int -> Cont.Cont<int, int> | (forall x: int :: Cont.Extensional(esc(x)))
      ensures Cont.Extensional(body(esc))
    {
      if escape {
        Cont.BindExtensional(esc(100), rest);
      }
    }
    forall e1: int -> Cont.Cont<int, int>, e2: int -> Cont.Cont<int, int>, k: int -> int |
      (forall x: int, c: int -> int :: Cont.Run(e1(x), c) == Cont.Run(e2(x), c))
      ensures Cont.Run(body(e1), k) == Cont.Run(body(e2), k)
    {
      if escape {
        Cont.RunBind(e1(100), rest, k);
        Cont.RunBind(e2(100), rest, k);
      }
    }
    Cont.CallCCExtensional(body);
  }

  /** The continuation the `CallCC` block is run with adds twelve. */
  lemma {:induction false} AddTwelveThenStop(v: int)
    ensures Cont.Resume(AddTwelve, Identity)(v) == v + 12
  {
    Cont.ResumeAt(AddTwelve, Identity, v);
    Cont.RunRet(v + 12, Identity);
  }

  lemma {:induction false} CallCCSequenceRun(escape: bool)
    ensures Cont.Run(CallCCSequence(escape), Identity)
            == Cont.Run(SubSequence(escape, Cont.EscapeTo(Cont.Resume(AddTwelve, Identity))), Cont.Resume(AddTwelve, Identity))
  {
    var body := (c: int -> Cont.Cont<int, int>) => SubSequence(escape, c);
    Cont.RunBind(Cont.CallCC(body), AddTwelve, Identity);
    Cont.RunCallCC(body, Cont.Resume(AddTwelve, Identity));
  }

  /** Without the escape the block returns 211 to its continuation. */
  lemma {:induction false} ElevenPlus200Run(k: int -> int)
    ensures Cont.Run(ElevenPlus200(), k) == k(211)
  {
    var add := (t2: int) => Cont.Ret(t2 + 200);
    Cont.RunBind(Cont.Ret(11), add, k);
    Cont.RunRet(11, Cont.Resume(add, k));
    Cont.ResumeAt(add, k, 11);
    Cont.RunRet(211, k);
  }

  /** Escaping with 100 skips the rest of the block: 100 goes straight to
      the continuation of `CallCC`. */
  lemma {:induction false} CallCCEscapes()
    ensures Cont.Run(CallCCSequence(true), Identity) == 112
  {
    var k := Cont.Resume(AddTwelve, Identity);
    CallCCSequenceRun(true);
    EscapingBlock(k);
    AddTwelveThenStop(100);
  }

  /** The escaping block hands 100 to the continuation it escapes to. */
  lemma {:induction false} EscapingBlock(k: int -> int)
    ensures Cont.Run(SubSequence(true, Cont.EscapeTo(k)), k) == k(100)
  {
    var rest := (_: int) => ElevenPlus200();
    assert Cont.EscapeTo<int, int, int>(k)(100) == Cont.Escape<int, int, int>(k, 100);
    Cont.EscapeDiscards(k, 100, rest, k);
  }

  /** Without the escape the block runs to its end. */
  lemma {:induction false} CallCCRunsThrough()
    ensures Cont.Run(CallCCSequence(false), Identity) == 223
  {
    var k := Cont.Resume(AddTwelve, Identity);
    CallCCSequenceRun(false);
    ElevenPlus200Run(k);
    AddTwelveThenStop(211);
  }

  // curry

  function Sum(args: seq<int>): int
  {
    if args == [] then 0 else args[0] + Sum(args[1..])
  }

  /** `sum5(a, b, c, d, e)`, curried. */
  function Sum5(): Currying.Curried<int, Result<int>>
  {
    Currying.Curry(Currying.Positional(5, Sum), 5)
  }

  /** Every grouping of 5, 3, 1, 1, 7 over successive calls gives 17. */
  lemma {:induction false} Sum5AnyGrouping(groups: seq<seq<int>>)
    requires groups != []
    requires Currying.Flatten(groups) == [5, 3, 1, 1, 7]
    requires Currying.OnlyLastSaturates(Sum5(), groups)
    ensures Currying.Feed(Sum5(), groups) == Currying.Invoked(Ok(17))
  {
    var args := [5, 3, 1, 1, 7];
    assert Sum(args) == 17 by {
      assert args[1..] == [3, 1, 1, 7] && args[2..] == [1, 1, 7] && args[3..] == [1, 7] && args[4..] == [7];
      assert [7][1..] == [];
    }
    Currying.CurriedPositional(5, Sum, groups);
  }

  lemma {:induction false} Sum5Groupings()
    ensures Currying.Feed(Sum5(), [[5], [3], [1], [1], [7]]) == Currying.Invoked(Ok(17))
    ensures Currying.Feed(Sum5(), [[5, 3], [1], [1], [7]]) == Currying.Invoked(Ok(17))
    ensures Currying.Feed(Sum5(), [[5], [3, 1, 1], [7]]) == Currying.Invoked(Ok(17))
    ensures Currying.Feed(Sum5(), [[5], [3], [1, 1, 7]]) == Currying.Invoked(Ok(17))
  {
    OneAtATime();
    PairFirst();
    TripleInMiddle();
    TripleLast();
  }

  /** `sum5(5)(3)(1)(1)(7)` */
  lemma {:induction false} OneAtATime()
    ensures Currying.Feed(Sum5(), [[5], [3], [1], [1], [7]]) == Currying.Invoked(Ok(17))
  {
    var g: seq<seq<int>> := [[5], [3], [1], [1], [7]];
    assert Currying.Flatten(g[..4]) == [5, 3, 1, 1] by {
      FlattenOfLiteral([5], [[3], [1], [1]]);
      FlattenOfLiteral([3], [[1], [1]]);
      FlattenOfLiteral([1], [[1]]);
      FlattenOfLiteral([1], []);
      assert g[..4] == [[5]] + [[3], [1], [1]];
    }
    assert Currying.Flatten(g) == [5, 3, 1, 1, 7] by {
      FlattenOfLiteral([5], [[3], [1], [1], [7]]);
      FlattenOfLiteral([3], [[1], [1], [7]]);
      FlattenOfLiteral([1], [[1], [7]]);
      FlattenOfLiteral([1], [[7]]);
      FlattenOfLiteral([7], []);
      assert g == [[5]] + [[3], [1], [1], [7]];
    }
    Sum5AnyGrouping(g);
  }

  /** `sum5(5, 3)(1)(1)(7)` */
  lemma {:induction false} PairFirst()
    ensures Currying.Feed(Sum5(), [[5, 3], [1], [1], [7]]) == Currying.Invoked(Ok(17))
  {
    var g: seq<seq<int>> := [[5, 3], [1], [1], [7]];
    assert Currying.Flatten(g[..3]) == [5, 3, 1, 1] by {
      FlattenOfLiteral([5, 3], [[1], [1]]);
      FlattenOfLiteral([1], [[1]]);
      FlattenOfLiteral([1], []);
      assert g[..3] == [[5, 3]] + [[1], [1]];
    }
    assert Currying.Flatten(g) == [5, 3, 1, 1, 7] by {
      FlattenOfLiteral([5, 3], [[1], [1], [7]]);
      FlattenOfLiteral([1], [[1], [7]]);
      FlattenOfLiteral([1], [[7]]);
      FlattenOfLiteral([7], []);
      assert g == [[5, 3]] + [[1], [1], [7]];
    }
    Sum5AnyGrouping(g);
  }

  /** `sum5(5)(3, 1, 1)(7)` */
  lemma {:induction false} TripleInMiddle()
    ensures Currying.Feed(Sum5(), [[5], [3, 1, 1], [7]]) == Currying.Invoked(Ok(17))
  {
    var g: seq<seq<int>> := [[5], [3, 1, 1], [7]];
    assert Currying.Flatten(g[..2]) == [5, 3, 1, 1] by {
      FlattenOfLiteral([5], [[3, 1, 1]]);
      FlattenOfLiteral([3, 1, 1], []);
      assert g[..2] == [[5]] + [[3, 1, 1]];
    }
    assert Currying.Flatten(g) == [5, 3, 1, 1, 7] by {
      FlattenOfLiteral([5], [[3, 1, 1], [7]]);
      FlattenOfLiteral([3, 1, 1], [[7]]);
      FlattenOfLiteral([7], []);
      assert g == [[5]] + [[3, 1, 1], [7]];
    }
    Sum5AnyGrouping(g);
  }

  /** `sum5(5)(3)(1, 1, 7)` */
  lemma {:induction false} TripleLast()
    ensures Currying.Feed(Sum5(), [[5], [3], [1, 1, 7]]) == Currying.Invoked(Ok(17))
  {
    var g: seq<seq<int>> := [[5], [3], [1, 1, 7]];
    assert Currying.Flatten(g[..2]) == [5, 3] by {
      FlattenOfLiteral([5], [[3]]);
      FlattenOfLiteral([3], []);
      assert g[..2] == [[5]] + [[3]];
    }
    assert Currying.Flatten(g) == [5, 3, 1, 1, 7] by {
      FlattenOfLiteral([5], [[3], [1, 1, 7]]);
      FlattenOfLiteral([3], [[1, 1, 7]]);
      FlattenOfLiteral([1, 1, 7], []);
      assert g == [[5]] + [[3], [1, 1, 7]];
    }
    Sum5AnyGrouping(g);
  }

  /** One unfolding of `Flatten` on a group put in front of others. */
  lemma FlattenOfLiteral(g: seq<int>, rest: seq<seq<int>>)
    ensures Currying.Flatten([g] + rest) == g + Currying.Flatten(rest)
  {
    assert ([g] + rest)[1..] == rest;
  }

  /** A function of no parameters runs on the first call, and one of one
      parameter on its first argument. */
  lemma {:induction false} SmallArities()
    ensures Currying.Call(Currying.Curry(Currying.Positional(0, (_: seq<int>) => 1), 0), []) == Currying.Invoked(Ok(1))
    ensures Currying.Call(Currying.Curry(Currying.Positional(1, Sum), 1), [66]) == Currying.Invoked(Ok(66))
  {
    assert [66][1..] == [];
    assert Sum([66]) == 66;
    assert [] + [66] == [66];
    assert Currying.Positional(1, Sum)([66]) == Ok(66);
  }

  /** Three arguments to a curried function of two: the call goes through and
      the wrapped function raises. */
  lemma ExcessArguments()
    ensures Currying.Call(Currying.Curry(Currying.Positional(2, (_: seq<int>) => ()), 2), [1, 2, 4])
            == Currying.Invoked(Raised(TypeError))
  {
  }
}
