/** The optional-value family: a closed sum of `Just(v)` and `Nothing`, whose
    bind short-circuits on `Nothing`. */
module Maybe {
  import Monad

  datatype Maybe<V> = Just(value: V) | Nothing

  /** `unit` lifts a value into `Just`. */
  function Unit<V>(v: V): Maybe<V>
  {
    Just(v)
  }

  /** `Just(v).bind(f)` is `f(v)`; `Nothing().bind(f)` is a fresh `Nothing`
      and `f` is never called. */
  function Bind<V, W>(m: Maybe<V>, f: V -> Maybe<W>): Maybe<W>
  {
    match m
    case Just(v) => f(v)
    case Nothing => Nothing
  }

  /** The operators `m >= f` and `m >> n` of this family. */
  function BindOp<V, W>(m: Maybe<V>, f: V -> Maybe<W>): Maybe<W>
  {
    Monad.BindOp((a: Maybe<V>, g: V -> Maybe<W>) => Bind(a, g), m, f)
  }

  function ThenOp<V, W>(m: Maybe<V>, n: Maybe<W>): Maybe<W>
  {
    Monad.ThenOp((a: Maybe<V>, g: V -> Maybe<W>) => Bind(a, g), m, n)
  }

  /** Coerces a computation of the family to its closed sum; every value of
      the family already is one, so it comes back unchanged. */
  function FromMonad<V>(m: Maybe<V>): Maybe<V>
  {
    m
  }

  /** The total extractor: the payload of `Just`, otherwise the default. */
  function Value<V>(m: Maybe<V>, default: V): V
  {
    match m
    case Just(v) => v
    case Nothing => default
  }

  /** The extractor for any computation of the family. */
  function ValueFromMonad<V>(m: Maybe<V>, default: V): V
  {
    Value(FromMonad(m), default)
  }

  // The laws, stated on values: a Maybe is compared by equality.

  lemma LeftIdentity<V, W>(x: V, f: V -> Maybe<W>)
    ensures Bind(Unit(x), f) == f(x)
  {
  }

  /** The result of binding `Nothing` does not depend on the function. */
  lemma NothingShortCircuits<V, W>(f: V -> Maybe<W>, g: V -> Maybe<W>)
    ensures Bind(Nothing, f) == Bind(Nothing, g) == Nothing
  {
  }

  /** `m >> n` is `n` when `m` is `Just`, whatever its payload, and
      `Nothing` when `m` is `Nothing`, whatever `n` is. */
  lemma ThenDiscards<V, W>(m: Maybe<V>, n: Maybe<W>)
    ensures ThenOp(m, n) == if m.Just? then n else Nothing
  {
  }

  lemma RightIdentity<V>(m: Maybe<V>)
    ensures Bind(m, Unit) == m
  {
  }

  lemma Associativity<U, V, W>(m: Maybe<U>, f: U -> Maybe<V>, g: V -> Maybe<W>)
    ensures Bind(Bind(m, f), g) == Bind(m, x => Bind(f(x), g))
  {
  }

  lemma IsMonad<V(!new)>()
    ensures Monad.IsMonad(
              Unit<V>,
              (m: Maybe<V>, f: V -> Maybe<V>) => Bind(m, f),
              _ => true,
              (a: Maybe<V>, b: Maybe<V>) => a == b)
  {
  }

  /** The coercion hands back either variant unchanged. */
  lemma FromMonadUnchanged<V>(m: Maybe<V>)
    ensures FromMonad(m) == m
  {
  }

  /** `ValueFromMonad` never fails: it is the payload exactly when the
      computation is `Just`, and the default otherwise. */
  lemma ValueFromMonadTotal<V>(m: Maybe<V>, default: V)
    ensures ValueFromMonad(m, default) == (if m.Just? then m.value else default)
  {
  }

  // Chains of binds over one payload type, as the scenarios write them.

  /** The left-nested chain `m.bind(f1).bind(f2)...bind(fn)`. */
  function Chain<V>(m: Maybe<V>, fs: seq<V -> Maybe<V>>): Maybe<V>
    decreases |fs|
  {
    if fs == [] then m else Chain(Bind(m, fs[0]), fs[1..])
  }

  /** The right-nested chain `m.bind(a -> f1(a).bind(b -> ... fn(...)))`. */
  function Nested<V>(m: Maybe<V>, fs: seq<V -> Maybe<V>>): Maybe<V>
    decreases |fs|
  {
    if fs == [] then m else Bind(m, x => Nested(fs[0](x), fs[1..]))
  }

  /** A chain started from `Nothing` is `Nothing`, whatever its steps. */
  lemma {:induction false} ChainFromNothing<V>(fs: seq<V -> Maybe<V>>)
    ensures Chain(Nothing, fs) == Nothing
    decreases |fs|
  {
    if fs != [] {
      ChainFromNothing(fs[1..]);
    }
  }

  /** Once a step yields `Nothing`, the whole chain is `Nothing`: if the
      first `k` steps already give `Nothing`, so do all of them. */
  lemma {:induction false} ChainShortCircuits<V>(m: Maybe<V>, fs: seq<V -> Maybe<V>>, k: nat)
    requires k <= |fs|
    requires Chain(m, fs[..k]).Nothing?
    ensures Chain(m, fs).Nothing?
    decreases k
  {
    if k == 0 {
      assert fs[..0] == [];
      ChainFromNothing(fs);
    } else {
      assert fs[..k][0] == fs[0] && fs[..k][1..] == fs[1..][..k - 1];
      ChainShortCircuits(Bind(m, fs[0]), fs[1..], k - 1);
    }
  }

  /** Associativity for whole chains: the left-nested and the right-nested
      chain over the same steps give the same result. */
  lemma {:induction false} ChainNestedAgree<V>(m: Maybe<V>, fs: seq<V -> Maybe<V>>)
    ensures Chain(m, fs) == Nested(m, fs)
    decreases |fs|
  {
    if fs != [] {
      match m
      case Nothing =>
        ChainFromNothing(fs[1..]);
      case Just(v) =>
        ChainNestedAgree(fs[0](v), fs[1..]);
    }
  }
}
