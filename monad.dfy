/** The base contract every monad family satisfies: a `unit` that lifts a
    value and a `bind` that sequences a dependent computation into the same
    family. Dafny has no higher-kinded types, so a family is passed to the
    derived operators as its own `bind` function; the family's type
    parameters keep computations of different families from being bound
    together, which the source leaves to a type checker. */
module Monad {

  /** Plain application; the source keeps it only to guide type inference. */
  function Apply<T, U>(f: T -> U, x: T): U
  {
    f(x)
  }

  /** The bind operator `m >= f`: the same computation as `bind(m, f)`. */
  function BindOp<M, A, N>(bind: (M, A -> N) -> N, m: M, f: A -> N): (r: N)
    ensures r == bind(m, f)
  {
    Apply((g: A -> N) => bind(m, g), f)
  }

  /** The then operator `m >> n`: binds `m` to a function that ignores its
      argument and yields `n`, so the payload of `m` is discarded. */
  function ThenOp<M, A, N>(bind: (M, A -> N) -> N, m: M, n: N): (r: N)
    ensures r == bind(m, (_: A) => n)
  {
    Apply((g: A -> N) => bind(m, g), (_: A) => n)
  }

  // The laws. `same` is the family's notion of equal computations and
  // `valid` the computations the laws are claimed for.

  /** `unit(x).bind(f)` is `f(x)`. */
  ghost predicate LeftIdentity<M(!new), A(!new)>(unit: A -> M, bind: (M, A -> M) -> M, same: (M, M) -> bool)
  {
    forall x: A, f: A -> M :: same(bind(unit(x), f), f(x))
  }

  /** `m.bind(unit)` is `m`. */
  ghost predicate RightIdentity<M(!new), A>(unit: A -> M, bind: (M, A -> M) -> M, valid: M -> bool, same: (M, M) -> bool)
  {
    forall m: M | valid(m) :: same(bind(m, unit), m)
  }

  /** `m.bind(f).bind(g)` is `m.bind(x -> f(x).bind(g))`. */
  ghost predicate Associative<M(!new), A(!new)>(bind: (M, A -> M) -> M, valid: M -> bool, same: (M, M) -> bool)
  {
    forall m: M, f: A -> M, g: A -> M | valid(m) :: same(bind(bind(m, f), g), bind(m, (x: A) => bind(f(x), g)))
  }

  /** The three monad laws for a family whose `unit` and `bind` are given. */
  ghost predicate IsMonad<M(!new), A(!new)>(unit: A -> M, bind: (M, A -> M) -> M, valid: M -> bool, same: (M, M) -> bool)
  {
    LeftIdentity(unit, bind, same) && RightIdentity(unit, bind, valid, same) && Associative(bind, valid, same)
  }
}
