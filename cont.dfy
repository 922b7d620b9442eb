/** The continuation family: a computation wraps a function that takes "the
    rest of the program", a continuation from the payload to the final result
    type `R`, and produces that final result. `CallCC` captures the current
    continuation as an escape for non-local exit. */
module Cont {
  import Monad

  datatype Cont<!R, !A> = Cont(fun: (A -> R) -> R)

  /** Calling a computation with a continuation delegates to the stored
      function. */
  function Run<R, A>(m: Cont<R, A>, k: A -> R): R
  {
    m.fun(k)
  }

  /** `ret(v)` calls the continuation with `v`. */
  function Ret<R, A>(v: A): Cont<R, A>
  {
    Cont((c: A -> R) => c(v))
  }

  /** `m.bind(f)` runs `m` with a continuation that, given the value of `m`,
      runs `f` of it with the original continuation. */
  function Bind<R, A, B>(m: Cont<R, A>, f: A -> Cont<R, B>): Cont<R, B>
  {
    Cont((c: B -> R) => Run(m, Resume(f, c)))
  }

  /** The continuation `m` is run with inside `m.bind(f)`: given the value of
      `m`, it runs `f` of it with the original continuation `c`. */
  function Resume<R, A, B>(f: A -> Cont<R, B>, c: B -> R): A -> R
  {
    (val: A) => Run(f(val), c)
  }

  /** The operators `m >= f` and `m >> n` of this family. */
  function BindOp<R, A, B>(m: Cont<R, A>, f: A -> Cont<R, B>): Cont<R, B>
  {
    Monad.BindOp((a: Cont<R, A>, g: A -> Cont<R, B>) => Bind(a, g), m, f)
  }

  function ThenOp<R, A, B>(m: Cont<R, A>, n: Cont<R, B>): Cont<R, B>
  {
    Monad.ThenOp((a: Cont<R, A>, g: A -> Cont<R, B>) => Bind(a, g), m, n)
  }

  /** The escape that `CallCC` hands to its argument: it ignores its own
      continuation and delivers `a` to the captured one, `h`. */
  function Escape<R, A, B>(h: A -> R, a: A): Cont<R, B>
  {
    Cont((_: B -> R) => h(a))
  }

  /** `call_cc(f)` run with `h` runs `f(escape)` with `h`, where the escape
      jumps straight to `h`. */
  function CallCC<R, A, B>(f: (A -> Cont<R, B>) -> Cont<R, A>): Cont<R, A>
  {
    Cont((h: A -> R) => Run(f(EscapeTo(h)), h))
  }

  /** The escape function itself: each value `a` becomes `Escape(h, a)`. */
  function EscapeTo<R, A, B>(h: A -> R): A -> Cont<R, B>
  {
    (a: A) => Escape(h, a)
  }

  /** Two computations are the same when they give the same result with
      every continuation. */
  ghost predicate Same<R(!new), A(!new)>(m: Cont<R, A>, n: Cont<R, A>)
  {
    forall k: A -> R :: Run(m, k) == Run(n, k)
  }

  lemma RunRet<R, A>(v: A, k: A -> R)
    ensures Run(Ret(v), k) == k(v)
  {
  }

  lemma RunBind<R, A, B>(m: Cont<R, A>, f: A -> Cont<R, B>, c: B -> R)
    ensures Run(Bind(m, f), c) == Run(m, Resume(f, c))
  {
  }

  lemma ResumeAt<R, A, B>(f: A -> Cont<R, B>, c: B -> R, val: A)
    ensures Resume(f, c)(val) == Run(f(val), c)
  {
  }

  /** `m >> n` runs `m` with a continuation that ignores the value of `m` and
      runs `n` with the original continuation. */
  lemma {:induction false} RunThen<R(!new), A(!new), B>(m: Cont<R, A>, n: Cont<R, B>, c: B -> R)
    requires Extensional(m)
    ensures Run(ThenOp(m, n), c) == Run(m, (_: A) => Run(n, c))
  {
    RunBind(m, (_: A) => n, c);
    ExtensionalAt(m, Resume((_: A) => n, c), (_: A) => Run(n, c));
  }

  lemma LeftIdentity<R(!new), A, B(!new)>(x: A, f: A -> Cont<R, B>)
    ensures Same(Bind(Ret(x), f), f(x))
  {
  }

  /** A computation whose result depends only on what its continuation
      returns, not on which function value the continuation is. Every
      computation the source builds is one; Dafny does not identify two
      function values that agree everywhere, so the laws that rebuild a
      continuation are stated for these. */
  ghost predicate Extensional<R(!new), A(!new)>(m: Cont<R, A>)
  {
    forall k1: A -> R, k2: A -> R | (forall x: A :: k1(x) == k2(x)) :: Run(m, k1) == Run(m, k2)
  }

  lemma RetExtensional<R(!new), A(!new)>(v: A)
    ensures Extensional(Ret<R, A>(v))
  {
  }

  lemma EscapeExtensional<R(!new), A, B(!new)>(h: A -> R, a: A)
    ensures Extensional(Escape<R, A, B>(h, a))
  {
  }

  lemma {:induction false} BindExtensional<R(!new), A(!new), B(!new)>(m: Cont<R, A>, f: A -> Cont<R, B>)
    requires Extensional(m)
    requires forall x: A :: Extensional(f(x))
    ensures Extensional(Bind(m, f))
  {
    forall k1: B -> R, k2: B -> R | (forall y: B :: k1(y) == k2(y))
      ensures Run(Bind(m, f), k1) == Run(Bind(m, f), k2)
    {
      assert forall x: A :: Resume(f, k1)(x) == Resume(f, k2)(x);
    }
  }

  /** `call_cc` of a body that, handed escapes that are themselves
      extensional, builds an extensional computation, and that treats two
      escapes with the same results alike. Bodies that run their escape
      qualify: escapes are extensional (`EscapeExtensional`). */
  lemma {:induction false} CallCCExtensional<R(!new), A(!new), B(!new)>(f: (A -> Cont<R, B>) -> Cont<R, A>)
    requires forall esc: A -> Cont<R, B> | (forall x: A :: Extensional(esc(x))) :: Extensional(f(esc))
    requires forall e1: A -> Cont<R, B>, e2: A -> Cont<R, B>, k: A -> R |
               (forall x: A, c: B -> R :: Run(e1(x), c) == Run(e2(x), c)) :: Run(f(e1), k) == Run(f(e2), k)
    ensures Extensional(CallCC(f))
  {
    forall k1: A -> R, k2: A -> R | (forall x: A :: k1(x) == k2(x))
      ensures Run(CallCC(f), k1) == Run(CallCC(f), k2)
    {
      var e1 := EscapeTo<R, A, B>(k1);
      var e2 := EscapeTo<R, A, B>(k2);
      assert forall x: A, c: B -> R :: Run(e1(x), c) == Run(e2(x), c);
      forall x: A ensures Extensional(e2(x)) {
        EscapeExtensional<R, A, B>(k2, x);
      }
      calc {
        Run(CallCC(f), k1);
        Run(f(e1), k1);
        Run(f(e2), k1);
        Run(f(e2), k2);
        Run(CallCC(f), k2);
      }
    }
  }

  lemma ExtensionalAt<R(!new), A(!new)>(m: Cont<R, A>, k1: A -> R, k2: A -> R)
    requires Extensional(m)
    requires forall x: A :: k1(x) == k2(x)
    ensures Run(m, k1) == Run(m, k2)
  {
  }

  lemma {:induction false} RightIdentity<R(!new), A(!new)>(m: Cont<R, A>)
    requires Extensional(m)
    ensures Same(Bind(m, Ret), m)
  {
    forall k: A -> R ensures Run(Bind(m, Ret), k) == Run(m, k) {
      RunBind(m, Ret, k);
      forall x: A ensures Resume(Ret, k)(x) == k(x) {
        ResumeAt(Ret, k, x);
      }
      ExtensionalAt(m, Resume(Ret, k), k);
    }
  }

  lemma {:induction false} Associativity<R(!new), A(!new), B, C(!new)>(m: Cont<R, A>, f: A -> Cont<R, B>, g: B -> Cont<R, C>)
    requires Extensional(m)
    ensures Same(Bind(Bind(m, f), g), Bind(m, x => Bind(f(x), g)))
  {
    forall k: C -> R ensures Run(Bind(Bind(m, f), g), k) == Run(Bind(m, x => Bind(f(x), g)), k) {
      RunBind(Bind(m, f), g, k);
      RunBind(m, f, Resume(g, k));
      RunBind(m, x => Bind(f(x), g), k);
      forall x: A ensures Resume(f, Resume(g, k))(x) == Resume(x => Bind(f(x), g), k)(x) {
        RunBind(f(x), g, k);
      }
      ExtensionalAt(m, Resume(f, Resume(g, k)), Resume(x => Bind(f(x), g), k));
    }
  }

  lemma IsMonad<R(!new), A(!new)>()
    ensures Monad.IsMonad(
              Ret<R, A>,
              (m: Cont<R, A>, f: A -> Cont<R, A>) => Bind(m, f),
              (m: Cont<R, A>) => Extensional(m),
              (a: Cont<R, A>, b: Cont<R, A>) => Same(a, b))
  {
    var bind := (m: Cont<R, A>, f: A -> Cont<R, A>) => Bind(m, f);
    var valid := (m: Cont<R, A>) => Extensional(m);
    var same := (a: Cont<R, A>, b: Cont<R, A>) => Same(a, b);
    assert Monad.LeftIdentity(Ret<R, A>, bind, same) by {
      forall x: A, f: A -> Cont<R, A> ensures same(bind(Ret(x), f), f(x)) {
        LeftIdentity(x, f);
      }
    }
    assert Monad.RightIdentity(Ret<R, A>, bind, valid, same) by {
      forall m: Cont<R, A> | valid(m) ensures same(bind(m, Ret), m) {
        RightIdentity(m);
      }
    }
    assert Monad.Associative(bind, valid, same) by {
      forall m: Cont<R, A>, f: A -> Cont<R, A>, g: A -> Cont<R, A> | valid(m)
        ensures same(bind(bind(m, f), g), bind(m, (x: A) => bind(f(x), g)))
      {
        Associativity(m, f, g);
      }
    }
  }

  lemma RunCallCC<R, A, B>(f: (A -> Cont<R, B>) -> Cont<R, A>, h: A -> R)
    ensures Run(CallCC(f), h) == Run(f(EscapeTo(h)), h)
  {
  }

  /** Whatever is bound after an escape is discarded: the result is `h(a)`
      with any continuation. */
  lemma EscapeDiscards<R, A, B, C>(h: A -> R, a: A, g: B -> Cont<R, C>, k: C -> R)
    ensures Run(Bind(Escape(h, a), g), k) == h(a)
  {
  }

  /** A `CallCC` whose argument never uses the escape is the computation it
      returns. */
  lemma CallCCUnused<R, A, B>(m: Cont<R, A>, h: A -> R)
    ensures Run(CallCC((_: A -> Cont<R, B>) => m), h) == Run(m, h)
  {
  }

  /** The left-nested chain `m.bind(g1).bind(g2)...bind(gn)`. */
  function Chain<R, A>(m: Cont<R, A>, gs: seq<A -> Cont<R, A>>): Cont<R, A>
    decreases |gs|
  {
    if gs == [] then m else Chain(Bind(m, gs[0]), gs[1..])
  }

  /** A computation that gives `r` with every continuation keeps giving `r`
      however long a chain is bound after it: an escape discards the rest of
      the chain, not just the next step. */
  lemma {:induction false} ChainAfterEscape<R, A>(m: Cont<R, A>, gs: seq<A -> Cont<R, A>>, r: R)
    requires forall k: A -> R :: Run(m, k) == r
    ensures forall k: A -> R :: Run(Chain(m, gs), k) == r
    decreases |gs|
  {
    if gs != [] {
      ChainAfterEscape(Bind(m, gs[0]), gs[1..], r);
    }
  }

  lemma EscapeChainDiscards<R, A>(h: A -> R, a: A, gs: seq<A -> Cont<R, A>>, k: A -> R)
    ensures Run(Chain(Escape(h, a), gs), k) == h(a)
  {
    ChainAfterEscape(Escape(h, a), gs, h(a));
  }
}
