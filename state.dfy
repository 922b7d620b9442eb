/** The state-threading family: a computation wraps a function from a state
    to a pair of a value and the next state. The wrapped function of the
    source may raise instead of returning (popping an empty stack does), so
    here it returns a `Result`; an exception propagates through `bind` as it
    does in the source. */
module State {
  import Monad
  import opened Errors

  datatype State<!S, V> = State(fun: S -> Result<(V, S)>)

  /** Calling a computation delegates to the stored function. */
  function Run<S, V>(m: State<S, V>, s: S): Result<(V, S)>
  {
    m.fun(s)
  }

  /** `unit(v)` returns `v` and leaves the state untouched. */
  function Unit<S, V>(v: V): State<S, V>
  {
    State(s => Ok((v, s)))
  }

  /** Coerces a computation of the family to `State`; it already is one. */
  function FromMonad<S, V>(m: State<S, V>): State<S, V>
  {
    m
  }

  /** `m.bind(f)` runs `m` on the state, then runs `f` of its value on the
      state `m` left behind; an exception from either run is the result. */
  function Bind<S, V, W>(m: State<S, V>, f: V -> State<S, W>): State<S, W>
  {
    State(s =>
      match Run(m, s)
      case Raised(e) => Raised(e)
      case Ok((x, s1)) => Run(FromMonad(f(x)), s1))
  }

  /** The operators `m >= f` and `m >> n` of this family. */
  function BindOp<S, V, W>(m: State<S, V>, f: V -> State<S, W>): State<S, W>
  {
    Monad.BindOp((a: State<S, V>, g: V -> State<S, W>) => Bind(a, g), m, f)
  }

  function ThenOp<S, V, W>(m: State<S, V>, n: State<S, W>): State<S, W>
  {
    Monad.ThenOp((a: State<S, V>, g: V -> State<S, W>) => Bind(a, g), m, n)
  }

  /** Two computations are the same when they give the same outcome on
      every state. */
  ghost predicate Same<S(!new), V>(m: State<S, V>, n: State<S, V>)
  {
    forall s: S :: Run(m, s) == Run(n, s)
  }

  lemma RunUnit<S, V>(v: V, s: S)
    ensures Run(Unit(v), s) == Ok((v, s))
  {
  }

  /** Running a bound computation is running `m` and then `f` of its value on
      the new state; it raises exactly when one of those runs raises. */
  lemma RunBind<S, V, W>(m: State<S, V>, f: V -> State<S, W>, s: S)
    ensures Run(m, s).Raised? ==> Run(Bind(m, f), s) == Raised(Run(m, s).error)
    ensures Run(m, s).Ok? ==> Run(Bind(m, f), s) == Run(f(Run(m, s).value.0), Run(m, s).value.1)
  {
  }

  lemma LeftIdentity<S(!new), V, W>(x: V, f: V -> State<S, W>)
    ensures Same(Bind(Unit(x), f), f(x))
  {
    forall s: S ensures Run(Bind(Unit(x), f), s) == Run(f(x), s) {
      RunBind(Unit(x), f, s);
    }
  }

  lemma RightIdentity<S(!new), V>(m: State<S, V>)
    ensures Same(Bind(m, Unit), m)
  {
    forall s: S ensures Run(Bind(m, Unit), s) == Run(m, s) {
      RunBind(m, Unit, s);
    }
  }

  lemma Associativity<S(!new), U, V, W>(m: State<S, U>, f: U -> State<S, V>, g: V -> State<S, W>)
    ensures Same(Bind(Bind(m, f), g), Bind(m, x => Bind(f(x), g)))
  {
    forall s: S ensures Run(Bind(Bind(m, f), g), s) == Run(Bind(m, x => Bind(f(x), g)), s) {
      RunBind(m, f, s);
      RunBind(m, x => Bind(f(x), g), s);
      RunBind(Bind(m, f), g, s);
      if Run(m, s).Ok? {
        RunBind(f(Run(m, s).value.0), g, Run(m, s).value.1);
      }
    }
  }

  lemma IsMonad<S(!new), V(!new)>()
    ensures Monad.IsMonad(
              Unit<S, V>,
              (m: State<S, V>, f: V -> State<S, V>) => Bind(m, f),
              _ => true,
              (a: State<S, V>, b: State<S, V>) => Same(a, b))
  {
    forall x: V, f: V -> State<S, V> ensures Same(Bind(Unit(x), f), f(x)) {
      LeftIdentity(x, f);
    }
    forall m: State<S, V> ensures Same(Bind(m, Unit), m) {
      RightIdentity(m);
    }
    forall m: State<S, V>, f: V -> State<S, V>, g: V -> State<S, V>
      ensures Same(Bind(Bind(m, f), g), Bind(m, x => Bind(f(x), g)))
    {
      Associativity(m, f, g);
    }
  }

  /** The then operator runs `n` on the state `m` left behind and discards
      the value of `m`. */
  lemma RunThen<S, V, W>(m: State<S, V>, n: State<S, W>, s: S)
    ensures Run(ThenOp(m, n), s) == if Run(m, s).Ok? then Run(n, Run(m, s).value.1) else Raised(Run(m, s).error)
  {
    RunBind(m, (_: V) => n, s);
  }
}
