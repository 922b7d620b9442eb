/** Currying by argument accumulation: a curried function gathers positional
    arguments over one or more calls and calls the wrapped function, with
    every argument gathered, on the first call that brings the total to at
    least the wrapped function's arity. The wrapped function is modelled as
    a function of its whole argument list; its arity is given explicitly. */
module Currying {
  import opened Errors

  /** A curried function, or a partial application of one: the wrapped
      function, its arity, and the arguments gathered so far. */
  datatype Curried<!A, R> = Curried(fun: seq<A> -> R, arity: nat, gathered: seq<A>)

  /** What a call gives back: the wrapped function's result, or a further
      partial application. */
  datatype Outcome<!A, R> = Invoked(result: R) | Partial(next: Curried<A, R>)

  /** `curry(fun)`: nothing gathered yet. */
  function Curry<A, R>(fun: seq<A> -> R, arity: nat): Curried<A, R>
  {
    Curried(fun, arity, [])
  }

  /** One call with `args`. The new arguments go after the gathered ones, in
      a new sequence; once there are at least `arity` of them the wrapped
      function is called with all of them, excess included, and otherwise a
      partial application holding them comes back. */
  function Call<A, R>(c: Curried<A, R>, args: seq<A>): Outcome<A, R>
  {
    var newArgs := c.gathered + args;
    if |newArgs| >= c.arity then Invoked(c.fun(newArgs)) else Partial(Curried(c.fun, c.arity, newArgs))
  }

  /** The concatenation of argument groups. */
  function Flatten<A>(groups: seq<seq<A>>): (r: seq<A>)
    decreases |groups|
  {
    if groups == [] then [] else groups[0] + Flatten(groups[1..])
  }

  /** Successive calls `c(g1)(g2)...(gn)`, one per group, stopping at the
      first call that invokes the wrapped function: what later groups would
      be passed to is that function's result, not a curried function. */
  function Feed<A, R>(c: Curried<A, R>, groups: seq<seq<A>>): Outcome<A, R>
    decreases |groups|
  {
    if groups == [] then Partial(c)
    else match Call(c, groups[0])
         case Invoked(r) => Invoked(r)
         case Partial(next) => Feed(next, groups[1..])
  }

  /** Every group but the last leaves a partial application behind: the
      arguments of all groups but the last stay below the arity. */
  predicate OnlyLastSaturates<A, R>(c: Curried<A, R>, groups: seq<seq<A>>)
    requires groups != []
  {
    |c.gathered| + |Flatten(groups[..|groups| - 1])| < c.arity
  }

  lemma {:induction false} FlattenLength<A>(groups: seq<seq<A>>, k: nat)
    requires 1 <= k <= |groups|
    ensures |Flatten(groups[..k])| == |groups[0]| + |Flatten(groups[1..][..k - 1])|
    ensures Flatten(groups[..k]) == groups[0] + Flatten(groups[1..][..k - 1])
  {
    assert groups[..k][0] == groups[0];
    assert groups[..k][1..] == groups[1..][..k - 1];
  }

  /** While the arguments of all calls stay below the arity, the function is
      never invoked: the calls leave a partial application holding every
      argument, in the order given. */
  lemma {:induction false} FeedBelowArity<A, R>(c: Curried<A, R>, groups: seq<seq<A>>)
    requires |c.gathered| + |Flatten(groups)| < c.arity
    ensures Feed(c, groups) == Partial(Curried(c.fun, c.arity, c.gathered + Flatten(groups)))
    decreases |groups|
  {
    if groups == [] {
      assert c.gathered + [] == c.gathered;
    } else {
      var next := Curried(c.fun, c.arity, c.gathered + groups[0]);
      assert Call(c, groups[0]) == Partial(next);
      FeedBelowArity(next, groups[1..]);
      assert (c.gathered + groups[0]) + Flatten(groups[1..]) == c.gathered + Flatten(groups);
    }
  }

  /** The function runs once, at the first call whose running total of
      arguments reaches the arity, on every argument gathered up to and
      including that call; later groups are not fed to it. */
  lemma {:induction false} FeedFirstSaturating<A, R>(c: Curried<A, R>, groups: seq<seq<A>>, i: nat)
    requires i < |groups|
    requires |c.gathered| + |Flatten(groups[..i])| < c.arity <= |c.gathered| + |Flatten(groups[..i + 1])|
    ensures Feed(c, groups) == Invoked(c.fun(c.gathered + Flatten(groups[..i + 1])))
    decreases i
  {
    FlattenLength(groups, i + 1);
    if i == 0 {
      assert groups[1..][..0] == [];
      assert Flatten(groups[..1]) == groups[0] + [] == groups[0];
    } else {
      FlattenLength(groups, i);
      var next := Curried(c.fun, c.arity, c.gathered + groups[0]);
      assert Call(c, groups[0]) == Partial(next);
      assert groups[1..][..i - 1 + 1] == groups[1..][..i];
      FeedFirstSaturating(next, groups[1..], i - 1);
      assert (c.gathered + groups[0]) + Flatten(groups[1..][..i]) == c.gathered + Flatten(groups[..i + 1]);
    }
  }

  /** How the arguments are grouped over the calls does not matter: feeding
      the groups one call at a time gives what one call with all of them
      gives, as long as no group but the last already invokes the function. */
  lemma {:induction false} GroupingIrrelevant<A, R>(c: Curried<A, R>, groups: seq<seq<A>>)
    requires groups != []
    requires OnlyLastSaturates(c, groups)
    ensures Feed(c, groups) == Call(c, Flatten(groups))
    decreases |groups|
  {
    if |groups| == 1 {
      assert groups[1..] == [];
      assert Flatten(groups) == groups[0] + [] == groups[0];
      if Call(c, groups[0]).Partial? {
        assert Feed(Call(c, groups[0]).next, []) == Partial(Call(c, groups[0]).next);
      }
    } else {
      var n := |groups|;
      FlattenLength(groups, n - 1);
      var next := Curried(c.fun, c.arity, c.gathered + groups[0]);
      assert Call(c, groups[0]) == Partial(next);
      assert groups[1..][..|groups[1..]| - 1] == groups[1..][..n - 2];
      GroupingIrrelevant(next, groups[1..]);
      assert (c.gathered + groups[0]) + Flatten(groups[1..]) == c.gathered + Flatten(groups);
    }
  }

  /** A partial application is a value: calling it does not change it, so it
      can be called again with other arguments and each call sees only the
      arguments gathered before it plus its own. In the model this follows
      from value semantics and the definition of `Call`, as in the source it
      follows from building a new tuple on every call. */
  lemma PartialReusable<A, R>(c: Curried<A, R>, first: seq<A>, second: seq<A>)
    requires |c.gathered| + |first| < c.arity && |c.gathered| + |second| < c.arity
    ensures Call(c, first).next.gathered == c.gathered + first
    ensures Call(c, second).next.gathered == c.gathered + second
  {
  }

  // A Python function declared with `n` positional parameters, as a function
  // of its argument list: called with any other number of arguments it
  // raises `TypeError`.

  function Positional<A, R>(n: nat, body: seq<A> -> R): seq<A> -> Result<R>
  {
    (args: seq<A>) => if |args| == n then Ok(body(args)) else Raised(TypeError)
  }

  /** Currying a function of `n` parameters: with exactly `n` arguments over
      any grouping the body runs on them; with more in the saturating call,
      the error is the wrapped function's own `TypeError`. */
  lemma {:induction false} CurriedPositional<A, R>(n: nat, body: seq<A> -> R, groups: seq<seq<A>>)
    requires groups != []
    requires OnlyLastSaturates(Curry(Positional(n, body), n), groups)
    requires |Flatten(groups)| >= n
    ensures |Flatten(groups)| == n ==> Feed(Curry(Positional(n, body), n), groups) == Invoked(Ok(body(Flatten(groups))))
    ensures |Flatten(groups)| > n ==> Feed(Curry(Positional(n, body), n), groups) == Invoked(Raised(TypeError))
  {
    GroupingIrrelevant(Curry(Positional(n, body), n), groups);
    assert [] + Flatten(groups) == Flatten(groups);
  }
}
