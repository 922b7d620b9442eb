/** Stack actions in the state family: the state is a stack, kept as a
    sequence whose last element is the top. Each action builds a new
    sequence; none changes the stack it is given. */
module StackState {
  import opened Errors
  import State

  type Stack<T> = seq<T>

  /** Pushes `v`; the value is the unit value, Python's `None`. */
  function Push<T>(v: T): State.State<Stack<T>, ()>
  {
    State.State((stack: Stack<T>) => Ok(((), stack + [v])))
  }

  /** Pops the top. Indexing the last element of an empty tuple raises
      `IndexError`. */
  function Pop<T>(): State.State<Stack<T>, T>
  {
    State.State((stack: Stack<T>) =>
      if |stack| == 0 then Raised(IndexError) else Ok((stack[|stack| - 1], stack[..|stack| - 1])))
  }

  /** Reads the top and leaves the stack as it is; raises `IndexError` on an
      empty stack. */
  function Top<T>(): State.State<Stack<T>, T>
  {
    State.State((stack: Stack<T>) =>
      if |stack| == 0 then Raised(IndexError) else Ok((stack[|stack| - 1], stack)))
  }

  lemma RunPush<T>(v: T, stack: Stack<T>)
    ensures State.Run(Push(v), stack) == Ok(((), stack + [v]))
  {
  }

  /** Popping succeeds exactly on a non-empty stack, and then the stack is the
      rest followed by the popped value. */
  lemma RunPop<T>(stack: Stack<T>)
    ensures State.Run(Pop(), stack).Ok? <==> |stack| > 0
    ensures State.Run(Pop(), stack).Raised? ==> State.Run(Pop(), stack).error == IndexError
    ensures State.Run(Pop(), stack).Ok? ==>
              var (top, rest) := State.Run(Pop(), stack).value;
              rest + [top] == stack
  {
  }

  /** `top` gives the value `pop` would give and leaves the stack unchanged;
      on an empty stack it raises `IndexError`, as `pop` does. */
  lemma RunTop<T>(stack: Stack<T>)
    ensures State.Run(Top(), stack).Ok? <==> State.Run(Pop(), stack).Ok?
    ensures State.Run(Top(), stack).Raised? ==> State.Run(Top(), stack) == Raised(IndexError)
    ensures State.Run(Top(), stack).Ok? ==>
              State.Run(Top(), stack).value == (State.Run(Pop(), stack).value.0, stack)
  {
  }

  /** Pushing and then popping gives back the pushed value and the original
      stack. */
  lemma PushThenPop<T>(v: T, stack: Stack<T>)
    ensures State.Run(State.Bind(Push(v), (_: ()) => Pop()), stack) == Ok((v, stack))
  {
    State.RunBind(Push(v), (_: ()) => Pop<T>(), stack);
    assert (stack + [v])[..|stack|] == stack;
  }

  /** Popping and pushing the popped value back leaves a non-empty stack as
      it was. */
  lemma PopThenPush<T>(stack: Stack<T>)
    requires |stack| > 0
    ensures State.Run(State.Bind(Pop(), (x: T) => Push(x)), stack) == Ok(((), stack))
  {
    State.RunBind(Pop(), (x: T) => Push(x), stack);
    assert stack[..|stack| - 1] + [stack[|stack| - 1]] == stack;
  }
}
