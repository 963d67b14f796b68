/** The LIFO stack of `stack.py`: a Python list that grows and shrinks at the back.

    Unlike the deque and the queue, `pop` and `peek` on an empty stack do not
    raise: they return `None` and leave the stack as it was. The model returns
    `Option.None` in that case.
 */
module Stacks {
  import opened Outcomes
  import opened PythonList
  import opened Sequences

  /** The stack's list, bottom element first, top element last. */
  datatype Stack<T> = Stack(items: seq<T>)

  /** `Stack()`: an empty stack. */
  function New<T>(): (st: Stack<T>)
    ensures IsEmpty(st)
  {
    Stack([])
  }

  /** `size()`: the number of stacked elements. */
  function Size<T>(st: Stack<T>): (n: nat)
    ensures n == 0 <==> st.items == []
  {
    |st.items|
  }

  /** `is_empty()`. */
  function IsEmpty<T>(st: Stack<T>): (b: bool)
    ensures b <==> Size(st) == 0
  {
    |st.items| == 0
  }

  /** `clear()`: the list is replaced by a new empty one. */
  function Clear<T>(st: Stack<T>): (r: Stack<T>)
    ensures IsEmpty(r)
    ensures r == New()
  {
    Stack([])
  }

  /** `push(item)`: `list.append(item)`. */
  function Push<T>(st: Stack<T>, x: T): (r: Stack<T>)
    ensures r.items == st.items + [x]
  {
    Stack(Append(st.items, x))
  }

  /** `pop()`: `list.pop()` on a non-empty stack; `None`, with the stack
      untouched, on an empty one. */
  function Pop<T>(st: Stack<T>): (o: Step<Stack<T>, Option<T>>)
    ensures st.items == [] ==> o == Step(st, None)
    ensures st.items != [] ==>
              o.out == Some(st.items[|st.items| - 1]) && o.after.items == st.items[..|st.items| - 1]
  {
    if !IsEmpty(st) then
      var p := PythonList.Pop(st.items, -1).value;
      Step(Stack(p.rest), Some(p.value))
    else Step(st, None)
  }

  /** `peek()`: the top element, or `None` on an empty stack. */
  function Peek<T>(st: Stack<T>): (r: Option<T>)
    ensures st.items == [] ==> r == None
    ensures st.items != [] ==> r == Some(st.items[|st.items| - 1])
  {
    if !IsEmpty(st) then Some(Get(st.items, -1).value) else None
  }

  /** `push` of each element of `xs` in turn. */
  function PushAll<T>(st: Stack<T>, xs: seq<T>): (r: Stack<T>)
    ensures r.items == st.items + xs
    decreases |xs|
  {
    if xs == [] then st
    else
      assert xs == [xs[0]] + xs[1..];
      PushAll(Push(st, xs[0]), xs[1..])
  }

  /** `pop` called `n` times in a row: the stack left behind and the value of
      each call, in call order. */
  function PopTimes<T>(st: Stack<T>, n: nat): (r: Step<Stack<T>, seq<Option<T>>>)
    ensures |r.out| == n
    decreases n
  {
    if n == 0 then Step(st, [])
    else
      var s := Pop(st);
      var rest := PopTimes(s.after, n - 1);
      Step(rest.after, [s.out] + rest.out)
  }

  // ---- Properties relating the operations ----

  /** `push(x)` followed by `pop()` returns `x` and restores the stack; `peek`
      after `push(x)` sees `x`. */
  lemma PushThenPop<T>(st: Stack<T>, x: T)
    ensures Pop(Push(st, x)) == Step(st, Some(x))
    ensures Peek(Push(st, x)) == Some(x)
    ensures Size(Push(st, x)) == Size(st) + 1
  {
    assert (st.items + [x])[..|st.items|] == st.items;
  }

  /** On a non-empty stack, `pop` agrees with `peek`, and pushing the popped
      value back restores the stack. */
  lemma PopThenPush<T>(st: Stack<T>)
    requires !IsEmpty(st)
    ensures Pop(st).out == Peek(st)
    ensures Push(Pop(st).after, Pop(st).out.value) == st
    ensures Size(Pop(st).after) == Size(st) - 1
  {
    assert st.items[..|st.items| - 1] + [st.items[|st.items| - 1]] == st.items;
  }

  /** A new or cleared stack answers `pop` and `peek` with `None` and is left
      unchanged: no `IndexError` is raised. */
  lemma EmptyAccessReturnsNone<T>(st: Stack<T>)
    ensures Pop(Clear(st)) == Step(Clear(st), None)
    ensures Peek(Clear(st)) == None
  {
  }

  /** Popping a stack as many times as it has elements returns them top first
      and empties it. */
  lemma {:induction false} DrainTopFirst<T>(st: Stack<T>)
    ensures PopTimes(st, |st.items|).after == New()
    ensures forall i :: 0 <= i < |st.items| ==>
              PopTimes(st, |st.items|).out[i] == Some(st.items[|st.items| - 1 - i])
    decreases |st.items|
  {
    if st.items != [] {
      var s := Pop(st);
      DrainTopFirst(s.after);
    }
  }

  /** Pushing `xs` on an empty stack gives the stack that holds exactly `xs`. */
  lemma PushAllFromEmpty<T>(xs: seq<T>)
    ensures PushAll(New(), xs) == Stack(xs)
  {
  }

  /** LIFO: pushing `xs` on an empty stack and popping `|xs|` times returns `xs`
      reversed and leaves the stack empty. */
  lemma Lifo<T>(xs: seq<T>)
    ensures PopTimes(PushAll(New(), xs), |xs|).after == New()
    ensures forall i :: 0 <= i < |xs| ==> PopTimes(PushAll(New(), xs), |xs|).out[i] == Some(Rev(xs)[i])
  {
    PushAllFromEmpty(xs);
    DrainTopFirst(Stack(xs));
  }
}
