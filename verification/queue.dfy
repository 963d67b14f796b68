/** The FIFO queue of `queue.py`: a Python list that grows at the back and is
    consumed from the front. `dequeue` and `peek` raise `IndexError` when the
    queue is empty.
 */
module Queues {
  import opened Outcomes
  import opened PythonList
  import Deques

  /** The queue's list, front (oldest) element first. */
  datatype Queue<T> = Queue(items: seq<T>)

  /** `Queue()`: an empty queue. */
  function New<T>(): (q: Queue<T>)
    ensures IsEmpty(q)
  {
    Queue([])
  }

  /** `size()`: the number of waiting elements. */
  function Size<T>(q: Queue<T>): (n: nat)
    ensures n == 0 <==> q.items == []
  {
    |q.items|
  }

  /** `is_empty()`. */
  function IsEmpty<T>(q: Queue<T>): (b: bool)
    ensures b <==> Size(q) == 0
  {
    |q.items| == 0
  }

  /** `clear()`: every element is removed. */
  function Clear<T>(q: Queue<T>): (r: Queue<T>)
    ensures IsEmpty(r)
    ensures r == New()
  {
    Queue([])
  }

  /** `enqueue(item)`: `list.append(item)`. */
  function Enqueue<T>(q: Queue<T>, x: T): (r: Queue<T>)
    ensures r.items == q.items + [x]
  {
    Queue(Append(q.items, x))
  }

  /** `dequeue()`: `IndexError` on an empty queue, otherwise `list.pop(0)`. */
  function Dequeue<T>(q: Queue<T>): (o: Step<Queue<T>, Result<T>>)
    ensures q.items == [] ==> o == Step(q, Err(EmptyContainer))
    ensures q.items != [] ==> o.out == Ok(q.items[0]) && o.after.items == q.items[1..]
  {
    if IsEmpty(q) then Step(q, Err(EmptyContainer))
    else
      var p := Pop(q.items, 0).value;
      Step(Queue(p.rest), Ok(p.value))
  }

  /** `peek()`: the front element, `IndexError` on an empty queue. */
  function Peek<T>(q: Queue<T>): (r: Result<T>)
    ensures q.items == [] ==> r == Err(EmptyContainer)
    ensures q.items != [] ==> r == Ok(q.items[0])
  {
    if IsEmpty(q) then Err(EmptyContainer) else Get(q.items, 0)
  }

  /** `enqueue` of each element of `xs` in turn. */
  function EnqueueAll<T>(q: Queue<T>, xs: seq<T>): (r: Queue<T>)
    ensures r.items == q.items + xs
    decreases |xs|
  {
    if xs == [] then q
    else
      assert xs == [xs[0]] + xs[1..];
      EnqueueAll(Enqueue(q, xs[0]), xs[1..])
  }

  /** `dequeue` called `n` times in a row: the queue left behind and the
      outcome of each call, in call order. */
  function DequeueTimes<T>(q: Queue<T>, n: nat): (r: Step<Queue<T>, seq<Result<T>>>)
    ensures |r.out| == n
    decreases n
  {
    if n == 0 then Step(q, [])
    else
      var s := Dequeue(q);
      var rest := DequeueTimes(s.after, n - 1);
      Step(rest.after, [s.out] + rest.out)
  }

  // ---- Properties relating the operations ----

  /** Dequeuing a queue as many times as it has elements returns them front
      first and empties it. */
  lemma {:induction false} DrainInOrder<T>(q: Queue<T>)
    ensures DequeueTimes(q, |q.items|).after == New()
    ensures forall i :: 0 <= i < |q.items| ==> DequeueTimes(q, |q.items|).out[i] == Ok(q.items[i])
    decreases |q.items|
  {
    if q.items != [] {
      var s := Dequeue(q);
      DrainInOrder(s.after);
    }
  }

  /** Enqueueing `xs` on an empty queue gives the queue that holds exactly `xs`. */
  lemma EnqueueAllFromEmpty<T>(xs: seq<T>)
    ensures EnqueueAll(New(), xs) == Queue(xs)
  {
  }

  /** FIFO: enqueueing `xs` on an empty queue and dequeuing `|xs|` times returns
      `xs` in the same order and leaves the queue empty. */
  lemma Fifo<T>(xs: seq<T>)
    ensures DequeueTimes(EnqueueAll(New(), xs), |xs|).after == New()
    ensures forall i :: 0 <= i < |xs| ==> DequeueTimes(EnqueueAll(New(), xs), |xs|).out[i] == Ok(xs[i])
  {
    EnqueueAllFromEmpty(xs);
    DrainInOrder(Queue(xs));
  }

  /** An element enqueued on an empty queue is the next one out; on a non-empty
      queue, enqueueing commutes with dequeuing. `enqueue` adds one to the size
      and a successful `dequeue` removes one. */
  lemma EnqueueThenDequeue<T>(q: Queue<T>, x: T)
    ensures IsEmpty(q) ==> Dequeue(Enqueue(q, x)) == Step(q, Ok(x))
    ensures IsEmpty(q) ==> Peek(Enqueue(q, x)) == Ok(x)
    ensures !IsEmpty(q) ==> Dequeue(Enqueue(q, x)).out == Dequeue(q).out
    ensures !IsEmpty(q) ==> Dequeue(Enqueue(q, x)).after == Enqueue(Dequeue(q).after, x)
    ensures Size(Enqueue(q, x)) == Size(q) + 1
    ensures !IsEmpty(q) ==> Size(Dequeue(q).after) == Size(q) - 1
  {
    if !IsEmpty(q) {
      assert (q.items + [x])[1..] == q.items[1..] + [x];
    }
  }

  /** A new or cleared queue fails `dequeue` and `peek` with `IndexError` and
      leaves itself unchanged. */
  lemma EmptyAccessFails<T>(q: Queue<T>)
    ensures Dequeue(Clear(q)) == Step(Clear(q), Err(EmptyContainer))
    ensures Peek(Clear(q)) == Err(EmptyContainer)
  {
  }

  /** The queue behaves as a deque used at one end for each direction:
      `enqueue` is `push_right`, `dequeue` is `pop_left`, `peek` is `peek_left`. */
  lemma QueueIsRestrictedDeque<T>(q: Queue<T>, x: T)
    ensures Enqueue(q, x).items == Deques.PushRight(Deques.Deque(q.items), x).items
    ensures Dequeue(q).out == Deques.PopLeft(Deques.Deque(q.items)).out
    ensures Dequeue(q).after.items == Deques.PopLeft(Deques.Deque(q.items)).after.items
    ensures Peek(q) == Deques.PeekLeft(Deques.Deque(q.items))
  {
  }
}
