/** The double-ended queue of `deque.py`: a Python list with pushes, pops and
    peeks at both ends, bulk extension at either end, rotation and reversal.

    The deque is an immutable value here; every mutating method of the source
    becomes a function from the old deque to the new one. Methods that can raise
    `IndexError` return a `Step` holding the deque they leave and an `Err` value.
 */
module Deques {
  import opened Outcomes
  import opened PythonList
  import opened Sequences

  /** The deque's list, leftmost element first. */
  datatype Deque<T> = Deque(items: seq<T>)

  /** `Deque()`: an empty deque. */
  function New<T>(): (d: Deque<T>)
    ensures IsEmpty(d)
  {
    Deque([])
  }

  /** `size()`: the number of elements. */
  function Size<T>(d: Deque<T>): (n: nat)
    ensures n == 0 <==> d.items == []
  {
    |d.items|
  }

  /** `is_empty()`. */
  function IsEmpty<T>(d: Deque<T>): (b: bool)
    ensures b <==> Size(d) == 0
  {
    |d.items| == 0
  }

  /** `clear()`: every element is removed. */
  function Clear<T>(d: Deque<T>): (r: Deque<T>)
    ensures IsEmpty(r)
    ensures r == New()
  {
    Deque([])
  }

  /** `push_left(item)`: `list.insert(0, item)`. */
  function PushLeft<T>(d: Deque<T>, x: T): (r: Deque<T>)
    ensures r.items == [x] + d.items
  {
    Deque(Insert(d.items, 0, x))
  }

  /** `push_right(item)`: `list.append(item)`. */
  function PushRight<T>(d: Deque<T>, x: T): (r: Deque<T>)
    ensures r.items == d.items + [x]
  {
    Deque(Append(d.items, x))
  }

  /** `pop_left()`: `IndexError` on an empty deque, otherwise `list.pop(0)`. */
  function PopLeft<T>(d: Deque<T>): (o: Step<Deque<T>, Result<T>>)
    ensures d.items == [] ==> o == Step(d, Err(EmptyContainer))
    ensures d.items != [] ==> o.out == Ok(d.items[0]) && o.after.items == d.items[1..]
  {
    if IsEmpty(d) then Step(d, Err(EmptyContainer))
    else
      var p := Pop(d.items, 0).value;
      Step(Deque(p.rest), Ok(p.value))
  }

  /** `pop_right()`: `IndexError` on an empty deque, otherwise `list.pop(-1)`. */
  function PopRight<T>(d: Deque<T>): (o: Step<Deque<T>, Result<T>>)
    ensures d.items == [] ==> o == Step(d, Err(EmptyContainer))
    ensures d.items != [] ==>
              o.out == Ok(d.items[|d.items| - 1]) && o.after.items == d.items[..|d.items| - 1]
  {
    if IsEmpty(d) then Step(d, Err(EmptyContainer))
    else
      var p := Pop(d.items, -1).value;
      Step(Deque(p.rest), Ok(p.value))
  }

  /** `peek_left()`: the leftmost element, `IndexError` on an empty deque. */
  function PeekLeft<T>(d: Deque<T>): (r: Result<T>)
    ensures d.items == [] ==> r == Err(EmptyContainer)
    ensures d.items != [] ==> r == Ok(d.items[0])
  {
    if IsEmpty(d) then Err(EmptyContainer) else Get(d.items, 0)
  }

  /** `peek_right()`: the rightmost element, `IndexError` on an empty deque. */
  function PeekRight<T>(d: Deque<T>): (r: Result<T>)
    ensures d.items == [] ==> r == Err(EmptyContainer)
    ensures d.items != [] ==> r == Ok(d.items[|d.items| - 1])
  {
    if IsEmpty(d) then Err(EmptyContainer) else Get(d.items, -1)
  }

  /** `extend(items)`: `push_right` of each input element in turn. */
  function Extend<T>(d: Deque<T>, xs: seq<T>): (r: Deque<T>)
    ensures r.items == d.items + xs
    decreases |xs|
  {
    if xs == [] then d
    else
      assert xs == [xs[0]] + xs[1..];
      Extend(PushRight(d, xs[0]), xs[1..])
  }

  /** `extend_left(items)`: `push_left` of each input element in turn, so the
      input ends up reversed in front of the old contents. */
  function ExtendLeft<T>(d: Deque<T>, xs: seq<T>): (r: Deque<T>)
    ensures r.items == Rev(xs) + d.items
    decreases |xs|
  {
    if xs == [] then d
    else ExtendLeft(PushLeft(d, xs[0]), xs[1..])
  }

  /** `reverse()`: `list.reverse()`. */
  function Reverse<T>(d: Deque<T>): (r: Deque<T>)
    ensures |r.items| == |d.items|
    ensures forall i :: 0 <= i < |d.items| ==> r.items[i] == d.items[|d.items| - 1 - i]
  {
    Deque(Rev(d.items))
  }

  /** What `rotate(k)` leaves, as slices: nothing happens to an empty deque;
      otherwise the last `k % n` elements (Python's `%`) move to the front. */
  function RotateSpec<T>(d: Deque<T>, k: int): (r: Deque<T>)
    ensures d.items == [] ==> r == d
    ensures |r.items| == |d.items|
    ensures multiset(r.items) == multiset(d.items)
  {
    var n := |d.items|;
    if n == 0 then d
    else
      RotateRightPermutes(d.items, Mod(k, n));
      Deque(RotateRight(d.items, Mod(k, n)))
  }

  /** `rotate(k)`: reduce `k` modulo the size, then move the last element to the
      front that many times. The source's branch for a negative remainder cannot
      be taken, because Python's `%` by a positive size is never negative. */
  method Rotate<T>(d: Deque<T>, k: int) returns (r: Deque<T>)
    ensures r == RotateSpec(d, k)
  {
    var n := Size(d);
    if n == 0 {
      return d;
    }
    var m := Mod(k, n);
    var items := d.items;
    if m > 0 {
      var i := 0;
      while i < m
        invariant 0 <= i <= m
        invariant items == RotateRight(d.items, i)
      {
        PopLast(items);
        var p := Pop(items, -1).value;
        InsertFront(p.rest, p.value);
        RotateRightStep(d.items, i);
        items := Insert(p.rest, 0, p.value);
        i := i + 1;
      }
    } else if m < 0 {
      assert false;
    } else {
      RotateRightTrivial(d.items);
    }
    r := Deque(items);
  }

  // ---- Properties relating the operations ----

  /** A push followed by a pop at the same end returns the pushed element and
      restores the deque; a peek after a push sees the pushed element. */
  lemma PushThenPop<T>(d: Deque<T>, x: T)
    ensures PopLeft(PushLeft(d, x)) == Step(d, Ok(x))
    ensures PopRight(PushRight(d, x)) == Step(d, Ok(x))
    ensures PeekLeft(PushLeft(d, x)) == Ok(x)
    ensures PeekRight(PushRight(d, x)) == Ok(x)
    ensures Size(PushLeft(d, x)) == Size(PushRight(d, x)) == Size(d) + 1
  {
    assert ([x] + d.items)[1..] == d.items;
    assert (d.items + [x])[..|d.items|] == d.items;
  }

  /** A successful pop followed by a push of the popped element at the same end
      restores the deque, and the pop agrees with the peek at that end. */
  lemma PopThenPush<T>(d: Deque<T>)
    requires !IsEmpty(d)
    ensures PopLeft(d).out == PeekLeft(d)
    ensures PopRight(d).out == PeekRight(d)
    ensures PushLeft(PopLeft(d).after, PopLeft(d).out.value) == d
    ensures PushRight(PopRight(d).after, PopRight(d).out.value) == d
    ensures Size(PopLeft(d).after) == Size(PopRight(d).after) == Size(d) - 1
  {
    assert [d.items[0]] + d.items[1..] == d.items;
    assert d.items[..|d.items| - 1] + [d.items[|d.items| - 1]] == d.items;
  }

  /** A new or cleared deque fails every end access with `IndexError` and leaves
      itself unchanged. */
  lemma EmptyAccessFails<T>(d: Deque<T>)
    ensures var c := Clear(d);
            && PopLeft(c) == Step(c, Err(EmptyContainer))
            && PopRight(c) == Step(c, Err(EmptyContainer))
            && PeekLeft(c) == Err(EmptyContainer)
            && PeekRight(c) == Err(EmptyContainer)
  {
  }

  /** Reversal is an involution. */
  lemma ReverseInvolution<T>(d: Deque<T>)
    ensures Reverse(Reverse(d)) == d
  {
    RevRev(d.items);
  }

  /** Reversal keeps the multiset of elements. */
  lemma ReversePermutes<T>(d: Deque<T>)
    ensures multiset(Reverse(d).items) == multiset(d.items)
  {
    RevMultiset(d.items);
  }

  /** `extend_left` is `extend` seen in a mirror: reverse, extend on the right,
      reverse back. */
  lemma ExtendLeftMirrorsExtend<T>(d: Deque<T>, xs: seq<T>)
    ensures ExtendLeft(d, xs) == Reverse(Extend(Reverse(d), xs))
  {
    RevAppend(Rev(d.items), xs);
    RevRev(d.items);
  }

  /** Where `rotate(k)` sends each element: index `j` moves to `(j + k) % n`. */
  lemma RotateMovesIndex<T>(d: Deque<T>, k: int, j: int)
    requires 0 <= j < |d.items|
    ensures RotateSpec(d, k).items[Mod(j + k, |d.items|)] == d.items[j]
  {
    var n := |d.items|;
    ModAddIndex(k, n, j);
    RotateRightIndex(d.items, Mod(k, n), j);
  }

  /** A negative `k` rotates left: the first `-k % n` elements move to the back. */
  lemma RotateNegativeIsLeft<T>(d: Deque<T>, k: int)
    requires k < 0
    requires d.items != []
    ensures RotateSpec(d, k).items == RotateLeft(d.items, Mod(-k, |d.items|))
  {
    var n, j := |d.items|, -k;
    assert k == -j;
    ModNegate(j, n);
    var r, m := Mod(k, n), Mod(j, n);
    if m == 0 {
      RotateRightTrivial(d.items);
      assert RotateLeft(d.items, 0) == d.items;
    } else {
      RotateRightIsLeft(d.items, r);
    }
  }

  /** Only `k` modulo the size matters: rotating by `k + n` is rotating by `k`. */
  lemma RotatePeriodic<T>(d: Deque<T>, k: int)
    ensures RotateSpec(d, k + |d.items|) == RotateSpec(d, k)
  {
    var n := |d.items|;
    if n > 0 {
      var q, r := FloorDiv(k, n), Mod(k, n);
      assert k + n == (q + 1) * n + r;
      ModUnique(k + n, n, q + 1, r);
    }
  }

  /** `rotate(k)` followed by `rotate(-k)` restores the deque. */
  lemma RotateInverse<T>(d: Deque<T>, k: int)
    ensures RotateSpec(RotateSpec(d, k), -k) == d
  {
    var n := |d.items|;
    if n > 0 {
      var r := Mod(k, n);
      var t := RotateRight(d.items, r);
      ModNegate(k, n);
      RotateRightTrivial(d.items);
      RotateRightTrivial(t);
      if r != 0 {
        RotateRightIsLeft(t, n - r);
        RotateRightThenLeft(d.items, r);
      }
    }
  }

  /** The rotation examples of the source's documentation: `[1, 2, 3, 4]`
      rotated by 1 and by -1. */
  lemma RotateExamples()
    ensures RotateSpec(Deque([1, 2, 3, 4]), 1).items == [4, 1, 2, 3]
    ensures RotateSpec(Deque([1, 2, 3, 4]), -1).items == [2, 3, 4, 1]
  {
    RotateOneRight();
    RotateOneLeft();
  }

  lemma RotateOneRight()
    ensures RotateSpec(Deque([1, 2, 3, 4]), 1).items == [4, 1, 2, 3]
  {
    ModUnique(1, 4, 0, 1);
    assert RotateRight([1, 2, 3, 4], 1) == [4] + [1, 2, 3];
  }

  lemma RotateOneLeft()
    ensures RotateSpec(Deque([1, 2, 3, 4]), -1).items == [2, 3, 4, 1]
  {
    ModUnique(-1, 4, -1, 3);
    assert RotateRight([1, 2, 3, 4], 3) == [2, 3, 4] + [1];
  }

  lemma RotateTwoLeft()
    ensures RotateSpec(Deque([4, 1, 2, 3]), -2).items == [2, 3, 4, 1]
  {
    ModUnique(-2, 4, -1, 2);
    assert RotateRight([4, 1, 2, 3], 2) == [2, 3] + [4, 1];
  }

  /** The reversal example of the demonstration script. */
  lemma ReverseExample()
    ensures Reverse(Deque([2, 3, 4, 1])).items == [1, 4, 3, 2]
  {
  }

  /** The opening of the demonstration script: push 1, 2, 3 on the right of a
      new deque, then 0 on the left. */
  method DemoPushes() returns (dq: Deque<int>)
    ensures dq == Deque([0, 1, 2, 3])
  {
    dq := New<int>();
    dq := PushRight(dq, 1);
    dq := PushRight(dq, 2);
    dq := PushRight(dq, 3);
    assert dq == Deque([1, 2, 3]);
    dq := PushLeft(dq, 0);
  }

  /** The first half of the demonstration script: after the pushes, pop one
      element from each end. */
  method DemoPushPop() returns (left: int, right: int, dq: Deque<int>)
    ensures left == 0 && right == 3
    ensures dq == Deque([1, 2])
  {
    dq := DemoPushes();
    var s := PopLeft(dq);
    left, dq := s.out.value, s.after;
    assert dq == Deque([1, 2, 3]);
    s := PopRight(dq);
    right, dq := s.out.value, s.after;
  }

  /** The whole demonstration script: after the pushes and pops, extend by
      [3, 4], rotate by 1 and by -2, and reverse. */
  method DemoTrace() returns (left: int, right: int, last: seq<int>)
    ensures left == 0 && right == 3
    ensures last == [1, 4, 3, 2]
  {
    var dq;
    left, right, dq := DemoPushPop();
    dq := Extend(dq, [3, 4]);
    assert dq == Deque([1, 2, 3, 4]);
    RotateOneRight();
    dq := Rotate(dq, 1);
    RotateTwoLeft();
    dq := Rotate(dq, -2);
    ReverseExample();
    dq := Reverse(dq);
    last := dq.items;
  }
}
