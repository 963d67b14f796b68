# Linear containers of the game platform backend

This project models the three list-backed containers of the backend's
`src/core/datastructures` package and proves their contracts in Dafny:

- the **deque** (`deque.py`): push, pop and peek at both ends, `extend`,
  `extend_left`, `rotate(k)` and `reverse`;
- the **FIFO queue** (`queue.py`): `enqueue`, `dequeue`, `peek`;
- the **LIFO stack** (`stack.py`): `push`, `pop`, `peek`.

Each also has `is_empty`, `size` and `clear`. Each container holds a Python
`list`. In the model it is an immutable datatype wrapping a `seq`. Every
mutating method becomes a function from the old container to the new one.

A call that can raise `IndexError` returns a `Step(after, out)`. `after` is the
container left behind and `out` is `Ok(value)` or `Err(EmptyContainer)`. So
"a failed call changes nothing" is stated as `after == before`. The stack never
raises: on an empty stack its `pop` and `peek` return `None`, modelled as
`Option.None`.

The container functions use the same list primitives as the source. These are
modelled in `PythonList`:

- `append`;
- `insert(i, x)`, which clamps an out-of-range position;
- `pop(i)`, with negative indices counted from the end;
- subscription `s[i]`;
- Python's floor-rounding `%`, written with a helper for the floor quotient.

`Sequences` gives the reference definitions that the contracts are stated
against: reversal `Rev`, and the slice-based rotations `RotateRight` and
`RotateLeft`.

`rotate(k)` is modelled twice:

- `Deques.Rotate` is a method with the source's loop. It reduces `k` with
  Python's `%`, then pops the last element and inserts it at the front, that
  many times.
- `Deques.RotateSpec` is the slice-based definition.

A loop invariant proves the two equal. The source's `elif k < 0` branch can
never run, because Python's `%` by a positive size is never negative. In the
method that branch is a verified `assert false`.

Where the code and its own documentation disagree, the model follows the code:

- The stack returns `None` on an empty `pop` or `peek`. Its docstrings
  (`stack.py:49`, `stack.py:60`) say `IndexError`.
- The deque's module docstring (`deque.py:5`) claims O(1) insertion and removal
  at both ends. The code shifts the whole list on front operations, through
  `list.insert(0, …)` and `list.pop(0)`. Cost is not modelled.

The queue and the stack each keep a list of their own; neither uses the deque.
`Queues.QueueIsRestrictedDeque` proves that the queue still behaves as a deque
used at one end for each direction.

## Model

| member | source | states |
|---|---|---|
| PythonList.Mod | src/core/datastructures/deque.py:175 | Python's `%`: for a positive divisor the remainder lies in `[0, b)` and agrees with the Euclidean remainder; for a negative divisor it lies in `(b, 0]` and is the negated Euclidean remainder of `-a` by `-b` |
| PythonList.Append | src/core/datastructures/deque.py:59 | `list.append(x)` grows the list by one, keeps every old element at its index and puts `x` last |
| PythonList.Insert | src/core/datastructures/deque.py:50 | `list.insert(i, x)` grows the list by one; for `0 <= i <= len`, `x` lands at `i`, and for `-len < i < 0` at `len + i`, with the old elements in order around it; a position past either end puts `x` at that end |
| PythonList.Get | src/core/datastructures/deque.py:103 | `s[i]` succeeds exactly for `-len <= i < len`; a non-negative `i` reads `s[i]`, a negative one reads `s[len + i]`; otherwise `IndexError` |
| PythonList.Pop | src/core/datastructures/deque.py:70 | `list.pop(i)` succeeds exactly for `-len <= i < len`; it returns the element `s[i]` reads and leaves the other elements in order; an empty list gives the empty-container error |
| PythonList.InsertFront | src/core/datastructures/deque.py:50 | `insert(0, x)` puts `x` in front of the whole list |
| PythonList.PopFront | src/core/datastructures/deque.py:70 | `pop(0)` on a non-empty list returns the first element and leaves the tail |
| PythonList.PopLast | src/core/datastructures/deque.py:178 | `pop()` on a non-empty list returns the last element and leaves the prefix |
| PythonList.PopThenInsert | src/core/datastructures/deque.py:178-179 | inserting a popped element back at the position it was popped from restores the list |
| Sequences.Rev | src/core/datastructures/deque.py:196 | the reversed list has the same length and holds at index `i` the element at `len - 1 - i` |
| Sequences.RevRev | src/core/datastructures/deque.py:186-196 | reversing twice gives back the original sequence |
| Sequences.RevMultiset | src/core/datastructures/deque.py:186-196 | reversing keeps every element with its multiplicity |
| Sequences.RotateRightPermutes | src/core/datastructures/deque.py:177-179 | moving the last `r` elements to the front keeps the length and the multiset of elements |
| Sequences.RotateRightThenLeft | src/core/datastructures/deque.py:175-183 | a right rotation by `r` followed by a left rotation by `r` restores the sequence |
| Sequences.RotateRightStep | src/core/datastructures/deque.py:177-179 | taking the last element of a right rotation by `i` and putting it in front gives the right rotation by `i + 1` |
| Deques.New | src/core/datastructures/deque.py:35-41 | a new deque is empty |
| Deques.Size | src/core/datastructures/deque.py:113-119 | the size is zero exactly when the deque holds no element |
| Deques.IsEmpty | src/core/datastructures/deque.py:105-111 | `is_empty()` holds exactly when `size()` is 0 |
| Deques.Clear | src/core/datastructures/deque.py:121-127 | after `clear()` the deque is empty and equal to a new one |
| Deques.PushLeft | src/core/datastructures/deque.py:43-50 | the pushed item becomes the leftmost element in front of the old contents |
| Deques.PushRight | src/core/datastructures/deque.py:52-59 | the pushed item becomes the rightmost element after the old contents |
| Deques.PopLeft | src/core/datastructures/deque.py:61-70 | on a non-empty deque returns the leftmost element and leaves the rest in order; on an empty one fails with `IndexError` and leaves the deque unchanged |
| Deques.PopRight | src/core/datastructures/deque.py:72-81 | on a non-empty deque returns the rightmost element and leaves the prefix; on an empty one fails with `IndexError` and leaves the deque unchanged |
| Deques.PeekLeft | src/core/datastructures/deque.py:83-92 | returns the leftmost element, or `IndexError` on an empty deque |
| Deques.PeekRight | src/core/datastructures/deque.py:94-103 | returns the rightmost element, or `IndexError` on an empty deque |
| Deques.Extend | src/core/datastructures/deque.py:131-142 | pushing each input element on the right yields the old contents followed by the input in its order |
| Deques.ExtendLeft | src/core/datastructures/deque.py:144-157 | pushing each input element on the left yields the reversed input followed by the old contents, so the input's last element is leftmost |
| Deques.Reverse | src/core/datastructures/deque.py:186-196 | the reversed deque has the same size and holds at index `i` the element at `size - 1 - i` |
| Deques.RotateSpec | src/core/datastructures/deque.py:159-183 | the slice-based rotation leaves an empty deque as it is and otherwise keeps the size and the multiset of elements |
| Deques.Rotate | src/core/datastructures/deque.py:171-183 | the pop-and-insert loop, after reducing `k` with Python's `%`, yields the slice-based rotation (no change on an empty deque, else the last `k % n` elements moved to the front); the negative-remainder branch is unreachable |
| Deques.PushThenPop | src/core/datastructures/deque.py:43-81 | a push followed by a pop at the same end returns the pushed item and restores the deque; a peek after a push sees the item; a push grows the size by one |
| Deques.PopThenPush | src/core/datastructures/deque.py:43-103 | on a non-empty deque a pop returns what the peek at that end returns, pushing it back restores the deque, and the size drops by one |
| Deques.EmptyAccessFails | src/core/datastructures/deque.py:61-127 | on a cleared deque all four end accesses fail with `IndexError` and leave it unchanged |
| Deques.ReverseInvolution | src/core/datastructures/deque.py:186-196 | reversing twice restores the deque |
| Deques.ReversePermutes | src/core/datastructures/deque.py:186-196 | reversing keeps the multiset of elements |
| Deques.ExtendLeftMirrorsExtend | src/core/datastructures/deque.py:131-157 | `extend_left` equals reversing, extending on the right and reversing back |
| Deques.RotateMovesIndex | src/core/datastructures/deque.py:159-183 | `rotate(k)` moves the element at index `j` to index `(j + k) % n` |
| Deques.RotateNegativeIsLeft | src/core/datastructures/deque.py:168 | for negative `k`, rotation moves the first `-k % n` elements to the back in order |
| Deques.RotatePeriodic | src/core/datastructures/deque.py:175 | because `k` is reduced modulo the size, rotating by `k + n` equals rotating by `k` |
| Deques.RotateInverse | src/core/datastructures/deque.py:159-183 | `rotate(k)` followed by `rotate(-k)` restores the deque, empty or not |
| Deques.RotateExamples | src/core/datastructures/deque.py:163-166 | `[1, 2, 3, 4]` rotated by 1 is `[4, 1, 2, 3]` and by -1 is `[2, 3, 4, 1]` |
| Deques.ReverseExample | src/core/datastructures/dequetesting.py:25-26 | `[2, 3, 4, 1]` reversed is `[1, 4, 3, 2]` |
| Deques.RotateTwoLeft | src/core/datastructures/dequetesting.py:22-23 | `[4, 1, 2, 3]` rotated by -2 is `[2, 3, 4, 1]` |
| Deques.DemoPushes | src/core/datastructures/dequetesting.py:3-10 | pushing 1, 2, 3 on the right of a new deque and 0 on the left gives `[0, 1, 2, 3]` |
| Deques.DemoPushPop | src/core/datastructures/dequetesting.py:3-14 | after the pushes, `pop_left` returns 0, `pop_right` returns 3, and `[1, 2]` remains |
| Deques.DemoTrace | src/core/datastructures/dequetesting.py:3-26 | the demonstration script pops 0 on the left and 3 on the right, and ends with `[1, 4, 3, 2]` |
| Queues.New | src/core/datastructures/queue.py:24-30 | a new queue is empty |
| Queues.Size | src/core/datastructures/queue.py:72-78 | the size is zero exactly when the queue holds no element; with `Queues.EnqueueThenDequeue` it counts the elements |
| Queues.IsEmpty | src/core/datastructures/queue.py:64-70 | `is_empty()` holds exactly when `size()` is 0 |
| Queues.Clear | src/core/datastructures/queue.py:80-86 | after `clear()` the queue is empty and equal to a new one |
| Queues.Enqueue | src/core/datastructures/queue.py:32-39 | the item joins at the back, after the old contents |
| Queues.Dequeue | src/core/datastructures/queue.py:41-50 | on a non-empty queue returns the front element and leaves the rest in order; on an empty one fails with `IndexError` and leaves the queue unchanged |
| Queues.Peek | src/core/datastructures/queue.py:53-62 | returns the front element, or `IndexError` on an empty queue |
| Queues.EnqueueAll | src/core/datastructures/queue.py:32-39 | enqueueing each input element yields the old contents followed by the input in order |
| Queues.DrainInOrder | src/core/datastructures/queue.py:41-50 | dequeuing as many times as there are elements returns them front first and empties the queue |
| Queues.Fifo | src/core/datastructures/queue.py:39-50 | enqueueing `x1..xn` on an empty queue and dequeuing `n` times returns `x1..xn` in order and leaves it empty |
| Queues.EnqueueThenDequeue | src/core/datastructures/queue.py:32-62 | an item enqueued on an empty queue is the next out and the next peeked; on a non-empty queue enqueue and dequeue commute; `enqueue` grows the size by one and a successful `dequeue` shrinks it by one |
| Queues.EmptyAccessFails | src/core/datastructures/queue.py:41-86 | on a cleared queue `dequeue` and `peek` fail with `IndexError` and leave it unchanged |
| Queues.QueueIsRestrictedDeque | src/core/datastructures/queue.py:32-62 | `enqueue`, `dequeue` and `peek` agree with the deque's `push_right`, `pop_left` and `peek_left` on the same contents |
| Stacks.New | src/core/datastructures/stack.py:27-33 | a new stack is empty |
| Stacks.Size | src/core/datastructures/stack.py:75-81 | the size is zero exactly when the stack holds no element |
| Stacks.IsEmpty | src/core/datastructures/stack.py:67-73 | `is_empty()` holds exactly when `size()` is 0 |
| Stacks.Clear | src/core/datastructures/stack.py:83-89 | after `clear()` the stack is empty and equal to a new one |
| Stacks.Push | src/core/datastructures/stack.py:36-43 | the item goes on top, after the old contents |
| Stacks.Pop | src/core/datastructures/stack.py:45-54 | on a non-empty stack returns the top element and leaves the rest; on an empty one returns `None` without raising and leaves the stack unchanged |
| Stacks.Peek | src/core/datastructures/stack.py:56-65 | returns the top element, or `None` without raising on an empty stack |
| Stacks.PushAll | src/core/datastructures/stack.py:36-43 | pushing each input element yields the old contents followed by the input in order |
| Stacks.PushThenPop | src/core/datastructures/stack.py:36-65 | `push(x)` then `pop()` returns `x` and restores the stack; `peek` after `push(x)` sees `x`; a push grows the size by one |
| Stacks.PopThenPush | src/core/datastructures/stack.py:36-65 | on a non-empty stack `pop` returns what `peek` returns, pushing it back restores the stack, and the size drops by one |
| Stacks.EmptyAccessReturnsNone | src/core/datastructures/stack.py:52-65 | on a cleared stack `pop` and `peek` return `None` and leave it unchanged |
| Stacks.DrainTopFirst | src/core/datastructures/stack.py:45-54 | popping as many times as there are elements returns them top first and empties the stack |
| Stacks.Lifo | src/core/datastructures/stack.py:43-53 | pushing `x1..xn` on an empty stack and popping `n` times returns `xn..x1` and leaves it empty |

## Left out

- `darray.py`, the growable array: every method body is `pass`. There is no growth policy, bounds check or storage to model.
- Running time: the source claims constant-time access at both ends, but uses `list.insert(0, …)` and `list.pop(0)`. Only functional behaviour is modelled.
- Arbitrary iterables for `extend` and `extend_left`: the input is a finite sequence, and lazy or one-shot iterators are not modelled.
- Exception types and messages: every `IndexError` is one of two error values, `EmptyContainer` and `IndexOutOfRange`, without the message text.
- The default argument of `rotate` (`k = 1`): the model always takes `k` explicitly.
- Deques.Extend, Deques.ExtendLeft: extending a deque by its own list (`dq.extend(dq.items)`) never ends in the source, because the loop reads the list it grows. The model takes the input as a separate sequence and returns `items + items` or `Rev(items) + items`.
- Object identity and aliasing: each container is a value. Two names for one Python object, and `clear()` on a shared list, are not modelled.
- The demonstration script's printing: only its commented expected values are used, in `Deques.DemoTrace`.
- PythonList.Mod: requires a non-zero divisor. Python raises `ZeroDivisionError` for zero, which `rotate` never reaches because it returns early on an empty deque.
- A stack holding `None` values: an empty-stack `pop` in the source cannot be told apart from popping a stored `None`. The model's `Option` keeps the two apart.
