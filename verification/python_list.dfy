/** The Python `list` primitives and integer operators the containers are written with.

    Python lists accept negative indices (counted from the end), `insert` clamps an
    out-of-range position instead of failing, and `%` rounds the quotient toward
    negative infinity. Each of these is spelled out here so that the container
    models can be written with the same calls as the source.
 */
module PythonList {
  import opened Outcomes

  /** Python's `a // b`: the quotient rounded toward negative infinity. */
  function FloorDiv(a: int, b: int): (q: int)
    requires b != 0
    ensures b > 0 ==> q * b <= a < q * b + b
    ensures b < 0 ==> q * b + b < a <= q * b
  {
    if b > 0 then a / b else (-a) / (-b)
  }

  /** Python's `a % b`: the remainder takes the sign of the divisor. */
  function Mod(a: int, b: int): (r: int)
    requires b != 0
    ensures b > 0 ==> 0 <= r < b
    ensures b < 0 ==> b < r <= 0
    ensures b > 0 ==> r == a % b
    ensures b < 0 ==> r == -((-a) % (-b))
  {
    a - FloorDiv(a, b) * b
  }

  /** The quotient and remainder of a division by a positive `b` are unique: any
      `q`, `r` with `a == q * b + r` and `0 <= r < b` are Python's `//` and `%`. */
  lemma ModUnique(a: int, b: int, q: int, r: int)
    requires b > 0
    requires 0 <= r < b
    requires a == q * b + r
    ensures FloorDiv(a, b) == q
    ensures Mod(a, b) == r
  {
    var q', r' := FloorDiv(a, b), Mod(a, b);
    assert a == q' * b + r';
    assert (q - q') * b == r' - r;
    MulBound(q - q', b);
  }

  /** A non-zero multiple of a positive `b` is at least `b` away from zero. */
  lemma MulBound(d: int, b: int)
    requires b > 0
    ensures d >= 1 ==> d * b >= b
    ensures d <= -1 ==> d * b <= -b
  {
  }

  /** Adding an index `j` below `b` to `a` shifts `a % b` by `j`, wrapping once. */
  lemma ModAddIndex(a: int, b: int, j: int)
    requires b > 0
    requires 0 <= j < b
    ensures Mod(j + a, b) == if j + Mod(a, b) < b then j + Mod(a, b) else j + Mod(a, b) - b
  {
    var q, r := FloorDiv(a, b), Mod(a, b);
    assert a == q * b + r;
    if j + r < b {
      ModUnique(j + a, b, q, j + r);
    } else {
      assert (q + 1) * b == q * b + b;
      ModUnique(j + a, b, q + 1, j + r - b);
    }
  }

  /** Negating `a` turns a non-zero remainder `r` into `b - r`. */
  lemma ModNegate(a: int, b: int)
    requires b > 0
    ensures Mod(-a, b) == if Mod(a, b) == 0 then 0 else b - Mod(a, b)
  {
    var q, r := FloorDiv(a, b), Mod(a, b);
    assert a == q * b + r;
    if r == 0 {
      assert -a == (-q) * b + 0;
      ModUnique(-a, b, -q, 0);
    } else {
      assert -a == (-q - 1) * b + (b - r);
      ModUnique(-a, b, -q - 1, b - r);
    }
  }

  /** The position a Python subscript `i` denotes in a list of length `n`. */
  function Position(n: nat, i: int): int
  {
    if i < 0 then i + n else i
  }

  /** `s.append(x)`. */
  function Append<T>(s: seq<T>, x: T): (r: seq<T>)
    ensures |r| == |s| + 1
    ensures r[..|s|] == s
    ensures r[|s|] == x
  {
    s + [x]
  }

  /** `s[i]`: negative subscripts count from the end; anything else raises `IndexError`. */
  function Get<T>(s: seq<T>, i: int): (r: Result<T>)
    ensures r.Ok? <==> -|s| <= i < |s|
    ensures r.Ok? && i >= 0 ==> r.value == s[i]
    ensures r.Ok? && i < 0 ==> r.value == s[|s| + i]
    ensures r.Err? ==> r.error == IndexOutOfRange
  {
    var j := Position(|s|, i);
    if 0 <= j < |s| then Ok(s[j]) else Err(IndexOutOfRange)
  }

  /** `s.insert(i, x)`: a position past either end is clamped to that end. */
  function Insert<T>(s: seq<T>, i: int, x: T): (r: seq<T>)
    ensures |r| == |s| + 1
    ensures 0 <= i <= |s| ==> r[..i] == s[..i] && r[i] == x && r[i + 1..] == s[i..]
    ensures -|s| < i < 0 ==> var j := |s| + i;
              r[..j] == s[..j] && r[j] == x && r[j + 1..] == s[j..]
    ensures i <= -|s| ==> r[0] == x && r[1..] == s
    ensures i >= |s| ==> r[..|s|] == s && r[|s|] == x
  {
    var p := Position(|s|, i);
    var j := if p < 0 then 0 else if p > |s| then |s| else p;
    s[..j] + [x] + s[j..]
  }

  /** What `s.pop(i)` hands back: the removed element and the list left behind. */
  datatype Popped<T> = Popped(value: T, rest: seq<T>)

  /** `s.pop(i)`: removes the element at subscript `i`; `IndexError` on an empty
      list or an index outside it, with the list untouched. */
  function Pop<T>(s: seq<T>, i: int): (r: Result<Popped<T>>)
    ensures r.Ok? <==> -|s| <= i < |s|
    ensures s == [] ==> r == Err(EmptyContainer)
    ensures s != [] && r.Err? ==> r.error == IndexOutOfRange
    ensures r.Ok? ==> Get(s, i) == Ok(r.value.value)
    ensures r.Ok? ==> |r.value.rest| == |s| - 1
    ensures r.Ok? ==> var j := Position(|s|, i);
              r.value.rest[..j] == s[..j] && r.value.rest[j..] == s[j + 1..]
  {
    var j := Position(|s|, i);
    if s == [] then Err(EmptyContainer)
    else if !(0 <= j < |s|) then Err(IndexOutOfRange)
    else Ok(Popped(s[j], s[..j] + s[j + 1..]))
  }

  /** Putting a popped element back where it was restores the list. */
  lemma PopThenInsert<T>(s: seq<T>, i: int)
    requires -|s| <= i < |s|
    ensures Pop(s, i).Ok?
    ensures Insert(Pop(s, i).value.rest, Position(|s|, i), Pop(s, i).value.value) == s
  {
    var j := Position(|s|, i);
    var p := Pop(s, i).value;
    var t := Insert(p.rest, j, p.value);
    assert |t| == |s|;
    forall m | 0 <= m < |s|
      ensures t[m] == s[m]
    {
      if m < j {
        assert t[m] == p.rest[m];
      } else if m > j {
        assert t[m] == p.rest[m - 1];
      }
    }
  }

  /** `s.insert(0, x)` puts `x` in front of the whole list. */
  lemma InsertFront<T>(s: seq<T>, x: T)
    ensures Insert(s, 0, x) == [x] + s
  {
  }

  /** `s.pop(0)` on a non-empty list takes the first element and leaves the tail. */
  lemma PopFront<T>(s: seq<T>)
    requires s != []
    ensures Pop(s, 0) == Ok(Popped(s[0], s[1..]))
  {
    assert s[..0] + s[1..] == s[1..];
  }

  /** `s.pop()` (that is, `s.pop(-1)`) on a non-empty list takes the last element
      and leaves the prefix. */
  lemma PopLast<T>(s: seq<T>)
    requires s != []
    ensures Pop(s, -1) == Ok(Popped(s[|s| - 1], s[..|s| - 1]))
  {
    var j := |s| - 1;
    assert Position(|s|, -1) == j;
    assert s[j + 1..] == [];
    assert s[..j] + s[j + 1..] == s[..j];
  }
}
