/** Reference definitions the container contracts are stated against: reversal
    and the two cyclic rotations of a sequence, with the facts that relate them.
 */
module Sequences {

  /** `s` in reverse order, built from the front: the first element goes last. */
  function Rev<T>(s: seq<T>): (r: seq<T>)
    ensures |r| == |s|
    ensures forall i :: 0 <= i < |s| ==> r[i] == s[|s| - 1 - i]
  {
    if s == [] then [] else Rev(s[1..]) + [s[0]]
  }

  /** Reversal is an involution. */
  lemma RevRev<T>(s: seq<T>)
    ensures Rev(Rev(s)) == s
  {
    assert forall i :: 0 <= i < |s| ==> Rev(Rev(s))[i] == s[i];
  }

  /** Reversal keeps every element with its multiplicity. */
  lemma {:induction false} RevMultiset<T>(s: seq<T>)
    ensures multiset(Rev(s)) == multiset(s)
  {
    if s != [] {
      RevMultiset(s[1..]);
      assert s == [s[0]] + s[1..];
    }
  }

  /** Reversing a concatenation reverses the order of the parts. */
  lemma RevAppend<T>(a: seq<T>, b: seq<T>)
    ensures Rev(a + b) == Rev(b) + Rev(a)
  {
    var l, r := Rev(a + b), Rev(b) + Rev(a);
    assert |l| == |r|;
    forall i | 0 <= i < |l|
      ensures l[i] == r[i]
    {
      if i < |b| {
        assert r[i] == b[|b| - 1 - i];
      } else {
        assert r[i] == a[|a| - 1 - (i - |b|)];
      }
    }
  }

  /** Right rotation by `r`: the last `r` elements move, in order, to the front. */
  function RotateRight<T>(s: seq<T>, r: nat): seq<T>
    requires r <= |s|
  {
    s[|s| - r..] + s[..|s| - r]
  }

  /** Left rotation by `m`: the first `m` elements move, in order, to the back. */
  function RotateLeft<T>(s: seq<T>, m: nat): seq<T>
    requires m <= |s|
  {
    s[m..] + s[..m]
  }

  /** A rotation keeps the length and the multiset of elements. */
  lemma RotateRightPermutes<T>(s: seq<T>, r: nat)
    requires r <= |s|
    ensures |RotateRight(s, r)| == |s|
    ensures multiset(RotateRight(s, r)) == multiset(s)
  {
    assert s == s[..|s| - r] + s[|s| - r..];
  }

  /** Where each element goes: a right rotation by `r` moves index `j` to `j + r`,
      wrapping around past the end. */
  lemma RotateRightIndex<T>(s: seq<T>, r: nat, j: int)
    requires r <= |s|
    requires 0 <= j < |s|
    ensures |RotateRight(s, r)| == |s|
    ensures RotateRight(s, r)[if j + r < |s| then j + r else j + r - |s|] == s[j]
  {
  }

  /** A right rotation by `r` is the same as a left rotation by `|s| - r`. */
  lemma RotateRightIsLeft<T>(s: seq<T>, r: nat)
    requires r <= |s|
    ensures RotateRight(s, r) == RotateLeft(s, |s| - r)
  {
  }

  /** Rotating by the whole length, or by nothing, changes nothing. */
  lemma RotateRightTrivial<T>(s: seq<T>)
    ensures RotateRight(s, 0) == s
    ensures RotateRight(s, |s|) == s
  {
    assert s[|s|..] == [];
    assert s[..|s|] == s;
  }

  /** Rotating right by `r` and then left by `r` restores the sequence. */
  lemma RotateRightThenLeft<T>(s: seq<T>, r: nat)
    requires r <= |s|
    ensures |RotateRight(s, r)| == |s|
    ensures RotateLeft(RotateRight(s, r), r) == s
  {
    var t := RotateRight(s, r);
    assert t[r..] == s[..|s| - r];
    assert t[..r] == s[|s| - r..];
    assert s == s[..|s| - r] + s[|s| - r..];
  }

  /** One step of the source's rotation loop: taking the last element of a right
      rotation by `i` and putting it in front gives the right rotation by `i + 1`. */
  lemma RotateRightStep<T>(s: seq<T>, i: nat)
    requires i < |s|
    ensures var t := RotateRight(s, i);
            [t[|t| - 1]] + t[..|t| - 1] == RotateRight(s, i + 1)
  {
    var n := |s|;
    var t := RotateRight(s, i);
    assert t[|t| - 1] == s[n - i - 1];
    assert t[..|t| - 1] == s[n - i..] + s[..n - i - 1];
    assert s[n - i - 1..] == [s[n - i - 1]] + s[n - i..];
  }
}
