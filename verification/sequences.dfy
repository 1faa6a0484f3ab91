/** The parts of JavaScript's `Array` that the sequencer relies on
    (`findIndex`, `slice`, `reverse`), stated over immutable sequences,
    plus the rotation that relates a key's chromatic row to the key list. */
module Sequences {

  /** No value occurs twice. */
  predicate Distinct<T(==)>(s: seq<T>)
  {
    forall i, j :: 0 <= i < j < |s| ==> s[i] != s[j]
  }

  /** `Array.prototype.findIndex` with a strict-equality test: the first
      position holding `x`, or -1 when there is none. */
  function FindIndex<T(==)>(s: seq<T>, x: T): (r: int)
    ensures -1 <= r < |s|
    ensures r == -1 <==> x !in s
    ensures 0 <= r ==> s[r] == x && forall j :: 0 <= j < r ==> s[j] != x
    decreases |s|
  {
    if |s| == 0 then -1
    else if s[0] == x then 0
    else
      var k := FindIndex(s[1..], x);
      if k < 0 then -1 else k + 1
  }

  /** In a sequence without repetitions, `findIndex` inverts indexing. */
  lemma FindIndexOfDistinct<T>(s: seq<T>, i: int)
    requires Distinct(s) && 0 <= i < |s|
    ensures FindIndex(s, s[i]) == i
  {
  }

  /** How `slice` reads one of its bounds: a negative bound counts back from
      the end, and the outcome is clamped to [0, len]. */
  function SliceBound(i: int, len: nat): (r: nat)
    ensures r <= len
    ensures 0 <= i <= len ==> r == i
    ensures i < 0 && 0 <= len + i ==> r == len + i
    ensures len + i < 0 ==> r == 0
  {
    if i < 0 then (if len + i < 0 then 0 else len + i)
    else if i > len then len
    else i
  }

  /** `Array.prototype.slice(start, end)`. */
  function Slice<T>(s: seq<T>, start: int, end: int): (r: seq<T>)
    ensures |r| <= |s|
    ensures 0 <= start <= end <= |s| ==> r == s[start..end]
    ensures -|s| <= start < 0 && end == |s| ==> r == s[|s| + start..]
    ensures start == 0 && -|s| <= end < 0 ==> r == s[..|s| + end]
  {
    var a := SliceBound(start, |s|);
    var b := SliceBound(end, |s|);
    if a < b then s[a..b] else []
  }

  /** `Array.prototype.reverse`, with value semantics. */
  function Reverse<T>(s: seq<T>): (r: seq<T>)
    ensures |r| == |s|
    ensures forall i :: 0 <= i < |s| ==> r[i] == s[|s| - 1 - i]
  {
    seq(|s|, i requires 0 <= i < |s| => s[|s| - 1 - i])
  }

  /** Reversing twice restores the sequence: a second in-place `reverse()`
      of the same array undoes the first. */
  lemma ReverseTwice<T>(s: seq<T>)
    ensures Reverse(Reverse(s)) == s
  {
    var r := Reverse(Reverse(s));
    assert forall i :: 0 <= i < |s| ==> r[i] == s[i];
  }

  /** Reversal keeps exactly the same elements and keeps them distinct. */
  lemma ReversePreserves<T>(s: seq<T>)
    ensures multiset(Reverse(s)) == multiset(s)
    ensures forall x :: x in Reverse(s) <==> x in s
    ensures Distinct(s) ==> Distinct(Reverse(s))
    decreases |s|
  {
    var r := Reverse(s);
    if |s| > 0 {
      var n := |s|;
      ReversePreserves(s[1..]);
      assert r == Reverse(s[1..]) + [s[0]] by {
        var t := Reverse(s[1..]) + [s[0]];
        assert |t| == n;
        forall i | 0 <= i < n
          ensures r[i] == t[i]
        {
          if i < n - 1 {
            assert t[i] == s[1..][n - 2 - i];
          }
        }
      }
      assert s == [s[0]] + s[1..];
    }
    forall x
      ensures x in r <==> x in s
    {
      assert x in r <==> multiset(r)[x] > 0;
      assert x in s <==> multiset(s)[x] > 0;
    }
    if Distinct(s) {
      forall i, j | 0 <= i < j < |r|
        ensures r[i] != r[j]
      {
        assert r[i] == s[|s| - 1 - i] && r[j] == s[|s| - 1 - j];
      }
    }
  }

  /** `s` rotated left by `p`: the suffix from `p` followed by the prefix
      before it. */
  function Rotate<T>(s: seq<T>, p: nat): (r: seq<T>)
    requires p <= |s|
    ensures |r| == |s|
    ensures forall i :: 0 <= i < |s| - p ==> r[i] == s[p + i]
    ensures forall i :: |s| - p <= i < |s| ==> r[i] == s[i - (|s| - p)]
    ensures multiset(r) == multiset(s)
  {
    assert s == s[..p] + s[p..];
    s[p..] + s[..p]
  }

  /** Rotating left by `p` and then by the rest of the length restores the
      sequence. */
  lemma RotateBack<T>(s: seq<T>, p: nat)
    requires p <= |s|
    ensures Rotate(Rotate(s, p), |s| - p) == s
  {
    var r := Rotate(s, p);
    assert r == s[p..] + s[..p];
    assert r[|s| - p..] == s[..p];
    assert r[..|s| - p] == s[p..];
    assert s == s[..p] + s[p..];
  }

  /** Rotation neither creates nor removes repetitions. */
  lemma RotateDistinct<T>(s: seq<T>, p: nat)
    requires p <= |s|
    ensures Distinct(Rotate(s, p)) <==> Distinct(s)
  {
    var r := Rotate(s, p);
    var n := |s|;
    // The position in `s` that position `i` of the rotation reads.
    var src := (i: int) => if i < n - p then p + i else i - (n - p);
    if Distinct(s) {
      forall i, j | 0 <= i < j < n
        ensures r[i] != r[j]
      {
        assert r[i] == s[src(i)] && r[j] == s[src(j)];
      }
    }
    if Distinct(r) {
      forall i, j | 0 <= i < j < n
        ensures s[i] != s[j]
      {
        // The rotation position that reads position `k` of `s`.
        var dst := (k: int) => if k < p then k + (n - p) else k - p;
        assert s[i] == r[dst(i)] && s[j] == r[dst(j)];
      }
    }
  }
}
