/** The in-place `Array.prototype.sort` with a comparator, as the client
    components use it: a stable sort by a "may come before" relation. */
module Sorting {

  /** `le(a, b)` says the comparator lets `a` come before `b` (it returns a
      value `<= 0`). A consistent comparator orders every pair and is
      transitive. */
  ghost predicate TotalPreorder<T(!new)>(le: (T, T) -> bool)
  {
    && (forall a, b :: le(a, b) || le(b, a))
    && (forall a, b, c :: le(a, b) && le(b, c) ==> le(a, c))
  }

  predicate SortedBy<T>(s: seq<T>, le: (T, T) -> bool)
  {
    forall i, j :: 0 <= i < j < |s| ==> le(s[i], s[j])
  }

  /** Where `x` goes: in front of the first element it may precede, or at
      the end when there is none. */
  function InsertPos<T>(x: T, s: seq<T>, le: (T, T) -> bool): (p: nat)
    ensures p <= |s|
    ensures forall k :: 0 <= k < p ==> !le(x, s[k])
    ensures p == |s| || le(x, s[p])
  {
    if s == [] || le(x, s[0]) then 0
    else
      var p := 1 + InsertPos(x, s[1..], le);
      assert forall k :: 1 <= k < p ==> s[k] == s[1..][k - 1];
      p
  }

  /** Places `x` in front of the first element it may precede. */
  function Insert<T>(x: T, s: seq<T>, le: (T, T) -> bool): (r: seq<T>)
    ensures |r| == |s| + 1
  {
    var p := InsertPos(x, s, le);
    s[..p] + [x] + s[p..]
  }

  /** Inserting adds `x` and keeps everything else. */
  lemma InsertCount<T>(x: T, s: seq<T>, le: (T, T) -> bool)
    ensures multiset(Insert(x, s, le)) == multiset(s) + multiset{x}
  {
    var p := InsertPos(x, s, le);
    assert s == s[..p] + s[p..];
  }

  /** Insertion sort. An element is placed before every later element it may
      precede, so equal elements keep their relative order, as in the stable
      `Array.prototype.sort`. The result is the input reordered, and sorted. */
  function SortBy<T(!new)>(s: seq<T>, le: (T, T) -> bool): (r: seq<T>)
    requires TotalPreorder(le)
    ensures multiset(r) == multiset(s)
    ensures SortedBy(r, le)
  {
    if s == [] then []
    else
      var rest := SortBy(s[1..], le);
      InsertKeepsSorted(s[0], rest, le);
      InsertCount(s[0], rest, le);
      assert s == [s[0]] + s[1..];
      Insert(s[0], rest, le)
  }

  lemma InsertKeepsSorted<T(!new)>(x: T, s: seq<T>, le: (T, T) -> bool)
    requires TotalPreorder(le) && SortedBy(s, le)
    ensures SortedBy(Insert(x, s, le), le)
  {
    var p := InsertPos(x, s, le);
    var r := Insert(x, s, le);
    assert |r| == |s| + 1;
    forall i, j | 0 <= i < j < |r| ensures le(r[i], r[j]) {
      if i < p && j == p {
        assert r[i] == s[i] && r[j] == x;
        assert !le(x, s[i]);
      } else if i == p {
        assert r[j] == s[j - 1] && le(x, s[p]);
        if j - 1 > p {
          assert le(s[p], s[j - 1]);
        }
      } else {
        assert r[i] == s[if i < p then i else i - 1];
        assert r[j] == s[if j < p then j else j - 1];
      }
    }
  }

  /** `a.sort(comparator)` on an array: every element, from the last to the
      first, is moved into the sorted part behind it, which ends up holding
      SortBy of the original contents. */
  method SortInPlace<T(!new)>(a: array<T>, le: (T, T) -> bool)
    requires TotalPreorder(le)
    modifies a
    ensures a[..] == SortBy(old(a[..]), le)
  {
    ghost var s := a[..];
    var i := a.Length;
    while i > 0
      invariant 0 <= i <= a.Length
      invariant forall k :: 0 <= k < i ==> a[k] == s[k]
      invariant a[i..] == SortBy(s[i..], le)
    {
      i := i - 1;
      assert s[i..][1..] == s[i + 1..];
      assert SortBy(s[i..], le) == Insert(s[i], SortBy(s[i + 1..], le), le);
      InsertAt(a, i, le);
    }
    assert s[0..] == s;
  }

  /** Moves `a[i]` into the sorted run `a[i+1..]`: the run's elements that it
      may not precede slide one place to the left. */
  method InsertAt<T>(a: array<T>, i: nat, le: (T, T) -> bool)
    requires i < a.Length
    modifies a
    ensures a[..i] == old(a[..i])
    ensures a[i..] == Insert(old(a[i]), old(a[i + 1..]), le)
  {
    var x := a[i];
    ghost var tail := a[i + 1..];
    var j := i;
    while j + 1 < a.Length && !le(x, a[j + 1])
      invariant i <= j < a.Length
      invariant forall k :: 0 <= k < i ==> a[k] == old(a[k])
      invariant forall k :: i <= k < j ==> a[k] == tail[k - i]
      invariant forall k :: j < k < a.Length ==> a[k] == tail[k - i - 1]
      invariant forall k :: 0 <= k < j - i ==> !le(x, tail[k])
    {
      a[j] := a[j + 1];
      j := j + 1;
    }
    a[j] := x;
    PlacedIsInserted(a[..], old(a[..]), i, j, le);
  }

  /** The array after the scan: the run's elements up to the stop sit one
      place to the left, `x` stands at the stop, the rest is untouched. */
  lemma PlacedIsInserted<T>(b: seq<T>, s: seq<T>, i: nat, j: nat, le: (T, T) -> bool)
    requires |b| == |s| && i <= j < |b|
    requires forall k :: 0 <= k < i ==> b[k] == s[k]
    requires forall k :: i <= k < j ==> b[k] == s[k + 1]
    requires b[j] == s[i]
    requires forall k :: j < k < |b| ==> b[k] == s[k]
    requires forall k :: i < k <= j ==> !le(s[i], s[k])
    requires j + 1 == |b| || le(s[i], s[j + 1])
    ensures b[..i] == s[..i]
    ensures b[i..] == Insert(s[i], s[i + 1..], le)
  {
    var tail := s[i + 1..];
    assert forall k :: 0 <= k < j - i ==> !le(s[i], tail[k]) by {
      forall k | 0 <= k < j - i ensures !le(s[i], tail[k]) {
        assert tail[k] == s[i + 1 + k];
      }
    }
    assert j - i == InsertPos(s[i], tail, le);
    var r := tail[..j - i] + [s[i]] + tail[j - i..];
    forall k | 0 <= k < |r| ensures b[i + k] == r[k] {
      if k < j - i {
        assert r[k] == tail[k];
      } else if k > j - i {
        assert r[k] == tail[k - 1];
      }
    }
    assert b[i..] == r;
  }
}
