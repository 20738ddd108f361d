/** Duplicate removal in the manner of `[...new Set(xs)]`: a `Set` keeps
    the first occurrence of each element and iterates in insertion order. */
module Sequences {

  /** No element occurs twice. */
  predicate NoDup<T(==)>(s: seq<T>) {
    forall i, j :: 0 <= i < j < |s| ==> s[i] != s[j]
  }

  /** The position of the first occurrence of `x` in `s`. */
  function FirstIndex<T(==)>(s: seq<T>, x: T): (k: nat)
    requires x in s
    ensures k < |s| && s[k] == x
    ensures forall i :: 0 <= i < k ==> s[i] != x
  {
    if s[0] == x then 0 else 1 + FirstIndex(s[1..], x)
  }

  /** First occurrences keep their positions when something is appended. */
  lemma FirstIndexAppend<T>(s: seq<T>, y: T, x: T)
    requires x in s
    ensures FirstIndex(s + [y], x) == FirstIndex(s, x)
  {
    var k := FirstIndex(s, x);
    assert (s + [y])[k] == x;
    assert forall i :: 0 <= i < k ==> (s + [y])[i] == s[i];
  }

  /** `a` and `b` hold the same elements, regardless of order and repetition. */
  predicate SameElements<T(==)>(a: seq<T>, b: seq<T>) {
    && (forall i :: 0 <= i < |a| ==> a[i] in b)
    && (forall i :: 0 <= i < |b| ==> b[i] in a)
  }

  /** The distinct elements of `s`, each at the place of its first
      occurrence, built the way a `Set` is filled: one element at a time,
      adding it only when it is not already there. */
  function Dedup<T(==)>(s: seq<T>): (r: seq<T>)
    ensures NoDup(r)
    ensures SameElements(r, s)
    ensures forall i, j :: 0 <= i < j < |r| ==> FirstIndex(s, r[i]) < FirstIndex(s, r[j])
    ensures |r| <= |s|
  {
    if |s| == 0 then []
    else
      var init := s[..|s| - 1];
      var last := s[|s| - 1];
      assert s == init + [last];
      var d := Dedup(init);
      DedupStep(init, last, d);
      if last in d then d else d + [last]
  }

  /** The step of `Dedup` that adds one element keeps the first-occurrence order. */
  lemma DedupStep<T>(init: seq<T>, last: T, d: seq<T>)
    requires SameElements(d, init)
    requires forall i, j :: 0 <= i < j < |d| ==> FirstIndex(init, d[i]) < FirstIndex(init, d[j])
    ensures forall i, j :: 0 <= i < j < |d| ==> FirstIndex(init + [last], d[i]) < FirstIndex(init + [last], d[j])
    ensures last !in d ==>
      var e := d + [last];
      forall i, j :: 0 <= i < j < |e| ==> FirstIndex(init + [last], e[i]) < FirstIndex(init + [last], e[j])
  {
    var s := init + [last];
    forall i | 0 <= i < |d|
      ensures FirstIndex(s, d[i]) == FirstIndex(init, d[i]) < |init|
    {
      assert d[i] in init;
      FirstIndexAppend(init, last, d[i]);
    }
    if last !in d {
      var e := d + [last];
      assert FirstIndex(s, last) == |init| by {
        assert s[|init|] == last;
        assert forall i :: 0 <= i < |init| ==> s[i] == init[i];
      }
      forall i, j | 0 <= i < j < |e|
        ensures FirstIndex(s, e[i]) < FirstIndex(s, e[j])
      {
        if j < |d| {
          assert e[i] == d[i] && e[j] == d[j];
        } else {
          assert e[i] == d[i];
        }
      }
    }
  }

  /** A sequence without duplicates is its own duplicate-free version. */
  lemma {:induction false} DedupOfDistinct<T>(s: seq<T>)
    requires NoDup(s)
    ensures Dedup(s) == s
  {
    if |s| > 0 {
      var init := s[..|s| - 1];
      assert NoDup(init) by {
        forall i, j | 0 <= i < j < |init| ensures init[i] != init[j] {
          assert init[i] == s[i] && init[j] == s[j];
        }
      }
      DedupOfDistinct(init);
      var last := s[|s| - 1];
      assert last !in init by {
        forall i | 0 <= i < |init| ensures init[i] != last {
          assert init[i] == s[i];
        }
      }
      assert Dedup(s) == if last in Dedup(init) then Dedup(init) else Dedup(init) + [last];
      assert s == init + [last];
    }
  }

  /** Removing duplicates twice is the same as removing them once. */
  lemma DedupIdempotent<T>(s: seq<T>)
    ensures Dedup(Dedup(s)) == Dedup(s)
  {
    DedupOfDistinct(Dedup(s));
  }

  /** The three properties that `Dedup` guarantees determine its result:
      any duplicate-free sequence with the same elements, ordered by first
      occurrence, is `Dedup(s)`. */
  lemma DedupUnique<T>(s: seq<T>, r: seq<T>)
    requires NoDup(r)
    requires SameElements(r, s)
    requires forall i, j :: 0 <= i < j < |r| ==> FirstIndex(s, r[i]) < FirstIndex(s, r[j])
    ensures r == Dedup(s)
  {
    var d := Dedup(s);
    assert SortedByFirstIndex(s, d);
    SortedByFirstIndexUnique(s, r, d);
  }

  /** `a` is strictly ordered by first occurrence in `s`. */
  predicate SortedByFirstIndex<T(==)>(s: seq<T>, a: seq<T>)
    requires forall i :: 0 <= i < |a| ==> a[i] in s
  {
    forall i, j :: 0 <= i < j < |a| ==> FirstIndex(s, a[i]) < FirstIndex(s, a[j])
  }

  /** Two sequences drawn from `s`, holding the same elements and both
      strictly ordered by first occurrence in `s`, are equal. */
  lemma {:induction false} SortedByFirstIndexUnique<T>(s: seq<T>, a: seq<T>, b: seq<T>)
    requires forall i :: 0 <= i < |a| ==> a[i] in s
    requires SameElements(a, b)
    requires SortedByFirstIndex(s, a)
    requires SortedByFirstIndex(s, b)
    ensures a == b
    decreases |a|
  {
    if |a| > 0 {
      assert |b| > 0 by {
        assert a[0] in b;
      }
      SameHead(s, a, b);
      SameTail(s, a, b);
      SortedByFirstIndexUnique(s, a[1..], b[1..]);
      assert a == [a[0]] + a[1..] && b == [b[0]] + b[1..];
    }
  }

  /** Both start with the element whose first occurrence comes first. */
  lemma SameHead<T>(s: seq<T>, a: seq<T>, b: seq<T>)
    requires |a| > 0 && |b| > 0
    requires forall i :: 0 <= i < |a| ==> a[i] in s
    requires SameElements(a, b)
    requires SortedByFirstIndex(s, a)
    requires SortedByFirstIndex(s, b)
    ensures a[0] == b[0]
  {
  }

  /** Dropping the common head leaves two sequences with the same elements. */
  lemma SameTail<T>(s: seq<T>, a: seq<T>, b: seq<T>)
    requires |a| > 0 && |b| > 0 && a[0] == b[0]
    requires forall i :: 0 <= i < |a| ==> a[i] in s
    requires SameElements(a, b)
    requires SortedByFirstIndex(s, a)
    requires SortedByFirstIndex(s, b)
    ensures SameElements(a[1..], b[1..])
  {
  }
}
