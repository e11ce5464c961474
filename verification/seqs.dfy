/**
 * Sequence facts shared by the pipeline stages: duplicate-freedom, order-preserving
 * filtering, and the multiset reasoning behind "acknowledged at most once".
 */
module Seqs {

  /** No element occurs twice. */
  predicate NoDup<T(==)>(s: seq<T>) {
    forall i, j :: 0 <= i < j < |s| ==> s[i] != s[j]
  }

  /** The elements of `s` satisfying `p`, in their original order. */
  function Filter<T(==)>(p: T -> bool, s: seq<T>): (r: seq<T>)
    ensures |r| <= |s|
    ensures forall i :: 0 <= i < |r| ==> r[i] in s && p(r[i])
    ensures forall i :: 0 <= i < |s| && p(s[i]) ==> s[i] in r
  {
    if s == [] then [] else (if p(s[0]) then [s[0]] else []) + Filter(p, s[1..])
  }

  /** Filtering distributes over concatenation, so it keeps input order. */
  lemma {:induction false} FilterAppend<T>(p: T -> bool, a: seq<T>, b: seq<T>)
    ensures Filter(p, a + b) == Filter(p, a) + Filter(p, b)
    decreases |a|
  {
    if a == [] {
      assert a + b == b;
    } else {
      assert (a + b)[1..] == a[1..] + b;
      FilterAppend(p, a[1..], b);
    }
  }

  /** `f` applied to the elements of `s` satisfying `p`, in their original order. */
  function FilterMap<T, U(==)>(p: T -> bool, f: T -> U, s: seq<T>): (r: seq<U>)
    ensures |r| <= |s|
    ensures forall j :: 0 <= j < |s| && p(s[j]) ==> f(s[j]) in r
  {
    if s == [] then [] else (if p(s[0]) then [f(s[0])] else []) + FilterMap(p, f, s[1..])
  }

  /** Every output element is the image of an input element satisfying `p`. */
  lemma {:induction false} FilterMapOrigin<T, U>(p: T -> bool, f: T -> U, s: seq<T>, i: nat) returns (j: nat)
    requires i < |FilterMap(p, f, s)|
    ensures j < |s| && p(s[j]) && FilterMap(p, f, s)[i] == f(s[j])
    decreases |s|
  {
    var h := if p(s[0]) then [f(s[0])] else [];
    var rest := FilterMap(p, f, s[1..]);
    assert FilterMap(p, f, s) == h + rest;
    if i < |h| {
      j := 0;
    } else {
      assert FilterMap(p, f, s)[i] == rest[i - |h|];
      var k := FilterMapOrigin(p, f, s[1..], i - |h|);
      assert s[1..][k] == s[k + 1];
      j := k + 1;
    }
  }

  /** A property every selected image has holds of every output element. */
  lemma FilterMapPreserves<T, U>(p: T -> bool, f: T -> U, s: seq<T>, q: U -> bool)
    requires forall j :: 0 <= j < |s| && p(s[j]) ==> q(f(s[j]))
    ensures forall i :: 0 <= i < |FilterMap(p, f, s)| ==> q(FilterMap(p, f, s)[i])
  {
    forall i | 0 <= i < |FilterMap(p, f, s)| ensures q(FilterMap(p, f, s)[i]) {
      var j := FilterMapOrigin(p, f, s, i);
    }
  }

  /**
   * When `f` tells the element at `j` apart from every other element, an element
   * failing `p` leaves no image in the selection.
   */
  lemma FilterMapExcludes<T, U>(p: T -> bool, f: T -> U, s: seq<T>, j: nat)
    requires j < |s| && !p(s[j])
    requires forall i :: 0 <= i < |s| && i != j ==> f(s[i]) != f(s[j])
    ensures f(s[j]) !in FilterMap(p, f, s)
  {
    var r := FilterMap(p, f, s);
    if f(s[j]) in r {
      var k :| 0 <= k < |r| && r[k] == f(s[j]);
      var i := FilterMapOrigin(p, f, s, k);
      assert false;
    }
  }

  /** When nothing is selected the result is empty. */
  lemma {:induction false} FilterMapNone<T, U>(p: T -> bool, f: T -> U, s: seq<T>)
    ensures (forall j :: 0 <= j < |s| ==> !p(s[j])) ==> FilterMap(p, f, s) == []
    decreases |s|
  {
    if s != [] && forall j :: 0 <= j < |s| ==> !p(s[j]) {
      assert forall j :: 1 <= j < |s| ==> s[1..][j - 1] == s[j];
      FilterMapNone(p, f, s[1..]);
    }
  }

  /** When everything is selected the result is the pointwise image. */
  lemma {:induction false} FilterMapAll<T, U>(p: T -> bool, f: T -> U, s: seq<T>)
    ensures (forall j :: 0 <= j < |s| ==> p(s[j])) ==>
              |FilterMap(p, f, s)| == |s| && forall k :: 0 <= k < |s| ==> FilterMap(p, f, s)[k] == f(s[k])
    decreases |s|
  {
    if s != [] && forall j :: 0 <= j < |s| ==> p(s[j]) {
      assert forall j :: 1 <= j < |s| ==> s[1..][j - 1] == s[j];
      FilterMapAll(p, f, s[1..]);
      assert FilterMap(p, f, s) == [f(s[0])] + FilterMap(p, f, s[1..]);
    }
  }

  /** Filtering and mapping distributes over concatenation, so it keeps input order. */
  lemma {:induction false} FilterMapAppend<T, U>(p: T -> bool, f: T -> U, a: seq<T>, b: seq<T>)
    ensures FilterMap(p, f, a + b) == FilterMap(p, f, a) + FilterMap(p, f, b)
    decreases |a|
  {
    if a == [] {
      assert a + b == b;
    } else {
      assert (a + b)[1..] == a[1..] + b;
      FilterMapAppend(p, f, a[1..], b);
    }
  }

  /**
   * Selecting by two predicates that never both hold picks, between them, exactly
   * what selecting by their disjunction `pq` picks.
   */
  lemma {:induction false} FilterMapDisjoint<T, U>(p: T -> bool, q: T -> bool, pq: T -> bool, f: T -> U, s: seq<T>)
    requires forall j :: 0 <= j < |s| ==> pq(s[j]) == (p(s[j]) || q(s[j]))
    requires forall j :: 0 <= j < |s| ==> !(p(s[j]) && q(s[j]))
    ensures multiset(FilterMap(p, f, s)) + multiset(FilterMap(q, f, s)) == multiset(FilterMap(pq, f, s))
    decreases |s|
  {
    if s != [] {
      assert forall j :: 1 <= j < |s| ==> s[1..][j - 1] == s[j];
      FilterMapDisjoint(p, q, pq, f, s[1..]);
    }
  }

  /** A duplicate-free sequence holds each value at most once. */
  lemma {:induction false} NoDupCounts<T>(s: seq<T>, x: T)
    requires NoDup(s)
    ensures multiset(s)[x] <= 1
    decreases |s|
  {
    if s != [] {
      assert s == [s[0]] + s[1..];
      assert NoDup(s[1..]) by {
        forall i, j | 0 <= i < j < |s[1..]| ensures s[1..][i] != s[1..][j] {
          assert s[1..][i] == s[i + 1] && s[1..][j] == s[j + 1];
        }
      }
      NoDupCounts(s[1..], x);
      if s[0] == x {
        assert x !in s[1..] by {
          forall k | 0 <= k < |s[1..]| ensures s[1..][k] != x {
            assert s[1..][k] == s[k + 1];
          }
        }
        assert multiset(s[1..])[x] == 0;
      }
    }
  }

  /** Two equal entries at distinct positions count twice. */
  lemma TwoOccurrences<T>(s: seq<T>, i: nat, j: nat)
    requires i < j < |s| && s[i] == s[j]
    ensures multiset(s)[s[i]] >= 2
  {
    assert s == s[..j] + s[j..];
    assert s[..j][i] == s[i];
    assert s[j..][0] == s[j];
    assert multiset(s) == multiset(s[..j]) + multiset(s[j..]);
  }

  /** A sequence holding every value at most once is duplicate-free. */
  lemma CountsNoDup<T>(s: seq<T>)
    requires forall x :: multiset(s)[x] <= 1
    ensures NoDup(s)
  {
    forall i, j | 0 <= i < j < |s| ensures s[i] != s[j] {
      if s[i] == s[j] {
        TwoOccurrences(s, i, j);
        assert false;
      }
    }
  }

  /** A sub-multiset of a duplicate-free sequence is itself duplicate-free. */
  lemma SubMultisetNoDup<T>(a: seq<T>, b: seq<T>)
    requires multiset(a) <= multiset(b)
    requires NoDup(b)
    ensures NoDup(a)
  {
    forall x ensures multiset(a)[x] <= 1 {
      NoDupCounts(b, x);
    }
    CountsNoDup(a);
  }
}
