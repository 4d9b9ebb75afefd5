/** `Array.prototype.filter`, `some`, `find` and the facts about them that
    the pages and the stores rely on. */
module Seqs {

  import opened Common

  /** `s.filter(p)`. */
  function Filter<T>(p: T -> bool, s: seq<T>): (r: seq<T>)
    ensures |r| <= |s|
    ensures forall i :: 0 <= i < |r| ==> p(r[i])
  {
    if s == [] then []
    else if p(s[0]) then [s[0]] + Filter(p, s[1..])
    else Filter(p, s[1..])
  }

  /** `r` is obtained from `s` by deleting elements, keeping the order of the rest. */
  predicate IsSubsequence<T(==)>(r: seq<T>, s: seq<T>)
    decreases |s|
  {
    if r == [] then true
    else if s == [] then false
    else if r[0] == s[0] then IsSubsequence(r[1..], s[1..])
    else IsSubsequence(r, s[1..])
  }

  /** A filter keeps exactly the elements that pass, each one from the input. */
  lemma {:induction false} FilterMembers<T>(p: T -> bool, s: seq<T>, x: T)
    ensures x in Filter(p, s) <==> x in s && p(x)
  {
    if s != [] {
      FilterMembers(p, s[1..], x);
      assert s == [s[0]] + s[1..];
    }
  }

  /** A filter keeps the order of what it keeps. */
  lemma {:induction false} FilterIsSubsequence<T>(p: T -> bool, s: seq<T>)
    ensures IsSubsequence(Filter(p, s), s)
  {
    if s != [] {
      FilterIsSubsequence(p, s[1..]);
      if !p(s[0]) {
        SubsequenceOfTail(Filter(p, s[1..]), s);
      }
    }
  }

  /** Dropping the head of the longer sequence keeps the subsequence relation. */
  lemma {:induction false} SubsequenceOfTail<T>(r: seq<T>, s: seq<T>)
    requires s != [] && IsSubsequence(r, s[1..])
    ensures IsSubsequence(r, s)
    decreases |s|, 1
  {
    if r != [] && r[0] == s[0] {
      SubsequenceDropHead(r, s[1..]);
    }
  }

  /** If `r` is a subsequence of `s`, so is its tail. */
  lemma {:induction false} SubsequenceDropHead<T>(r: seq<T>, s: seq<T>)
    requires r != [] && IsSubsequence(r, s)
    ensures IsSubsequence(r[1..], s)
    decreases |s|, 2
  {
    if s != [] {
      if r[0] == s[0] {
        if r[1..] != [] {
          SubsequenceDropHead(r[1..], s[1..]);
          SubsequenceOfTail(r[1..], s);
        }
      } else {
        SubsequenceDropHead(r, s[1..]);
        if r[1..] != [] {
          SubsequenceOfTail(r[1..], s);
        }
      }
    }
  }

  /** Every sequence is a subsequence of itself. */
  lemma {:induction false} SubsequenceReflexive<T>(s: seq<T>)
    ensures IsSubsequence(s, s)
  {
    if s != [] {
      SubsequenceReflexive(s[1..]);
    }
  }

  /** A subsequence of a subsequence of `c` is a subsequence of `c`. */
  lemma {:induction false} SubsequenceTransitive<T>(a: seq<T>, b: seq<T>, c: seq<T>)
    requires IsSubsequence(a, b) && IsSubsequence(b, c)
    ensures IsSubsequence(a, c)
    decreases |c|
  {
    if a != [] && c != [] {
      if b[0] == c[0] {
        if a[0] == b[0] {
          SubsequenceTransitive(a[1..], b[1..], c[1..]);
        } else {
          SubsequenceTransitive(a, b[1..], c[1..]);
          SubsequenceOfTail(a, c);
        }
      } else {
        SubsequenceTransitive(a, b, c[1..]);
        SubsequenceOfTail(a, c);
      }
    }
  }

  /** Filtering with two predicates that never both hold selects, in all, no
      more elements than the input has. */
  lemma {:induction false} DisjointFiltersFit<T>(p: T -> bool, q: T -> bool, s: seq<T>)
    requires forall x :: !(p(x) && q(x))
    ensures |Filter(p, s)| + |Filter(q, s)| <= |s|
  {
    if s != [] {
      DisjointFiltersFit(p, q, s[1..]);
    }
  }

  /** Filtering with three pairwise-disjoint predicates selects, in all, no
      more elements than the input has. */
  lemma {:induction false} ThreeDisjointFiltersFit<T>(p: T -> bool, q: T -> bool, r: T -> bool, s: seq<T>)
    requires forall x :: !(p(x) && q(x)) && !(p(x) && r(x)) && !(q(x) && r(x))
    ensures |Filter(p, s)| + |Filter(q, s)| + |Filter(r, s)| <= |s|
  {
    if s != [] {
      ThreeDisjointFiltersFit(p, q, r, s[1..]);
    }
  }

  /** The index of the first occurrence of `x` in `s`. */
  function FirstIndex<T(==)>(s: seq<T>, x: T): (k: nat)
    requires x in s
    ensures k < |s| && s[k] == x && x !in s[..k]
  {
    if s[0] == x then 0
    else
      var k := FirstIndex(s[1..], x);
      assert s[..k + 1] == [s[0]] + s[1..][..k];
      k + 1
  }

  /** The elements of `r` that occur in `s` come in the order of their first
      occurrences in `s`. */
  predicate FirstOccurrenceOrder<T(==)>(r: seq<T>, s: seq<T>)
  {
    forall i, j :: 0 <= i < j < |r| && r[i] in s && r[j] in s ==> FirstIndex(s, r[i]) < FirstIndex(s, r[j])
  }

  /** Filtering keeps the order of first occurrences of the elements that pass. */
  lemma {:induction false} FilterKeepsFirstOrder<T>(p: T -> bool, t: seq<T>, y: T, z: T)
    requires y in t && z in t && p(y) && p(z)
    ensures y in Filter(p, t) && z in Filter(p, t)
    ensures FirstIndex(Filter(p, t), y) < FirstIndex(Filter(p, t), z) <==> FirstIndex(t, y) < FirstIndex(t, z)
    decreases |t|
  {
    FilterMembers(p, t, y);
    FilterMembers(p, t, z);
    var f := Filter(p, t);
    if t[0] == y || t[0] == z {
      assert f[0] == t[0];
    } else {
      assert y in t[1..] && z in t[1..];
      FilterKeepsFirstOrder(p, t[1..], y, z);
      if p(t[0]) {
        assert f[0] == t[0] && f[1..] == Filter(p, t[1..]);
      } else {
        assert f == Filter(p, t[1..]);
      }
    }
  }

  /** `s.find(p)`: the first element that passes, if any. */
  function Find<T>(p: T -> bool, s: seq<T>): (r: Option<T>)
    ensures r.None? <==> forall i :: 0 <= i < |s| ==> !p(s[i])
    ensures r.Some? ==> exists i :: 0 <= i < |s| && s[i] == r.value && p(s[i]) && forall j :: 0 <= j < i ==> !p(s[j])
  {
    if s == [] then None
    else if p(s[0]) then Some(s[0])
    else
      var r := Find(p, s[1..]);
      assert r.Some? ==> exists i :: 0 <= i < |s| && s[i] == r.value && p(s[i]) && forall j :: 0 <= j < i ==> !p(s[j]) by {
        if r.Some? {
          var k :| 0 <= k < |s[1..]| && s[1..][k] == r.value && p(s[1..][k]) && forall j :: 0 <= j < k ==> !p(s[1..][j]);
          assert forall j :: 1 <= j < k + 1 ==> s[j] == s[1..][j - 1];
          assert s[k + 1] == r.value && p(s[k + 1]) && forall j :: 0 <= j < k + 1 ==> !p(s[j]);
        }
      }
      r
  }
}
