/** `findMany({ where, orderBy: { createdAt: "desc" } })`: the rows of a
    table that pass a filter, newest first. */
module Listing {

  import opened Common

  /** Every id of `r` names a row, and their timestamps never increase along `r`. */
  ghost predicate NewestFirst<T>(rows: map<Id, T>, stamp: T -> int, r: seq<Id>)
  {
    && (forall i :: 0 <= i < |r| ==> r[i] in rows)
    && (forall i, j :: 0 <= i < j < |r| ==> stamp(rows[r[i]]) >= stamp(rows[r[j]]))
  }

  /** No id occurs twice. */
  ghost predicate NoRepeats(r: seq<Id>)
  {
    forall i, j :: 0 <= i < j < |r| ==> r[i] != r[j]
  }

  /** Inserts `k` into a newest-first list before the first row that is not newer. */
  function InsertNewest<T>(rows: map<Id, T>, stamp: T -> int, r: seq<Id>, k: Id): (r': seq<Id>)
    requires k in rows && forall i :: 0 <= i < |r| ==> r[i] in rows
    ensures |r'| == |r| + 1
    ensures forall x :: x in r' <==> x in r || x == k
  {
    if r == [] || stamp(rows[k]) >= stamp(rows[r[0]]) then [k] + r
    else
      assert forall x :: x in r <==> x == r[0] || x in r[1..];
      [r[0]] + InsertNewest(rows, stamp, r[1..], k)
  }

  /** Inserting keeps a list newest first. */
  lemma {:induction false} InsertNewestKeepsOrder<T>(rows: map<Id, T>, stamp: T -> int, r: seq<Id>, k: Id)
    requires k in rows && NewestFirst(rows, stamp, r)
    ensures NewestFirst(rows, stamp, InsertNewest(rows, stamp, r, k))
  {
    if r != [] && stamp(rows[k]) < stamp(rows[r[0]]) {
      var tail := InsertNewest(rows, stamp, r[1..], k);
      InsertNewestKeepsOrder(rows, stamp, r[1..], k);
      forall i | 0 <= i < |tail|
        ensures stamp(rows[tail[i]]) <= stamp(rows[r[0]])
      {
        assert tail[i] in tail;
        if tail[i] != k {
          var j :| 0 <= j < |r[1..]| && r[1..][j] == tail[i];
          assert r[j + 1] == tail[i];
        }
      }
      var r' := [r[0]] + tail;
      assert forall i :: 1 <= i < |r'| ==> r'[i] == tail[i - 1];
    }
  }

  /** Inserting a new id into a list without repeats gives a list without repeats. */
  lemma {:induction false} InsertNewestNoRepeats<T>(rows: map<Id, T>, stamp: T -> int, r: seq<Id>, k: Id)
    requires k in rows && (forall i :: 0 <= i < |r| ==> r[i] in rows)
    requires NoRepeats(r) && k !in r
    ensures NoRepeats(InsertNewest(rows, stamp, r, k))
  {
    if r != [] && stamp(rows[k]) < stamp(rows[r[0]]) {
      var tail := InsertNewest(rows, stamp, r[1..], k);
      InsertNewestNoRepeats(rows, stamp, r[1..], k);
      assert r[0] !in r[1..];
      assert r[0] !in tail;
      var r' := [r[0]] + tail;
      assert forall i :: 1 <= i < |r'| ==> r'[i] == tail[i - 1];
    }
  }

  /** `r` lists exactly the rows of `rows` whose ids are in `selected`,
      each once, newest first. */
  ghost predicate Lists<T>(rows: map<Id, T>, stamp: T -> int, selected: set<Id>, r: seq<Id>)
  {
    && (forall x :: x in r <==> x in rows && x in selected)
    && NoRepeats(r)
    && NewestFirst(rows, stamp, r)
  }

  /** Scans the table once, inserting each selected row at its place in the result. */
  method ListNewestFirst<T>(rows: map<Id, T>, stamp: T -> int, selected: set<Id>) returns (r: seq<Id>)
    ensures Lists(rows, stamp, selected, r)
  {
    r := [];
    var rest := rows.Keys;
    while rest != {}
      invariant rest <= rows.Keys
      invariant NewestFirst(rows, stamp, r) && NoRepeats(r)
      invariant forall x :: x in r ==> x in rows && x in selected && x !in rest
      invariant forall x :: x in rows && x in selected && x !in rest ==> x in r
      decreases rest
    {
      var k :| k in rest;
      rest := rest - {k};
      if k in selected {
        InsertNewestKeepsOrder(rows, stamp, r, k);
        InsertNewestNoRepeats(rows, stamp, r, k);
        r := InsertNewest(rows, stamp, r, k);
      }
    }
  }
}
