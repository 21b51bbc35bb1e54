/**
  * How the SQL queries of the table models list rows: a table is a map from
  * row id to row, ids are handed out by a counter from 1 upwards (the
  * AUTOINCREMENT key), `ORDER BY created_at DESC` lists newer rows
  * (larger ids) first, and `ORDER BY name` sorts by SQLite's default
  * BINARY collation, which orders text by code point.
  */
module Listing {
  import opened Text

  /** The shape every table keeps: each id lies below the counter. */
  predicate IdsBelow<R>(rows: map<int, R>, nextId: int) {
    nextId >= 1 && forall id :: id in rows ==> 1 <= id < nextId
  }

  predicate Descending(ids: seq<int>) {
    forall i, j :: 0 <= i < j < |ids| ==> ids[i] > ids[j]
  }

  /** Exactly the ids of the rows `keep` selects, each once. */
  predicate Selects<R>(ids: seq<int>, rows: map<int, R>, keep: R -> bool) {
    && (forall i :: 0 <= i < |ids| ==> ids[i] in rows && keep(rows[ids[i]]))
    && (forall id :: id in rows && keep(rows[id]) ==> id in ids)
  }

  /** The ids of the selected rows, newest first. */
  method NewestFirst<R>(rows: map<int, R>, nextId: int, keep: R -> bool) returns (ids: seq<int>)
    requires IdsBelow(rows, nextId)
    ensures Descending(ids) && Selects(ids, rows, keep)
  {
    ids := [];
    var id := nextId - 1;
    while id >= 1
      invariant 0 <= id < nextId
      invariant Descending(ids)
      invariant forall i :: 0 <= i < |ids| ==> id < ids[i] && ids[i] in rows && keep(rows[ids[i]])
      invariant forall k :: id < k && k in rows && keep(rows[k]) ==> k in ids
    {
      if id in rows && keep(rows[id]) {
        ids := ids + [id];
      }
      id := id - 1;
    }
  }

  /** The lowest id whose row `keep` selects: a `WHERE` lookup that returns its first row. */
  method FirstWhere<R>(rows: map<int, R>, nextId: int, keep: R -> bool) returns (found: Option<int>)
    requires IdsBelow(rows, nextId)
    ensures found.None? <==> forall id :: id in rows ==> !keep(rows[id])
    ensures found.Some? ==> found.value in rows && keep(rows[found.value])
    ensures found.Some? ==> forall id :: id in rows && id < found.value ==> !keep(rows[id])
  {
    var id := 1;
    while id < nextId
      invariant 1 <= id <= nextId
      invariant forall k :: k in rows && k < id ==> !keep(rows[k])
    {
      if id in rows && keep(rows[id]) {
        return Some(id);
      }
      id := id + 1;
    }
    return None;
  }

  /** `LIMIT n`: a negative limit means no limit. */
  function Limit<T>(s: seq<T>, limit: int): (r: seq<T>)
    ensures limit >= 0 ==> |r| == if limit < |s| then limit else |s|
    ensures limit < 0 ==> r == s
    ensures r == s[..|r|]
  {
    if limit < 0 || limit >= |s| then s else s[..limit]
  }

  // ---------------------------------------------------------------------
  // Text order

  /** Code-point lexicographic order: SQLite's BINARY collation on UTF-8 text. */
  predicate TextBefore(a: string, b: string) {
    if a == [] then b != []
    else if b == [] then false
    else if a[0] != b[0] then a[0] < b[0]
    else TextBefore(a[1..], b[1..])
  }

  predicate TextAtMost(a: string, b: string) {
    a == b || TextBefore(a, b)
  }

  lemma TextIrreflexive(a: string)
    ensures !TextBefore(a, a)
  {
  }

  lemma {:induction false} TextTotal(a: string, b: string)
    ensures TextBefore(a, b) || a == b || TextBefore(b, a)
  {
    if a != [] && b != [] && a[0] == b[0] {
      TextTotal(a[1..], b[1..]);
      if a[1..] == b[1..] {
        assert a == [a[0]] + a[1..] && b == [b[0]] + b[1..];
      }
    }
  }

  lemma {:induction false} TextTransitive(a: string, b: string, c: string)
    requires TextBefore(a, b) && TextBefore(b, c)
    ensures TextBefore(a, c)
  {
    if a != [] && a[0] == b[0] && b[0] == c[0] {
      TextTransitive(a[1..], b[1..], c[1..]);
    }
  }

  lemma TextAsymmetric(a: string, b: string)
    requires TextBefore(a, b)
    ensures !TextBefore(b, a)
  {
    if TextBefore(b, a) {
      TextTransitive(a, b, a);
      TextIrreflexive(a);
    }
  }

  // ---------------------------------------------------------------------
  // ORDER BY name

  predicate SortedByName<R>(ids: seq<int>, rows: map<int, R>, name: R -> string)
    requires forall i :: 0 <= i < |ids| ==> ids[i] in rows
  {
    forall i, j :: 0 <= i < j < |ids| ==> TextAtMost(name(rows[ids[i]]), name(rows[ids[j]]))
  }

  predicate Distinct(ids: seq<int>) {
    forall i, j :: 0 <= i < j < |ids| ==> ids[i] != ids[j]
  }

  /** Insert `id` after every entry whose name is not after its own (so equal names keep their order). */
  function InsertByName<R>(ids: seq<int>, id: int, rows: map<int, R>, name: R -> string): (r: seq<int>)
    requires id in rows && forall i :: 0 <= i < |ids| ==> ids[i] in rows
    ensures |r| == |ids| + 1
    ensures forall k :: k in r <==> k in ids || k == id
    ensures forall i :: 0 <= i < |r| ==> r[i] in rows
  {
    if ids == [] || TextBefore(name(rows[id]), name(rows[ids[0]])) then [id] + ids
    else [ids[0]] + InsertByName(ids[1..], id, rows, name)
  }

  lemma {:induction false} InsertKeepsDistinct<R>(ids: seq<int>, id: int, rows: map<int, R>, name: R -> string)
    requires id in rows && forall i :: 0 <= i < |ids| ==> ids[i] in rows
    requires Distinct(ids) && id !in ids
    ensures Distinct(InsertByName(ids, id, rows, name))
  {
    if ids != [] && !TextBefore(name(rows[id]), name(rows[ids[0]])) {
      InsertKeepsDistinct(ids[1..], id, rows, name);
      assert ids[0] !in ids[1..];
    }
  }

  /** Every name in `ids` is at least `low`. */
  predicate NamesFrom<R>(ids: seq<int>, rows: map<int, R>, name: R -> string, low: string)
    requires forall i :: 0 <= i < |ids| ==> ids[i] in rows
  {
    forall i :: 0 <= i < |ids| ==> TextAtMost(low, name(rows[ids[i]]))
  }

  lemma SortedHead<R>(ids: seq<int>, rows: map<int, R>, name: R -> string)
    requires ids != [] && forall i :: 0 <= i < |ids| ==> ids[i] in rows
    requires SortedByName(ids, rows, name)
    ensures NamesFrom(ids[1..], rows, name, name(rows[ids[0]]))
  {
    assert forall i :: 0 <= i < |ids[1..]| ==> ids[1..][i] == ids[i + 1];
  }

  lemma {:induction false} InsertKeepsLowerBound<R>(ids: seq<int>, id: int, rows: map<int, R>, name: R -> string, low: string)
    requires id in rows && forall i :: 0 <= i < |ids| ==> ids[i] in rows
    requires NamesFrom(ids, rows, name, low) && TextAtMost(low, name(rows[id]))
    ensures NamesFrom(InsertByName(ids, id, rows, name), rows, name, low)
  {
    var r := InsertByName(ids, id, rows, name);
    forall i | 0 <= i < |r| ensures TextAtMost(low, name(rows[r[i]])) {
      assert r[i] in r;
      if r[i] != id {
        var k :| 0 <= k < |ids| && ids[k] == r[i];
      }
    }
  }

  lemma {:induction false} InsertKeepsSorted<R>(ids: seq<int>, id: int, rows: map<int, R>, name: R -> string)
    requires id in rows && forall i :: 0 <= i < |ids| ==> ids[i] in rows
    requires SortedByName(ids, rows, name)
    ensures SortedByName(InsertByName(ids, id, rows, name), rows, name)
  {
    var r := InsertByName(ids, id, rows, name);
    if ids == [] {
    } else if TextBefore(name(rows[id]), name(rows[ids[0]])) {
      forall j | 0 <= j < |ids| ensures TextAtMost(name(rows[id]), name(rows[ids[j]])) {
        if j > 0 && name(rows[ids[0]]) != name(rows[ids[j]]) {
          TextTransitive(name(rows[id]), name(rows[ids[0]]), name(rows[ids[j]]));
        }
      }
      assert forall j :: 0 < j < |r| ==> r[j] == ids[j - 1];
    } else {
      var tail := ids[1..];
      var rest := InsertByName(tail, id, rows, name);
      assert r == [ids[0]] + rest;
      assert SortedByName(tail, rows, name);
      InsertKeepsSorted(tail, id, rows, name);
      SortedHead(ids, rows, name);
      TextTotal(name(rows[id]), name(rows[ids[0]]));
      InsertKeepsLowerBound(tail, id, rows, name, name(rows[ids[0]]));
      assert forall j :: 0 < j < |r| ==> r[j] == rest[j - 1];
    }
  }

  /** The ids of the selected rows in name order, scanning ids upwards. */
  method SortByName<R>(rows: map<int, R>, nextId: int, keep: R -> bool, name: R -> string) returns (ids: seq<int>)
    requires IdsBelow(rows, nextId)
    ensures Selects(ids, rows, keep) && Distinct(ids)
    ensures SortedByName(ids, rows, name)
  {
    ids := [];
    var id := 1;
    while id < nextId
      invariant 1 <= id <= nextId
      invariant forall i :: 0 <= i < |ids| ==> ids[i] in rows && keep(rows[ids[i]]) && ids[i] < id
      invariant forall k :: k < id && k in rows && keep(rows[k]) ==> k in ids
      invariant Distinct(ids)
      invariant SortedByName(ids, rows, name)
    {
      if id in rows && keep(rows[id]) {
        InsertKeepsDistinct(ids, id, rows, name);
        InsertKeepsSorted(ids, id, rows, name);
        var before := ids;
        ids := InsertByName(ids, id, rows, name);
        forall i | 0 <= i < |ids| ensures keep(rows[ids[i]]) && ids[i] < id + 1 {
          assert ids[i] in ids;
          if ids[i] != id {
            var k :| 0 <= k < |before| && before[k] == ids[i];
          }
        }
      }
      id := id + 1;
    }
  }
}
