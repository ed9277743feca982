/**
 * GET /api/stock/records: keep the records whose creation instant lies in
 * the requested range, order them newest first and label their direction
 * and unit for display. The date strings are taken as already converted to
 * instants; an absent (or empty) bound does not filter.
 */
module Listing {
  import opened Options
  import opened Ledger

  /** A row of the records table: its id and its columns. */
  datatype Row = Row(id: nat, rec: Record)

  /** One entry of the JSON answer, `created_at` left as an instant. */
  datatype Listed = Listed(id: nat, typeLabel: string, weight: real, unitLabel: string, amount: real, createdAt: int)

  function TypeLabel(k: Kind): string {
    if k == In then "入库" else "出库"
  }

  function UnitLabel(u: Unit): string {
    if u == Kg then "公斤" else "斤"
  }

  /** The two direction labels differ, and so do the two unit labels. */
  lemma LabelsDistinguish(k1: Kind, k2: Kind, u1: Unit, u2: Unit)
    ensures TypeLabel(k1) == TypeLabel(k2) <==> k1 == k2
    ensures UnitLabel(u1) == UnitLabel(u2) <==> u1 == u2
  {
  }

  function Present(row: Row): Listed {
    Listed(row.id, TypeLabel(row.rec.kind), row.rec.weight, UnitLabel(row.rec.unit),
           row.rec.amount, row.rec.createdAt)
  }

  /** `created_at` satisfies every bound that was given, both inclusive. */
  predicate InRange(t: int, start: Option<int>, end: Option<int>) {
    (start.None? || start.value <= t) && (end.None? || t <= end.value)
  }

  /** The rows the two filters let through, in their original order. */
  function Filter(rows: seq<Row>, start: Option<int>, end: Option<int>): (r: seq<Row>)
    ensures forall x :: multiset(r)[x] == if InRange(x.rec.createdAt, start, end) then multiset(rows)[x] else 0
    decreases |rows|
  {
    if rows == [] then []
    else
      assert rows == [rows[0]] + rows[1..];
      var rest := Filter(rows[1..], start, end);
      if InRange(rows[0].rec.createdAt, start, end) then [rows[0]] + rest else rest
  }

  predicate NewestFirst(s: seq<Row>) {
    forall i, j :: 0 <= i < j < |s| ==> s[i].rec.createdAt >= s[j].rec.createdAt
  }

  /** Insert one row into a newest-first sequence. */
  function InsertNewestFirst(x: Row, s: seq<Row>): (r: seq<Row>)
    requires NewestFirst(s)
    ensures NewestFirst(r)
    ensures multiset(r) == multiset(s) + multiset{x}
    ensures |r| == |s| + 1 && (r[0] == x || (|s| > 0 && r[0] == s[0]))
    decreases |s|
  {
    if s == [] || x.rec.createdAt >= s[0].rec.createdAt then [x] + s
    else
      assert s == [s[0]] + s[1..];
      [s[0]] + InsertNewestFirst(x, s[1..])
  }

  /** ORDER BY created_at DESC: any order of equal instants is acceptable. */
  function SortNewestFirst(s: seq<Row>): (r: seq<Row>)
    ensures NewestFirst(r)
    ensures multiset(r) == multiset(s)
    decreases |s|
  {
    if s == [] then []
    else
      assert s == [s[0]] + s[1..];
      InsertNewestFirst(s[0], SortNewestFirst(s[1..]))
  }

  /** Apply `f` to every element, keeping the order. */
  function MapSeq<A, B>(f: A -> B, s: seq<A>): (r: seq<B>)
    ensures |r| == |s|
    decreases |s|
  {
    if s == [] then [] else [f(s[0])] + MapSeq(f, s[1..])
  }

  lemma {:induction false} MapAt<A, B>(f: A -> B, s: seq<A>, i: nat)
    requires i < |s|
    ensures MapSeq(f, s)[i] == f(s[i])
    decreases |s|
  {
    if i > 0 {
      MapAt(f, s[1..], i - 1);
    }
  }

  lemma {:induction false} MapConcat<A, B>(f: A -> B, a: seq<A>, b: seq<A>)
    ensures MapSeq(f, a + b) == MapSeq(f, a) + MapSeq(f, b)
    decreases |a|
  {
    if a == [] {
      assert a + b == b;
    } else {
      assert (a + b)[0] == a[0];
      assert (a + b)[1..] == a[1..] + b;
      MapConcat(f, a[1..], b);
    }
  }

  lemma {:induction false} MapSplit<A, B>(f: A -> B, t: seq<A>, i: nat)
    requires i < |t|
    ensures MapSeq(f, t) == MapSeq(f, t[..i]) + [f(t[i])] + MapSeq(f, t[i + 1..])
    decreases i
  {
    var rest := MapSeq(f, t[i + 1..]);
    if i == 0 {
      assert t[..0] == [] && t[1..] == t[i + 1..];
      assert MapSeq(f, t) == [f(t[0])] + rest;
    } else {
      var tail := t[1..];
      MapSplit(f, tail, i - 1);
      assert tail[..i - 1] == t[1..i] && tail[i - 1] == t[i] && tail[i..] == t[i + 1..];
      var mid := MapSeq(f, t[1..i]);
      assert t[..i][0] == t[0] && t[..i][1..] == t[1..i];
      assert MapSeq(f, t[..i]) == [f(t[0])] + mid;
      assert MapSeq(f, t) == [f(t[0])] + (mid + [f(t[i])] + rest);
    }
  }

  lemma RemoveAt<T>(t: seq<T>, i: nat)
    requires i < |t|
    ensures multiset(t[..i] + t[i + 1..]) == multiset(t) - multiset{t[i]}
  {
    assert t == t[..i] + [t[i]] + t[i + 1..];
  }

  /** Mapping two arrangements of the same elements gives the same elements. */
  lemma {:induction false} MapPermutes<A, B>(f: A -> B, s: seq<A>, t: seq<A>)
    requires multiset(s) == multiset(t)
    ensures multiset(MapSeq(f, s)) == multiset(MapSeq(f, t))
    decreases |s|
  {
    if s == [] {
      assert |t| == |multiset(t)| == 0;
    } else {
      var x := s[0];
      assert x in multiset(t);
      var i :| 0 <= i < |t| && t[i] == x;
      var t' := t[..i] + t[i + 1..];
      assert multiset(s[1..]) == multiset(t') by {
        RemoveAt(t, i);
        RemoveAt(s, 0);
        assert s[..0] + s[1..] == s[1..];
      }
      MapPermutes(f, s[1..], t');
      var front, back := MapSeq(f, t[..i]), MapSeq(f, t[i + 1..]);
      assert MapSeq(f, s) == [f(x)] + MapSeq(f, s[1..]);
      assert MapSeq(f, t) == front + [f(x)] + back by { MapSplit(f, t, i); }
      assert MapSeq(f, t') == front + back by { MapConcat(f, t[..i], t[i + 1..]); }
      MultisetMiddle(front, f(x), back);
    }
  }

  lemma MultisetMiddle<T>(front: seq<T>, y: T, back: seq<T>)
    ensures multiset(front + [y] + back) == multiset([y] + (front + back))
  {
  }

  /** The JSON answer for a sequence of rows, entry by entry. */
  function PresentAll(rows: seq<Row>): seq<Listed> {
    MapSeq(Present, rows)
  }

  /** Presenting keeps the order of the rows, and with it the newest-first order. */
  lemma PresentAllNewestFirst(rows: seq<Row>)
    requires NewestFirst(rows)
    ensures var r := PresentAll(rows);
      forall i, j :: 0 <= i < j < |r| ==> r[i].createdAt >= r[j].createdAt
  {
    var r := PresentAll(rows);
    forall i, j | 0 <= i < j < |r| ensures r[i].createdAt >= r[j].createdAt {
      MapAt(Present, rows, i);
      MapAt(Present, rows, j);
    }
  }

  /**
   * The answer of GET /api/stock/records: the in-range rows, each presented
   * once, newest first.
   */
  function ListRecords(rows: seq<Row>, start: Option<int>, end: Option<int>): (r: seq<Listed>)
    ensures forall i, j :: 0 <= i < j < |r| ==> r[i].createdAt >= r[j].createdAt
    ensures multiset(r) == multiset(PresentAll(Filter(rows, start, end)))
  {
    var selected := Filter(rows, start, end);
    var sorted := SortNewestFirst(selected);
    MapPermutes(Present, sorted, selected);
    PresentAllNewestFirst(sorted);
    PresentAll(sorted)
  }

  lemma SameMembers<T>(a: seq<T>, b: seq<T>, x: T)
    requires multiset(a) == multiset(b)
    ensures x in a <==> x in b
  {
    assert x in a <==> x in multiset(a);
    assert x in b <==> x in multiset(b);
  }

  /** Every entry of the answer presents an in-range row. */
  lemma ListedComesFromRow(rows: seq<Row>, start: Option<int>, end: Option<int>, x: Listed)
    requires x in ListRecords(rows, start, end)
    ensures exists k :: 0 <= k < |rows| && InRange(rows[k].rec.createdAt, start, end) && x == Present(rows[k])
  {
    var selected := Filter(rows, start, end);
    var shown := PresentAll(selected);
    SameMembers(ListRecords(rows, start, end), shown, x);
    var i :| 0 <= i < |shown| && shown[i] == x;
    MapAt(Present, selected, i);
    assert selected[i] in multiset(selected);
    assert selected[i] in multiset(rows);
    var k :| 0 <= k < |rows| && rows[k] == selected[i];
  }

  /** Every in-range row is presented in the answer. */
  lemma RowIsListed(rows: seq<Row>, start: Option<int>, end: Option<int>, k: nat)
    requires k < |rows| && InRange(rows[k].rec.createdAt, start, end)
    ensures Present(rows[k]) in ListRecords(rows, start, end)
  {
    var selected := Filter(rows, start, end);
    var shown := PresentAll(selected);
    assert rows[k] in multiset(rows);
    assert rows[k] in multiset(selected);
    var i :| 0 <= i < |selected| && selected[i] == rows[k];
    MapAt(Present, selected, i);
    assert Present(rows[k]) in shown;
    SameMembers(ListRecords(rows, start, end), shown, Present(rows[k]));
  }

  /** An entry is in the answer exactly when it presents an in-range row. */
  lemma ListRecordsMembers(rows: seq<Row>, start: Option<int>, end: Option<int>, x: Listed)
    ensures x in ListRecords(rows, start, end) <==>
      exists k :: 0 <= k < |rows| && InRange(rows[k].rec.createdAt, start, end) && x == Present(rows[k])
  {
    if x in ListRecords(rows, start, end) {
      ListedComesFromRow(rows, start, end, x);
    }
    if k :| 0 <= k < |rows| && InRange(rows[k].rec.createdAt, start, end) && x == Present(rows[k]) {
      RowIsListed(rows, start, end, k);
    }
  }

  predicate DistinctRowIds(s: seq<Row>) {
    forall i, j :: 0 <= i < j < |s| ==> s[i].id != s[j].id
  }

  predicate DistinctListedIds(s: seq<Listed>) {
    forall i, j :: 0 <= i < j < |s| ==> s[i].id != s[j].id
  }

  /** Filtering keeps ids distinct. */
  lemma {:induction false} FilterDistinct(rows: seq<Row>, start: Option<int>, end: Option<int>)
    requires DistinctRowIds(rows)
    ensures DistinctRowIds(Filter(rows, start, end))
    decreases |rows|
  {
    if rows != [] {
      var tail := rows[1..];
      var rest := Filter(tail, start, end);
      FilterDistinct(tail, start, end);
      forall k | 0 <= k < |rest| ensures rest[k].id != rows[0].id {
        assert rest[k] in multiset(rest);
        assert rest[k] in multiset(tail);
        var m :| 0 <= m < |tail| && tail[m] == rest[k];
        assert rows[m + 1] == rest[k];
      }
    }
  }

  /** An entry of a sequence with distinct ids occurs there once. */
  lemma CountOnce(s: seq<Listed>, p: nat)
    requires p < |s| && DistinctListedIds(s)
    ensures multiset(s)[s[p]] == 1
  {
    assert s == s[..p] + [s[p]] + s[p + 1..];
    assert forall a :: 0 <= a < p ==> s[..p][a].id != s[p].id;
    assert s[p] !in s[..p];
    assert s[p] !in s[p + 1..];
  }

  lemma CountAtLeastTwo<T>(s: seq<T>, i: nat, j: nat)
    requires i < j < |s| && s[i] == s[j]
    ensures multiset(s)[s[i]] >= 2
  {
    assert s == s[..i] + [s[i]] + s[i + 1..j] + [s[j]] + s[j + 1..];
  }

  /** A rearrangement of entries with distinct ids has distinct ids. */
  lemma PermutationDistinct(a: seq<Listed>, b: seq<Listed>)
    requires multiset(a) == multiset(b) && DistinctListedIds(b)
    ensures DistinctListedIds(a)
  {
    forall i, j | 0 <= i < j < |a| ensures a[i].id != a[j].id {
      if a[i].id == a[j].id {
        assert a[i] in multiset(b) && a[j] in multiset(b);
        var p :| 0 <= p < |b| && b[p] == a[i];
        var q :| 0 <= q < |b| && b[q] == a[j];
        assert p == q;
        CountAtLeastTwo(a, i, j);
        CountOnce(b, p);
        assert false;
      }
    }
  }

  /** Rows with distinct ids give an answer with distinct ids. */
  lemma ListRecordsDistinct(rows: seq<Row>, start: Option<int>, end: Option<int>)
    requires DistinctRowIds(rows)
    ensures DistinctListedIds(ListRecords(rows, start, end))
  {
    var selected := Filter(rows, start, end);
    FilterDistinct(rows, start, end);
    var shown := PresentAll(selected);
    forall i, j | 0 <= i < j < |shown| ensures shown[i].id != shown[j].id {
      MapAt(Present, selected, i);
      MapAt(Present, selected, j);
    }
    PermutationDistinct(ListRecords(rows, start, end), shown);
  }

  /** `rows` lists the ledger: each entry once, each row a ledger entry. */
  ghost predicate Enumerates(rows: seq<Row>, m: Ledger) {
    && (forall k :: 0 <= k < |rows| ==> rows[k].id in m && rows[k].rec == m[rows[k].id])
    && (forall id :: id in m ==> Row(id, m[id]) in rows)
    && DistinctRowIds(rows)
  }

  /**
   * Listing a table read in any order gives exactly its in-range records,
   * each once, newest first.
   */
  lemma ListLedger(m: Ledger, rows: seq<Row>, start: Option<int>, end: Option<int>)
    requires Enumerates(rows, m)
    ensures var r := ListRecords(rows, start, end);
      && (forall i :: 0 <= i < |r| ==>
            && r[i].id in m
            && r[i] == Present(Row(r[i].id, m[r[i].id]))
            && InRange(r[i].createdAt, start, end))
      && (forall id :: id in m && InRange(m[id].createdAt, start, end) ==>
            Present(Row(id, m[id])) in r)
      && DistinctListedIds(r)
  {
    var r := ListRecords(rows, start, end);
    ListRecordsDistinct(rows, start, end);
    forall i | 0 <= i < |r|
      ensures r[i].id in m && r[i] == Present(Row(r[i].id, m[r[i].id]))
      ensures InRange(r[i].createdAt, start, end)
    {
      ListedComesFromRow(rows, start, end, r[i]);
    }
    forall id | id in m && InRange(m[id].createdAt, start, end)
      ensures Present(Row(id, m[id])) in r
    {
      var k :| 0 <= k < |rows| && rows[k] == Row(id, m[id]);
      RowIsListed(rows, start, end, k);
    }
  }
}
