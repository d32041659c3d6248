/** The inbox table and its retention rule. Rows are kept in rowid order. */
module SmsInbox {
  type Id = nat

  datatype Row = Row(id: Id, sender: string, body: string, stamp: string, receivedAt: int, isRead: bool)

  const INBOX_LIMIT: nat := 100
  const INBOX_MAX_AGE: nat := 30 * 24 * 60 * 60 * 1000

  ghost predicate Distinct(rows: seq<Row>) {
    forall i, j :: 0 <= i < j < |rows| ==> rows[i].id != rows[j].id
  }

  function Ids(rows: seq<Row>): set<Id> {
    set r | r in rows :: r.id
  }

  // ----- the query: ORDER BY received_at DESC, rowid DESC -----

  /** How many rows at the front of `s` were received after `t`. */
  function Position(s: seq<Row>, t: int): (p: nat)
    ensures p <= |s|
  {
    if s == [] || s[0].receivedAt <= t then 0 else 1 + Position(s[1..], t)
  }

  /** The rows newest first; of rows received together the one inserted later comes first. */
  function NewestFirst(rows: seq<Row>): (s: seq<Row>)
    ensures |s| == |rows|
  {
    if rows == [] then []
    else
      var r, s := rows[|rows| - 1], NewestFirst(rows[..|rows| - 1]);
      var p := Position(s, r.receivedAt);
      s[..p] + [r] + s[p..]
  }

  /** `DELETE ... WHERE received_at < cutoff OR id IN doomed`. */
  function Purge(rows: seq<Row>, cutoff: int, doomed: set<Id>): seq<Row> {
    if rows == [] then []
    else
      var r := rows[|rows| - 1];
      Purge(rows[..|rows| - 1], cutoff, doomed) + (if r.receivedAt < cutoff || r.id in doomed then [] else [r])
  }

  /** The ids beyond the limit: `ORDER BY ... LIMIT -1 OFFSET 100`. */
  function Overflow(rows: seq<Row>): set<Id> {
    if |rows| <= INBOX_LIMIT then {} else Ids(NewestFirst(rows)[INBOX_LIMIT..])
  }

  // ----- what it means -----

  predicate Newer(rows: seq<Row>, i: nat, j: nat)
    requires i < |rows| && j < |rows|
  {
    rows[i].receivedAt > rows[j].receivedAt || (rows[i].receivedAt == rows[j].receivedAt && i > j)
  }

  function CountNewer(rows: seq<Row>, n: nat, j: nat): nat
    requires n <= |rows| && j < |rows|
  {
    if n == 0 then 0 else CountNewer(rows, n - 1, j) + (if Newer(rows, n - 1, j) then 1 else 0)
  }

  /** How many rows of the table are newer than row `j`. */
  function Rank(rows: seq<Row>, j: nat): nat
    requires j < |rows|
  {
    CountNewer(rows, |rows|, j)
  }

  /** The first `n` rows, less those with 100 newer ones and those received before the cutoff. */
  ghost function Newest100(rows: seq<Row>, n: nat, cutoff: int): seq<Row>
    requires n <= |rows|
  {
    if n == 0 then []
    else Newest100(rows, n - 1, cutoff) +
         (if Rank(rows, n - 1) < INBOX_LIMIT && rows[n - 1].receivedAt >= cutoff then [rows[n - 1]] else [])
  }

  ghost function Retained(rows: seq<Row>, cutoff: int): seq<Row> {
    Newest100(rows, |rows|, cutoff)
  }

  ghost predicate Descending(s: seq<Row>) {
    forall i, j :: 0 <= i < j < |s| ==> s[i].receivedAt >= s[j].receivedAt
  }

  function CountAfter(s: seq<Row>, t: int): nat {
    if s == [] then 0 else CountAfter(s[1..], t) + (if s[0].receivedAt > t then 1 else 0)
  }

  lemma {:induction false} CountAfterConcat(a: seq<Row>, b: seq<Row>, t: int)
    ensures CountAfter(a + b, t) == CountAfter(a, t) + CountAfter(b, t)
  {
    if a == [] {
      assert a + b == b;
    } else {
      assert (a + b)[1..] == a[1..] + b;
      CountAfterConcat(a[1..], b, t);
    }
  }

  lemma {:induction false} PositionSplits(s: seq<Row>, t: int)
    requires Descending(s)
    ensures var p := Position(s, t);
            && p == CountAfter(s, t)
            && (forall k :: 0 <= k < p ==> s[k].receivedAt > t)
            && (forall k :: p <= k < |s| ==> s[k].receivedAt <= t)
  {
    if s != [] {
      PositionSplits(s[1..], t);
      assert forall k :: 1 <= k < |s| ==> s[k] == s[1..][k - 1];
    }
  }

  lemma InsertDescends(s: seq<Row>, p: nat, r: Row)
    requires Descending(s) && p <= |s|
    requires forall k :: 0 <= k < p ==> s[k].receivedAt > r.receivedAt
    requires forall k :: p <= k < |s| ==> s[k].receivedAt <= r.receivedAt
    ensures Descending(s[..p] + [r] + s[p..])
  {
  }

  lemma InsertCounts(s: seq<Row>, p: nat, r: Row, t: int)
    requires p <= |s|
    ensures CountAfter(s[..p] + [r] + s[p..], t) == CountAfter(s, t) + CountAfter([r], t)
  {
    hide CountAfter;
    assert s == s[..p] + s[p..];
    CountAfterConcat(s[..p] + [r], s[p..], t);
    CountAfterConcat(s[..p], [r], t);
    CountAfterConcat(s[..p], s[p..], t);
  }

  /** Sorting orders the rows and keeps their counts ... */
  lemma {:induction false} NewestFirstSorts(rows: seq<Row>)
    ensures Descending(NewestFirst(rows))
    ensures forall t :: CountAfter(NewestFirst(rows), t) == CountAfter(rows, t)
  {
    if rows != [] {
      var init, r := rows[..|rows| - 1], rows[|rows| - 1];
      NewestFirstSorts(init);
      var s := NewestFirst(init);
      PositionSplits(s, r.receivedAt);
      var p := Position(s, r.receivedAt);
      InsertDescends(s, p, r);
      assert NewestFirst(rows) == s[..p] + [r] + s[p..];
      hide *;
      assert rows == init + [r];
      forall t ensures CountAfter(NewestFirst(rows), t) == CountAfter(rows, t) {
        InsertCounts(s, p, r, t);
        CountAfterConcat(init, [r], t);
      }
    }
  }

  lemma InsertDistinct(s: seq<Row>, p: nat, r: Row)
    requires Distinct(s) && p <= |s| && forall x :: x in s ==> x.id != r.id
    ensures Distinct(s[..p] + [r] + s[p..])
  {
  }

  /** ... and the rows themselves. */
  lemma {:induction false} NewestFirstPermutes(rows: seq<Row>)
    ensures forall x :: x in NewestFirst(rows) <==> x in rows
    ensures Distinct(rows) ==> Distinct(NewestFirst(rows))
  {
    if rows != [] {
      var init, r := rows[..|rows| - 1], rows[|rows| - 1];
      NewestFirstPermutes(init);
      var s, p := NewestFirst(init), Position(NewestFirst(init), r.receivedAt);
      assert rows == init + [r];
      assert s == s[..p] + s[p..];
      assert forall x :: x in s <==> x in s[..p] || x in s[p..];
      if Distinct(rows) {
        InsertDistinct(s, p, r);
      }
    }
  }

  /** One more row raises the rank of exactly the rows it is newer than. */
  lemma {:induction false} CountNewerGrows(rows: seq<Row>, r: Row, n: nat, j: nat)
    requires n <= |rows| && j < |rows|
    ensures CountNewer(rows + [r], n, j) == CountNewer(rows, n, j)
  {
    if n > 0 {
      CountNewerGrows(rows, r, n - 1, j);
    }
  }

  lemma {:induction false} LastRank(rows: seq<Row>, r: Row, n: nat)
    requires n <= |rows|
    ensures CountNewer(rows + [r], n, |rows|) == CountAfter(rows[..n], r.receivedAt)
  {
    if n > 0 {
      LastRank(rows, r, n - 1);
      assert rows[..n] == rows[..n - 1] + [rows[n - 1]];
      CountAfterConcat(rows[..n - 1], [rows[n - 1]], r.receivedAt);
    }
  }

  /** The rank of a row is its place in the sorted table. */
  lemma {:induction false} RankIsPlace(rows: seq<Row>, j: nat)
    requires j < |rows|
    ensures Rank(rows, j) < |rows| && NewestFirst(rows)[Rank(rows, j)] == rows[j]
  {
    var init, r := rows[..|rows| - 1], rows[|rows| - 1];
    assert rows == init + [r];
    if j == |init| {
      NewestFirstSorts(init);
      PositionSplits(NewestFirst(init), r.receivedAt);
      LastRank(init, r, |init|);
      assert init[..|init|] == init;
    } else {
      RankIsPlace(init, j);
      KeepsPlace(init, r, j);
    }
  }

  /** A row that had its rank for its place has it after another row is put in. */
  lemma KeepsPlace(init: seq<Row>, r: Row, j: nat)
    requires j < |init| && Rank(init, j) < |init| && NewestFirst(init)[Rank(init, j)] == init[j]
    ensures Rank(init + [r], j) <= |init| && NewestFirst(init + [r])[Rank(init + [r], j)] == init[j]
  {
    hide *;
    var s, q := NewestFirst(init), Rank(init, j);
    var p := Position(s, r.receivedAt);
    NewestFirstSorts(init);
    PositionSplits(s, r.receivedAt);
    RankGrows(init, r, j);
    SortedWith(init, r);
    InsertShifts(s, p, r, q);
    assert (init + [r])[j] == init[j];
  }

  lemma RankGrows(init: seq<Row>, r: Row, j: nat)
    requires j < |init|
    ensures Rank(init + [r], j) == Rank(init, j) + (if r.receivedAt >= init[j].receivedAt then 1 else 0)
  {
    CountNewerGrows(init, r, |init|, j);
    assert (init + [r])[|init|] == r;
  }

  lemma SortedWith(init: seq<Row>, r: Row)
    ensures var s, p := NewestFirst(init), Position(NewestFirst(init), r.receivedAt);
            NewestFirst(init + [r]) == s[..p] + [r] + s[p..]
  {
    assert (init + [r])[..|init|] == init;
  }

  lemma InsertShifts(s: seq<Row>, p: nat, r: Row, q: nat)
    requires p <= |s| && q < |s|
    ensures (s[..p] + [r] + s[p..])[if q < p then q else q + 1] == s[q]
  {
  }

  lemma OverflowIsRank(rows: seq<Row>, j: nat)
    requires Distinct(rows) && j < |rows|
    ensures rows[j].id in Overflow(rows) <==> Rank(rows, j) >= 100
  {
    RankIsPlace(rows, j);
    NewestFirstPermutes(rows);
    var s := NewestFirst(rows);
    if Rank(rows, j) >= INBOX_LIMIT {
      assert s[INBOX_LIMIT..][Rank(rows, j) - INBOX_LIMIT] == rows[j];
    }
  }

  /** The delete statement keeps exactly the hundred newest rows that are young enough. */
  lemma {:induction false} PurgeKeepsNewest(rows: seq<Row>, n: nat, cutoff: int)
    requires Distinct(rows) && n <= |rows|
    ensures Purge(rows[..n], cutoff, Overflow(rows)) == Newest100(rows, n, cutoff)
  {
    if n > 0 {
      PurgeKeepsNewest(rows, n - 1, cutoff);
      OverflowIsRank(rows, n - 1);
      assert rows[..n][..n - 1] == rows[..n - 1];
    }
  }

  lemma {:induction false} IdsBound(s: seq<Row>)
    ensures |Ids(s)| <= |s|
    ensures Distinct(s) ==> |Ids(s)| == |s|
  {
    if s != [] {
      var t, r := s[..|s| - 1], s[|s| - 1];
      IdsBound(t);
      assert s == t + [r];
      assert Ids(s) == Ids(t) + {r.id};
      if Distinct(s) {
        assert r.id !in Ids(t);
      }
    }
  }

  /** What is retained is a subsequence: distinct, known ids, each of rank below the limit. */
  lemma {:induction false} RetainedRows(rows: seq<Row>, n: nat, cutoff: int)
    requires Distinct(rows) && n <= |rows|
    ensures var k := Newest100(rows, n, cutoff);
            && Distinct(k)
            && (forall x :: x in k <==> exists j :: 0 <= j < n && rows[j] == x && Rank(rows, j) < INBOX_LIMIT && x.receivedAt >= cutoff)
  {
    if n > 0 {
      RetainedRows(rows, n - 1, cutoff);
      var k0, k, r := Newest100(rows, n - 1, cutoff), Newest100(rows, n, cutoff), rows[n - 1];
      forall x | x in k0 ensures x.id != r.id {
        var j :| 0 <= j < n - 1 && rows[j] == x;
      }
      forall x ensures x in k <==> exists j :: 0 <= j < n && rows[j] == x && Rank(rows, j) < INBOX_LIMIT && x.receivedAt >= cutoff {
        if x in k && x !in k0 {
          assert rows[n - 1] == x;
        }
      }
    }
  }

  /** The inbox never exceeds its limit. */
  lemma RetainedBounded(rows: seq<Row>, cutoff: int)
    requires Distinct(rows)
    ensures |Retained(rows, cutoff)| <= 100
  {
    var k, s := Retained(rows, cutoff), NewestFirst(rows);
    RetainedRows(rows, |rows|, cutoff);
    IdsBound(k);
    if |rows| <= INBOX_LIMIT {
      IdsBound(rows);
      assert Ids(k) <= Ids(rows);
      SubsetSize(Ids(k), Ids(rows));
    } else {
      var top := s[..INBOX_LIMIT];
      IdsBound(top);
      forall i | i in Ids(k) ensures i in Ids(top) {
        var x :| x in k && x.id == i;
        var j :| 0 <= j < |rows| && rows[j] == x && Rank(rows, j) < INBOX_LIMIT;
        RankIsPlace(rows, j);
        assert top[Rank(rows, j)] == x;
      }
      SubsetSize(Ids(k), Ids(top));
    }
  }

  lemma SubsetSize(a: set<Id>, b: set<Id>)
    requires a <= b
    ensures |a| <= |b|
  {
    assert b == a + (b - a);
  }

  lemma AppendDistinct(rows: seq<Row>, r: Row)
    requires Distinct(rows) && r.id !in Ids(rows)
    ensures Distinct(rows + [r])
  {
    forall i | 0 <= i < |rows| ensures rows[i].id != r.id {
      assert rows[i].id in Ids(rows);
    }
  }

  lemma PurgeIsRetained(rows: seq<Row>, cutoff: int)
    requires Distinct(rows)
    ensures Purge(rows, cutoff, Overflow(rows)) == Retained(rows, cutoff)
  {
    PurgeKeepsNewest(rows, |rows|, cutoff);
    assert rows[..|rows|] == rows;
  }
}
