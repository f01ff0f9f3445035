/** Whole runs of inserts into a fresh table: the table refines a sorted map, and loading
    keys in ascending order fills pages in a predictable way. */
module BTreeRuns {
  import opened BTreeModel
  import opened BTreeProofs
  import opened BTreeTheorems

  // ---- The rows as a map ----

  /** `rows` holds exactly the entries of `m`. */
  ghost predicate Represents(m: map<Key, User>, rows: seq<Row>) {
    && (forall x :: 0 <= x < |rows| ==> rows[x].key in m && m[rows[x].key] == rows[x].val)
    && (forall k :: k in m ==> RowsHold(rows, k))
  }

  lemma RepresentsGain(m: map<Key, User>, was: seq<Row>, now: seq<Row>, row: Row)
    requires Represents(m, was) && GainsRow(was, now, row) && row.key !in m
    ensures Represents(m[row.key := row.val], now)
  {
    var at: nat :| at <= |was| && now == Spliced(was, at, row);
    var m' := m[row.key := row.val];
    forall k | k in m'
      ensures RowsHold(now, k)
    {
      if k == row.key {
        assert now[at].key == k;
      } else {
        var x :| 0 <= x < |was| && was[x].key == k;
        assert now[if x < at then x else x + 1].key == k;
      }
    }
    forall x | 0 <= x < |now|
      ensures now[x].key in m' && m'[now[x].key] == now[x].val
    {
      if x != at {
        assert now[x] == was[if x < at then x else x - 1];
      }
    }
  }

  lemma {:induction false} FlattenHolds(ls: seq<seq<Row>>, key: int)
    ensures RowsHold(Flatten(ls), key) <==> exists i :: 0 <= i < |ls| && RowsHold(ls[i], key)
  {
    if ls != [] {
      var rest := Flatten(ls[1..]);
      FlattenHolds(ls[1..], key);
      if RowsHold(Flatten(ls), key) {
        var x :| 0 <= x < |Flatten(ls)| && Flatten(ls)[x].key == key;
        if x < |ls[0]| {
          assert ls[0][x].key == key;
          assert RowsHold(ls[0], key);
        } else {
          assert rest[x - |ls[0]|].key == key;
          var i :| 0 <= i < |ls[1..]| && RowsHold(ls[1..][i], key);
          assert RowsHold(ls[i + 1], key);
        }
      }
      if exists i :: 0 <= i < |ls| && RowsHold(ls[i], key) {
        var i :| 0 <= i < |ls| && RowsHold(ls[i], key);
        if i == 0 {
          var x :| 0 <= x < |ls[0]| && ls[0][x].key == key;
          assert Flatten(ls)[x].key == key;
        } else {
          assert RowsHold(ls[1..][i - 1], key);
          var x :| 0 <= x < |rest| && rest[x].key == key;
          assert Flatten(ls)[x + |ls[0]|].key == key;
        }
      }
    }
  }

  /** The search answers membership in the map. */
  lemma HoldsInMap(t: Pages, L: Layout, m: map<Key, User>, key: Key)
    requires Linked(t, L) && Represents(m, Rows(t, L))
    ensures Holds(t, L, key) <==> key in m
  {
    FlattenHolds(Leaves(t, L), key);
  }

  // ---- Runs ----

  ghost predicate Steps(t: Pages, t': Pages, L: Layout, row: Row) {
    L.Ok() && Linked(t, L) && Insert(t, L, row) == Done(t')
  }

  /** `ts` are the tables that inserting `rows` one by one into a fresh table goes through. */
  ghost predicate IsRun(ts: seq<Pages>, L: Layout, rows: seq<Row>) {
    && |ts| == |rows| + 1 && ts[0] == Fresh()
    && forall i :: 0 <= i < |rows| ==> Steps(ts[i], ts[i + 1], L, rows[i])
  }

  function MapOf(rows: seq<Row>): map<Key, User> {
    if rows == [] then map[]
    else MapOf(rows[..|rows| - 1])[rows[|rows| - 1].key := rows[|rows| - 1].val]
  }

  lemma FreshRows(L: Layout)
    ensures WellFormed(Fresh(), L) && Rows(Fresh(), L) == []
  {
    assert Leaves(Fresh(), L) == [[]];
    FlattenOne([]);
  }

  lemma StepGains(t: Pages, t': Pages, L: Layout, row: Row, m: map<Key, User>)
    requires WellFormed(t, L) && Steps(t, t', L, row) && CanInsert(t, L, row.key) && Represents(m, Rows(t, L))
    ensures WellFormed(t', L) && Represents(m[row.key := row.val], Rows(t', L))
  {
    InsertCorrectIff(t, L, row);
    HoldsInMap(t, L, m, row.key);
    RepresentsGain(m, Rows(t, L), Rows(t', L), row);
  }

  /** Every run in which each key can be inserted keeps the table well formed, and the table
      holds exactly the rows inserted so far. */
  lemma {:induction false} RunRefinesMap(ts: seq<Pages>, L: Layout, rows: seq<Row>, i: nat)
    requires IsRun(ts, L, rows) && i <= |rows|
    requires forall j :: 0 <= j < i ==> Linked(ts[j], L) && CanInsert(ts[j], L, rows[j].key)
    ensures WellFormed(ts[i], L) && Represents(MapOf(rows[..i]), Rows(ts[i], L))
    decreases i
  {
    hide WellFormed, Linked, CanInsert, Steps, Represents, Rows;
    FreshRows(L);
    if i == 0 {
      assert Represents(map[], []) by { RepresentsNothing(); }
    } else {
      RunRefinesMap(ts, L, rows, i - 1);
      assert Steps(ts[i - 1], ts[i - 1 + 1], L, rows[i - 1]);
      StepGains(ts[i - 1], ts[i], L, rows[i - 1], MapOf(rows[..i - 1]));
      assert rows[..i][..i - 1] == rows[..i - 1];
    }
  }

  lemma RepresentsNothing()
    ensures Represents(map[], [])
  {
  }

  /** A run stays well formed throughout if and only if every key could be inserted. */
  lemma {:induction false} RunCorrectIff(ts: seq<Pages>, L: Layout, rows: seq<Row>)
    requires IsRun(ts, L, rows)
    ensures (forall i :: 0 <= i <= |rows| ==> WellFormed(ts[i], L)) <==>
            (forall i :: 0 <= i < |rows| ==> Linked(ts[i], L) && CanInsert(ts[i], L, rows[i].key))
  {
    hide WellFormed, Linked, CanInsert, Steps;
    if forall i :: 0 <= i < |rows| ==> Linked(ts[i], L) && CanInsert(ts[i], L, rows[i].key) {
      forall i | 0 <= i <= |rows|
        ensures WellFormed(ts[i], L)
      {
        RunRefinesMap(ts, L, rows, i);
      }
    }
    if forall i :: 0 <= i <= |rows| ==> WellFormed(ts[i], L) {
      forall i | 0 <= i < |rows|
        ensures Linked(ts[i], L) && CanInsert(ts[i], L, rows[i].key)
      {
        StepCould(ts[i], ts[i + 1], L, rows[i]);
      }
    }
  }

  lemma StepCould(t: Pages, t': Pages, L: Layout, row: Row)
    requires Steps(t, t', L, row) && WellFormed(t, L) && WellFormed(t', L)
    ensures Linked(t, L) && CanInsert(t, L, row.key)
  {
    InsertCorrectIff(t, L, row);
  }
}
