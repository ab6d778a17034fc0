/** Exactly-once capture in every run of the poller, and what its idempotency keys can tell apart. */
module PollingTheorems {
  import opened Common
  import opened CanonicalJson
  import opened Polling
  import opened PollingKeys

  // ---------------------------------------------------------------- queries

  lemma {:induction false} InsertSorted(rows: seq<Row>, row: Row)
    requires Sorted(rows) && forall x :: x in rows ==> x.key != row.key
    ensures Sorted(InsertRow(rows, row))
  {
    if rows != [] && !Before(row.key, rows[0].key) {
      InsertSorted(rows[1..], row);
      var r := InsertRow(rows[1..], row);
      forall j | 0 <= j < |r| ensures Before(rows[0].key, r[j].key) {
        assert r[j] in r;
        if r[j] != row {
          var i :| 0 <= i < |rows[1..]| && rows[1..][i] == r[j];
          assert rows[i + 1] == r[j];
        }
      }
    }
  }

  lemma {:induction false} AfterSorted(rows: seq<Row>, cursor: Key)
    requires Sorted(rows)
    ensures Sorted(After(rows, cursor))
  {
    if rows != [] {
      AfterSorted(rows[1..], cursor);
      var r := After(rows[1..], cursor);
      forall j | 0 <= j < |r| ensures Before(rows[0].key, r[j].key) {
        assert r[j] in r;
        var i :| 0 <= i < |rows[1..]| && rows[1..][i] == r[j];
        assert rows[i + 1] == r[j];
      }
    }
  }

  /** A poll returns every row above the cursor up to the last row it returns. */
  lemma QueryCovers(rows: seq<Row>, cursor: Key, limit: nat, x: Row)
    requires Sorted(rows) && x in rows && Before(cursor, x.key)
    requires var batch := Query(rows, cursor, limit); batch != [] && UpTo(x.key, batch[|batch| - 1].key)
    ensures x in Query(rows, cursor, limit)
  {
    AfterSorted(rows, cursor);
    var (all, batch) := (After(rows, cursor), Query(rows, cursor, limit));
    var i :| 0 <= i < |all| && all[i] == x;
    if |batch| <= i { assert Before(all[|batch| - 1].key, all[i].key); } else { assert batch[i] == x; }
  }

  /** Rows in the order of their keys when keys may repeat. */
  ghost predicate WeaklySorted(rows: seq<Row>) {
    forall i, j :: 0 <= i < j < |rows| ==> !Before(rows[j].key, rows[i].key)
  }

  lemma {:induction false} AfterWeaklySorted(rows: seq<Row>, cursor: Key)
    requires WeaklySorted(rows) && NoDuplicates(rows)
    ensures WeaklySorted(After(rows, cursor)) && NoDuplicates(After(rows, cursor))
  {
    if rows != [] {
      AfterWeaklySorted(rows[1..], cursor);
      var r := After(rows[1..], cursor);
      forall j | 0 <= j < |r| ensures !Before(r[j].key, rows[0].key) && r[j] != rows[0] {
        assert r[j] in r;
        var i :| 0 <= i < |rows[1..]| && rows[1..][i] == r[j];
        assert rows[i + 1] == r[j];
      }
    }
  }

  /** When keys may repeat, a full batch holds every row up to its last key exactly when it does not
    * cut through rows of one key; so tie-breakers have to be unique within a watermark. */
  lemma CutCoversIff(rows: seq<Row>, cursor: Key, limit: nat)
    requires WeaklySorted(rows) && NoDuplicates(rows) && 1 <= limit < |After(rows, cursor)|
    ensures Query(rows, cursor, limit) != []
    ensures Complete(rows, cursor, Query(rows, cursor, limit))
       <==> After(rows, cursor)[limit].key != After(rows, cursor)[limit - 1].key
  {
    AfterWeaklySorted(rows, cursor);
    CutOfAll(After(rows, cursor), limit);
    AllBeyond(rows, cursor, After(rows, cursor), limit);
  }

  /** Up to its last key, the first part of a list holds everything exactly when the cut is between keys. */
  lemma CutOfAll(all: seq<Row>, limit: nat)
    requires WeaklySorted(all) && NoDuplicates(all) && 1 <= limit < |all|
    ensures (forall x :: x in all && UpTo(x.key, all[limit - 1].key) ==> x in all[..limit])
       <==> all[limit].key != all[limit - 1].key
  {
    if all[limit].key == all[limit - 1].key {
      assert all[limit] in all;
      NotInTheCut(all, limit);
    } else {
      forall x | x in all && UpTo(x.key, all[limit - 1].key) ensures x in all[..limit] { InTheCut(all, limit, x); }
    }
  }

  lemma AllBeyond(rows: seq<Row>, cursor: Key, all: seq<Row>, limit: nat)
    requires all == After(rows, cursor) && 1 <= limit < |all|
    ensures Query(rows, cursor, limit) == all[..limit] != []
    ensures Complete(rows, cursor, all[..limit])
       <==> (forall x :: x in all && UpTo(x.key, all[limit - 1].key) ==> x in all[..limit])
  {
    assert all[..limit][|all[..limit]| - 1] == all[limit - 1];
  }

  lemma NotInTheCut(all: seq<Row>, limit: nat)
    requires NoDuplicates(all) && limit < |all|
    ensures all[limit] !in all[..limit]
  {
  }

  lemma InTheCut(all: seq<Row>, limit: nat, x: Row)
    requires WeaklySorted(all) && 1 <= limit < |all| && all[limit].key != all[limit - 1].key
    requires x in all && UpTo(x.key, all[limit - 1].key)
    ensures x in all[..limit]
  {
    var i :| 0 <= i < |all| && all[i] == x;
    assert !Before(all[limit].key, all[limit - 1].key);
    assert forall k :: limit < k < |all| ==> !Before(all[k].key, all[limit].key);
    assert all[..limit][i] == x;
  }

  // ---------------------------------------------------------------- invariants

  ghost predicate Captured(triggers: seq<Trigger>, x: Row) {
    exists i :: 0 <= i < |triggers| && triggers[i].row == x
  }

  ghost predicate Known(s: Sys, x: Row) { x.key in s.polled && s.polled[x.key] == x }

  /** There is a trigger under the idempotency key of the row. */
  ghost predicate HasKey(columns: Columns, triggers: seq<Trigger>, x: Row) {
    Fits(columns, x.key) && exists i :: 0 <= i < |triggers| && triggers[i].key == KeyText(columns, x)
  }

  /** Every source row between the seed and the checkpoint has a trigger under its key. */
  ghost predicate Covered(columns: Columns, s: Sys, c: Checkpoint) {
    && c.at in s.polled
    && forall x :: x in s.source && Before(c.seed, x.key) && UpTo(x.key, c.at) ==> HasKey(columns, s.triggers, x)
  }

  ghost predicate TriggersOk(columns: Columns, s: Sys) {
    && (forall i :: 0 <= i < |s.triggers| ==>
          Fits(columns, s.triggers[i].row.key) && s.triggers[i].key == KeyText(columns, s.triggers[i].row)
          && Known(s, s.triggers[i].row))
    && forall i, j :: 0 <= i < j < |s.triggers| ==> s.triggers[i].key != s.triggers[j].key
  }

  /** The batch holds every source row from the cursor up to the batch's last row. */
  ghost predicate Complete(source: seq<Row>, cursor: Key, batch: seq<Row>)
    requires batch != []
  {
    forall x :: x in source && Before(cursor, x.key) && UpTo(x.key, batch[|batch| - 1].key) ==> x in batch
  }

  ghost predicate RunOk(columns: Columns, s: Sys, run: Run) {
    && (run.before.Some? ==> Covered(columns, s, run.before.value) && run.phase != Started)
    && (run.phase == Seeded && run.before.Some? ==> run.cursor == run.before.value.at)
    && (run.phase == Polled ==>
          && (run.before.Some? ==> run.cursor == run.before.value.at)
          && (forall x :: x in run.batch ==> Known(s, x))
          && (run.batch != [] ==> Complete(s.source, run.cursor, run.batch)))
  }

  ghost predicate Inv(columns: Columns, s: Sys) {
    && Sorted(s.source)
    && (forall x :: x in s.source ==> Fits(columns, x.key) && (x.key in s.polled ==> Known(s, x)))
    && (forall k :: k in s.polled ==> s.polled[k].key == k && Fits(columns, k))
    && TriggersOk(columns, s)
    && (s.checkpoint.Some? ==> Covered(columns, s, s.checkpoint.value))
    && forall r :: 0 <= r < |s.runs| ==> RunOk(columns, s, s.runs[r])
  }

  // ---------------------------------------------------------------- the steps of the source

  lemma InsertKeeps(columns: Columns, s: Sys, row: Row)
    requires Inv(columns, s) && MayInsert(columns, s, row)
    ensures Inv(columns, s.(source := InsertRow(s.source, row)))
  {
    var b := s.(source := InsertRow(s.source, row));
    InsertSorted(s.source, row);
    AboveCheckpoints(columns, s, b, row);
    forall r | 0 <= r < |b.runs| ensures RunOk(columns, b, b.runs[r]) {
      var run := s.runs[r];
      assert RunOk(columns, s, run);
      AboveCheckpoints(columns, s, b, row);
      if run.phase == Polled && run.batch != [] {
        var last := run.batch[|run.batch| - 1];
        assert last in run.batch && Known(s, last);
      }
    }
  }

  lemma AboveCheckpoints(columns: Columns, s: Sys, b: Sys, row: Row)
    requires b == s.(source := InsertRow(s.source, row)) && forall k :: k in s.polled ==> Before(k, row.key)
    ensures forall c :: Covered(columns, s, c) ==> Covered(columns, b, c)
  {
  }

  lemma RemoveKeeps(columns: Columns, s: Sys, i: nat)
    requires Inv(columns, s) && i < |s.source|
    ensures Inv(columns, s.(source := s.source[..i] + s.source[i + 1..]))
  {
    var b := s.(source := s.source[..i] + s.source[i + 1..]);
    assert forall x :: x in b.source ==> x in s.source;
    forall r | 0 <= r < |b.runs| ensures RunOk(columns, b, b.runs[r]) { assert RunOk(columns, s, s.runs[r]); }
  }

  // ---------------------------------------------------------------- the steps of a run

  lemma RunKeeps(columns: Columns, s: Sys, r: nat, run: Run)
    requires Inv(columns, s) && r < |s.runs| && RunOk(columns, s, run)
    ensures Inv(columns, SetRun(s, r, run))
  {
    var b := SetRun(s, r, run);
    assert forall x :: RunOk(columns, s, x) ==> RunOk(columns, b, x);
  }

  lemma {:induction false} Remembers(columns: Columns, polled: map<Key, Row>, rows: seq<Row>)
    requires forall x :: x in rows ==> Fits(columns, x.key) && (x.key in polled ==> polled[x.key] == x)
    requires forall x, y :: x in rows && y in rows && x.key == y.key ==> x == y
    requires forall k :: k in polled ==> polled[k].key == k && Fits(columns, k)
    ensures var r := Remember(polled, rows);
            && (forall k :: k in polled ==> k in r && r[k] == polled[k])
            && (forall x :: x in rows ==> x.key in r && r[x.key] == x)
            && (forall k :: k in r ==> r[k].key == k && Fits(columns, k) && (k in polled || r[k] in rows))
  {
    if rows != [] {
      var (most, last) := (rows[..|rows| - 1], rows[|rows| - 1]);
      assert rows == most + [last];
      Remembers(columns, polled, most);
    }
  }

  lemma SortedDistinct(rows: seq<Row>, x: Row, y: Row)
    requires Sorted(rows) && x in rows && y in rows && x.key == y.key
    ensures x == y
  {
    var i :| 0 <= i < |rows| && rows[i] == x;
    var j :| 0 <= j < |rows| && rows[j] == y;
    assert forall p, q :: 0 <= p < q < |rows| ==> rows[p].key != rows[q].key;
  }

  lemma RememberKeeps(columns: Columns, s: Sys, batch: seq<Row>)
    requires Inv(columns, s) && forall x :: x in batch ==> x in s.source
    ensures Inv(columns, s.(polled := Remember(s.polled, batch)))
    ensures forall x :: x in batch ==> Known(s.(polled := Remember(s.polled, batch)), x)
  {
    forall x, y | x in batch && y in batch && x.key == y.key ensures x == y { SortedDistinct(s.source, x, y); }
    Remembers(columns, s.polled, batch);
    var mid := s.(polled := Remember(s.polled, batch));
    forall x | x in mid.source && x.key in mid.polled ensures Known(mid, x) {
      if x.key !in s.polled { SortedDistinct(s.source, x, mid.polled[x.key]); }
    }
    assert forall x :: Known(s, x) ==> Known(mid, x);
    assert forall c :: Covered(columns, s, c) ==> Covered(columns, mid, c);
    forall q | 0 <= q < |mid.runs| ensures RunOk(columns, mid, mid.runs[q]) { assert RunOk(columns, s, s.runs[q]); }
  }

  lemma PollKeeps(columns: Columns, limit: nat, s: Sys, r: nat, b: Sys)
    requires Inv(columns, s) && Step(columns, limit, Poll(r), s) == Some(b)
    ensures Inv(columns, b)
  {
    var run := s.runs[r];
    var batch := Query(s.source, run.cursor, limit);
    RememberKeeps(columns, s, batch);
    var mid := s.(polled := Remember(s.polled, batch));
    var after := run.(phase := Polled, batch := batch);
    assert RunOk(columns, mid, run);
    if batch != [] {
      forall x | x in s.source && Before(run.cursor, x.key) && UpTo(x.key, batch[|batch| - 1].key) ensures x in batch {
        QueryCovers(s.source, run.cursor, limit, x);
      }
      assert Complete(s.source, run.cursor, batch);
    }
    RunKeeps(columns, mid, r, after);
    assert b == SetRun(mid, r, after);
  }

  lemma KeyStays(columns: Columns, a: seq<Trigger>, b: seq<Trigger>, x: Row)
    requires a <= b && HasKey(columns, a, x)
    ensures HasKey(columns, b, x)
  {
    var i :| 0 <= i < |a| && a[i].key == KeyText(columns, x);
    assert b[i] == a[i];
  }

  lemma UpsertKeeps(columns: Columns, s: Sys, row: Row)
    requires TriggersOk(columns, s) && Known(s, row) && Fits(columns, row.key)
    ensures TriggersOk(columns, s.(triggers := Upsert(columns, s.triggers, row)))
    ensures HasKey(columns, Upsert(columns, s.triggers, row), row)
  {
    var found := Find(s.triggers, KeyText(columns, row));
    var r := Upsert(columns, s.triggers, row);
    assert r[if found.Some? then found.value else |s.triggers|].key == KeyText(columns, row);
    var b := s.(triggers := r);
    assert forall x :: Known(s, x) ==> Known(b, x);
  }

  lemma {:induction false} UpsertAllKeeps(columns: Columns, s: Sys, rows: seq<Row>)
    requires TriggersOk(columns, s) && AllFit(columns, rows) && forall x :: x in rows ==> Known(s, x)
    ensures TriggersOk(columns, s.(triggers := UpsertAll(columns, s.triggers, rows)))
    ensures forall x :: x in rows ==> HasKey(columns, UpsertAll(columns, s.triggers, rows), x)
  {
    if rows != [] {
      var (most, last) := (rows[..|rows| - 1], rows[|rows| - 1]);
      assert rows == most + [last] && last in rows;
      UpsertAllKeeps(columns, s, most);
      var mid := s.(triggers := UpsertAll(columns, s.triggers, most));
      UpsertKeeps(columns, mid, last);
      forall x | x in most ensures HasKey(columns, UpsertAll(columns, s.triggers, rows), x) {
        KeyStays(columns, mid.triggers, UpsertAll(columns, s.triggers, rows), x);
      }
    }
  }

  lemma MoreTriggers(columns: Columns, s: Sys, triggers: seq<Trigger>)
    requires Inv(columns, s) && s.triggers <= triggers && TriggersOk(columns, s.(triggers := triggers))
    ensures Inv(columns, s.(triggers := triggers))
  {
    var b := s.(triggers := triggers);
    forall c, x | Covered(columns, s, c) && x in b.source && Before(c.seed, x.key) && UpTo(x.key, c.at)
      ensures HasKey(columns, triggers, x) {
      KeyStays(columns, s.triggers, triggers, x);
    }
    assert forall c :: Covered(columns, s, c) ==> Covered(columns, b, c);
    forall r | 0 <= r < |b.runs| ensures RunOk(columns, b, b.runs[r]) { assert RunOk(columns, s, s.runs[r]); }
  }

  /** What the batch adds: the new checkpoint is covered from the seed of its line of polls. */
  lemma NextCovered(columns: Columns, s: Sys, run: Run)
    requires Inv(columns, s) && RunOk(columns, s, run) && run.phase == Polled && NextCheckpoint(run).Some?
    requires forall x :: x in run.batch ==> HasKey(columns, s.triggers, x)
    ensures Covered(columns, s, NextCheckpoint(run).value)
  {
    if run.batch != [] {
      var c := NextCheckpoint(run).value;
      assert run.batch[|run.batch| - 1] in run.batch;
      forall x | x in s.source && Before(c.seed, x.key) && UpTo(x.key, c.at) ensures HasKey(columns, s.triggers, x) {
        if !Before(run.cursor, x.key) { assert run.before.Some? && UpTo(x.key, run.before.value.at); }
      }
    }
  }

  lemma CommitKeeps(columns: Columns, limit: nat, s: Sys, r: nat, b: Sys)
    requires Inv(columns, s) && Step(columns, limit, Commit(r), s) == Some(b)
    ensures Inv(columns, b)
  {
    var run := s.runs[r];
    assert RunOk(columns, s, run);
    UpsertAllKeeps(columns, s, run.batch);
    var mid := s.(triggers := b.triggers);
    MoreTriggers(columns, s, b.triggers);
    assert RunOk(columns, mid, mid.runs[r]);
    var next := NextCheckpoint(run);
    if next.Some? { NextCovered(columns, mid, run); }
    var moved := mid.(checkpoint := b.checkpoint, lease := b.lease);
    assert Inv(columns, moved) by {
      assert forall c :: Covered(columns, mid, c) ==> Covered(columns, moved, c);
      forall q | 0 <= q < |moved.runs|
        ensures RunOk(columns, moved, moved.runs[q]) { assert RunOk(columns, mid, mid.runs[q]); }
    }
    RunKeeps(columns, moved, r, run.(phase := Done));
    assert b == SetRun(moved, r, run.(phase := Done));
  }

  lemma LeaseKeeps(columns: Columns, s: Sys, lease: Option<Lease>)
    requires Inv(columns, s)
    ensures Inv(columns, s.(lease := lease))
  {
    var b := s.(lease := lease);
    assert forall c :: Covered(columns, s, c) ==> Covered(columns, b, c);
    forall q | 0 <= q < |b.runs| ensures RunOk(columns, b, b.runs[q]) { assert RunOk(columns, s, s.runs[q]); }
  }

  lemma AcquireKeeps(columns: Columns, limit: nat, s: Sys, time: int, until: int, b: Sys)
    requires Inv(columns, s) && Step(columns, limit, Acquire(time, until), s) == Some(b)
    ensures Inv(columns, b)
  {
    assert forall c :: Covered(columns, s, c) ==> Covered(columns, b, c);
    forall q | 0 <= q < |b.runs|
      ensures RunOk(columns, b, b.runs[q]) { if q < |s.runs| { assert RunOk(columns, s, s.runs[q]); } }
  }

  lemma StepKeeps(columns: Columns, limit: nat, cmd: Command, s: Sys, b: Sys)
    requires Inv(columns, s) && Step(columns, limit, cmd, s) == Some(b)
    ensures Inv(columns, b)
  {
    match cmd
    case InsertSource(row) => InsertKeeps(columns, s, row);
    case RemoveSource(i) => RemoveKeeps(columns, s, i);
    case Acquire(time, until) => AcquireKeeps(columns, limit, s, time, until, b);
    case ReadCheckpoint(r) => RunKeeps(columns, s, r, b.runs[r]);
    case SeedCursor(r, _, _) =>
      assert RunOk(columns, s, s.runs[r]);
      RunKeeps(columns, s, r, b.runs[r]);
    case Poll(r) => PollKeeps(columns, limit, s, r, b);
    case Commit(r) => CommitKeeps(columns, limit, s, r, b);
    case Fail(r) =>
      assert RunOk(columns, s, s.runs[r]);
      RunKeeps(columns, s, r, s.runs[r].(phase := Done));
      LeaseKeeps(columns, SetRun(s, r, s.runs[r].(phase := Done)), Release(s.lease, r));
  }

  lemma {:induction false} EveryRun(columns: Columns, limit: nat, steps: seq<Command>, k: nat)
    requires k <= |steps|
    ensures Inv(columns, StateOf(columns, limit, steps, k))
  {
    if k > 0 {
      EveryRun(columns, limit, steps, k - 1);
      var s := StateOf(columns, limit, steps, k - 1);
      if Step(columns, limit, steps[k - 1], s).Some? {
        StepKeeps(columns, limit, steps[k - 1], s, StateOf(columns, limit, steps, k));
      }
    }
  }

  /** A source row that the line of polls behind the checkpoint has gone past. */
  ghost predicate Passed(s: Sys, x: Row) {
    s.checkpoint.Some? && x in s.source && Before(s.checkpoint.value.seed, x.key) && UpTo(x.key, s.checkpoint.value.at)
  }

  /** With expired leases, overlapping runs, failures and crashes, and whatever the columns are, every row
    * passed has exactly one trigger under its key, with a row that some poll returned. */
  lemma {:induction false} CapturedUnderItsKey(columns: Columns, limit: nat, steps: seq<Command>, k: nat, x: Row)
    returns (i: nat)
    requires k <= |steps| && Passed(StateOf(columns, limit, steps, k), x)
    ensures var s := StateOf(columns, limit, steps, k);
            && Fits(columns, x.key) && i < |s.triggers| && s.triggers[i].key == KeyText(columns, x)
            && Known(s, s.triggers[i].row) && Fits(columns, s.triggers[i].row.key)
            && KeyText(columns, s.triggers[i].row) == KeyText(columns, x)
            && forall j :: 0 <= j < |s.triggers| && s.triggers[j].key == KeyText(columns, x) ==> j == i
  {
    EveryRun(columns, limit, steps, k);
    var s := StateOf(columns, limit, steps, k);
    assert HasKey(columns, s.triggers, x);
    i :| 0 <= i < |s.triggers| && s.triggers[i].key == KeyText(columns, x);
  }

  /** The ids and ties of two rows overlap in one of the two ways. */
  ghost predicate Overlapping(columns: Columns, x: Row, y: Row)
    requires Fits(columns, x.key) && Fits(columns, y.key)
  {
    var (p, u) := (WatermarkText(columns, x.key), TieText(columns, x.key));
    var (q, v) := (WatermarkText(columns, y.key), TieText(columns, y.key));
    Overlap(x.id, p, u, y.id, q, v) || Overlap(y.id, q, v, x.id, p, u)
  }

  /** What makes two rows share a key: they overlap, or nothing but their places tells them apart. */
  ghost predicate Collide(columns: Columns, x: Row, y: Row) {
    && Fits(columns, x.key) && Fits(columns, y.key)
    && (|| (x.id == y.id && x.key.w == y.key.w && TieText(columns, x.key) == TieText(columns, y.key))
        || Overlapping(columns, x, y))
  }

  lemma CollideIff(columns: Columns, x: Row, y: Row)
    requires Fits(columns, x.key) && Fits(columns, y.key)
    ensures Collide(columns, x, y) <==> KeyText(columns, x) == KeyText(columns, y)
  {
    KeysEqualIff(columns, x, y);
  }

  lemma OneTrigger(columns: Columns, s: Sys, x: Row, y: Row)
    requires TriggersOk(columns, s) && Captured(s.triggers, x) && Captured(s.triggers, y) && Collide(columns, x, y)
    ensures x == y
  {
    CollideIff(columns, x, y);
    var i :| 0 <= i < |s.triggers| && s.triggers[i].row == x;
    var j :| 0 <= j < |s.triggers| && s.triggers[j].row == y;
    assert s.triggers[i].key == s.triggers[j].key;
  }

  /** A row passed is lost if and only if another row was captured that collides with it.  If different
    * tie-breakers have different texts, that is a row whose id and tie overlap with its own. */
  lemma {:induction false} LostIff(columns: Columns, limit: nat, steps: seq<Command>, k: nat, x: Row)
    requires k <= |steps| && Passed(StateOf(columns, limit, steps, k), x)
    ensures var triggers := StateOf(columns, limit, steps, k).triggers;
            !Captured(triggers, x) <==> exists y :: y != x && Captured(triggers, y) && Collide(columns, x, y)
    ensures var triggers := StateOf(columns, limit, steps, k).triggers;
            Distinct(columns) ==>
              forall y :: y != x && Captured(triggers, y) && Collide(columns, x, y) ==> Overlapping(columns, x, y)
  {
    EveryRun(columns, limit, steps, k);
    var s := StateOf(columns, limit, steps, k);
    if Captured(s.triggers, x) {
      forall y | Captured(s.triggers, y) && Collide(columns, x, y) ensures x == y { OneTrigger(columns, s, x, y); }
    } else {
      var i := CapturedUnderItsKey(columns, limit, steps, k, x);
      CollideIff(columns, x, s.triggers[i].row);
    }
    if Distinct(columns) {
      forall y | y != x && Captured(s.triggers, y) && Collide(columns, x, y) ensures Overlapping(columns, x, y) {
        DistinctOverlap(columns, s, x, y);
      }
    }
  }

  lemma DistinctOverlap(columns: Columns, s: Sys, x: Row, y: Row)
    requires Inv(columns, s) && Distinct(columns) && x in s.source && y != x && Captured(s.triggers, y)
    requires Collide(columns, x, y)
    ensures Overlapping(columns, x, y)
  {
    assert Known(s, y);
    if TieText(columns, x.key) == TieText(columns, y.key) { TieTextInjective(columns, x.key, y.key); }
  }

  /** Every tie that enters the source is free of colons. */
  ghost predicate ClearSource(columns: Columns, steps: seq<Command>) {
    forall k :: 0 <= k < |steps| && steps[k].InsertSource? && Fits(columns, steps[k].row.key) ==>
        Clear(columns, steps[k].row.key)
  }

  ghost predicate AllClear(columns: Columns, s: Sys) {
    && (forall x :: x in s.source ==> Clear(columns, x.key))
    && forall k :: k in s.polled ==> Clear(columns, k)
  }

  lemma ClearStep(columns: Columns, limit: nat, cmd: Command, s: Sys, b: Sys)
    requires Inv(columns, s) && AllClear(columns, s) && Step(columns, limit, cmd, s) == Some(b)
    requires cmd.InsertSource? ==> Clear(columns, cmd.row.key)
    ensures AllClear(columns, b)
  {
    match cmd
    case RemoveSource(i) => assert forall x :: x in b.source ==> x in s.source;
    case Poll(r) =>
      var batch := Query(s.source, s.runs[r].cursor, limit);
      forall x, y | x in batch && y in batch && x.key == y.key ensures x == y { SortedDistinct(s.source, x, y); }
      Remembers(columns, s.polled, batch);
    case _ =>
  }

  lemma {:induction false} ClearRun(columns: Columns, limit: nat, steps: seq<Command>, k: nat)
    requires k <= |steps| && ClearSource(columns, steps)
    ensures AllClear(columns, StateOf(columns, limit, steps, k))
  {
    if k > 0 {
      ClearRun(columns, limit, steps, k - 1);
      EveryRun(columns, limit, steps, k - 1);
      var s := StateOf(columns, limit, steps, k - 1);
      var next := Step(columns, limit, steps[k - 1], s);
      if next.Some? { ClearStep(columns, limit, steps[k - 1], s, next.value); }
    }
  }

  /** With BIGINT or UUID ties, and with STRING ties that hold no colon, every row passed has exactly one
    * trigger, its own, under a key that no other trigger has. */
  lemma {:induction false} CapturedExactlyOnce(columns: Columns, limit: nat, steps: seq<Command>, k: nat, x: Row)
    returns (i: nat)
    requires k <= |steps| && Passed(StateOf(columns, limit, steps, k), x)
    requires columns.ties.StringTies? ==> Distinct(columns) && ClearSource(columns, steps)
    ensures var triggers := StateOf(columns, limit, steps, k).triggers;
            && Fits(columns, x.key) && i < |triggers| && triggers[i] == Trigger(KeyText(columns, x), x)
            && (forall j :: 0 <= j < |triggers| && triggers[j].row.key == x.key ==> j == i)
            && forall j :: 0 <= j < |triggers| && triggers[j].key == KeyText(columns, x) ==> j == i
  {
    EveryRun(columns, limit, steps, k);
    var s := StateOf(columns, limit, steps, k);
    i := CapturedUnderItsKey(columns, limit, steps, k, x);
    var y := s.triggers[i].row;
    if columns.ties.StringTies? {
      ClearRun(columns, limit, steps, k);
    } else {
      NumbersAreClear(columns, x.key);
      NumbersAreClear(columns, y.key);
    }
    KeyTextInjective(columns, x, y);
    forall j | 0 <= j < |s.triggers| && s.triggers[j].row.key == x.key
      ensures s.triggers[j].key == KeyText(columns, x) {
      assert Known(s, s.triggers[j].row);
    }
  }

  /** Nothing is captured that a poll did not return. */
  lemma {:induction false} OnlyPolledRows(columns: Columns, limit: nat, steps: seq<Command>, k: nat, i: nat)
    requires k <= |steps| && i < |StateOf(columns, limit, steps, k).triggers|
    ensures Known(StateOf(columns, limit, steps, k), StateOf(columns, limit, steps, k).triggers[i].row)
  {
    EveryRun(columns, limit, steps, k);
  }

  lemma StepGrows(columns: Columns, limit: nat, cmd: Command, s: Sys, b: Sys)
    requires Step(columns, limit, cmd, s) == Some(b)
    ensures s.triggers <= b.triggers
  {
  }

  /** Capturing is never undone. */
  lemma {:induction false} TriggersOnlyGrow(columns: Columns, limit: nat, steps: seq<Command>, j: nat, k: nat)
    requires j <= k <= |steps|
    ensures StateOf(columns, limit, steps, j).triggers <= StateOf(columns, limit, steps, k).triggers
  {
    if j < k {
      TriggersOnlyGrow(columns, limit, steps, j, k - 1);
      var s := StateOf(columns, limit, steps, k - 1);
      var next := Step(columns, limit, steps[k - 1], s);
      if next.Some? { StepGrows(columns, limit, steps[k - 1], s, next.value); }
    }
  }
}
