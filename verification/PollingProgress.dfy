/** The poller moves on: what a commit does to the checkpoint, and how runs work off a source at rest. */
module PollingProgress {
  import opened Common
  import opened Polling
  import opened PollingTheorems

  // ---------------------------------------------------------------- what a poll returns

  lemma AfterHead(head: Row, tail: seq<Row>, cursor: Key)
    ensures After([head] + tail, cursor) == (if Before(cursor, head.key) then [head] else []) + After(tail, cursor)
  {
    assert ([head] + tail)[1..] == tail;
  }

  /** Moving the cursor on leaves those of the rows that lie above it. */
  lemma {:induction false} AfterAgain(rows: seq<Row>, a: Key, b: Key)
    requires UpTo(a, b)
    ensures After(After(rows, a), b) == After(rows, b)
  {
    if rows != [] {
      var (head, tail) := (rows[0], rows[1..]);
      assert rows == [head] + tail;
      AfterAgain(tail, a, b);
      AfterHead(head, tail, a);
      AfterHead(head, tail, b);
      if Before(a, head.key) {
        AfterHead(head, After(tail, a), b);
      } else {
        assert After(rows, a) == After(tail, a) && After(rows, b) == After(tail, b);
      }
    }
  }

  lemma {:induction false} AllAfter(rows: seq<Row>, cursor: Key)
    requires forall x :: x in rows ==> Before(cursor, x.key)
    ensures After(rows, cursor) == rows
  {
    if rows != [] { AllAfter(rows[1..], cursor); }
  }

  lemma {:induction false} CutAfter(low: seq<Row>, high: seq<Row>, cursor: Key)
    requires forall x :: x in low ==> !Before(cursor, x.key)
    requires forall x :: x in high ==> Before(cursor, x.key)
    ensures After(low + high, cursor) == high
  {
    if low == [] {
      AllAfter(high, cursor);
      assert low + high == high;
    } else {
      CutAfter(low[1..], high, cursor);
      AfterHead(low[0], low[1..] + high, cursor);
      assert low + high == [low[0]] + (low[1..] + high);
    }
  }

  lemma SortedCut(all: seq<Row>, n: nat, key: Key)
    requires Sorted(all) && 0 < n <= |all| && key == all[n - 1].key
    ensures forall x :: x in all[..n] ==> !Before(key, x.key)
    ensures forall x :: x in all[n..] ==> Before(key, x.key)
  {
    forall i | 0 <= i < n ensures !Before(key, all[..n][i].key) { assert i < n - 1 ==> Before(all[i].key, key); }
    forall i | 0 <= i < |all| - n ensures Before(key, all[n..][i].key) { assert all[n..][i] == all[n + i]; }
  }

  /** In a list sorted by key, what lies above the n-th row is the rest. */
  lemma AfterOwn(all: seq<Row>, n: nat, key: Key)
    requires Sorted(all) && 0 < n <= |all| && key == all[n - 1].key
    ensures After(all, key) == all[n..]
  {
    SortedCut(all, n, key);
    CutAfter(all[..n], all[n..], key);
    assert all == all[..n] + all[n..];
  }

  /** Above the n-th of the rows above a cursor lie exactly the others. */
  lemma {:induction false} AfterNth(rows: seq<Row>, cursor: Key, n: nat)
    requires Sorted(rows) && 0 < n <= |After(rows, cursor)|
    ensures After(rows, After(rows, cursor)[n - 1].key) == After(rows, cursor)[n..]
  {
    AfterSorted(rows, cursor);
    var all := After(rows, cursor);
    assert all[n - 1] in all;
    AfterAgain(rows, cursor, all[n - 1].key);
    AfterOwn(all, n, all[n - 1].key);
  }

  /** A poll returns the first rows above its cursor, as many as the limit allows, in order. */
  lemma PolledRows(rows: seq<Row>, cursor: Key, limit: nat)
    requires Sorted(rows)
    ensures var batch := Query(rows, cursor, limit);
            && Sorted(batch) && |batch| <= limit
            && (forall x :: x in batch ==> x in rows && Before(cursor, x.key))
            && (|batch| < limit ==> forall x :: x in rows && Before(cursor, x.key) ==> x in batch)
            && (forall x, y :: x in batch && y in rows && y !in batch && Before(cursor, y.key) ==> Before(x.key, y.key))
  {
    AfterSorted(rows, cursor);
    var (all, batch) := (After(rows, cursor), Query(rows, cursor, limit));
    assert forall i :: 0 <= i < |batch| ==> batch[i] == all[i];
    forall x, y | x in batch && y in rows && y !in batch && Before(cursor, y.key) ensures Before(x.key, y.key) {
      var i :| 0 <= i < |batch| && batch[i] == x;
      var j :| 0 <= j < |all| && all[j] == y;
      assert j < |batch| ==> batch[j] == y;
    }
  }

  lemma {:induction false} MaxIsMax(rows: seq<Row>)
    ensures forall x :: x in rows ==> x.key.w <= MaxWatermark(rows)
    ensures rows != [] ==> exists x :: x in rows && x.key.w == MaxWatermark(rows)
    ensures rows == [] ==> MaxWatermark(rows) == 0
  {
    if rows != [] {
      var most := rows[..|rows| - 1];
      MaxIsMax(most);
      assert rows == most + [rows[|rows| - 1]];
      assert rows[|rows| - 1] in rows;
    }
  }

  /** What a first poll sees: with timestamps the rows of the lookback, otherwise those whose watermark is at most
    * a batch below the greatest; at the edge, those above the least tie-breaker. */
  lemma SeedSees(columns: Columns, rows: seq<Row>, limit: nat, clock: int, lookback: int, x: Row, top: int)
    requires x in rows && (forall y :: y in rows ==> y.key.w <= top) && exists y :: y in rows && y.key.w == top
    ensures Before(Seed(columns, rows, limit, clock, lookback), x.key) <==>
              if columns.timestamp then
                x.key.w > clock - lookback || (x.key.w == clock - lookback && MinimumTie(columns) < x.key.t)
              else x.key.w >= top - limit || (x.key.w + 1 == top - limit && MinimumTie(columns) < x.key.t)
  {
    MaxIsMax(rows);
  }

  // ---------------------------------------------------------------- what a commit does

  /** The batch of a run lies above its cursor. */
  ghost predicate BatchAbove(run: Run) {
    run.phase == Polled ==> forall x :: x in run.batch ==> Before(run.cursor, x.key)
  }

  lemma {:induction false} BatchesAbove(columns: Columns, limit: nat, steps: seq<Command>, k: nat)
    requires k <= |steps|
    ensures forall r {:trigger BatchAbove(StateOf(columns, limit, steps, k).runs[r])} ::
              0 <= r < |StateOf(columns, limit, steps, k).runs| ==>
                  BatchAbove(StateOf(columns, limit, steps, k).runs[r])
  {
    if k > 0 {
      BatchesAbove(columns, limit, steps, k - 1);
      var (s, b) := (StateOf(columns, limit, steps, k - 1), StateOf(columns, limit, steps, k));
      forall r | 0 <= r < |b.runs| ensures BatchAbove(b.runs[r]) {
        if r < |s.runs| { assert BatchAbove(s.runs[r]); }
      }
    }
  }

  /** A commit of rows puts the checkpoint at the last of them, strictly above the cursor of its run and with
    * the seed of its line of polls; every row of the batch has its trigger, and the run's own lease is gone. */
  ghost predicate CommitDone(columns: Columns, a: Sys, b: Sys, r: nat) {
    && r < |a.runs| == |b.runs| && b.source == a.source && b.polled == a.polled
    && b.lease == (if a.lease.Some? && a.lease.value.owner == r then None else a.lease)
    && (forall q :: 0 <= q < |a.runs| && q != r ==> b.runs[q] == a.runs[q]) && b.runs[r].phase == Done
    && var run := a.runs[r];
    && (forall x :: x in run.batch ==> HasKey(columns, b.triggers, x)) && a.triggers <= b.triggers
    && (run.batch != [] ==>
          && b.checkpoint.Some? && b.checkpoint.value.at == run.batch[|run.batch| - 1].key
          && Before(run.cursor, b.checkpoint.value.at)
          && b.checkpoint.value.seed == if run.before.Some? then run.before.value.seed else run.cursor)
    && (run.batch == [] ==>
          && b.triggers == a.triggers
          && b.checkpoint == if run.before.Some? then run.before else a.checkpoint)
  }

  lemma BatchKept(columns: Columns, a: Sys, run: Run)
    requires Inv(columns, a) && RunOk(columns, a, run) && run.phase == Polled && AllFit(columns, run.batch)
    ensures forall x :: x in run.batch ==> HasKey(columns, UpsertAll(columns, a.triggers, run.batch), x)
  {
    UpsertAllKeeps(columns, a, run.batch);
  }

  lemma CommitLeaves(columns: Columns, limit: nat, a: Sys, r: nat, b: Sys)
    requires Step(columns, limit, Commit(r), a) == Some(b) && BatchAbove(a.runs[r])
    requires forall x :: x in a.runs[r].batch ==> HasKey(columns, b.triggers, x)
    ensures CommitDone(columns, a, b, r)
  {
    var batch := a.runs[r].batch;
    if batch != [] { assert batch[|batch| - 1] in batch; }
  }

  lemma {:induction false} CommitEffect(columns: Columns, limit: nat, steps: seq<Command>, k: nat, r: nat)
    requires k < |steps| && steps[k] == Commit(r)
    requires Step(columns, limit, Commit(r), StateOf(columns, limit, steps, k)).Some?
    ensures CommitDone(columns, StateOf(columns, limit, steps, k), StateOf(columns, limit, steps, k + 1), r)
  {
    EveryRun(columns, limit, steps, k);
    BatchesAbove(columns, limit, steps, k);
    var a := StateOf(columns, limit, steps, k);
    assert RunOk(columns, a, a.runs[r]) && BatchAbove(a.runs[r]);
    BatchKept(columns, a, a.runs[r]);
    CommitLeaves(columns, limit, a, r, Step(columns, limit, Commit(r), a).value);
  }

  /** A lease is taken only where there is none or an expired one, and its owner is the new run. */
  lemma {:induction false} AcquireEffect(columns: Columns, limit: nat, steps: seq<Command>, k: nat)
    requires k < |steps| && steps[k].Acquire? && Step(columns, limit, steps[k], StateOf(columns, limit, steps, k)).Some?
    ensures var (a, b) := (StateOf(columns, limit, steps, k), StateOf(columns, limit, steps, k + 1));
            && (a.lease.Some? ==> a.lease.value.expires < steps[k].time)
            && b == a.(lease := Some(Lease(|a.runs|, steps[k].until)),
                       runs := a.runs + [Run(Leased, None, Key(0, 0), [])])
  {
  }

  /** A run that fails or crashes moves nothing and gives up its own lease only. */
  lemma {:induction false} FailEffect(columns: Columns, limit: nat, steps: seq<Command>, k: nat)
    requires k < |steps| && steps[k].Fail? && Step(columns, limit, steps[k], StateOf(columns, limit, steps, k)).Some?
    ensures var (a, b, r) := (StateOf(columns, limit, steps, k), StateOf(columns, limit, steps, k + 1), steps[k].run);
            && r < |a.runs| && b == a.(lease := b.lease, runs := a.runs[r := a.runs[r].(phase := Done)])
            && b.lease == if a.lease.Some? && a.lease.value.owner == r then None else a.lease
  {
  }

  // ---------------------------------------------------------------- one run with nobody in between

  /** Run n is the last of s and holds the lease over this source and checkpoint. */
  ghost predicate Runs(s: Sys, n: nat, source: seq<Row>, checkpoint: Option<Checkpoint>, run: Run) {
    && |s.runs| == n + 1 && s.runs[n] == run && s.source == source && s.checkpoint == checkpoint
    && s.lease.Some? && s.lease.value.owner == n
  }

  lemma Acquires(columns: Columns, limit: nat, s: Sys, time: int, until: int)
    requires s.lease.Some? ==> s.lease.value.expires < time
    ensures Step(columns, limit, Acquire(time, until), s).Some?
    ensures Runs(Step(columns, limit, Acquire(time, until), s).value, |s.runs|, s.source, s.checkpoint,
                 Run(Leased, None, Key(0, 0), []))
  {
  }

  /** Where the next poll starts: at the checkpoint or at the seed. */
  function Position(columns: Columns, limit: nat, source: seq<Row>, checkpoint: Option<Checkpoint>, clock: int,
                    lookback: int): Key
  {
    if checkpoint.Some? then checkpoint.value.at else Seed(columns, source, limit, clock, lookback)
  }

  lemma Reads(columns: Columns, limit: nat, s: Sys, n: nat, source: seq<Row>, checkpoint: Option<Checkpoint>)
    requires Runs(s, n, source, checkpoint, Run(Leased, None, Key(0, 0), []))
    ensures Step(columns, limit, ReadCheckpoint(n), s).Some?
    ensures Runs(Step(columns, limit, ReadCheckpoint(n), s).value, n, source, checkpoint,
                 if checkpoint.Some? then Run(Seeded, checkpoint, checkpoint.value.at, [])
                 else Run(Started, None, Key(0, 0), []))
  {
  }

  lemma Seeds(columns: Columns, limit: nat, s: Sys, n: nat, source: seq<Row>, checkpoint: Option<Checkpoint>,
              clock: int,
              lookback: int)
    requires Runs(s, n, source, checkpoint,
                  if checkpoint.Some? then Run(Seeded, checkpoint, checkpoint.value.at, [])
                  else Run(Started, None, Key(0, 0), []))
    ensures var next := Step(columns, limit, SeedCursor(n, clock, lookback), s);
            Runs(if next.Some? then next.value else s, n, source, checkpoint,
                 Run(Seeded, checkpoint, Position(columns, limit, source, checkpoint, clock, lookback), []))
  {
  }

  lemma Polls(columns: Columns, limit: nat, s: Sys, n: nat, source: seq<Row>, checkpoint: Option<Checkpoint>,
              cursor: Key)
    requires Runs(s, n, source, checkpoint, Run(Seeded, checkpoint, cursor, []))
    ensures Step(columns, limit, Poll(n), s).Some?
    ensures Runs(Step(columns, limit, Poll(n), s).value, n, source, checkpoint,
                 Run(Polled, checkpoint, cursor, Query(source, cursor, limit)))
  {
  }

  /** The steps of one run; SeedCursor is not possible, and changes nothing, when there is a checkpoint. */
  ghost predicate RunAt(steps: seq<Command>, k: nat, n: nat) {
    && k + 5 <= |steps| && steps[k].Acquire? && steps[k + 1] == ReadCheckpoint(n)
    && steps[k + 2].SeedCursor? && steps[k + 2].run == n
    && steps[k + 3] == Poll(n) && steps[k + 4] == Commit(n)
  }

  /** No lease is in the way of the run that starts with step k. */
  ghost predicate MayStart(s: Sys, steps: seq<Command>, k: nat) {
    RunAt(steps, k, |s.runs|) && (s.lease.Some? ==> s.lease.value.expires < steps[k].time)
  }

  /** Where the poll of that run starts. */
  ghost function From(columns: Columns, limit: nat, s: Sys, steps: seq<Command>, k: nat): Key
    requires RunAt(steps, k, |s.runs|)
  {
    Position(columns, limit, s.source, s.checkpoint, steps[k + 2].clock, steps[k + 2].lookback)
  }

  lemma {:induction false} RunToPoll(columns: Columns, limit: nat, steps: seq<Command>, k: nat, a: Sys)
    requires k + 5 <= |steps| && a == StateOf(columns, limit, steps, k) && MayStart(a, steps, k)
    ensures var from := From(columns, limit, a, steps, k);
            Runs(StateOf(columns, limit, steps, k + 4), |a.runs|, a.source, a.checkpoint,
                 Run(Polled, a.checkpoint, from, Query(a.source, from, limit)))
  {
    var (n, from) := (|a.runs|, From(columns, limit, a, steps, k));
    Acquires(columns, limit, a, steps[k].time, steps[k].until);
    Reads(columns, limit, StateOf(columns, limit, steps, k + 1), n, a.source, a.checkpoint);
    Seeds(columns, limit, StateOf(columns, limit, steps, k + 2), n, a.source, a.checkpoint, steps[k + 2].clock,
          steps[k + 2].lookback);
    Polls(columns, limit, StateOf(columns, limit, steps, k + 3), n, a.source, a.checkpoint, from);
  }

  /** How many rows are still to be fetched. */
  function ToFetch(source: seq<Row>, position: Key): nat { |After(source, position)| }

  /** The run fetched a full batch or all there was, and the checkpoint moved past it. */
  ghost predicate Advanced(a: Sys, b: Sys, from: Key, limit: nat) {
    && b.source == a.source && b.lease.None? && |b.runs| == |a.runs| + 1
    && (ToFetch(a.source, from) == 0 ==> b.checkpoint == a.checkpoint)
    && (ToFetch(a.source, from) > 0 ==>
          && b.checkpoint.Some? && Before(from, b.checkpoint.value.at)
          && b.checkpoint.value.seed == (if a.checkpoint.Some? then a.checkpoint.value.seed else from)
          && ToFetch(b.source, b.checkpoint.value.at) ==
             if ToFetch(a.source, from) > limit then ToFetch(a.source, from) - limit else 0)
  }

  lemma CommitAdvances(columns: Columns, a: Sys, mid: Sys, b: Sys, from: Key, limit: nat)
    requires Sorted(a.source) && limit > 0 && CommitDone(columns, mid, b, |a.runs|)
    requires Runs(mid, |a.runs|, a.source, a.checkpoint, Run(Polled, a.checkpoint, from, Query(a.source, from, limit)))
    ensures Advanced(a, b, from, limit)
  {
    Fetched(a.source, from, limit);
  }

  /** One run over a source at rest. */
  lemma {:induction false} RunAdvances(columns: Columns, limit: nat, steps: seq<Command>, k: nat, a: Sys)
    requires k + 5 <= |steps| && a == StateOf(columns, limit, steps, k) && MayStart(a, steps, k) && limit > 0
    ensures Advanced(a, StateOf(columns, limit, steps, k + 5), From(columns, limit, a, steps, k), limit)
  {
    var from := From(columns, limit, a, steps, k);
    RunToPoll(columns, limit, steps, k, a);
    EveryRun(columns, limit, steps, k);
    var mid := StateOf(columns, limit, steps, k + 4);
    CommitPossible(columns, limit, mid, |a.runs|, a.source, Query(a.source, from, limit));
    CommitEffect(columns, limit, steps, k + 4, |a.runs|);
    CommitAdvances(columns, a, mid, StateOf(columns, limit, steps, k + 5), from, limit);
  }

  lemma Fetched(source: seq<Row>, from: Key, limit: nat)
    requires Sorted(source) && limit > 0
    ensures var batch := Query(source, from, limit);
            && (batch == [] <==> ToFetch(source, from) == 0)
            && (batch != [] ==>
                  ToFetch(source, batch[|batch| - 1].key) ==
                  if ToFetch(source, from) > limit then ToFetch(source, from) - limit else 0)
  {
    var batch := Query(source, from, limit);
    if batch != [] { AfterNth(source, from, |batch|); }
  }

  lemma CommitPossible(columns: Columns, limit: nat, s: Sys, n: nat, source: seq<Row>, batch: seq<Row>)
    requires n < |s.runs| && s.runs[n].phase == Polled && s.runs[n].batch == batch
    requires (forall x :: x in source ==> Fits(columns, x.key)) && forall x :: x in batch ==> x in source
    ensures Step(columns, limit, Commit(n), s).Some?
  {
  }

  // ---------------------------------------------------------------- runs one after another

  /** m runs one after another. */
  ghost predicate RunsAt(steps: seq<Command>, k: nat, n: nat, m: nat)
    decreases m
  {
    m == 0 || (RunAt(steps, k, n) && RunsAt(steps, k + 5, n + 1, m - 1))
  }

  /** Every row above the seed is passed and has a trigger under its key. */
  ghost predicate CaughtUp(columns: Columns, s: Sys, seed: Key) {
    forall x :: x in s.source && Before(seed, x.key) ==> Passed(s, x) && HasKey(columns, s.triggers, x)
  }

  /** Where nothing lies above the checkpoint, everything above its seed is captured. */
  ghost predicate CaughtUpAtEnd(columns: Columns, s: Sys) {
    s.checkpoint.Some? && ToFetch(s.source, s.checkpoint.value.at) == 0 ==>
        CaughtUp(columns, s, s.checkpoint.value.seed)
  }

  lemma NothingLeft(columns: Columns, s: Sys)
    requires Inv(columns, s)
    ensures CaughtUpAtEnd(columns, s)
  {
    if s.checkpoint.None? || ToFetch(s.source, s.checkpoint.value.at) > 0 { return; }
    forall x | x in s.source && Before(s.checkpoint.value.seed, x.key)
      ensures Passed(s, x) && HasKey(columns, s.triggers, x)
    {
      assert x !in After(s.source, s.checkpoint.value.at);
      assert UpTo(x.key, s.checkpoint.value.at);
    }
  }

  /** m full batches hold so many rows. */
  ghost predicate Enough(m: nat, limit: nat, left: nat) { left <= m * limit }

  lemma OneRunLess(m: nat, limit: nat, left: nat)
    requires 0 < m && Enough(m, limit, left)
    ensures Enough(m - 1, limit, if left > limit then left - limit else 0)
  {
    assert m * limit == (m - 1) * limit + limit;
  }

  /** All the states of a run. */
  ghost function Trace(columns: Columns, limit: nat, steps: seq<Command>): (r: seq<Sys>)
    ensures |r| == |steps| + 1
    ensures forall k: nat :: k <= |steps| ==> r[k] == StateOf(columns, limit, steps, k)
  {
    seq(|steps| + 1, k requires 0 <= k <= |steps| => StateOf(columns, limit, steps, k))
  }

  /** In these states runs with nobody in between advance. */
  ghost predicate Advancing(columns: Columns, limit: nat, steps: seq<Command>, trace: seq<Sys>) {
    && |trace| == |steps| + 1
    && (forall k: nat :: k <= |steps| ==> CaughtUpAtEnd(columns, trace[k]))
    && forall k: nat :: k + 5 <= |steps| && MayStart(trace[k], steps, k) ==>
         Advanced(trace[k], trace[k + 5], From(columns, limit, trace[k], steps, k), limit)
  }

  lemma {:induction false} TraceAdvances(columns: Columns, limit: nat, steps: seq<Command>)
    requires limit > 0
    ensures Advancing(columns, limit, steps, Trace(columns, limit, steps))
  {
    var trace := Trace(columns, limit, steps);
    forall k: nat | k <= |steps| ensures CaughtUpAtEnd(columns, trace[k]) {
      EveryRun(columns, limit, steps, k);
      NothingLeft(columns, trace[k]);
    }
    forall k: nat | k + 5 <= |steps| && MayStart(trace[k], steps, k)
      ensures Advanced(trace[k], trace[k + 5], From(columns, limit, trace[k], steps, k), limit)
    {
      RunAdvances(columns, limit, steps, k, trace[k]);
    }
  }

  /** One run, and what is left for the others. */
  lemma OneRun(columns: Columns, limit: nat, steps: seq<Command>, k: nat, m: nat, a: Sys, next: Sys)
    requires m > 0 && RunsAt(steps, k, |a.runs|, m) && MayStart(a, steps, k)
    requires Advanced(a, next, From(columns, limit, a, steps, k), limit)
    requires Enough(m, limit, ToFetch(a.source, From(columns, limit, a, steps, k)))
    requires a.checkpoint.Some? || ToFetch(a.source, From(columns, limit, a, steps, k)) > 0
    ensures RunsAt(steps, k + 5, |next.runs|, m - 1) && (m - 1 > 0 ==> MayStart(next, steps, k + 5))
    ensures next.source == a.source
    ensures next.checkpoint.Some? && Enough(m - 1, limit, ToFetch(next.source, next.checkpoint.value.at))
    ensures next.checkpoint.value.seed ==
            if a.checkpoint.Some? then a.checkpoint.value.seed else From(columns, limit, a, steps, k)
  {
    OneRunLess(m, limit, ToFetch(a.source, From(columns, limit, a, steps, k)));
  }

  lemma {:induction false} CatchUpAlong(columns: Columns, limit: nat, steps: seq<Command>, trace: seq<Sys>, k: nat,
                                        m: nat)
    requires Advancing(columns, limit, steps, trace) && k + 5 * m <= |steps|
    requires RunsAt(steps, k, |trace[k].runs|, m) && (m > 0 ==> MayStart(trace[k], steps, k))
    requires trace[k].checkpoint.Some? && Enough(m, limit, ToFetch(trace[k].source, trace[k].checkpoint.value.at))
    ensures trace[k + 5 * m].source == trace[k].source
    ensures CaughtUp(columns, trace[k + 5 * m], trace[k].checkpoint.value.seed)
    decreases m
  {
    if m == 0 {
      assert CaughtUpAtEnd(columns, trace[k]);
    } else {
      OneRun(columns, limit, steps, k, m, trace[k], trace[k + 5]);
      CatchUpAlong(columns, limit, steps, trace, k + 5, m - 1);
      assert (k + 5) + 5 * (m - 1) == k + 5 * m;
    }
  }

  lemma {:induction false} CatchUpAfterFirst(columns: Columns, limit: nat, steps: seq<Command>, trace: seq<Sys>, k: nat,
                                             m: nat, seed: Key)
    requires Advancing(columns, limit, steps, trace) && m > 0 && k + 5 * m <= |steps|
    requires RunsAt(steps, k, |trace[k].runs|, m) && MayStart(trace[k], steps, k) && trace[k].checkpoint.None?
    requires seed == From(columns, limit, trace[k], steps, k)
    requires 0 < ToFetch(trace[k].source, seed) && Enough(m, limit, ToFetch(trace[k].source, seed))
    ensures trace[k + 5 * m].source == trace[k].source && CaughtUp(columns, trace[k + 5 * m], seed)
  {
    OneRun(columns, limit, steps, k, m, trace[k], trace[k + 5]);
    CatchUpAlong(columns, limit, steps, trace, k + 5, m - 1);
    assert (k + 5) + 5 * (m - 1) == k + 5 * m;
  }

  /** From a checkpoint on, over a source at rest: as many runs as fetch all the rows above it leave every row
    * above the seed passed and with its trigger. */
  lemma {:induction false} RunsCatchUp(columns: Columns, limit: nat, steps: seq<Command>, k: nat, m: nat,
                                       trace: seq<Sys>)
    requires trace == Trace(columns, limit, steps) && k + 5 * m <= |steps| && limit > 0
    requires RunsAt(steps, k, |trace[k].runs|, m) && (m > 0 ==> MayStart(trace[k], steps, k))
    requires trace[k].checkpoint.Some? && Enough(m, limit, ToFetch(trace[k].source, trace[k].checkpoint.value.at))
    ensures trace[k + 5 * m].source == trace[k].source
    ensures CaughtUp(columns, trace[k + 5 * m], trace[k].checkpoint.value.seed)
  {
    TraceAdvances(columns, limit, steps);
    CatchUpAlong(columns, limit, steps, trace, k, m);
  }

  /** The same for a connector that has never polled, when its first poll finds a row above its seed. */
  lemma {:induction false} FirstRunsCatchUp(columns: Columns, limit: nat, steps: seq<Command>, k: nat, m: nat,
                                            trace: seq<Sys>, seed: Key)
    requires trace == Trace(columns, limit, steps) && m > 0 && k + 5 * m <= |steps| && limit > 0
    requires RunsAt(steps, k, |trace[k].runs|, m) && MayStart(trace[k], steps, k) && trace[k].checkpoint.None?
    requires seed == Seed(columns, trace[k].source, limit, steps[k + 2].clock, steps[k + 2].lookback)
    requires 0 < ToFetch(trace[k].source, seed) && Enough(m, limit, ToFetch(trace[k].source, seed))
    ensures trace[k + 5 * m].source == trace[k].source && CaughtUp(columns, trace[k + 5 * m], seed)
  {
    TraceAdvances(columns, limit, steps);
    CatchUpAfterFirst(columns, limit, steps, trace, k, m, seed);
  }
}
