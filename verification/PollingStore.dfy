/** The connector's lease, poll and capture as they run: in place, row by row. */
module PollingStore {
  import opened Common
  import opened Polling

  /** The triggers of a batch, one for each row in order. */
  ghost predicate Ids(columns: Columns, triggers: seq<Trigger>, batch: seq<Row>, captured: seq<nat>)
    requires AllFit(columns, batch)
  {
    && |captured| == |batch|
    && forall i :: 0 <= i < |batch| ==>
        captured[i] < |triggers| && triggers[captured[i]].key == KeyText(columns, batch[i])
  }

  /** These rows have been captured. */
  ghost predicate CapturedRows(columns: Columns, start: seq<Trigger>, rows: seq<Row>, triggers: seq<Trigger>,
                               captured: seq<nat>) {
    AllFit(columns, rows) && triggers == UpsertAll(columns, start, rows) && Ids(columns, triggers, rows, captured)
  }

  lemma CapturedNext(columns: Columns, start: seq<Trigger>, first: seq<Row>, row: Row, before: seq<Trigger>,
                     after: seq<Trigger>, captured: seq<nat>, id: nat)
    requires CapturedRows(columns, start, first, before, captured)
    requires Fits(columns, row.key) && after == Upsert(columns, before, row)
    requires id < |after| && after[id].key == KeyText(columns, row)
    ensures CapturedRows(columns, start, first + [row], after, captured + [id])
  {
    UpsertAllNext(columns, start, first, row);
    IdsNext(columns, before, after, first, row, captured, id);
  }

  lemma UpsertAllNext(columns: Columns, start: seq<Trigger>, first: seq<Row>, row: Row)
    requires AllFit(columns, first) && Fits(columns, row.key)
    ensures AllFit(columns, first + [row])
    ensures UpsertAll(columns, start, first + [row]) == Upsert(columns, UpsertAll(columns, start, first), row)
  {
    assert (first + [row])[..|first|] == first;
  }

  lemma IdsNext(columns: Columns, before: seq<Trigger>, after: seq<Trigger>, first: seq<Row>, row: Row,
                captured: seq<nat>,
                id: nat)
    requires AllFit(columns, first) && AllFit(columns, first + [row]) && before <= after
             && Ids(columns, before, first, captured)
    requires Fits(columns, row.key) && id < |after| && after[id].key == KeyText(columns, row)
    ensures Ids(columns, after, first + [row], captured + [id])
  {
    var rows := first + [row];
    forall i | 0 <= i < |rows|
      ensures (captured + [id])[i] < |after| && after[(captured + [id])[i]].key == KeyText(columns, rows[i])
    {
      if i < |first| { assert after[captured[i]] == before[captured[i]]; }
    }
  }

  class Connector {
    var triggers: seq<Trigger>
    var checkpoint: Option<Checkpoint>
    var lease: Option<Lease>
    var failures: nat
    var paused: bool

    constructor ()
      ensures triggers == [] && checkpoint.None? && lease.None? && failures == 0 && !paused
    {
      triggers, checkpoint, lease, failures, paused := [], None, None, 0, false;
    }

    /** INSERT ... ON CONFLICT DO UPDATE ... WHERE expires_at < now */
    method AcquireLease(owner: nat, time: int, until: int) returns (acquired: bool)
      modifies this`lease
      ensures acquired <==> old(lease).None? || old(lease).value.expires < time
      ensures lease == if acquired then Some(Lease(owner, until)) else old(lease)
    {
      if lease.Some? && lease.value.expires >= time { return false; }
      lease := Some(Lease(owner, until));
      return true;
    }

    method ReleaseLease(owner: nat)
      modifies this`lease
      ensures lease == Release(old(lease), owner)
    {
      if lease.Some? && lease.value.owner == owner { lease := None; }
    }

    /** poll: with no checkpoint the cursor is seeded first. */
    method Poll(columns: Columns, source: seq<Row>, limit: nat, before: Option<Checkpoint>, clock: int, lookback: int)
      returns (batch: seq<Row>, next: Option<Checkpoint>)
      ensures var cursor := if before.Some? then before.value.at else Seed(columns, source, limit, clock, lookback);
              && batch == Query(source, cursor, limit)
              && next == NextCheckpoint(Run(Phase.Polled, before, cursor, batch))
              && (batch == [] ==> next == before)
              && (batch != [] ==> next == Some(Checkpoint(batch[|batch| - 1].key,
                                                          if before.Some? then before.value.seed else cursor)))
    {
      var effective := if before.Some? then before.value.at else Key(0, 0);
      if before.None? {
        if columns.timestamp {
          effective := Key(clock - lookback, MinimumTie(columns));
        } else {
          effective := Key(MaxWatermark(source) - limit - 1, MinimumTie(columns));
        }
      }
      batch := Query(source, effective, limit);
      if |batch| > 0 {
        next := Some(Checkpoint(batch[|batch| - 1].key, if before.Some? then before.value.seed else effective));
      } else {
        next := before;
      }
    }

    /** One upsert of a source trigger. */
    method CaptureRow(columns: Columns, row: Row) returns (id: nat)
      requires Fits(columns, row.key)
      modifies this`triggers
      ensures triggers == Upsert(columns, old(triggers), row)
      ensures id < |triggers| && triggers[id].key == KeyText(columns, row)
    {
      var key := KeyText(columns, row);
      var existing := Find(triggers, key);
      if existing.Some? { return existing.value; }
      id := |triggers|;
      triggers := triggers + [Trigger(key, row)];
    }

    /** The loop over the rows of a batch. */
    method CaptureRows(columns: Columns, batch: seq<Row>) returns (captured: seq<nat>)
      requires AllFit(columns, batch)
      modifies this`triggers
      ensures CapturedRows(columns, old(triggers), batch, triggers, captured)
    {
      captured := [];
      for k := 0 to |batch|
        invariant CapturedRows(columns, old(triggers), batch[..k], triggers, captured)
      {
        assert batch[k] in batch;
        ghost var before := triggers;
        var id := CaptureRow(columns, batch[k]);
        CapturedNext(columns, old(triggers), batch[..k], batch[k], before, triggers, captured, id);
        assert batch[..k + 1] == batch[..k] + [batch[k]];
        captured := captured + [id];
      }
      assert batch[..|batch|] == batch;
    }

    /** The transaction that captures a batch and moves the checkpoint with it. */
    method CaptureBatch(columns: Columns, batch: seq<Row>, next: Option<Checkpoint>, owner: nat)
      returns (captured: seq<nat>)
      requires AllFit(columns, batch)
      modifies this
      ensures triggers == UpsertAll(columns, old(triggers), batch) && Ids(columns, triggers, batch, captured)
      ensures checkpoint == if next.Some? then next else old(checkpoint)
      ensures lease == Release(old(lease), owner)
      ensures failures == 0 && paused == old(paused)
    {
      captured := CaptureRows(columns, batch);
      if next.Some? { checkpoint := next; }
      failures := 0;
      ReleaseLease(owner);
    }

    /** recordPollFailure: the connector pauses at the threshold. */
    method RecordFailure(owner: nat, threshold: nat)
      modifies this
      ensures failures == old(failures) + 1 && paused == (old(paused) || failures >= threshold)
      ensures lease == Release(old(lease), owner)
      ensures triggers == old(triggers) && checkpoint == old(checkpoint)
    {
      failures := failures + 1;
      if failures >= threshold { paused := true; }
      ReleaseLease(owner);
    }
  }
}
