/** The audit log: a hash chain per tenant, its two writers and its verifier.
  *
  * SHA-256 over the canonical JSON of a record is the free constructor Sha256, so it is
  * injective and nothing else is assumed of it.
  */
module AuditChain {
  import opened Common

  type Tenant = nat
  type Uuid = nat

  /** Where a record came from; unique in the table. */
  datatype Source = Source(topic: nat, partition: nat, offset: nat)

  /** What is hashed: every column of a record but the hash itself.  `content` is what neither
    * writer interprets: actor, resource, outcome, classification, metadata and the like. */
  datatype Material = Material(
    id: Uuid, eventId: Uuid, tenant: Tenant, occurredAt: int, content: nat, previous: Option<Digest>,
    source: Source, lateArrival: bool)

  datatype Digest = Sha256(material: Material)

  datatype Record = Record(material: Material, recordHash: Digest)

  // ---------------------------------------------------------------- the table

  /** findMany by tenant in ingestion order; the table is kept in that order. */
  function OfTenant(records: seq<Record>, tenant: Tenant): (r: seq<Record>)
    ensures |r| <= |records|
  {
    if records == [] then [] else
      var last := records[|records| - 1];
      OfTenant(records[..|records| - 1], tenant) + if last.material.tenant == tenant then [last] else []
  }

  /** findFirst, newest first. */
  function Newest(records: seq<Record>, tenant: Tenant): Option<Record> {
    if records == [] then None
    else if records[|records| - 1].material.tenant == tenant then Some(records[|records| - 1])
    else Newest(records[..|records| - 1], tenant)
  }

  predicate HasEvent(records: seq<Record>, eventId: Uuid) {
    exists i :: 0 <= i < |records| && records[i].material.eventId == eventId
  }

  /** The table's unique columns: id, event id, source position, hash. */
  predicate Insertable(records: seq<Record>, x: Record) {
    forall i :: 0 <= i < |records| ==>
      && records[i].material.id != x.material.id && records[i].material.eventId != x.material.eventId
      && records[i].material.source != x.material.source && records[i].recordHash != x.recordHash
  }

  // ---------------------------------------------------------------- the verifier

  datatype Verification =
    | Verified(checked: nat, first: Option<Uuid>, last: Option<Uuid>)
    | Failed(checked: nat, failureAt: Uuid)

  /** The row does not link to the one before, or its hash is not that of its columns. */
  predicate Broken(rows: seq<Record>, i: nat)
    requires i < |rows|
  {
    || rows[i].material.previous != (if i == 0 then None else Some(rows[i - 1].recordHash))
    || rows[i].recordHash != Sha256(rows[i].material)
  }

  predicate Chained(rows: seq<Record>) { forall i :: 0 <= i < |rows| ==> !Broken(rows, i) }

  function Clamp(limit: int): nat { if limit < 1 then 1 else if limit > 5000 then 5000 else limit }

  function Selected(records: seq<Record>, tenant: Tenant, limit: int): (r: seq<Record>)
    ensures r <= OfTenant(records, tenant) && |r| <= Clamp(limit)
  {
    var rows := OfTenant(records, tenant);
    if |rows| <= Clamp(limit) then rows else rows[..Clamp(limit)]
  }

  function Least(a: int, b: nat): int { if a < b then a else b }

  /** What is verified: the tenant's oldest rows, at least one and at most 5000 of them. */
  lemma SelectedRows(records: seq<Record>, tenant: Tenant, limit: int)
    ensures var (rows, r) := (OfTenant(records, tenant), Selected(records, tenant, limit));
            && r == rows[..|r|]
            && (limit < 1 ==> |r| == Least(1, |rows|))
            && (1 <= limit <= 5000 ==> |r| == Least(limit, |rows|))
            && (limit > 5000 ==> |r| == Least(5000, |rows|))
  {
  }

  /** verifyChain: stops at the first broken row, and counts the sound rows before it. */
  method VerifyChain(records: seq<Record>, tenant: Tenant, limit: int) returns (r: Verification)
    ensures var rows := Selected(records, tenant, limit);
            match r
            case Verified(n, first, last) =>
              && Chained(rows) && n == |rows|
              && first == (if rows == [] then None else Some(rows[0].material.id))
              && last == (if rows == [] then None else Some(rows[|rows| - 1].material.id))
            case Failed(n, at) =>
              && n < |rows| && Broken(rows, n) && at == rows[n].material.id
              && Chained(rows[..n])
  {
    var rows := Selected(records, tenant, limit);
    var previous: Option<Digest> := None;
    for i := 0 to |rows|
      invariant forall k :: 0 <= k < i ==> !Broken(rows, k)
      invariant previous == if i == 0 then None else Some(rows[i - 1].recordHash)
    {
      if rows[i].material.previous != previous || Sha256(rows[i].material) != rows[i].recordHash {
        assert forall k :: 0 <= k < i ==> Broken(rows[..i], k) == Broken(rows, k);
        return Failed(i, rows[i].material.id);
      }
      previous := Some(rows[i].recordHash);
    }
    if |rows| == 0 { return Verified(0, None, None); }
    return Verified(|rows|, Some(rows[0].material.id), Some(rows[|rows| - 1].material.id));
  }

  // ---------------------------------------------------------------- the writers

  /** An event as a producer sent it, and as it was normalized. */
  datatype Event = Event(eventId: Uuid, tenant: Tenant, occurredAt: int, content: nat)

  function NewRecord(records: seq<Record>, event: Event, id: Uuid, source: Source): Record {
    var previous := Newest(records, event.tenant);
    var material := Material(id, event.eventId, event.tenant, event.occurredAt, event.content,
                             if previous.Some? then Some(previous.value.recordHash) else None, source,
                             previous.Some? && event.occurredAt < previous.value.material.occurredAt);
    Record(material, Sha256(material))
  }

  function Insert(records: seq<Record>, event: Event, id: Uuid, source: Source): Option<seq<Record>> {
    var x := NewRecord(records, event, id, source);
    if Insertable(records, x) then Some(records + [x]) else None
  }

  /** `acked` are the events whose message the consumer has finished with. */
  datatype Sys = Sys(records: seq<Record>, acked: set<Uuid>)

  /** A delivered message, or a control record of the query service itself.  `works` is false when the
    * transaction aborts for another reason, such as a serialization failure. */
  datatype Command =
    | Deliver(event: Event, id: Uuid, source: Source, works: bool)
    | Control(event: Event, id: Uuid, source: Source, works: bool)

  /** append: the duplicate check reads an earlier state; a failed transaction leaves the message unacknowledged. */
  function Step(cmd: Command, seen: Sys, now: Sys): Sys {
    match cmd
    case Deliver(event, id, source, works) =>
      if HasEvent(seen.records, event.eventId) then now.(acked := now.acked + {event.eventId})
      else
        var inserted := Insert(now.records, event, id, source);
        if works && inserted.Some? then Sys(inserted.value, now.acked + {event.eventId}) else now
    case Control(event, id, source, works) =>
      var inserted := Insert(now.records, event, id, source);
      if works && inserted.Some? then now.(records := inserted.value) else now
  }

  datatype Call = Call(cmd: Command, read: nat)

  predicate Schedule(calls: seq<Call>) { forall k :: 0 <= k < |calls| ==> calls[k].read <= k }

  function StateOf(calls: seq<Call>, k: nat): Sys
    requires Schedule(calls) && k <= |calls|
    decreases k
  {
    if k == 0 then Sys([], {}) else
      Step(calls[k - 1].cmd, StateOf(calls, calls[k - 1].read), StateOf(calls, k - 1))
  }

  // ---------------------------------------------------------------- theorems

  lemma {:induction false} NewestIsLast(records: seq<Record>, tenant: Tenant)
    ensures var rows := OfTenant(records, tenant);
            Newest(records, tenant) == if rows == [] then None else Some(rows[|rows| - 1])
  {
    if records != [] { NewestIsLast(records[..|records| - 1], tenant); }
  }

  lemma AppendKeepsChains(records: seq<Record>, event: Event, id: Uuid, source: Source, tenant: Tenant)
    requires Chained(OfTenant(records, tenant)) && Insert(records, event, id, source).Some?
    ensures Chained(OfTenant(Insert(records, event, id, source).value, tenant))
  {
    var x := NewRecord(records, event, id, source);
    assert (records + [x])[..|records|] == records;
    NewestIsLast(records, tenant);
    var rows := OfTenant(records, tenant);
    if event.tenant == tenant {
      assert OfTenant(records + [x], tenant) == rows + [x];
      assert forall i :: 0 <= i < |rows| ==> Broken(rows + [x], i) == Broken(rows, i);
      assert !Broken(rows + [x], |rows|);
    } else {
      assert OfTenant(records + [x], tenant) == rows;
    }
  }

  ghost predicate EventsDistinct(records: seq<Record>) {
    forall i, j :: 0 <= i < j < |records| ==> records[i].material.eventId != records[j].material.eventId
  }

  ghost predicate Inv(s: Sys) {
    && EventsDistinct(s.records)
    && (forall tenant :: Chained(OfTenant(s.records, tenant)))
    && forall e :: e in s.acked ==> HasEvent(s.records, e)
  }

  lemma HasEventStays(a: seq<Record>, b: seq<Record>, e: Uuid)
    requires a <= b && HasEvent(a, e)
    ensures HasEvent(b, e)
  {
    var i :| 0 <= i < |a| && a[i].material.eventId == e;
    assert b[i] == a[i];
  }

  lemma StepKeeps(cmd: Command, seen: Sys, now: Sys)
    requires Inv(now) && seen.records <= now.records
    ensures Inv(Step(cmd, seen, now)) && now.records <= Step(cmd, seen, now).records
  {
    var b := Step(cmd, seen, now);
    if b.records != now.records {
      forall tenant ensures Chained(OfTenant(b.records, tenant)) {
        AppendKeepsChains(now.records, cmd.event, cmd.id, cmd.source, tenant);
      }
      assert b.records[|now.records|].material.eventId == cmd.event.eventId;
    }
    forall e | e in b.acked ensures HasEvent(b.records, e) {
      if e in now.acked { HasEventStays(now.records, b.records, e); }
      else if HasEvent(seen.records, e) { HasEventStays(seen.records, b.records, e); }
    }
  }

  lemma {:induction false} EveryRun(calls: seq<Call>, k: nat)
    requires Schedule(calls) && k <= |calls|
    ensures Inv(StateOf(calls, k))
    ensures forall j: nat :: j <= k ==> StateOf(calls, j).records <= StateOf(calls, k).records
    decreases k
  {
    if k > 0 {
      EveryRun(calls, k - 1);
      StepKeeps(calls[k - 1].cmd, StateOf(calls, calls[k - 1].read), StateOf(calls, k - 1));
    }
  }

  /** The last earlier record of the tenant. */
  ghost predicate IsNewest(records: seq<Record>, tenant: Tenant, i: nat) {
    && i < |records| && records[i].material.tenant == tenant
    && forall k :: i < k < |records| ==> records[k].material.tenant != tenant
  }

  lemma {:induction false} NewestIff(records: seq<Record>, tenant: Tenant)
    ensures Newest(records, tenant).None? ==> forall i :: 0 <= i < |records| ==> records[i].material.tenant != tenant
    ensures Newest(records, tenant).Some? ==>
              exists i: nat :: IsNewest(records, tenant, i) && Newest(records, tenant) == Some(records[i])
  {
    if records != [] {
      var last := |records| - 1;
      NewestIff(records[..last], tenant);
      if records[last].material.tenant == tenant {
        assert IsNewest(records, tenant, last);
      } else if Newest(records, tenant).Some? {
        var i: nat :| IsNewest(records[..last], tenant, i)
            && Newest(records[..last], tenant) == Some(records[..last][i]);
        assert IsNewest(records, tenant, i);
      }
    }
  }

  /** The record says what its event says and where it came from, links to the tenant's record before it, is late
    * exactly when that one happened later, and carries the hash of all this. */
  ghost predicate Records(before: seq<Record>, x: Record, event: Event, id: Uuid, source: Source) {
    && x.material.eventId == event.eventId && x.material.tenant == event.tenant && x.material.content == event.content
    && x.material.occurredAt == event.occurredAt && x.material.id == id && x.material.source == source
    && x.recordHash == Sha256(x.material)
    && (x.material.previous.None? ==>
          && !x.material.lateArrival
          && forall i :: 0 <= i < |before| ==> before[i].material.tenant != event.tenant)
    && (x.material.previous.Some? ==>
          exists i: nat :: IsNewest(before, event.tenant, i) && x.material.previous == Some(before[i].recordHash)
                           && (x.material.lateArrival <==> event.occurredAt < before[i].material.occurredAt))
  }

  lemma NewRecordRecords(records: seq<Record>, event: Event, id: Uuid, source: Source)
    ensures Records(records, NewRecord(records, event, id, source), event, id, source)
  {
    NewestIff(records, event.tenant);
    var x := NewRecord(records, event, id, source);
    if x.material.previous.Some? {
      var i: nat :| IsNewest(records, event.tenant, i) && Newest(records, event.tenant) == Some(records[i]);
      assert x.material.previous == Some(records[i].recordHash);
    }
  }

  /** A delivery or a control record adds at most one record, its event's own; a delivery is acknowledged exactly
    * when it was found recorded or is recorded now. */
  lemma {:induction false} CallEffect(calls: seq<Call>, k: nat)
    requires Schedule(calls) && k < |calls|
    ensures var (seen, a, b, cmd) := (StateOf(calls, calls[k].read), StateOf(calls, k), StateOf(calls, k + 1),
                                      calls[k].cmd);
            && (b.records == a.records
                || (|b.records| == |a.records| + 1 && a.records <= b.records
                    && Records(a.records, b.records[|a.records|], cmd.event, cmd.id, cmd.source)))
            && (cmd.Control? ==> b.acked == a.acked)
            && (cmd.Deliver? ==>
                  b.acked == if HasEvent(seen.records, cmd.event.eventId) || b.records != a.records
                             then a.acked + {cmd.event.eventId} else a.acked)
  {
    var (a, b, cmd) := (StateOf(calls, k), StateOf(calls, k + 1), calls[k].cmd);
    NewRecordRecords(a.records, cmd.event, cmd.id, cmd.source);
    if b.records != a.records {
      assert b.records == a.records + [NewRecord(a.records, cmd.event, cmd.id, cmd.source)];
    }
  }

  /** A new event at a new place in a transaction that works is recorded, by either writer. */
  lemma {:induction false} NewEventRecorded(calls: seq<Call>, k: nat)
    requires Schedule(calls) && k < |calls| && calls[k].cmd.works
    requires calls[k].cmd.Deliver? ==> !HasEvent(StateOf(calls, calls[k].read).records, calls[k].cmd.event.eventId)
    requires forall i :: 0 <= i < |StateOf(calls, k).records| ==>
               var m := StateOf(calls, k).records[i].material;
               m.id != calls[k].cmd.id && m.eventId != calls[k].cmd.event.eventId && m.source != calls[k].cmd.source
    ensures |StateOf(calls, k + 1).records| == |StateOf(calls, k).records| + 1
  {
    EveryRun(calls, k);
    var (a, cmd) := (StateOf(calls, k), calls[k].cmd);
    var x := NewRecord(a.records, cmd.event, cmd.id, cmd.source);
    forall i | 0 <= i < |a.records| ensures a.records[i].recordHash != x.recordHash { HashedRecord(a.records, i); }
  }

  lemma {:induction false} HashedRecord(records: seq<Record>, i: nat)
    requires i < |records| && forall tenant :: Chained(OfTenant(records, tenant))
    ensures records[i].recordHash == Sha256(records[i].material)
  {
    var tenant := records[i].material.tenant;
    var k := PlaceOf(records, tenant, i);
    assert Chained(OfTenant(records, tenant)) && !Broken(OfTenant(records, tenant), k);
  }

  lemma {:induction false} PlaceOf(records: seq<Record>, tenant: Tenant, i: nat) returns (k: nat)
    requires i < |records| && records[i].material.tenant == tenant
    ensures k < |OfTenant(records, tenant)| && OfTenant(records, tenant)[k] == records[i]
  {
    var last := |records| - 1;
    if i == last { k := |OfTenant(records, tenant)| - 1; } else { k := PlaceOf(records[..last], tenant, i); }
  }

  /** Any prefix of an accepted list is accepted: rows cut off the end are what verification cannot see. */
  lemma {:induction false} TruncationAccepted(rows: seq<Record>, n: nat)
    requires Chained(rows) && n <= |rows|
    ensures Chained(rows[..n])
  {
    assert forall i :: 0 <= i < n ==> Broken(rows[..n], i) == Broken(rows, i);
  }

  /** In every run of both writers, whatever is delivered again, every tenant's log verifies for every limit. */
  lemma {:induction false} EveryLogVerifies(calls: seq<Call>, k: nat, tenant: Tenant, limit: int)
    requires Schedule(calls) && k <= |calls|
    ensures Chained(Selected(StateOf(calls, k).records, tenant, limit))
  {
    EveryRun(calls, k);
    var rows := OfTenant(StateOf(calls, k).records, tenant);
    if |rows| > Clamp(limit) { TruncationAccepted(rows, Clamp(limit)); }
  }

  /** An acknowledged event has exactly one record, and no event ever has two. */
  lemma {:induction false} AcceptedExactlyOnce(calls: seq<Call>, k: nat, e: Uuid) returns (i: nat)
    requires Schedule(calls) && k <= |calls| && e in StateOf(calls, k).acked
    ensures var records := StateOf(calls, k).records;
            && i < |records| && records[i].material.eventId == e
            && forall j :: 0 <= j < |records| && records[j].material.eventId == e ==> j == i
  {
    EveryRun(calls, k);
    var records := StateOf(calls, k).records;
    i :| 0 <= i < |records| && records[i].material.eventId == e;
    assert forall x, y :: 0 <= x < y < |records| ==> records[x].material.eventId != records[y].material.eventId;
  }

  /** The log only grows at its end. */
  lemma {:induction false} RecordsNeverChange(calls: seq<Call>, j: nat, k: nat)
    requires Schedule(calls) && j <= k <= |calls|
    ensures StateOf(calls, j).records <= StateOf(calls, k).records
  {
    EveryRun(calls, k);
  }

  /** Binding: two accepted lists that end in one hash are the same list. */
  lemma {:induction false} LastHashBinds(a: seq<Record>, b: seq<Record>)
    requires Chained(a) && Chained(b) && a != [] && b != []
    requires a[|a| - 1].recordHash == b[|b| - 1].recordHash
    ensures a == b
  {
    var (m, n) := (|a| - 1, |b| - 1);
    assert !Broken(a, m) && !Broken(b, n);
    assert a[m] == b[n];
    if m > 0 && n > 0 {
      TruncationAccepted(a, m);
      TruncationAccepted(b, n);
      LastHashBinds(a[..m], b[..n]);
    }
    assert a == a[..m] + [a[m]] && b == b[..n] + [b[n]];
  }

  /** So no edit, interior deletion, insertion or reordering that keeps the last hash is accepted. */
  lemma {:induction false} TamperingDetected(records: seq<Record>, tenant: Tenant, limit: int, forged: seq<Record>)
    requires Chained(Selected(records, tenant, limit)) && Selected(records, tenant, limit) != []
    requires forged != [] && forged != Selected(records, tenant, limit)
    requires forged[|forged| - 1].recordHash
               == Selected(records, tenant, limit)[|Selected(records, tenant, limit)| - 1].recordHash
    ensures !Chained(forged)
  {
    if Chained(forged) { LastHashBinds(forged, Selected(records, tenant, limit)); }
  }

  /** What removal, reordering and editing go unnoticed: of all the lists that end in a genuine row exactly
    * the prefixes of the log are accepted. */
  lemma {:induction false} AcceptedIffPrefix(rows: seq<Record>, kept: seq<Record>)
    requires Chained(rows) && kept != [] && kept[|kept| - 1] in rows
    ensures Chained(kept) <==> kept <= rows
  {
    if kept <= rows {
      assert kept == rows[..|kept|];
      TruncationAccepted(rows, |kept|);
    }
    if Chained(kept) {
      var i :| 0 <= i < |rows| && rows[i] == kept[|kept| - 1];
      TruncationAccepted(rows, i + 1);
      LastHashBinds(kept, rows[..i + 1]);
    }
  }
}
