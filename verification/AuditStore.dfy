/** The audit consumer and the control-record writer as they run: in place, statement by statement. */
module AuditStore {
  import opened Common
  import opened AuditChain

  datatype Position = Position(topic: nat, partition: nat)

  datatype Quarantined = Quarantined(payloadHash: nat, code: nat, resolved: bool)

  class AuditTables {
    var records: seq<Record>
    var checkpoints: map<Position, nat>
    var quarantine: map<Source, Quarantined>
    var consumed: nat
    var duplicates: nat
    var quarantined: nat

    constructor ()
      ensures records == [] && checkpoints == map[] && quarantine == map[]
      ensures consumed == duplicates == quarantined == 0
    {
      records, checkpoints, quarantine, consumed, duplicates, quarantined := [], map[], map[], 0, 0, 0;
    }

    method MoveCheckpoint(source: Source)
      modifies this`checkpoints
      ensures checkpoints == old(checkpoints)[Position(source.topic, source.partition) := source.offset]
    {
      checkpoints := checkpoints[Position(source.topic, source.partition) := source.offset];
    }

    /** A message that cannot be read is kept once, however often it is delivered. */
    method Quarantine(source: Source, payloadHash: nat, code: nat)
      modifies this
      ensures quarantine == if source in old(quarantine) then old(quarantine)
                            else old(quarantine)[source := Quarantined(payloadHash, code, false)]
      ensures checkpoints == old(checkpoints)[Position(source.topic, source.partition) := source.offset]
      ensures quarantined == old(quarantined) + 1
      ensures records == old(records) && consumed == old(consumed) && duplicates == old(duplicates)
    {
      if source !in quarantine { quarantine := quarantine[source := Quarantined(payloadHash, code, false)]; }
      MoveCheckpoint(source);
      quarantined := quarantined + 1;
    }

    method InsertRecord(event: Event, id: Uuid, source: Source) returns (inserted: bool)
      modifies this`records
      ensures inserted == Insert(old(records), event, id, source).Some?
      ensures records == if inserted then Insert(old(records), event, id, source).value else old(records)
    {
      var previous := Newest(records, event.tenant);
      var late := previous.Some? && event.occurredAt < previous.value.material.occurredAt;
      var hash := if previous.Some? then Some(previous.value.recordHash) else None;
      var material := Material(id, event.eventId, event.tenant, event.occurredAt, event.content, hash, source, late);
      var x := Record(material, Sha256(material));
      if !Insertable(records, x) { return false; }
      records := records + [x];
      return true;
    }

    /** appendControlRecord */
    method AppendControl(event: Event, id: Uuid, source: Source) returns (inserted: bool)
      modifies this`records
      ensures Sys(records, {}) == Step(Control(event, id, source, true), Sys(old(records), {}), Sys(old(records), {}))
      ensures inserted <==> records != old(records)
    {
      inserted := InsertRecord(event, id, source);
    }

    /** append, with nothing written between its check and its transaction. */
    method Append(event: Event, id: Uuid, source: Source) returns (acked: bool)
      modifies this
      ensures var before := Sys(old(records), {});
              Sys(records, if acked then {event.eventId} else {}) ==
                  Step(Deliver(event, id, source, true), before, before)
      ensures acked ==> HasEvent(records, event.eventId)
      ensures checkpoints == if acked then old(checkpoints)[Position(source.topic, source.partition) := source.offset]
                             else old(checkpoints)
      ensures consumed + duplicates == old(consumed) + old(duplicates) + (if acked then 1 else 0)
      ensures consumed - old(consumed) == |records| - |old(records)|
      ensures forall q :: q in quarantine <==> q in old(quarantine)
      ensures forall q :: q in quarantine ==>
                quarantine[q] == if q == source && records != old(records) then old(quarantine)[q].(resolved := true)
                                 else old(quarantine)[q]
    {
      if HasEvent(records, event.eventId) {
        duplicates := duplicates + 1;
        MoveCheckpoint(source);
        return true;
      }
      acked := InsertRecord(event, id, source);
      if acked {
        assert records[|records| - 1].material.eventId == event.eventId;
        if source in quarantine { quarantine := quarantine[source := quarantine[source].(resolved := true)]; }
        MoveCheckpoint(source);
        consumed := consumed + 1;
      }
    }
  }
}
