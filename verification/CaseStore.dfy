/** The Case service's transactions and attemptCaseSync as they run: in place, statement by statement. */
module CaseStore {
  import opened Common
  import opened CaseSync

  class CaseRecord {
    var status: Status
    var version: nat
    var history: seq<Entry>

    constructor ()
      ensures Row() == CREATED
    {
      status, version, history := Draft, 1, [Entry(None, Draft, 1, None)];
    }

    function Row(): Case
      reads this
    {
      Case(status, version, history)
    }

    method Update(expected: nat, target: Option<Status>) returns (written: bool)
      modifies this
      ensures written == CaseSync.Update(old(Row()), expected, target).Some?
      ensures Row() == if written then CaseSync.Update(old(Row()), expected, target).value else old(Row())
    {
      if version != expected { return false; }
      if target.Some? && !(status == Draft && target.value == Open) && target.value != status { return false; }
      var before := status;
      version := version + 1;
      if target.Some? { status := target.value; }
      if status != before { history := history + [Entry(Some(before), status, version, None)]; }
      return true;
    }

    method Touch()
      modifies this`version
      ensures Row() == CaseSync.Touch(old(Row()))
    {
      version := version + 1;
    }

    method Cancel(expected: nat) returns (written: bool)
      modifies this
      ensures written == CaseSync.Cancel(old(Row()), expected).Some?
      ensures Row() == if written then CaseSync.Cancel(old(Row()), expected).value else old(Row())
    {
      if version != expected { return false; }
      if status == Status.Cancelled || status == Closed || status == Decided { return false; }
      var before := status;
      status := Status.Cancelled;
      version := version + 1;
      history := history + [Entry(Some(before), Status.Cancelled, version, None)];
      return true;
    }

    /** The part of internalWorkflowSync that follows the inbox check. */
    method Apply(target: Status, operation: nat) returns (applied: bool)
      modifies this
      ensures applied == CaseSync.Apply(old(Row()), target, operation).Some?
      ensures Row() == if applied then CaseSync.Apply(old(Row()), target, operation).value else old(Row())
    {
      if status == Status.Cancelled || status == Closed || (status == Decided && target != Decided) { return false; }
      if status != target {
        history := history + [Entry(Some(status), target, version + 1, Some(operation))];
        status := target;
        version := version + 1;
      }
      return true;
    }
  }

  class SyncTables {
    var cases: Cases
    var ops: seq<Op>

    constructor ()
      ensures cases == Cases([], {}) && ops == []
    {
      cases, ops := Cases([], {}), [];
    }

    /** internalWorkflowSync: inbox first, then the case. */
    method InternalWorkflowSync(id: nat, target: Status, operation: nat) returns (ok: bool)
      modifies this`cases
      ensures (ok, cases) == Sync(old(cases), id, target, operation)
    {
      if target !in {EvidenceCollection, UnderReview, DecisionPending, Decided} { return false; }
      if id >= |cases.rows| { return false; }
      if operation in cases.inbox { return true; }
      var row := new CaseRecord();
      row.status, row.version, row.history := cases.rows[id].status, cases.rows[id].version, cases.rows[id].history;
      ok := row.Apply(target, operation);
      if ok { cases := Cases(cases.rows[id := row.Row()], cases.inbox + {operation}); }
    }

    method Enqueue(instance: nat, caseId: nat, target: Status, event: EventType)
      modifies this`ops
      ensures ops == QueueSync(old(ops), instance, caseId, target, event)
    {
      var found := FindOp(ops, instance, event);
      if found.Some? {
        ops := ops[found.value := ops[found.value].(status := Pending)];
      } else {
        ops := ops + [Op(instance, caseId, target, event, Pending, 0)];
      }
    }

    /** attemptCaseSync from its read to its end, with nobody else writing in between: the three steps
      * of an attempt, one after another. */
    method AttemptCaseSync(instance: nat, net: Net, works: bool, max: nat)
      modifies this
      ensures var begun := Step(Begin(instance), Sys(old(cases), old(ops), []));
              var done := Step(Finish(0, works, max), Step(CallCase(0, net), begun));
              cases == done.cases && ops == done.ops
    {
      var next := NextOp(ops, instance);
      if next.None? { return; }
      var (o, read) := (next.value, ops[next.value].attempts);
      var ok := false;
      if net != Unreachable {
        ok := InternalWorkflowSync(ops[o].caseId, ops[o].target, o);
        if net == ReplyLost { ok := false; }
      }
      if ok && works {
        ops := ops[o := ops[o].(status := Synced, attempts := ops[o].attempts + 1)];
      } else {
        var attempts := read + 1;
        ops := ops[o := ops[o].(status := if attempts >= max then Failed else Pending, attempts := attempts)];
      }
    }
  }
}
