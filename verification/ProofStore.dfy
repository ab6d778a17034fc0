/** The writes of the proof worker and the proof service as they run: in place, statement by statement. */
module ProofStore {
  import opened Common
  import opened CanonicalJson
  import opened Chaincode
  import opened ProofSaga

  /** A picked request that reconcile counts as confirmed. */
  predicate FoundOnLedger(row: Request, ledger: State) {
    row.binding.Some? && row.binding.value.transactionId != [] && Finalized(ledger, row.binding.value)
  }

  function CountFound(rows: seq<Request>, picked: seq<nat>, ledger: State): (n: nat)
    requires forall i :: 0 <= i < |picked| ==> picked[i] < |rows|
    ensures n <= |picked|
  {
    if picked == [] then 0 else
      var last := |picked| - 1;
      CountFound(rows, picked[..last], ledger) + if FoundOnLedger(rows[picked[last]], ledger) then 1 else 0
  }

  lemma SubmitOutcome(ledger: State, kind: ProofKind, payload: Json, net: Net)
    ensures SubmitProof(ledger, kind, payload, net).0.Anchored? || SubmitProof(ledger, kind, payload, net).0.Failed?
  {
  }

  /** An aborted success is caught like a provider error of unknown kind. */
  function Outcome(phase: Phase, works: bool): Phase {
    if phase.Anchored? && !works then Failed(true, false) else phase
  }

  /** The row after its attempt was answered. */
  function Settled(row: Request, max: nat, attempt: nat, phase: Phase): Request {
    match phase
    case Anchored(binding) => SuccessRow(row, binding)
    case Failed(retryable, conflict) => FailureRow(row, max, attempt, retryable, conflict)
    case _ => row
  }

  lemma SettledStates(row: Request, max: nat, attempt: nat, outcome: Phase)
    requires outcome.Anchored? || outcome.Failed?
    ensures var after := Settled(row, max, attempt, outcome);
            && after.lease.None? && after.attempts == row.attempts && after.numbers == row.numbers
            && (after.state == Confirmed <==> outcome.Anchored?)
            && (outcome.Anchored? ==> after.binding == Some(outcome.binding))
            && (outcome.Failed? ==>
                  && after.binding == row.binding && after.state in {Conflict, FailedRetryable, FailedPermanent}
                  && (after.state == Conflict <==> outcome.conflict)
                  && (after.state == FailedRetryable <==> outcome.retryable && !outcome.conflict && attempt < max))
  {
  }

  class ProofTables {
    var requests: seq<Request>
    var ledger: State

    constructor ()
      ensures requests == [] && ledger == map[]
    {
      requests, ledger := [], map[];
    }

    /** updateMany by id and lease alone. */
    method AcquireLease(id: nat, owner: nat, time: int, until: int) returns (acquired: bool)
      requires id < |requests|
      modifies this`requests
      ensures acquired <==> (old(requests)[id].lease.Some? ==>
                old(requests)[id].lease.value.expires < time || old(requests)[id].lease.value.owner == owner)
      ensures requests == if acquired then old(requests)[id := old(requests)[id].(lease := Some(Lease(owner, until)))]
                          else old(requests)
    {
      var row := requests[id];
      if !(row.lease.None? || row.lease.value.expires < time || row.lease.value.owner == owner) { return false; }
      requests := requests[id := row.(lease := Some(Lease(owner, until)))];
      return true;
    }

    /** process from its read to its end, with nobody else writing in between.  `works` is false when the
      * transaction after a successful submission aborts; false is returned when process throws. */
    method Process(id: nat, payload: Json, net: Net, works: bool, max: nat) returns (ended: bool)
      requires id < |requests|
      modifies this
      ensures |requests| == |old(requests)|
      ensures forall r :: 0 <= r < |requests| && r != id ==> requests[r] == old(requests)[r]
      ensures var (row, after) := (old(requests)[id], requests[id]);
        if row.state == Confirmed then ended && after == row && ledger == old(ledger)
        else if row.state == Submitted && FoundOnLedger(row, old(ledger)) then
          ended && after == ConfirmRow(row) && ledger == old(ledger)
        else if row.attempts + 1 in row.numbers then !ended && after == MarkRow(row) && ledger == old(ledger)
        else
          var (phase, registry) := SubmitProof(old(ledger), row.kind, payload, net);
          var outcome := Outcome(phase, works);
          && ended && ledger == registry
          && after.attempts == row.attempts + 1 && after.numbers == row.numbers + {row.attempts + 1}
          && after.lease.None?
          && (after.state == Confirmed <==> phase.Anchored? && works)
          && (after.state == Confirmed ==> after.binding == Some(phase.binding))
          && (outcome.Failed? ==>
                && after.binding == row.binding && after.state in {Conflict, FailedRetryable, FailedPermanent}
                && (after.state == Conflict <==> outcome.conflict)
                && (after.state == FailedRetryable <==>
                    outcome.retryable && !outcome.conflict && row.attempts + 1 < max))
    {
      var row := requests[id];
      if row.state == Confirmed { return true; }
      if row.state == Submitted && row.binding.Some? && row.binding.value.transactionId != [] {
        if Finalized(ledger, row.binding.value) {
          requests := requests[id := requests[id].(state := Confirmed, lease := None)];
          return true;
        }
      }
      ended := Attempt(id, row.attempts + 1, payload, net, works, max);
      if ended {
        ghost var phase := SubmitProof(old(ledger), row.kind, payload, net).0;
        SubmitOutcome(old(ledger), row.kind, payload, net);
        SettledStates(MarkRow(row).(numbers := row.numbers + {row.attempts + 1}), max, row.attempts + 1,
                      Outcome(phase, works));
      }
    }

    /** One attempt: mark, number, submit, and commit the outcome; a number already taken throws. */
    method Attempt(id: nat, attempt: nat, payload: Json, net: Net, works: bool, max: nat) returns (ended: bool)
      requires id < |requests|
      modifies this
      ensures |requests| == |old(requests)| && requests == old(requests)[id := requests[id]]
      ensures ended == (attempt !in old(requests)[id].numbers)
      ensures !ended ==> requests[id] == MarkRow(old(requests)[id]) && ledger == old(ledger)
      ensures ended ==>
        var (row, after) := (old(requests)[id], requests[id]);
        var (phase, registry) := SubmitProof(old(ledger), row.kind, payload, net);
        && ledger == registry
        && after == Settled(MarkRow(row).(numbers := row.numbers + {attempt}), max, attempt, Outcome(phase, works))
    {
      requests := requests[id := requests[id].(state := Submitting, attempts := requests[id].attempts + 1)];
      if attempt in requests[id].numbers { return false; }
      requests := requests[id := requests[id].(numbers := requests[id].numbers + {attempt})];
      var (phase, registry) := SubmitProof(ledger, requests[id].kind, payload, net);
      ledger := registry;
      SubmitOutcome(old(ledger), requests[id].kind, payload, net);
      CommitOutcome(id, attempt, max, Outcome(phase, works));
      return true;
    }

    /** The transaction after the provider's answer. */
    method CommitOutcome(id: nat, attempt: nat, max: nat, phase: Phase)
      requires id < |requests| && (phase.Anchored? || phase.Failed?)
      modifies this`requests
      ensures requests == old(requests)[id := Settled(old(requests)[id], max, attempt, phase)]
    {
      if phase.Anchored? {
        requests := requests[id := requests[id].(binding := Some(phase.binding))];
        requests := requests[id := requests[id].(state := Confirmed, lease := None)];
      } else {
        var retryable := phase.retryable && attempt < max;
        var state := if phase.conflict then Conflict else if retryable then FailedRetryable else FailedPermanent;
        requests := requests[id := requests[id].(state := state, lease := None)];
      }
    }

    method Retry(id: nat, read: RequestState) returns (accepted: bool)
      requires id < |requests|
      modifies this`requests
      ensures accepted == (read == FailedRetryable)
      ensures requests == if accepted then old(requests)[id := RetryRow(old(requests)[id])] else old(requests)
    {
      if read != FailedRetryable { return false; }
      requests := requests[id := requests[id].(state := Pending, lease := None)];
      return true;
    }

    /** The loop of reconcile over the requests it picked. */
    method Reconcile(picked: seq<nat>) returns (confirmed: nat, failed: nat)
      requires forall i :: 0 <= i < |picked| ==> picked[i] < |requests|
      requires NoDuplicates(picked)
      modifies this`requests
      ensures |requests| == |old(requests)|
      ensures forall r :: 0 <= r < |requests| ==>
                requests[r] == if r in picked && FoundOnLedger(old(requests)[r], ledger)
                               then old(requests)[r].(state := Confirmed) else old(requests)[r]
      ensures confirmed == CountFound(old(requests), picked, ledger) && confirmed + failed == |picked|
    {
      confirmed, failed := 0, 0;
      for k := 0 to |picked|
        invariant |requests| == |old(requests)|
        invariant forall r :: 0 <= r < |requests| ==>
                    requests[r] == if r in picked[..k] && FoundOnLedger(old(requests)[r], ledger)
                                   then old(requests)[r].(state := Confirmed) else old(requests)[r]
        invariant confirmed == CountFound(old(requests), picked[..k], ledger) && confirmed + failed == k
      {
        var id := picked[k];
        assert picked[..k + 1] == picked[..k] + [id];
        assert id !in picked[..k];
        var row := requests[id];
        if row.binding.None? || row.binding.value.transactionId == [] {
          failed := failed + 1;
          continue;
        }
        if Finalized(ledger, row.binding.value) {
          confirmed := confirmed + 1;
          requests := requests[id := row.(state := Confirmed)];
        } else {
          failed := failed + 1;
        }
      }
      assert picked[..|picked|] == picked;
    }
  }
}
