/** What a submission answers, judged by the registry alone, and what the answer does to its request. */
module ProofSagaOutcomes {
  import opened Common
  import opened CanonicalJson
  import opened CanonicalJsonTheorems
  import opened Chaincode
  import opened ChaincodeTheorems
  import opened ChaincodeRuns
  import opened ChaincodeNames
  import opened ProofSaga
  import opened ProofSagaTheorems
  import opened ProofSagaCounterexamples

  // ---------------------------------------------------------------- one submission

  /** The registry has nothing under the proofId and works, or it has this very payload there. */
  ghost predicate Takes(ledger: State, row: Request, text: Text, env: Env) {
    && Whole(row) && Validate(row.kind, row.envelope).None? && env.readable
    && if StateKey(row.proofId) in ledger then StoredPayload(ledger[StateKey(row.proofId)]) == Some(text)
       else env.timestamp.Some? && env.writable
  }

  /** The registry has another payload under the proofId. */
  ghost predicate Clashes(ledger: State, row: Request) {
    && Whole(row) && StateKey(row.proofId) in ledger && Canonicalize(Payload(row)).Some?
    && StoredPayload(ledger[StateKey(row.proofId)]) != Canonicalize(Payload(row))
  }

  lemma Prints(row: Request, payload: Json)
    requires Whole(row) && WellFormed(payload) && Denote(payload) == Denote(Payload(row))
    ensures Canonicalize(payload).Some? && Canonicalize(payload) == Canonicalize(Payload(row))
  {
    PayloadWellFormed(row);
    ThrowsIffNonFinite(Payload(row));
    EqualValuesPrintAlike(payload, Payload(row));
  }

  lemma Prepared(row: Request, payload: Json, text: Text)
    requires Whole(row) && WellFormed(payload) && Denote(payload) == Denote(Payload(row))
             && Canonicalize(payload) == Some(text)
    ensures Validate(row.kind, row.envelope).None? ==>
              && Prepare(row.kind, [text]) == Ok(Submission(row.proofId, KindName(row.kind), text))
              && SubmissionOf(row.kind, row.envelope, Submission(row.proofId, KindName(row.kind), text))
    ensures Validate(row.kind, row.envelope).Some? ==>
              Prepare(row.kind, [text]).Err? && Prepare(row.kind, [text]).error != PROOF_ID_CONFLICT
  {
    SentText(row, payload, text);
    PrepareAccepts(row.kind, [text]);
    if Validate(row.kind, row.envelope).None? {
      EnvelopeCanonical(row.kind, row.envelope);
      assert Payload(row) == Document(row.kind, row.envelope);
    } else {
      ValidationCodes(row.kind, row.envelope);
    }
  }

  lemma AnchorSucceedsIff(ledger: State, kind: ProofKind, p: Struct, sub: Submission, env: Env)
    requires RegistryOk(ledger) && SubmissionOf(kind, p, sub)
    ensures var (key, answer) := (StateKey(sub.proofId), AnchorSpec(ledger, sub, env).0);
            && (answer.Success? <==>
                  env.readable && if key in ledger then StoredPayload(ledger[key]) == Some(sub.payload)
                                  else env.timestamp.Some? && env.writable)
            && (answer == Error(PROOF_ID_CONFLICT) <==>
                  env.readable && key in ledger && StoredPayload(ledger[key]) != Some(sub.payload))
  {
    if StateKey(sub.proofId) in ledger {
      HasPayload(ledger, StateKey(sub.proofId));
    } else if env.timestamp.Some? {
      RecordEncodes(kind, p, sub, env);
    }
  }

  lemma HasPayload(ledger: State, key: Text)
    requires RegistryOk(ledger) && key in ledger
    ensures StoredPayload(ledger[key]).Some?
  {
    assert Recorded(key, ledger[key]);
    var kind, p, r :| RecordOf(key, ledger[key], kind, p, r);
    RecordReads(key, ledger[key], kind, p, r);
  }

  /** The chaincode answers a request with a success or a conflict exactly as its registry demands. */
  lemma AnswerIff(ledger: State, row: Request, payload: Json, text: Text, env: Env)
    requires RegistryOk(ledger) && Whole(row) && WellFormed(payload) && Denote(payload) == Denote(Payload(row))
    requires Canonicalize(payload) == Some(text)
    ensures var answer := InvokeSpec(ledger, row.kind, [text], env).0;
            && (answer.Success? <==> Takes(ledger, row, text, env))
            && (answer == Error(PROOF_ID_CONFLICT) <==>
                  Validate(row.kind, row.envelope).None? && env.readable && Clashes(ledger, row))
  {
    Prints(row, payload);
    Prepared(row, payload, text);
    if Validate(row.kind, row.envelope).None? {
      AnchorSucceedsIff(ledger, row.kind, row.envelope, Submission(row.proofId, KindName(row.kind), text), env);
    }
  }

  // ---------------------------------------------------------------- the transaction id

  /** A new record names the transaction that wrote it. */
  lemma NewRecordNames(ledger: State, row: Request, payload: Json, text: Text, env: Env)
    requires RegistryOk(ledger) && Whole(row) && WellFormed(payload) && Denote(payload) == Denote(Payload(row))
    requires Canonicalize(payload) == Some(text) && Takes(ledger, row, text, env)
    requires StateKey(row.proofId) !in ledger && Below(env.transactionId)
    ensures var after := Next(ledger, Invoked(row.kind, text, env));
            && StateKey(row.proofId) in after
            && RecordString(after[StateKey(row.proofId)], TRANSACTION_TAG) == env.transactionId
  {
    Prepared(row, payload, text);
    var sub := Submission(row.proofId, KindName(row.kind), text);
    AnchorNew(ledger, row.kind, row.envelope, sub, env);
    EnvelopeHolds(row.kind, row.envelope, NewRecord(sub, env));
    HeadTags(NewRecord(sub, env));
    RecordStringAt(AnchorSpec(ledger, sub, env).0.payload, NewRecord(sub, env), 4);
  }

  // ---------------------------------------------------------------- what submitProof answers

  /** A submission that is delivered: anchored if and only if the registry takes it, with the proofId and the
    * transaction id of the stored record; a conflict if and only if another payload is stored; otherwise a
    * final failure.  The registry is the one the chaincode left. */
  lemma DeliveredOutcome(ledger: State, row: Request, payload: Json, env: Env)
    requires RegistryOk(ledger) && Whole(row) && WellFormed(payload) && Denote(payload) == Denote(Payload(row))
    ensures Canonicalize(payload).Some?
    ensures var ((phase, after), text) := (SubmitProof(ledger, row.kind, payload, Delivered(env)),
                                           Canonicalize(payload).value);
            var key := StateKey(row.proofId);
            && after == Next(ledger, Invoked(row.kind, text, env))
            && (phase.Anchored? <==> Takes(ledger, row, text, env))
            && (phase.Anchored? ==>
                  && InLedger(after, row)
                  && phase.binding.proofReference == row.proofId
                  && phase.binding.transactionId == RecordString(after[key], TRANSACTION_TAG)
                  && (key !in ledger && Below(env.transactionId) ==> phase.binding.transactionId == env.transactionId))
            && (phase == Failed(false, true) <==>
                  Validate(row.kind, row.envelope).None? && env.readable && Clashes(ledger, row))
            && (phase.Anchored? || phase == Failed(false, true) || phase == Failed(false, false))
  {
    Prints(row, payload);
    var text := Canonicalize(payload).value;
    AnswerIff(ledger, row, payload, text, env);
    if Takes(ledger, row, text, env) {
      SuccessAnchorsRequest(ledger, row, payload, text, env);
      SuccessStores(ledger, Invoked(row.kind, text, env));
      Prepared(row, payload, text);
      if StateKey(row.proofId) !in ledger && Below(env.transactionId) {
        NewRecordNames(ledger, row, payload, text, env);
      }
    }
  }

  /** A submission that is not answered: a failure of the kind the provider reports and never a conflict,
    * over a registry that has or has not seen it. */
  lemma UnansweredOutcome(ledger: State, row: Request, payload: Json, env: Env, retryable: bool)
    requires Whole(row) && WellFormed(payload) && Denote(payload) == Denote(Payload(row))
    ensures SubmitProof(ledger, row.kind, payload, Unreachable(retryable)) == (Failed(retryable, false), ledger)
    ensures SubmitProof(ledger, row.kind, payload, ReplyLost(env, retryable))
         == (Failed(retryable, false), SubmitProof(ledger, row.kind, payload, Delivered(env)).1)
  {
    Prints(row, payload);
  }

  // ---------------------------------------------------------------- conflicts are final

  /** A request in CONFLICT, and a session that is about to put it there, clash with the registry. */
  ghost predicate ConflictsRest(sys: Sys) {
    && (forall r :: 0 <= r < |sys.requests| && sys.requests[r].state == Conflict ==>
        Clashes(sys.ledger, sys.requests[r]))
    && forall x :: 0 <= x < |sys.sessions| ==> SessionClashes(sys, sys.sessions[x])
  }

  ghost predicate SessionClashes(sys: Sys, x: Session) {
    x.phase.Failed? && x.phase.conflict ==> x.request < |sys.requests| && Clashes(sys.ledger, sys.requests[x.request])
  }

  lemma ClashStays(a: State, row: Request, b: State, later: Request)
    requires Clashes(a, row) && LedgerGrows(a, b) && SameProof(row, later)
    ensures Clashes(b, later)
  {
  }

  ghost predicate SamePlace(x: Session, y: Session) { x.phase == y.phase && x.request == y.request }

  lemma PlaceRests(a: Sys, b: Sys, x: Session, y: Session)
    requires SessionClashes(a, x) && Later(a, b) && SamePlace(x, y)
    ensures SessionClashes(b, y)
  {
    if x.phase.Failed? && x.phase.conflict {
      ClashStays(a.ledger, a.requests[x.request], b.ledger, b.requests[x.request]);
    }
  }

  /** What a step that only marks at most the rows of clashing sessions CONFLICT keeps. */
  lemma RestKeeps(now: Sys, b: Sys)
    requires ConflictsRest(now) && Later(now, b)
    requires forall r :: 0 <= r < |b.requests| && b.requests[r].state == Conflict ==>
               (r < |now.requests| && now.requests[r].state == Conflict) || Clashes(b.ledger, b.requests[r])
    requires forall x :: 0 <= x < |b.sessions| ==>
               SessionClashes(b, b.sessions[x])
               || (x < |now.sessions| && SamePlace(now.sessions[x], b.sessions[x]))
    ensures ConflictsRest(b)
  {
    forall r | 0 <= r < |b.requests| && b.requests[r].state == Conflict ensures Clashes(b.ledger, b.requests[r]) {
      if r < |now.requests| && now.requests[r].state == Conflict {
        ClashStays(now.ledger, now.requests[r], b.ledger, b.requests[r]);
      }
    }
    forall x | 0 <= x < |b.sessions| ensures SessionClashes(b, b.sessions[x]) {
      if x < |now.sessions| && SamePlace(now.sessions[x], b.sessions[x]) {
        PlaceRests(now, b, now.sessions[x], b.sessions[x]);
      }
    }
  }

  lemma SubmissionRests(ledger: State, row: Request, payload: Json, net: Net)
    requires RegistryOk(ledger) && Whole(row) && WellFormed(payload) && Denote(payload) == Denote(Payload(row))
    ensures var (phase, after) := SubmitProof(ledger, row.kind, payload, net);
            phase.Failed? && phase.conflict ==> Clashes(after, row)
  {
    SubmitProofKeeps(ledger, row, payload, net);
    match net
    case Delivered(env) =>
      DeliveredOutcome(ledger, row, payload, env);
      if Clashes(ledger, row) { ClashStays(ledger, row, SubmitProof(ledger, row.kind, payload, net).1, row); }
    case ReplyLost(env, retryable) => UnansweredOutcome(ledger, row, payload, env, retryable);
    case Unreachable(retryable) => Prints(row, payload);
  }

  lemma SubmitRests(now: Sys, sid: nat, net: Net, b: Sys)
    requires Inv(now) && RegistryOk(now.ledger) && ConflictsRest(now) && SubmitStep(now, sid, net) == Some(b)
    ensures ConflictsRest(b)
  {
    var x := now.sessions[sid];
    assert SessionOk(now, x);
    SubmitKeeps(now, sid, net, b);
    SubmissionRests(now.ledger, now.requests[x.request], x.payload, net);
    assert SessionClashes(b, b.sessions[sid]);
    RestKeeps(now, b);
  }

  /** A step that leaves the rest of the sessions alone and turns no request to CONFLICT. */
  lemma CalmRests(max: nat, cmd: Command, s0: Sys, s1: Sys, now: Sys, b: Sys)
    requires Later(now, b) && ConflictsRest(now) && Try(max, cmd, s0, s1, now) == Some(b)
    requires cmd.ReadRequest? || cmd.Poll? || cmd.Crash?
    ensures ConflictsRest(b)
  {
    RestKeeps(now, b);
  }

  lemma AttemptRests(max: nat, cmd: Command, s0: Sys, s1: Sys, now: Sys, b: Sys)
    requires Later(now, b) && ConflictsRest(now) && Try(max, cmd, s0, s1, now) == Some(b)
    requires cmd.ConfirmExisting? || cmd.Mark? || cmd.Number? || cmd.CommitSuccess?
    ensures ConflictsRest(b)
  {
    RestKeeps(now, b);
  }

  lemma RowRests(max: nat, cmd: Command, s0: Sys, s1: Sys, now: Sys, b: Sys)
    requires Later(now, b) && ConflictsRest(now) && Try(max, cmd, s0, s1, now) == Some(b)
    requires cmd.Create? || cmd.Acquire? || cmd.Retry? || cmd.Reconcile? || cmd.Invoke?
    ensures ConflictsRest(b)
  {
    RestKeeps(now, b);
  }

  lemma FailureRests(max: nat, sid: nat, now: Sys, b: Sys)
    requires Later(now, b) && ConflictsRest(now) && CommitFailureStep(now, max, sid) == Some(b)
    ensures ConflictsRest(b)
  {
    assert SessionClashes(now, now.sessions[sid]);
    RestKeeps(now, b);
  }

  lemma StepRests(max: nat, cmd: Command, s0: Sys, s1: Sys, now: Sys, b: Sys)
    requires Inv(s0) && Inv(now) && RegistryOk(now.ledger) && Later(s0, now) && ConflictsRest(now)
    requires Try(max, cmd, s0, s1, now) == Some(b)
    ensures ConflictsRest(b)
  {
    TryKeeps(max, cmd, s0, s1, now, b);
    if cmd.Submit? {
      SubmitRests(now, cmd.sid, cmd.net, b);
    } else if cmd.CommitFailure? {
      FailureRests(max, cmd.sid, now, b);
    } else if cmd.Create? || cmd.Acquire? || cmd.Retry? || cmd.Reconcile? || cmd.Invoke? {
      RowRests(max, cmd, s0, s1, now, b);
    } else if cmd.ConfirmExisting? || cmd.Mark? || cmd.Number? || cmd.CommitSuccess? {
      AttemptRests(max, cmd, s0, s1, now, b);
    } else {
      CalmRests(max, cmd, s0, s1, now, b);
    }
  }

  lemma {:induction false} CallRests(max: nat, calls: seq<Call>, k: nat)
    requires Schedule(calls) && k < |calls| && ConflictsRest(StateOf(max, calls, k))
    ensures ConflictsRest(StateOf(max, calls, k + 1))
  {
    var (call, result) := (calls[k], Attempt(max, calls, k));
    if result.Some? {
      ProofSagaTheorems.EveryRun(max, calls, k);
      ProofSagaTheorems.EveryRun(max, calls, call.r0);
      StepRests(max, call.cmd, StateOf(max, calls, call.r0), StateOf(max, calls, call.r1), StateOf(max, calls, k),
                result.value);
    }
  }

  lemma {:induction false} EveryConflictRests(max: nat, calls: seq<Call>, k: nat)
    requires Schedule(calls) && k <= |calls|
    ensures ConflictsRest(StateOf(max, calls, k))
  {
    if k > 0 {
      EveryConflictRests(max, calls, k - 1);
      CallRests(max, calls, k - 1);
    }
  }

  /** In every run a request that ever was in CONFLICT has another payload under its proofId, then and ever
    * after, and so is never CONFIRMED. */
  lemma {:induction false} ConflictIsFinal(max: nat, calls: seq<Call>, j: nat, k: nat, r: nat)
    requires Schedule(calls) && j <= k <= |calls| && r < |StateOf(max, calls, j).requests|
    requires StateOf(max, calls, j).requests[r].state == Conflict
    ensures r < |StateOf(max, calls, k).requests|
    ensures Clashes(StateOf(max, calls, k).ledger, StateOf(max, calls, k).requests[r])
    ensures StateOf(max, calls, k).requests[r].state != Confirmed
  {
    EveryConflictRests(max, calls, j);
    ProofSagaTheorems.EveryRun(max, calls, k);
    var (a, b) := (StateOf(max, calls, j), StateOf(max, calls, k));
    assert Later(a, b);
    ClashStays(a.ledger, a.requests[r], b.ledger, b.requests[r]);
    assert RowOk(b.ledger, b.requests[r]);
  }

  // ---------------------------------------------------------------- what a commit writes

  /** Only this request and this session are written. */
  ghost predicate OnlyTheirs(a: Sys, b: Sys, r: nat, sid: nat) {
    && r < |a.requests| == |b.requests| && sid < |a.sessions| == |b.sessions| && b.ledger == a.ledger
    && (forall q :: 0 <= q < |a.requests| && q != r ==> b.requests[q] == a.requests[q])
    && forall x :: 0 <= x < |a.sessions| && x != sid ==> b.sessions[x] == a.sessions[x]
  }

  /** A commit of success makes the request CONFIRMED with the binding answered, or fails as retryable. */
  lemma {:induction false} SuccessEffect(max: nat, calls: seq<Call>, k: nat)
    requires Schedule(calls) && k < |calls| && calls[k].cmd.CommitSuccess? && Attempt(max, calls, k).Some?
    ensures var (a, b, sid) := (StateOf(max, calls, k), StateOf(max, calls, k + 1), calls[k].cmd.sid);
            && sid < |a.sessions| && a.sessions[sid].phase.Anchored? && OnlyTheirs(a, b, a.sessions[sid].request, sid)
            && var (row, after) := (a.requests[a.sessions[sid].request], b.requests[a.sessions[sid].request]);
            if calls[k].cmd.works then
              && after.state == Confirmed && after.binding == Some(a.sessions[sid].phase.binding) && after.lease.None?
              && SameProof(row, after) && after.attempts == row.attempts && b.sessions[sid].phase == Ended
            else after == row && b.sessions[sid].phase == Failed(true, false)
  {
  }

  /** A commit of failure: CONFLICT, FAILED_RETRYABLE while attempts are left, or FAILED_PERMANENT. */
  lemma {:induction false} FailureEffect(max: nat, calls: seq<Call>, k: nat)
    requires Schedule(calls) && k < |calls| && calls[k].cmd.CommitFailure? && Attempt(max, calls, k).Some?
    ensures var (a, b, sid) := (StateOf(max, calls, k), StateOf(max, calls, k + 1), calls[k].cmd.sid);
            && sid < |a.sessions| && a.sessions[sid].phase.Failed? && OnlyTheirs(a, b, a.sessions[sid].request, sid)
            && a.sessions[sid].attempt.Some?
            && var (x, row, after) :=
                 (a.sessions[sid], a.requests[a.sessions[sid].request], b.requests[a.sessions[sid].request]);
            && after.state in {Conflict, FailedRetryable, FailedPermanent}
            && (after.state == Conflict <==> x.phase.conflict)
            && (after.state == FailedRetryable <==> x.phase.retryable && !x.phase.conflict && x.attempt.value < max)
            && after.lease.None? && after.binding == row.binding && after.attempts == row.attempts
            && SameProof(row, after) && b.sessions[sid].phase == Ended
  {
  }

  /** A request enters as PENDING, without attempts, under a proofId that no other request has. */
  lemma {:induction false} CreateEffect(max: nat, calls: seq<Call>, k: nat)
    requires Schedule(calls) && k < |calls| && calls[k].cmd.Create? && Attempt(max, calls, k).Some?
    ensures var (a, b) := (StateOf(max, calls, k), StateOf(max, calls, k + 1));
            && |b.requests| == |a.requests| + 1 && b == a.(requests := b.requests) && a.requests <= b.requests
            && var row := b.requests[|a.requests|];
            && Whole(row) && row.kind == calls[k].cmd.kind && row.envelope == calls[k].cmd.envelope
            && row.state == Pending && row.attempts == 0 && row.lease.None? && row.binding.None? && row.numbers == {}
            && forall r :: 0 <= r < |a.requests| ==> a.requests[r].proofId != row.proofId
  {
    var (a, b) := (StateOf(max, calls, k), StateOf(max, calls, k + 1));
    assert b.requests == a.requests + [b.requests[|a.requests|]];
    forall r | 0 <= r < |a.requests| ensures a.requests[r].proofId != b.requests[|a.requests|].proofId {
      assert a.requests[r] in a.requests;
    }
  }

  /** A lease is taken only where there is none, an expired one or the owner's own; a session begins with it. */
  lemma {:induction false} AcquireEffect(max: nat, calls: seq<Call>, k: nat)
    requires Schedule(calls) && k < |calls| && calls[k].cmd.Acquire? && Attempt(max, calls, k).Some?
    ensures var (seen, a, b) := (StateOf(max, calls, calls[k].r0), StateOf(max, calls, k), StateOf(max, calls, k + 1));
            var Acquire(id, owner, time, until) := calls[k].cmd;
            && id < |seen.requests| && seen.requests[id].state in {Pending, FailedRetryable, Submitted}
            && id < |a.requests| == |b.requests| && b.ledger == a.ledger
            && (a.requests[id].lease.Some? ==>
                  a.requests[id].lease.value.owner == owner || a.requests[id].lease.value.expires < time)
            && b.requests[id] == a.requests[id].(lease := Some(Lease(owner, until)))
            && (forall r :: 0 <= r < |a.requests| && r != id ==> b.requests[r] == a.requests[r])
            && |b.sessions| == |a.sessions| + 1 && a.sessions <= b.sessions
            && b.sessions[|a.sessions|].request == id && b.sessions[|a.sessions|].phase == Acquired
  {
  }

  /** Marking counts an attempt on the row as it now is; the session's number is that of the row it read. */
  lemma {:induction false} MarkEffect(max: nat, calls: seq<Call>, k: nat)
    requires Schedule(calls) && k < |calls| && calls[k].cmd.Mark? && Attempt(max, calls, k).Some?
    ensures var (a, b, sid) := (StateOf(max, calls, k), StateOf(max, calls, k + 1), calls[k].cmd.sid);
            && sid < |a.sessions| && OnlyTheirs(a, b, a.sessions[sid].request, sid)
            && var (x, row) := (a.sessions[sid], a.requests[a.sessions[sid].request]);
            && b.requests[x.request] == row.(state := Submitting, attempts := row.attempts + 1)
            && b.sessions[sid].phase == Marked && b.sessions[sid].attempt == Some(x.seen + 1)
            && (x.phase == Polled || (x.phase == Ready
                                      && !(x.was == Submitted && x.bound.Some? && x.bound.value.transactionId != [])))
  {
  }

  /** An existing transaction is confirmed only after it was found under its reference in the registry. */
  lemma {:induction false} PollEffect(max: nat, calls: seq<Call>, k: nat)
    requires Schedule(calls) && k < |calls| && calls[k].cmd.Poll? && Attempt(max, calls, k).Some?
    ensures var (seen, a, b, sid) :=
              (StateOf(max, calls, calls[k].r0), StateOf(max, calls, k), StateOf(max, calls, k + 1), calls[k].cmd.sid);
            && sid < |a.sessions| && OnlyTheirs(a, b, a.sessions[sid].request, sid) && b.requests == a.requests
            && var x := a.sessions[sid];
            && x.phase == Ready && x.was == Submitted && x.bound.Some? && x.bound.value.transactionId != []
            && b.sessions[sid].phase ==
                 if StateKey(x.bound.value.proofReference) in seen.ledger then Confirming else Polled
  {
  }

  lemma {:induction false} ConfirmEffect(max: nat, calls: seq<Call>, k: nat)
    requires Schedule(calls) && k < |calls| && calls[k].cmd.ConfirmExisting? && Attempt(max, calls, k).Some?
    ensures var (a, b, sid) := (StateOf(max, calls, k), StateOf(max, calls, k + 1), calls[k].cmd.sid);
            && sid < |a.sessions| && OnlyTheirs(a, b, a.sessions[sid].request, sid)
            && a.sessions[sid].phase == Confirming && b.sessions[sid].phase == Ended
            && b.requests[a.sessions[sid].request]
               == a.requests[a.sessions[sid].request].(state := Confirmed, lease := None)
  {
  }

  /** A manual retry of a request that was read FAILED_RETRYABLE makes it PENDING and frees its lease. */
  lemma {:induction false} RetryEffect(max: nat, calls: seq<Call>, k: nat)
    requires Schedule(calls) && k < |calls| && calls[k].cmd.Retry? && Attempt(max, calls, k).Some?
    ensures var (seen, a, b, id) :=
              (StateOf(max, calls, calls[k].r0), StateOf(max, calls, k), StateOf(max, calls, k + 1), calls[k].cmd.id);
            && id < |seen.requests| && seen.requests[id].state == FailedRetryable && id < |a.requests|
            && b == a.(requests := a.requests[id := a.requests[id].(state := Pending, lease := None)])
  {
  }

  /** Reconciliation confirms what it found waiting with a transaction, and then in the registry. */
  lemma {:induction false} ReconcileEffect(max: nat, calls: seq<Call>, k: nat)
    requires Schedule(calls) && k < |calls| && calls[k].cmd.Reconcile? && Attempt(max, calls, k).Some?
    ensures var (seen, asked, id) :=
              (StateOf(max, calls, calls[k].r0), StateOf(max, calls, calls[k].r1), calls[k].cmd.id);
            var (a, b) := (StateOf(max, calls, k), StateOf(max, calls, k + 1));
            && id < |seen.requests| && seen.requests[id].state in {Submitted, FailedRetryable}
            && seen.requests[id].binding.Some? && seen.requests[id].binding.value.transactionId != []
            && StateKey(seen.requests[id].binding.value.proofReference) in asked.ledger && id < |a.requests|
            && b == a.(requests := a.requests[id := a.requests[id].(state := Confirmed)])
  {
  }

  /** A session in this phase about a request of the table. */
  ghost predicate Stands(sys: Sys, sid: nat, phase: Phase) {
    sid < |sys.sessions| && sys.sessions[sid].phase == phase && sys.sessions[sid].request < |sys.requests|
  }

  /** The session read SUBMITTED together with a transaction that may be asked for. */
  ghost predicate AsksFirst(x: Session) { x.was == Submitted && x.bound.Some? && x.bound.value.transactionId != [] }

  /** When each step of process is taken. */
  lemma SessionStepIff(max: nat, cmd: Command, s0: Sys, s1: Sys, now: Sys)
    ensures match cmd
      case Poll(sid) => Try(max, cmd, s0, s1, now).Some? <==> Stands(now, sid, Ready) && AsksFirst(now.sessions[sid])
      case ConfirmExisting(sid) => Try(max, cmd, s0, s1, now).Some? <==> Stands(now, sid, Confirming)
      case Mark(sid) =>
        Try(max, cmd, s0, s1, now).Some? <==>
          (Stands(now, sid, Ready) && !AsksFirst(now.sessions[sid])) || Stands(now, sid, Polled)
      case Number(sid) =>
        Try(max, cmd, s0, s1, now).Some? <==> Stands(now, sid, Marked) && now.sessions[sid].attempt.Some?
      case Submit(sid, _) => Try(max, cmd, s0, s1, now).Some? <==> Stands(now, sid, Numbered)
      case CommitSuccess(sid, _) =>
        Try(max, cmd, s0, s1, now).Some? <==>
          sid < |now.sessions| && now.sessions[sid].phase.Anchored? && now.sessions[sid].request < |now.requests|
      case CommitFailure(sid) =>
        Try(max, cmd, s0, s1, now).Some? <==>
          && sid < |now.sessions| && now.sessions[sid].phase.Failed? && now.sessions[sid].request < |now.requests|
          && now.sessions[sid].attempt.Some?
      case _ => true
  {
  }

  /** When a request may be entered, acquired, retried or reconciled. */
  lemma RowStepIff(max: nat, cmd: Command, s0: Sys, s1: Sys, now: Sys)
    ensures match cmd
      case Create(kind, p) =>
        Try(max, cmd, s0, s1, now).Some? <==>
          && CompleteEnvelope(kind, p)
          && forall r :: 0 <= r < |now.requests| ==> now.requests[r].proofId != At(p, PROOF_ID)
      case Acquire(id, owner, time, _) =>
        Try(max, cmd, s0, s1, now).Some? <==>
          && id < |s0.requests| && s0.requests[id].state in {Pending, FailedRetryable, Submitted}
          && MayLease(s0.requests[id], owner, time) && id < |now.requests| && MayLease(now.requests[id], owner, time)
      case Retry(id) =>
        Try(max, cmd, s0, s1, now).Some? <==>
          id < |s0.requests| && s0.requests[id].state == FailedRetryable && id < |now.requests|
      case Reconcile(id) =>
        Try(max, cmd, s0, s1, now).Some? <==>
          && id < |s0.requests| && s0.requests[id].state in {Submitted, FailedRetryable}
          && s0.requests[id].binding.Some? && s0.requests[id].binding.value.transactionId != []
          && StateKey(s0.requests[id].binding.value.proofReference) in s1.ledger && id < |now.requests|
      case _ => true
  {
  }

  /** The lease is free for this owner: there is none, it has expired, or it is the owner's. */
  ghost predicate MayLease(row: Request, owner: nat, time: int) {
    row.lease.Some? ==> row.lease.value.expires < time || row.lease.value.owner == owner
  }

  // ---------------------------------------------------------------- an attempt that succeeds

  /** Four steps of one session with nobody in between. */
  ghost predicate AttemptAt(calls: seq<Call>, k: nat, sid: nat, env: Env) {
    && k + 3 < |calls| && calls[k].cmd == Mark(sid) && calls[k + 1].cmd == Number(sid)
    && calls[k + 2].cmd == Submit(sid, Delivered(env)) && calls[k + 3].cmd == CommitSuccess(sid, true)
  }

  ghost predicate ReadyToMark(sys: Sys, sid: nat) {
    && sid < |sys.sessions| && sys.sessions[sid].request < |sys.requests|
    && sys.sessions[sid].phase == Ready && !MustPoll(sys.sessions[sid])
    && sys.sessions[sid].seen + 1 !in sys.requests[sys.sessions[sid].request].numbers
  }

  lemma {:induction false} Marks(max: nat, calls: seq<Call>, k: nat, sid: nat)
    requires Schedule(calls) && k + 1 < |calls| && calls[k].cmd == Mark(sid) && calls[k + 1].cmd == Number(sid)
    requires ReadyToMark(StateOf(max, calls, k), sid)
    ensures var (a, b) := (StateOf(max, calls, k), StateOf(max, calls, k + 2));
            var r := a.sessions[sid].request;
            && OnlyTheirs(a, b, r, sid) && SameProof(a.requests[r], b.requests[r])
            && b.sessions[sid].phase == Numbered && b.sessions[sid].request == r
            && b.sessions[sid].payload == a.sessions[sid].payload
  {
    var (a, x) := (StateOf(max, calls, k), StateOf(max, calls, k).sessions[sid]);
    var mid := MarkStep(a, sid).value;
    assert Attempt(max, calls, k) == Some(mid) && StateOf(max, calls, k + 1) == mid;
    assert Attempt(max, calls, k + 1) == NumberStep(mid, sid) && NumberStep(mid, sid).Some?;
  }

  lemma {:induction false} SubmitsAndCommits(max: nat, calls: seq<Call>, k: nat, sid: nat, env: Env)
    requires Schedule(calls) && k + 1 < |calls|
    requires calls[k].cmd == Submit(sid, Delivered(env)) && calls[k + 1].cmd == CommitSuccess(sid, true)
    requires var a := StateOf(max, calls, k);
             && sid < |a.sessions| && a.sessions[sid].request < |a.requests| && a.sessions[sid].phase == Numbered
             && SubmitProof(a.ledger, a.requests[a.sessions[sid].request].kind, a.sessions[sid].payload,
                            Delivered(env)).0.Anchored?
    ensures var (a, b) := (StateOf(max, calls, k), StateOf(max, calls, k + 2));
            var r := a.sessions[sid].request;
            var (phase, after) := SubmitProof(a.ledger, a.requests[r].kind, a.sessions[sid].payload, Delivered(env));
            && r < |b.requests| && b.requests[r].state == Confirmed && b.requests[r].binding == Some(phase.binding)
            && b.ledger == after
  {
    var a := StateOf(max, calls, k);
    var mid := SubmitStep(a, sid, Delivered(env)).value;
    assert Attempt(max, calls, k) == Some(mid) && StateOf(max, calls, k + 1) == mid;
    assert Attempt(max, calls, k + 1) == CommitSuccessStep(mid, sid, true);
  }

  /** The session may start an attempt for a request that the registry takes. */
  ghost predicate WillBeTaken(a: Sys, sid: nat, env: Env) {
    && ReadyToMark(a, sid)
    && var row := a.requests[a.sessions[sid].request];
    && Whole(row) && Canonicalize(Payload(row)).Some? && Takes(a.ledger, row, Canonicalize(Payload(row)).value, env)
  }

  /** The request is confirmed, with the proofId and the transaction id that are stored. */
  ghost predicate ConfirmedBy(a: Sys, b: Sys, r: nat, env: Env) {
    && r < |a.requests| && r < |b.requests|
    && SameProof(a.requests[r], b.requests[r]) && b.requests[r].state == Confirmed
    && InLedger(b.ledger, b.requests[r]) && b.requests[r].binding.Some?
    && b.requests[r].binding.value.proofReference == b.requests[r].proofId
    && (StateKey(b.requests[r].proofId) !in a.ledger && Below(env.transactionId) ==>
          b.requests[r].binding.value.transactionId == env.transactionId)
  }

  lemma TakenIsAnchored(a: Sys, sid: nat, env: Env)
    requires Inv(a) && RegistryOk(a.ledger) && WillBeTaken(a, sid, env)
    ensures var x := a.sessions[sid];
            var row := a.requests[x.request];
            var phase := SubmitProof(a.ledger, row.kind, x.payload, Delivered(env)).0;
            && phase.Anchored? && phase.binding.proofReference == row.proofId
            && (StateKey(row.proofId) !in a.ledger && Below(env.transactionId) ==>
                  phase.binding.transactionId == env.transactionId)
  {
    var x := a.sessions[sid];
    assert SessionOk(a, x);
    Prints(a.requests[x.request], x.payload);
    DeliveredOutcome(a.ledger, a.requests[x.request], x.payload, env);
  }

  lemma BindingOfAttempt(a: Sys, b: Sys, sid: nat, env: Env)
    requires Inv(a) && RegistryOk(a.ledger) && Inv(b) && Later(a, b) && WillBeTaken(a, sid, env)
    requires var r := a.sessions[sid].request;
             var phase := SubmitProof(a.ledger, a.requests[r].kind, a.sessions[sid].payload, Delivered(env)).0;
             && r < |b.requests| && b.requests[r].state == Confirmed
             && (phase.Anchored? ==> b.requests[r].binding == Some(phase.binding))
    ensures ConfirmedBy(a, b, a.sessions[sid].request, env)
  {
    TakenIsAnchored(a, sid, env);
    assert RowOk(b.ledger, b.requests[a.sessions[sid].request]);
  }

  /** From every reachable state: an attempt whose submission the registry takes ends CONFIRMED. */
  lemma {:induction false} AttemptConfirms(max: nat, calls: seq<Call>, k: nat, sid: nat, env: Env)
    requires Schedule(calls) && AttemptAt(calls, k, sid, env) && WillBeTaken(StateOf(max, calls, k), sid, env)
    ensures ConfirmedBy(StateOf(max, calls, k), StateOf(max, calls, k + 4),
                        StateOf(max, calls, k).sessions[sid].request, env)
  {
    ProofSagaTheorems.EveryRun(max, calls, k);
    ProofSagaTheorems.EveryRun(max, calls, k + 4);
    var (a, b) := (StateOf(max, calls, k), StateOf(max, calls, k + 4));
    assert Later(a, b);
    TakenIsAnchored(a, sid, env);
    Marks(max, calls, k, sid);
    SubmitsAndCommits(max, calls, k + 2, sid, env);
    BindingOfAttempt(a, b, sid, env);
  }

  /** create, acquire, read, mark, number, submit, commit. */
  function ConfirmedCalls(kind: ProofKind, p: Struct, doc: Json, env: Env): seq<Call> {
    [Call(Create(kind, p), 0, 0), Call(Acquire(0, 0, 0, 60), 1, 1), Call(ReadRequest(0, doc), 1, 1),
     Call(Mark(0), 1, 1),
     Call(Number(0), 1, 1), Call(Submit(0, Delivered(env)), 1, 1), Call(CommitSuccess(0, true), 1, 1)]
  }

  lemma ConfirmedSchedule(calls: seq<Call>, kind: ProofKind, p: Struct, doc: Json, env: Env, k: nat)
    requires calls == ConfirmedCalls(kind, p, doc, env) && k == 1
    ensures Schedule(calls) && |calls| == k + 6 && calls[0] == Call(Create(kind, p), 0, 0)
    ensures calls[k] == Call(Acquire(0, 0, 0, 60), k, k) && calls[k + 1] == Call(ReadRequest(0, doc), k, k)
    ensures AttemptAt(calls, k + 2, 0, env) && forall i :: k <= i < |calls| ==> !calls[i].cmd.Create?
  {
  }

  lemma EnvelopeTaken(kind: ProofKind, p: Struct, doc: Json, env: Env, a: Sys)
    requires Envelope(kind, p) && env.readable && env.timestamp.Some? && env.writable
    requires a == Sys([NewRequest(kind, p).(lease := Some(Lease(0, 60)))],
                      [Session(0, Ready, Pending, 0, None, doc, None, false)],
                      map[])
    ensures WillBeTaken(a, 0, env)
  {
    forall i | 0 <= i < |p| && ShapeOf(kind).pointer != Some(i) ensures p[i].Some? { EnvelopeText(kind, p, i); }
    PayloadWellFormed(a.requests[0]);
    Prints(a.requests[0], Payload(a.requests[0]));
  }

  /** Over a working ledger that is empty the first attempt for any valid envelope is CONFIRMED, under its
    * proofId and the id of the transaction that anchored it. */
  lemma {:induction false} FirstAttemptConfirms(max: nat, calls: seq<Call>, kind: ProofKind, p: Struct, doc: Json,
                                                env: Env)
    requires Envelope(kind, p) && env.readable && env.timestamp.Some? && env.writable && Below(env.transactionId)
    requires calls == ConfirmedCalls(kind, p, doc, env) && WellFormed(doc) && Denote(doc) == Denote(Document(kind, p))
    ensures Schedule(calls) && |StateOf(max, calls, |calls|).requests| == 1
    ensures var row := StateOf(max, calls, |calls|).requests[0];
            row.state == Confirmed && row.binding == Some(Binding(env.transactionId, At(p, PROOF_ID)))
  {
    var k: nat :| k == 1;
    ConfirmedSchedule(calls, kind, p, doc, env, k);
    var ready := FirstReady(max, calls, kind, p, doc, k);
    EnvelopeTaken(kind, p, doc, env, ready);
    FirstFrom(max, calls, k + 2, ready, env);
  }

  lemma {:induction false} FirstFrom(max: nat, calls: seq<Call>, k: nat, a: Sys, env: Env)
    requires Schedule(calls) && k + 4 == |calls| && AttemptAt(calls, k, 0, env)
    requires StateOf(max, calls, k) == a && WillBeTaken(a, 0, env) && |a.requests| == 1 && a.ledger == map[]
    requires Below(env.transactionId) && forall i :: k <= i < |calls| ==> !calls[i].cmd.Create?
    ensures |StateOf(max, calls, |calls|).requests| == 1
    ensures var row := StateOf(max, calls, |calls|).requests[0];
            row.state == Confirmed && row.binding == Some(Binding(env.transactionId, a.requests[0].proofId))
  {
    FreshConfirmed(max, calls, k, a, env);
    ConfirmedAlone(max, calls, k);
  }

  lemma {:induction false} FreshConfirmed(max: nat, calls: seq<Call>, k: nat, a: Sys, env: Env)
    requires Schedule(calls) && AttemptAt(calls, k, 0, env) && k + 4 <= |calls|
    requires StateOf(max, calls, k) == a && WillBeTaken(a, 0, env) && |a.requests| == 1 && a.ledger == map[]
    requires Below(env.transactionId)
    ensures FreshRow(a, StateOf(max, calls, k + 4), env)
  {
    AttemptConfirms(max, calls, k, 0, env);
    FreshBinding(a, StateOf(max, calls, k + 4), a.sessions[0].request, env);
  }

  ghost predicate FreshRow(a: Sys, b: Sys, env: Env) {
    && a.requests != [] && b.requests != [] && b.requests[0].state == Confirmed
    && b.requests[0].binding == Some(Binding(env.transactionId, a.requests[0].proofId))
  }

  lemma FreshBinding(a: Sys, b: Sys, r: nat, env: Env)
    requires ConfirmedBy(a, b, r, env) && |a.requests| == 1 && a.ledger == map[] && Below(env.transactionId)
    ensures FreshRow(a, b, env)
  {
  }

  lemma {:induction false} FirstReady(max: nat, calls: seq<Call>, kind: ProofKind, p: Struct, doc: Json, k: nat)
    returns (ready: Sys)
    requires Schedule(calls) && k == 1 && k + 2 < |calls| && calls[0] == Call(Create(kind, p), 0, 0)
             && Envelope(kind, p)
    requires calls[k] == Call(Acquire(0, 0, 0, 60), k, k) && calls[k + 1] == Call(ReadRequest(0, doc), k, k)
    requires WellFormed(doc) && Denote(doc) == Denote(Document(kind, p))
    ensures StateOf(max, calls, k + 2) == ready
    ensures ready == Sys([NewRequest(kind, p).(lease := Some(Lease(0, 60)))],
                         [Session(0, Ready, Pending, 0, None, doc, None, false)], map[])
  {
    forall i | 0 <= i < |p| && ShapeOf(kind).pointer != Some(i) ensures p[i].Some? { EnvelopeText(kind, p, i); }
    Created(max, calls, kind, p);
    ready := AcquireReadRun(max, calls, k, k, NewRequest(kind, p), [], doc);
  }

  lemma {:induction false} ConfirmedAlone(max: nat, calls: seq<Call>, k: nat)
    requires Schedule(calls) && k + 4 == |calls| && |StateOf(max, calls, k).requests| == 1
    requires forall i :: k <= i < |calls| ==> !calls[i].cmd.Create?
    ensures |StateOf(max, calls, |calls|).requests| == 1
  {
    SameRequests(max, calls, k, 1);
    SameRequests(max, calls, k + 1, 1);
    SameRequests(max, calls, k + 2, 1);
    SameRequests(max, calls, k + 3, 1);
  }

  lemma {:induction false} SameRequests(max: nat, calls: seq<Call>, k: nat, n: nat)
    requires Schedule(calls) && k < |calls| && !calls[k].cmd.Create? && |StateOf(max, calls, k).requests| == n
    ensures |StateOf(max, calls, k + 1).requests| == n
  {
  }
}
