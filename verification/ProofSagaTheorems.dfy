/** A confirmed proof is anchored, in every run of the saga. */
module ProofSagaTheorems {
  import opened Common
  import opened CanonicalJson
  import opened CanonicalJsonTheorems
  import opened Chaincode
  import opened ChaincodeTheorems
  import opened ChaincodeRuns
  import opened ProofSaga

  // ---------------------------------------------------------------- invariants

  ghost predicate Whole(row: Request) {
    CompleteEnvelope(row.kind, row.envelope) && row.proofId == At(row.envelope, PROOF_ID)
  }

  /** The registry holds, under the request's proofId, the canonical text of the request's payload. */
  ghost predicate InLedger(ledger: State, row: Request) {
    && Whole(row) && StateKey(row.proofId) in ledger && Canonicalize(Payload(row)).Some?
    && StoredPayload(ledger[StateKey(row.proofId)]) == Canonicalize(Payload(row))
  }

  ghost predicate RowOk(ledger: State, row: Request) {
    && Whole(row)
    && (row.state == Confirmed || row.binding.Some? ==> InLedger(ledger, row))
    && (row.binding.Some? ==> row.binding.value.proofReference == row.proofId)
  }

  ghost predicate SessionOk(sys: Sys, x: Session) {
    && x.request < |sys.requests|
    && var row := sys.requests[x.request];
    && (x.phase.Anchored? ==> InLedger(sys.ledger, row) && x.phase.binding.proofReference == row.proofId)
    && (x.phase.Confirming? || x.bound.Some? ==> InLedger(sys.ledger, row))
    && (x.bound.Some? ==> x.bound.value.proofReference == row.proofId)
    && (x.phase !in {Acquired, Ended} ==>
        WellFormed(x.payload) && Whole(row) && Denote(x.payload) == Denote(Payload(row)))
  }

  ghost predicate Inv(sys: Sys) {
    && (forall r {:trigger RowOk(sys.ledger, sys.requests[r])} :: 0 <= r < |sys.requests| ==>
        RowOk(sys.ledger, sys.requests[r]))
    && (forall x {:trigger SessionOk(sys, sys.sessions[x])} :: 0 <= x < |sys.sessions| ==>
        SessionOk(sys, sys.sessions[x]))
  }

  ghost predicate SameProof(a: Request, b: Request) {
    a.kind == b.kind && a.proofId == b.proofId && a.envelope == b.envelope
  }

  /** b is later than a. */
  ghost predicate Later(a: Sys, b: Sys) {
    && |a.requests| <= |b.requests|
    && (forall r :: 0 <= r < |a.requests| ==> SameProof(a.requests[r], b.requests[r]))
    && LedgerGrows(a.ledger, b.ledger)
  }

  lemma InLedgerStays(a: State, row: Request, b: State, later: Request)
    requires InLedger(a, row) && LedgerGrows(a, b) && SameProof(row, later)
    ensures InLedger(b, later)
  {
  }

  lemma WriteRow(now: Sys, id: nat, row: Request)
    requires Inv(now) && id < |now.requests| && SameProof(now.requests[id], row) && RowOk(now.ledger, row)
    ensures Inv(SetRequest(now, id, row)) && Later(now, SetRequest(now, id, row))
  {
    var b := SetRequest(now, id, row);
    forall x | 0 <= x < |b.sessions| ensures SessionOk(b, b.sessions[x]) { assert SessionOk(now, now.sessions[x]); }
  }

  lemma WriteSession(now: Sys, sid: nat, x: Session)
    requires Inv(now) && sid < |now.sessions| && SessionOk(now, x)
    ensures Inv(SetSession(now, sid, x)) && Later(now, SetSession(now, sid, x))
  {
    var b := SetSession(now, sid, x);
    forall y | 0 <= y < |b.sessions| ensures SessionOk(b, b.sessions[y]) {
      if y != sid { assert SessionOk(now, now.sessions[y]); }
    }
  }

  lemma GrowLedger(now: Sys, ledger: State)
    requires Inv(now) && LedgerGrows(now.ledger, ledger)
    ensures Inv(now.(ledger := ledger)) && Later(now, now.(ledger := ledger))
  {
    var b := now.(ledger := ledger);
    forall r | 0 <= r < |b.requests| ensures RowOk(ledger, b.requests[r]) { assert RowOk(now.ledger, now.requests[r]); }
    forall x | 0 <= x < |b.sessions| ensures SessionOk(b, b.sessions[x]) { assert SessionOk(now, now.sessions[x]); }
  }

  lemma WriteBoth(now: Sys, id: nat, row: Request, sid: nat, x: Session)
    requires Inv(now) && id < |now.requests| && SameProof(now.requests[id], row) && RowOk(now.ledger, row)
    requires sid < |now.sessions| && x.request == now.sessions[sid].request && x.bound == now.sessions[sid].bound
    requires x.payload == now.sessions[sid].payload
    requires x.phase == Ended || (x.phase in {Marked, Numbered} && now.sessions[sid].phase !in {Acquired, Ended})
    ensures Inv(SetSession(SetRequest(now, id, row), sid, x))
    ensures Later(now, SetSession(SetRequest(now, id, row), sid, x))
  {
    WriteRow(now, id, row);
    var mid := SetRequest(now, id, row);
    assert SessionOk(mid, mid.sessions[sid]);
    WriteSession(mid, sid, x);
  }

  // ---------------------------------------------------------------- submitting

  lemma PayloadWellFormed(row: Request)
    requires Whole(row)
    ensures WellFormed(Payload(row))
  {
    TagsDistinct(row.kind);
    assert Keys(Payload(row).fields) == ShapeOf(row.kind).tags;
  }

  /** What is sent for a request, in whatever order the column gave its members back, decodes to its envelope. */
  lemma SentText(row: Request, payload: Json, text: Text)
    requires Whole(row) && WellFormed(payload) && Denote(payload) == Denote(Payload(row))
    requires Canonicalize(payload) == Some(text)
    ensures Canonicalize(Payload(row)) == Some(text)
    ensures StrictDecode(ShapeOf(row.kind), text) == Some(row.envelope)
  {
    PayloadWellFormed(row);
    EqualValuesPrintAlike(payload, Payload(row));
    TagsDistinct(row.kind);
    DecodeDocument(ShapeOf(row.kind), row.envelope, text);
  }

  /** A success means that the registry now holds this request's own payload under its proofId,
    * and names that proofId in its answer. */
  lemma SuccessAnchorsRequest(ledger: State, row: Request, payload: Json, text: Text, env: Env)
    requires RegistryOk(ledger)
    requires Whole(row) && WellFormed(payload) && Denote(payload) == Denote(Payload(row))
    requires Canonicalize(payload) == Some(text)
    requires InvokeSpec(ledger, row.kind, [text], env).0.Success?
    ensures InLedger(Next(ledger, Invoked(row.kind, text, env)), row)
    ensures RecordString(InvokeSpec(ledger, row.kind, [text], env).0.payload, PROOF_ID_TAG) == row.proofId
  {
    var call := Invoked(row.kind, text, env);
    SentText(row, payload, text);
    SuccessStores(ledger, call);
    PrepareAccepts(row.kind, [text]);
    EnvelopeCanonical(row.kind, row.envelope);
    InvokeKeeps(ledger, row.kind, [text], env);
    StoredProofId(Next(ledger, call), row.proofId);
  }

  lemma StoredProofId(ledger: State, proofId: Text)
    requires RegistryOk(ledger) && StateKey(proofId) in ledger
    ensures RecordString(ledger[StateKey(proofId)], PROOF_ID_TAG) == proofId
  {
    var key := StateKey(proofId);
    assert Recorded(key, ledger[key]);
    var kind, p, r :| RecordOf(key, ledger[key], kind, p, r);
    StringsSurvive(kind, p, r);
    SameKey(r.proofId, proofId);
  }

  lemma LedgerKept(ledger: State, call: Invocation)
    requires RegistryOk(ledger)
    ensures RegistryOk(Next(ledger, call)) && LedgerGrows(ledger, Next(ledger, call))
  {
    InvokeKeeps(ledger, call.kind, call.args, call.env);
  }

  lemma SubmitProofKeeps(ledger: State, row: Request, payload: Json, net: Net)
    requires RegistryOk(ledger) && Whole(row) && WellFormed(payload) && Denote(payload) == Denote(Payload(row))
    ensures var (phase, after) := SubmitProof(ledger, row.kind, payload, net);
            && RegistryOk(after) && LedgerGrows(ledger, after)
            && (phase.Anchored? || phase.Failed?)
            && (phase.Anchored? ==> InLedger(after, row) && phase.binding.proofReference == row.proofId)
  {
    var text := Canonicalize(payload);
    if text.Some? {
      match net
      case Unreachable(_) =>
      case ReplyLost(env, _) => LedgerKept(ledger, Invoked(row.kind, text.value, env));
      case Delivered(env) =>
        LedgerKept(ledger, Invoked(row.kind, text.value, env));
        if InvokeSpec(ledger, row.kind, [text.value], env).0.Success? {
          SuccessAnchorsRequest(ledger, row, payload, text.value, env);
        }
    }
  }

  lemma SubmitKeeps(now: Sys, sid: nat, net: Net, b: Sys)
    requires Inv(now) && RegistryOk(now.ledger) && SubmitStep(now, sid, net) == Some(b)
    ensures Inv(b) && RegistryOk(b.ledger) && Later(now, b)
  {
    var x := now.sessions[sid];
    assert SessionOk(now, x);
    var row := now.requests[x.request];
    SubmitProofKeeps(now.ledger, row, x.payload, net);
    var (phase, ledger) := SubmitProof(now.ledger, row.kind, x.payload, net);
    GrowLedger(now, ledger);
    var grown := now.(ledger := ledger);
    assert SessionOk(grown, x);
    WriteSession(grown, sid, x.(phase := phase, submitted := true));
  }

  // ---------------------------------------------------------------- every step, every run

  lemma AcquireKeeps(s0: Sys, now: Sys, id: nat, owner: nat, time: int, until: int, b: Sys)
    requires Inv(now) && AcquireStep(s0, now, id, owner, time, until) == Some(b)
    ensures Inv(b) && Later(now, b) && b.ledger == now.ledger
  {
    var row := now.requests[id].(lease := Some(Lease(owner, until)));
    assert RowOk(now.ledger, now.requests[id]);
    WriteRow(now, id, row);
    var mid := SetRequest(now, id, row);
    forall x | 0 <= x < |b.sessions| ensures SessionOk(b, b.sessions[x]) {
      if x < |mid.sessions| { assert SessionOk(mid, mid.sessions[x]); }
    }
  }

  lemma ReadKeeps(now: Sys, sid: nat, payload: Json, b: Sys)
    requires Inv(now) && ReadStep(now, sid, payload) == Some(b)
    ensures Inv(b) && Later(now, b) && b.ledger == now.ledger
  {
    var x := now.sessions[sid];
    assert SessionOk(now, x) && RowOk(now.ledger, now.requests[x.request]);
    WriteSession(now, sid, b.sessions[sid]);
  }

  lemma PollKeeps(s0: Sys, now: Sys, sid: nat, b: Sys)
    requires Inv(now) && PollStep(s0, now, sid) == Some(b)
    ensures Inv(b) && Later(now, b) && b.ledger == now.ledger
  {
    assert SessionOk(now, now.sessions[sid]);
    WriteSession(now, sid, b.sessions[sid]);
  }

  lemma ConfirmKeeps(now: Sys, sid: nat, b: Sys)
    requires Inv(now) && ConfirmStep(now, sid) == Some(b)
    ensures Inv(b) && Later(now, b) && b.ledger == now.ledger
  {
    var x := now.sessions[sid];
    assert SessionOk(now, x) && RowOk(now.ledger, now.requests[x.request]);
    WriteBoth(now, x.request, ConfirmRow(now.requests[x.request]), sid, x.(phase := Ended));
  }

  lemma MarkKeeps(now: Sys, sid: nat, b: Sys)
    requires Inv(now) && MarkStep(now, sid) == Some(b)
    ensures Inv(b) && Later(now, b) && b.ledger == now.ledger
  {
    var x := now.sessions[sid];
    assert SessionOk(now, x) && RowOk(now.ledger, now.requests[x.request]);
    WriteBoth(now, x.request, MarkRow(now.requests[x.request]), sid, x.(phase := Marked, attempt := Some(x.seen + 1)));
  }

  lemma NumberKeeps(now: Sys, sid: nat, b: Sys)
    requires Inv(now) && NumberStep(now, sid) == Some(b)
    ensures Inv(b) && Later(now, b) && b.ledger == now.ledger
  {
    var x := now.sessions[sid];
    var (row, n) := (now.requests[x.request], x.attempt.value);
    assert SessionOk(now, x) && RowOk(now.ledger, row);
    if n in row.numbers {
      WriteSession(now, sid, x.(phase := Ended));
    } else {
      WriteBoth(now, x.request, row.(numbers := row.numbers + {n}), sid, x.(phase := Numbered));
    }
  }

  lemma CommitSuccessKeeps(now: Sys, sid: nat, works: bool, b: Sys)
    requires Inv(now) && CommitSuccessStep(now, sid, works) == Some(b)
    ensures Inv(b) && Later(now, b) && b.ledger == now.ledger
  {
    var x := now.sessions[sid];
    assert SessionOk(now, x) && RowOk(now.ledger, now.requests[x.request]);
    if !works {
      WriteSession(now, sid, x.(phase := Failed(true, false)));
    } else {
      WriteBoth(now, x.request, SuccessRow(now.requests[x.request], x.phase.binding), sid, x.(phase := Ended));
    }
  }

  lemma CommitFailureKeeps(now: Sys, max: nat, sid: nat, b: Sys)
    requires Inv(now) && CommitFailureStep(now, max, sid) == Some(b)
    ensures Inv(b) && Later(now, b) && b.ledger == now.ledger
  {
    var x := now.sessions[sid];
    var row := now.requests[x.request];
    assert SessionOk(now, x) && RowOk(now.ledger, row);
    WriteBoth(now, x.request, FailureRow(row, max, x.attempt.value, x.phase.retryable, x.phase.conflict), sid,
              x.(phase := Ended));
  }

  lemma CreateKeeps(now: Sys, kind: ProofKind, p: Struct, b: Sys)
    requires Inv(now) && CreateStep(now, kind, p) == Some(b)
    ensures Inv(b) && Later(now, b) && b.ledger == now.ledger
  {
    forall x | 0 <= x < |b.sessions| ensures SessionOk(b, b.sessions[x]) { assert SessionOk(now, now.sessions[x]); }
    forall r | 0 <= r < |b.requests| ensures RowOk(b.ledger, b.requests[r]) {
      if r < |now.requests| { assert RowOk(now.ledger, now.requests[r]); }
    }
  }

  lemma RetryKeeps(s0: Sys, now: Sys, id: nat, b: Sys)
    requires Inv(now) && RetryStep(s0, now, id) == Some(b)
    ensures Inv(b) && Later(now, b) && b.ledger == now.ledger
  {
    assert RowOk(now.ledger, now.requests[id]);
    WriteRow(now, id, RetryRow(now.requests[id]));
  }

  lemma ReconcileKeeps(s0: Sys, s1: Sys, now: Sys, id: nat, b: Sys)
    requires Inv(s0) && Inv(now) && Later(s0, now) && ReconcileStep(s0, s1, now, id) == Some(b)
    ensures Inv(b) && Later(now, b) && b.ledger == now.ledger
  {
    assert RowOk(s0.ledger, s0.requests[id]) && RowOk(now.ledger, now.requests[id]);
    InLedgerStays(s0.ledger, s0.requests[id], now.ledger, now.requests[id]);
    WriteRow(now, id, now.requests[id].(state := Confirmed));
  }

  lemma CrashKeeps(now: Sys, sid: nat, b: Sys)
    requires Inv(now) && CrashStep(now, sid) == Some(b)
    ensures Inv(b) && Later(now, b) && b.ledger == now.ledger
  {
    assert SessionOk(now, now.sessions[sid]);
    WriteSession(now, sid, now.sessions[sid].(phase := Ended));
  }

  lemma TryKeeps(max: nat, cmd: Command, s0: Sys, s1: Sys, now: Sys, b: Sys)
    requires Inv(s0) && Inv(now) && RegistryOk(now.ledger) && Later(s0, now)
    requires Try(max, cmd, s0, s1, now) == Some(b)
    ensures Inv(b) && RegistryOk(b.ledger) && Later(now, b)
  {
    match cmd
    case Create(kind, p) => CreateKeeps(now, kind, p, b);
    case Acquire(id, owner, time, until) => AcquireKeeps(s0, now, id, owner, time, until, b);
    case ReadRequest(sid, payload) => ReadKeeps(now, sid, payload, b);
    case Poll(sid) => PollKeeps(s0, now, sid, b);
    case ConfirmExisting(sid) => ConfirmKeeps(now, sid, b);
    case Mark(sid) => MarkKeeps(now, sid, b);
    case Number(sid) => NumberKeeps(now, sid, b);
    case Submit(sid, net) => SubmitKeeps(now, sid, net, b);
    case CommitSuccess(sid, works) => CommitSuccessKeeps(now, sid, works, b);
    case CommitFailure(sid) => CommitFailureKeeps(now, max, sid, b);
    case Crash(sid) => CrashKeeps(now, sid, b);
    case Retry(id) => RetryKeeps(s0, now, id, b);
    case Reconcile(id) => ReconcileKeeps(s0, s1, now, id, b);
    case Invoke(call) =>
      LedgerKept(now.ledger, call);
      GrowLedger(now, b.ledger);
  }

  lemma LaterTransitive(a: Sys, b: Sys, c: Sys)
    requires Later(a, b) && Later(b, c)
    ensures Later(a, c)
  {
  }

  lemma {:induction false} CallKeeps(max: nat, calls: seq<Call>, k: nat)
    requires Schedule(calls) && k < |calls|
    requires var (s0, now) := (StateOf(max, calls, calls[k].r0), StateOf(max, calls, k));
             Inv(s0) && Inv(now) && RegistryOk(now.ledger) && Later(s0, now)
    ensures var (now, b) := (StateOf(max, calls, k), StateOf(max, calls, k + 1));
            Inv(b) && RegistryOk(b.ledger) && Later(now, b)
  {
    var call := calls[k];
    var result := Attempt(max, calls, k);
    if result.Some? {
      TryKeeps(max, call.cmd, StateOf(max, calls, call.r0), StateOf(max, calls, call.r1), StateOf(max, calls, k),
               result.value);
    }
  }

  lemma {:induction false} EveryRun(max: nat, calls: seq<Call>, k: nat)
    requires Schedule(calls) && k <= |calls|
    ensures Inv(StateOf(max, calls, k)) && RegistryOk(StateOf(max, calls, k).ledger)
    ensures forall j: nat :: j <= k ==> Later(StateOf(max, calls, j), StateOf(max, calls, k))
    decreases k
  {
    if k > 0 {
      EveryRun(max, calls, k - 1);
      EveryRun(max, calls, calls[k - 1].r0);
      CallKeeps(max, calls, k - 1);
      forall j: nat | j <= k ensures Later(StateOf(max, calls, j), StateOf(max, calls, k)) {
        if j < k { LaterTransitive(StateOf(max, calls, j), StateOf(max, calls, k - 1), StateOf(max, calls, k)); }
      }
    }
  }

  /** In every run of workers, retries, reconciliation and other clients, once a request is CONFIRMED the
    * registry holds its canonical payload under its proofId, then and in every later state. */
  lemma {:induction false} ConfirmedIsAnchored(max: nat, calls: seq<Call>, j: nat, k: nat, r: nat)
    requires Schedule(calls) && j <= k <= |calls| && r < |StateOf(max, calls, j).requests|
    requires StateOf(max, calls, j).requests[r].state == Confirmed
    ensures r < |StateOf(max, calls, k).requests|
    ensures SameProof(StateOf(max, calls, j).requests[r], StateOf(max, calls, k).requests[r])
    ensures InLedger(StateOf(max, calls, k).ledger, StateOf(max, calls, k).requests[r])
  {
    EveryRun(max, calls, j);
    EveryRun(max, calls, k);
    var (a, b) := (StateOf(max, calls, j), StateOf(max, calls, k));
    assert RowOk(a.ledger, a.requests[r]);
    assert Later(a, b);
    InLedgerStays(a.ledger, a.requests[r], b.ledger, b.requests[r]);
  }
}
