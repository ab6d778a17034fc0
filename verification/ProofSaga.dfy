/** The saga that anchors proof requests: workers, manual retries, reconciliation and other
  * clients of the ledger, over the table of requests and the chaincode's registry.
  *
  * Each await of the source is one step.  A step that writes by id alone does not look again
  * at what an earlier step read; what was read is kept in the session, or found in an
  * earlier state of the history.
  */
module ProofSaga {
  import opened Common
  import opened CanonicalJson
  import opened Chaincode

  datatype RequestState = Pending | Submitting | Submitted | Confirmed | Conflict | FailedRetryable | FailedPermanent

  datatype Binding = Binding(transactionId: Text, proofReference: Text)

  datatype Lease = Lease(owner: nat, expires: int)

  /** `envelope` holds the values of the payload's members; `numbers` the attempt numbers of the
    * request's ledger transactions. */
  datatype Request = Request(
    kind: ProofKind, proofId: Text, envelope: Struct, state: RequestState, attempts: nat, lease: Option<Lease>,
    binding: Option<Binding>, numbers: set<nat>)

  /** Where process stands: after acquiring, reading, asking for finality, marking, numbering,
    * the provider's answer, or at its end. */
  datatype Phase =
    | Acquired | Ready | Polled | Confirming | Marked | Numbered
    | Anchored(binding: Binding) | Failed(retryable: bool, conflict: bool) | Ended

  /** One call of process and what it read: state, attempts, binding and payload. */
  datatype Session = Session(
    request: nat, phase: Phase, was: RequestState, seen: nat, bound: Option<Binding>, payload: Json,
    attempt: Option<nat>, submitted: bool)

  datatype Sys = Sys(requests: seq<Request>, sessions: seq<Session>, ledger: State)

  const START := Sys([], [], map[])

  // ---------------------------------------------------------------- row writes

  /** createEvidence and createDecision always write out every member of the envelope. */
  predicate CompleteEnvelope(kind: ProofKind, p: Struct) {
    && |p| == |ShapeOf(kind).tags|
    && forall i :: 0 <= i < |p| && ShapeOf(kind).pointer != Some(i) ==> p[i].Some?
  }

  function NewRequest(kind: ProofKind, p: Struct): Request
    requires |p| == |ShapeOf(kind).tags|
  {
    Request(kind, At(p, PROOF_ID), p, Pending, 0, None, None, {})
  }

  predicate Eligible(state: RequestState) { state in {Pending, FailedRetryable, Submitted} }

  predicate LeaseFree(row: Request, owner: nat, time: int) {
    row.lease.None? || row.lease.value.expires < time || row.lease.value.owner == owner
  }

  function MarkRow(row: Request): Request { row.(state := Submitting, attempts := row.attempts + 1) }

  function SuccessRow(row: Request, binding: Binding): Request {
    row.(state := Confirmed, lease := None, binding := Some(binding))
  }

  function FailureRow(row: Request, max: nat, attempt: nat, retryable: bool, conflict: bool): Request {
    row.(state := if conflict then Conflict
                  else if retryable && attempt < max then FailedRetryable else FailedPermanent,
         lease := None)
  }

  function ConfirmRow(row: Request): Request { row.(state := Confirmed, lease := None) }

  function RetryRow(row: Request): Request { row.(state := Pending, lease := None) }

  // ---------------------------------------------------------------- the provider

  /** How one call of submitTransaction went: it reached the ledger and was answered, it took effect
    * and the answer was lost, or it never took effect.  `retryable` is the provider's classification. */
  datatype Net = Delivered(env: Env) | ReplyLost(env: Env, retryable: bool) | Unreachable(retryable: bool)

  function Invoked(kind: ProofKind, text: Text, env: Env): Invocation { Invocation(kind, [text], env) }

  /** submitProof: the phase it leaves a session in, and the registry. */
  function SubmitProof(ledger: State, kind: ProofKind, payload: Json, net: Net): (Phase, State) {
    var text := Canonicalize(payload);
    if text.None? then (Failed(true, false), ledger) else
      match net
      case Unreachable(retryable) => (Failed(retryable, false), ledger)
      case ReplyLost(env, retryable) => (Failed(retryable, false), Next(ledger, Invoked(kind, text.value, env)))
      case Delivered(env) =>
        var answer := InvokeSpec(ledger, kind, [text.value], env).0;
        (match answer
         case Success(record) =>
           Anchored(Binding(RecordString(record, TRANSACTION_TAG), RecordString(record, PROOF_ID_TAG)))
         case Error(code) => Failed(false, code == PROOF_ID_CONFLICT),
         Next(ledger, Invoked(kind, text.value, env)))
  }

  /** getTransaction: FINALIZED exactly when the registry has a record under the reference. */
  predicate Finalized(ledger: State, binding: Binding) { StateKey(binding.proofReference) in ledger }

  // ---------------------------------------------------------------- steps

  datatype Command =
    | Create(kind: ProofKind, envelope: Struct)
    | Acquire(id: nat, owner: nat, time: int, until: int)
    | ReadRequest(sid: nat, payload: Json)
    | Poll(sid: nat)
    | ConfirmExisting(sid: nat)
    | Mark(sid: nat)
    | Number(sid: nat)
    | Submit(sid: nat, net: Net)
    | CommitSuccess(sid: nat, works: bool)
    | CommitFailure(sid: nat)
    | Crash(sid: nat)
    | Retry(id: nat)
    | Reconcile(id: nat)
    | Invoke(call: Invocation)

  function SessionAt(sid: nat, now: Sys, phase: Phase): Option<Session> {
    if sid < |now.sessions| && now.sessions[sid].phase == phase && now.sessions[sid].request < |now.requests|
    then Some(now.sessions[sid]) else None
  }

  function SetSession(now: Sys, sid: nat, session: Session): Sys
    requires sid < |now.sessions|
  {
    now.(sessions := now.sessions[sid := session])
  }

  function SetRequest(now: Sys, id: nat, row: Request): Sys
    requires id < |now.requests|
  {
    now.(requests := now.requests[id := row])
  }

  function CreateStep(now: Sys, kind: ProofKind, p: Struct): Option<Sys> {
    if CompleteEnvelope(kind, p) && (forall row :: row in now.requests ==> row.proofId != At(p, PROOF_ID))
    then Some(now.(requests := now.requests + [NewRequest(kind, p)])) else None
  }

  /** tick: the candidate was read earlier; acquiring looks at the lease alone. */
  function AcquireStep(seen: Sys, now: Sys, id: nat, owner: nat, time: int, until: int): Option<Sys> {
    if id < |seen.requests| && Eligible(seen.requests[id].state) && LeaseFree(seen.requests[id], owner, time)
       && id < |now.requests| && LeaseFree(now.requests[id], owner, time)
    then Some(now.(requests := now.requests[id := now.requests[id].(lease := Some(Lease(owner, until)))],
                   sessions := now.sessions + [Session(id, Acquired, Pending, 0, None, Null, None, false)]))
    else None
  }

  /** The JSON column may give the members of the payload back in another order. */
  function ReadStep(now: Sys, sid: nat, payload: Json): Option<Sys> {
    var session := SessionAt(sid, now, Acquired);
    if session.None? then None else
      var row := now.requests[session.value.request];
      if row.state == Confirmed then Some(SetSession(now, sid, session.value.(phase := Ended)))
      else if |row.envelope| == |ShapeOf(row.kind).tags| && WellFormed(payload)
          && Denote(payload) == Denote(Payload(row)) then
        Some(SetSession(now, sid, session.value.(
          phase := Ready, was := row.state, seen := row.attempts, bound := row.binding, payload := payload)))
      else None
  }

  function Payload(row: Request): Json
    requires |row.envelope| == |ShapeOf(row.kind).tags|
  {
    Obj(StructFields(ShapeOf(row.kind).tags, row.envelope))
  }

  predicate MustPoll(session: Session) {
    session.was == Submitted && session.bound.Some? && session.bound.value.transactionId != []
  }

  function PollStep(seen: Sys, now: Sys, sid: nat): Option<Sys> {
    var session := SessionAt(sid, now, Ready);
    if session.None? || !MustPoll(session.value) then None
    else Some(SetSession(now, sid, session.value.(
      phase := if Finalized(seen.ledger, session.value.bound.value) then Confirming else Polled)))
  }

  function ConfirmStep(now: Sys, sid: nat): Option<Sys> {
    var session := SessionAt(sid, now, Confirming);
    if session.None? then None else
      var id := session.value.request;
      Some(SetSession(SetRequest(now, id, ConfirmRow(now.requests[id])), sid, session.value.(phase := Ended)))
  }

  function MarkStep(now: Sys, sid: nat): Option<Sys> {
    var ready := SessionAt(sid, now, Ready);
    var session := if ready.Some? && !MustPoll(ready.value) then ready else SessionAt(sid, now, Polled);
    if session.None? then None else
      var id := session.value.request;
      Some(SetSession(SetRequest(now, id, MarkRow(now.requests[id])), sid,
                      session.value.(phase := Marked, attempt := Some(session.value.seen + 1))))
  }

  /** ledgerTransaction.create: a number already taken throws, and process ends there. */
  function NumberStep(now: Sys, sid: nat): Option<Sys> {
    var session := SessionAt(sid, now, Marked);
    if session.None? || session.value.attempt.None? then None else
      var (id, n) := (session.value.request, session.value.attempt.value);
      var row := now.requests[id];
      if n in row.numbers then Some(SetSession(now, sid, session.value.(phase := Ended)))
      else Some(SetSession(SetRequest(now, id, row.(numbers := row.numbers + {n})), sid,
                           session.value.(phase := Numbered)))
  }

  function SubmitStep(now: Sys, sid: nat, net: Net): Option<Sys> {
    var session := SessionAt(sid, now, Numbered);
    if session.None? then None else
      var row := now.requests[session.value.request];
      var (phase, ledger) := SubmitProof(now.ledger, row.kind, session.value.payload, net);
      Some(SetSession(now.(ledger := ledger), sid, session.value.(phase := phase, submitted := true)))
  }

  /** A commit that fails is caught like a provider error of unknown kind. */
  function CommitSuccessStep(now: Sys, sid: nat, works: bool): Option<Sys> {
    if !(sid < |now.sessions| && now.sessions[sid].phase.Anchored? && now.sessions[sid].request < |now.requests|)
        then None else
      var session := now.sessions[sid];
      var id := session.request;
      if !works then Some(SetSession(now, sid, session.(phase := Failed(true, false))))
      else Some(SetSession(SetRequest(now, id, SuccessRow(now.requests[id], session.phase.binding)), sid,
                           session.(phase := Ended)))
  }

  function CommitFailureStep(now: Sys, max: nat, sid: nat): Option<Sys> {
    if !(sid < |now.sessions| && now.sessions[sid].phase.Failed? && now.sessions[sid].request < |now.requests|
         && now.sessions[sid].attempt.Some?) then None else
      var session := now.sessions[sid];
      var (id, phase) := (session.request, session.phase);
      Some(SetSession(SetRequest(now, id,
             FailureRow(now.requests[id], max, session.attempt.value, phase.retryable, phase.conflict)), sid,
           session.(phase := Ended)))
  }

  function CrashStep(now: Sys, sid: nat): Option<Sys> {
    if sid < |now.sessions| then Some(SetSession(now, sid, now.sessions[sid].(phase := Ended))) else None
  }

  /** retry: the state was read before the transaction, which writes by id. */
  function RetryStep(seen: Sys, now: Sys, id: nat): Option<Sys> {
    if id < |seen.requests| && seen.requests[id].state == FailedRetryable && id < |now.requests|
    then Some(SetRequest(now, id, RetryRow(now.requests[id]))) else None
  }

  /** One request of reconcile that it counts as confirmed: read, then asked for, then written by id. */
  function ReconcileStep(seen: Sys, asked: Sys, now: Sys, id: nat): Option<Sys> {
    if id < |seen.requests| && seen.requests[id].state in {Submitted, FailedRetryable}
       && seen.requests[id].binding.Some? && seen.requests[id].binding.value.transactionId != []
       && Finalized(asked.ledger, seen.requests[id].binding.value) && id < |now.requests|
    then Some(SetRequest(now, id, now.requests[id].(state := Confirmed))) else None
  }

  function Try(max: nat, cmd: Command, s0: Sys, s1: Sys, now: Sys): Option<Sys> {
    match cmd
    case Create(kind, p) => CreateStep(now, kind, p)
    case Acquire(id, owner, time, until) => AcquireStep(s0, now, id, owner, time, until)
    case ReadRequest(sid, payload) => ReadStep(now, sid, payload)
    case Poll(sid) => PollStep(s0, now, sid)
    case ConfirmExisting(sid) => ConfirmStep(now, sid)
    case Mark(sid) => MarkStep(now, sid)
    case Number(sid) => NumberStep(now, sid)
    case Submit(sid, net) => SubmitStep(now, sid, net)
    case CommitSuccess(sid, works) => CommitSuccessStep(now, sid, works)
    case CommitFailure(sid) => CommitFailureStep(now, max, sid)
    case Crash(sid) => CrashStep(now, sid)
    case Retry(id) => RetryStep(s0, now, id)
    case Reconcile(id) => ReconcileStep(s0, s1, now, id)
    case Invoke(call) => Some(now.(ledger := Next(now.ledger, call)))
  }

  /** A step and the positions in the history of what it read earlier. */
  datatype Call = Call(cmd: Command, r0: nat, r1: nat)

  predicate Schedule(calls: seq<Call>) {
    forall k :: 0 <= k < |calls| ==> calls[k].r0 <= calls[k].r1 <= k
  }

  function Attempt(max: nat, calls: seq<Call>, k: nat): Option<Sys>
    requires Schedule(calls) && k < |calls|
    decreases k, 1
  {
    Try(max, calls[k].cmd, StateOf(max, calls, calls[k].r0), StateOf(max, calls, calls[k].r1), StateOf(max, calls, k))
  }

  /** The system after the first k steps of a history. */
  function StateOf(max: nat, calls: seq<Call>, k: nat): Sys
    requires Schedule(calls) && k <= |calls|
    decreases k, 0
  {
    if k == 0 then START else
      var result := Attempt(max, calls, k - 1);
      if result.Some? then result.value else StateOf(max, calls, k - 1)
  }
}
