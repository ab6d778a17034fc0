/** The Case status machine, and the workflow service's synchronization of it.
  *
  * A sync operation's identifier is its position in its table, and the inbox of the Case
  * service holds the operations it has applied.
  */
module CaseSync {
  import opened Common

  datatype Status = Draft | Open | EvidenceCollection | UnderReview | DecisionPending | Decided | Closed | Cancelled

  predicate Final(s: Status) { s in {Decided, Closed, Cancelled} }

  /** A row of the status history; `operation` is the sync operation that wrote it, if one did. */
  datatype Entry = Entry(from: Option<Status>, to: Status, version: nat, operation: Option<nat>)

  datatype Case = Case(status: Status, version: nat, history: seq<Entry>)

  const CREATED := Case(Draft, 1, [Entry(None, Draft, 1, None)])

  // ---------------------------------------------------------------- the Case service

  /** update: under the caller's version; the only status change it makes is DRAFT to OPEN. */
  function Update(c: Case, version: nat, status: Option<Status>): Option<Case> {
    if c.version != version then None
    else if status.Some? && !(c.status == Draft && status.value == Open) && status.value != c.status then None
    else
      var next := if status.Some? then status.value else c.status;
      Some(Case(next, c.version + 1,
                if next == c.status then c.history
                else c.history + [Entry(Some(c.status), next, c.version + 1, None)]))
  }

  /** Adding a party, an assignment or a note only increments the version. */
  function Touch(c: Case): Case { c.(version := c.version + 1) }

  function Cancel(c: Case, version: nat): Option<Case> {
    if c.version != version || Final(c.status) then None
    else Some(Case(Status.Cancelled, c.version + 1,
                   c.history + [Entry(Some(c.status), Status.Cancelled, c.version + 1, None)]))
  }

  predicate Syncable(target: Status) { target in {EvidenceCollection, UnderReview, DecisionPending, Decided} }

  /** internalWorkflowSync for an operation not applied before; None when it throws. */
  function Apply(c: Case, target: Status, operation: nat): Option<Case> {
    if c.status in {Status.Cancelled, Closed} || (c.status == Decided && target != Decided) then None
    else if c.status == target then Some(c)
    else Some(Case(target, c.version + 1, c.history + [Entry(Some(c.status), target, c.version + 1, Some(operation))]))
  }

  /** The rows of the Case service. */
  datatype Cases = Cases(rows: seq<Case>, inbox: set<nat>)

  /** internalWorkflowSync: false is an error reply. */
  function Sync(cases: Cases, id: nat, target: Status, operation: nat): (bool, Cases) {
    if !Syncable(target) || id >= |cases.rows| then (false, cases)
    else if operation in cases.inbox then (true, cases)
    else
      var applied := Apply(cases.rows[id], target, operation);
      if applied.None? then (false, cases)
      else (true, Cases(cases.rows[id := applied.value], cases.inbox + {operation}))
  }

  // ---------------------------------------------------------------- the workflow service

  datatype EventType = ValidationSync | RecommendationSync | DecisionSync

  datatype OpStatus = Pending | Synced | Failed

  datatype Op = Op(instance: nat, caseId: nat, target: Status, event: EventType, status: OpStatus, attempts: nat)

  function FindOp(ops: seq<Op>, instance: nat, event: EventType): (r: Option<nat>)
    ensures r.Some? ==> r.value < |ops| && ops[r.value].instance == instance && ops[r.value].event == event
    ensures r.None? ==> forall i :: 0 <= i < |ops| ==> !(ops[i].instance == instance && ops[i].event == event)
  {
    if ops == [] then None
    else if ops[|ops| - 1].instance == instance && ops[|ops| - 1].event == event then Some(|ops| - 1)
    else FindOp(ops[..|ops| - 1], instance, event)
  }

  /** The newest operation of the instance that still waits. */
  function NextOp(ops: seq<Op>, instance: nat): (r: Option<nat>)
    ensures r.Some? ==> r.value < |ops| && ops[r.value].instance == instance && ops[r.value].status != Synced
  {
    if ops == [] then None
    else if ops[|ops| - 1].instance == instance && ops[|ops| - 1].status != Synced then Some(|ops| - 1)
    else NextOp(ops[..|ops| - 1], instance)
  }

  /** queueSync: an existing operation is only set back to PENDING, it keeps its target. */
  function QueueSync(ops: seq<Op>, instance: nat, caseId: nat, target: Status, event: EventType): seq<Op> {
    var found := FindOp(ops, instance, event);
    if found.Some? then ops[found.value := ops[found.value].(status := Pending)]
    else ops + [Op(instance, caseId, target, event, Pending, 0)]
  }

  /** One call of attemptCaseSync: the operation it read, and how the Case service replied. */
  datatype Phase = Read | Replied(ok: bool) | Done

  datatype Attempt = Attempt(op: nat, attempts: nat, phase: Phase)

  datatype Sys = Sys(cases: Cases, ops: seq<Op>, attempts: seq<Attempt>)

  const START := Sys(Cases([], {}), [], [])

  /** How a call to the Case service went. */
  datatype Net = Answered | ReplyLost | Unreachable

  datatype Command =
    | CreateCase
    | UpdateCase(id: nat, version: nat, status: Option<Status>)
    | TouchCase(id: nat)
    | CancelCase(id: nat, version: nat)
    | Queue(instance: nat, caseId: nat, target: Status, event: EventType)
    | Begin(instance: nat)
    | CallCase(attempt: nat, net: Net)
    | Finish(attempt: nat, works: bool, max: nat)

  function SetCase(s: Sys, id: nat, c: Option<Case>): Sys
    requires id < |s.cases.rows|
  {
    if c.None? then s else s.(cases := s.cases.(rows := s.cases.rows[id := c.value]))
  }

  function SetAttempt(s: Sys, a: nat, phase: Phase): Sys
    requires a < |s.attempts|
  {
    s.(attempts := s.attempts[a := s.attempts[a].(phase := phase)])
  }

  function FinishOp(op: Op, read: nat, synced: bool, max: nat): Op {
    if synced then op.(status := Synced, attempts := op.attempts + 1)
    else op.(status := if read + 1 >= max then Failed else Pending, attempts := read + 1)
  }

  /** The targets queueSync is called with: a decision is always synchronized as DECIDED. */
  predicate Queueable(target: Status, event: EventType) {
    Syncable(target) && (event == DecisionSync ==> target == Decided)
  }

  function Step(cmd: Command, s: Sys): Sys {
    match cmd
    case CreateCase => s.(cases := s.cases.(rows := s.cases.rows + [CREATED]))
    case UpdateCase(id, version, status) =>
      if id < |s.cases.rows| then SetCase(s, id, Update(s.cases.rows[id], version, status)) else s
    case TouchCase(id) => if id < |s.cases.rows| then SetCase(s, id, Some(Touch(s.cases.rows[id]))) else s
    case CancelCase(id, version) => if id < |s.cases.rows| then SetCase(s, id, Cancel(s.cases.rows[id], version)) else s
    case Queue(instance, caseId, target, event) =>
      if Queueable(target, event) then s.(ops := QueueSync(s.ops, instance, caseId, target, event)) else s
    case Begin(instance) =>
      var op := NextOp(s.ops, instance);
      if op.None? then s else s.(attempts := s.attempts + [Attempt(op.value, s.ops[op.value].attempts, Read)])
    case CallCase(a, net) =>
      if a >= |s.attempts| || s.attempts[a].phase != Read || s.attempts[a].op >= |s.ops| then s else
        var op := s.ops[s.attempts[a].op];
        if net == Unreachable then SetAttempt(s, a, Replied(false)) else
          var (ok, cases) := Sync(s.cases, op.caseId, op.target, s.attempts[a].op);
          SetAttempt(s.(cases := cases), a, Replied(ok && net == Answered))
    case Finish(a, works, max) =>
      if a >= |s.attempts| || !s.attempts[a].phase.Replied? || s.attempts[a].op >= |s.ops| then s else
        var (i, ok) := (s.attempts[a].op, s.attempts[a].phase.ok && works);
        SetAttempt(s.(ops := s.ops[i := FinishOp(s.ops[i], s.attempts[a].attempts, ok, max)]), a, Done)
  }

  function StateOf(steps: seq<Command>, k: nat): Sys
    requires k <= |steps|
  {
    if k == 0 then START else Step(steps[k - 1], StateOf(steps, k - 1))
  }

  // ---------------------------------------------------------------- one case

  /** The history is a path from DRAFT to the current status, under growing versions, that ends
    * where a final status is reached. */
  ghost predicate CaseOk(c: Case) {
    && c.history != []
    && c.history[0] == Entry(None, Draft, 1, None)
    && c.history[|c.history| - 1].to == c.status
    && c.history[|c.history| - 1].version <= c.version
    && c.status != Closed
    && forall i :: 1 <= i < |c.history| ==> Connected(c.history[i - 1], c.history[i])
  }

  predicate Connected(a: Entry, b: Entry) {
    b.from == Some(a.to) && a.version < b.version && b.to != a.to && !Final(a.to)
    && (b.to == Open ==> a.to == Draft) && b.to != Draft
  }

  /** A later state of a case: its history grew, and a final status stayed. */
  ghost predicate Progresses(a: Case, b: Case) {
    && a.history <= b.history && a.version <= b.version
    && (Final(a.status) ==> b.status == a.status && b.history == a.history)
    && (b.history == a.history ==> b.status == a.status)
  }

  lemma OneMoreEntry(c: Case, to: Status, operation: Option<nat>)
    requires CaseOk(c) && !Final(c.status) && to != c.status && to != Draft && to != Closed
             && (to == Open ==> c.status == Draft)
    ensures var b := Case(to, c.version + 1, c.history + [Entry(Some(c.status), to, c.version + 1, operation)]);
            CaseOk(b) && Progresses(c, b)
  {
    var history := c.history + [Entry(Some(c.status), to, c.version + 1, operation)];
    forall i | 1 <= i < |history| ensures Connected(history[i - 1], history[i]) {
      if i < |c.history| { assert Connected(c.history[i - 1], c.history[i]); }
    }
  }

  lemma UpdateKeeps(c: Case, version: nat, status: Option<Status>)
    requires CaseOk(c) && Update(c, version, status).Some?
    ensures CaseOk(Update(c, version, status).value) && Progresses(c, Update(c, version, status).value)
  {
    if status.Some? && status.value != c.status { OneMoreEntry(c, Open, None); }
  }

  lemma CancelKeeps(c: Case, version: nat)
    requires CaseOk(c) && Cancel(c, version).Some?
    ensures CaseOk(Cancel(c, version).value) && Progresses(c, Cancel(c, version).value)
  {
    OneMoreEntry(c, Status.Cancelled, None);
  }

  lemma ApplyKeeps(c: Case, target: Status, operation: nat)
    requires CaseOk(c) && Syncable(target) && Apply(c, target, operation).Some?
    ensures var b := Apply(c, target, operation).value;
            CaseOk(b) && Progresses(c, b) && b.status == target
  {
    if c.status != target { OneMoreEntry(c, target, Some(operation)); }
  }

  /** A decision can be synchronized exactly as long as the case is not cancelled. */
  lemma DecisionRefusedIff(c: Case, operation: nat)
    requires CaseOk(c)
    ensures Apply(c, Decided, operation).None? <==> c.status == Status.Cancelled
  {
  }

  // ---------------------------------------------------------------- all cases

  /** The entries an operation wrote are in its own case, at most one of them, and only after it was applied. */
  ghost predicate EntriesOk(s: Sys, id: nat)
    requires id < |s.cases.rows|
  {
    var history := s.cases.rows[id].history;
    && (forall i :: 0 <= i < |history| && history[i].operation.Some? ==>
          history[i].operation.value in s.cases.inbox && history[i].operation.value < |s.ops|
          && s.ops[history[i].operation.value].caseId == id)
    && forall i, j :: 0 <= i < j < |history| && history[i].operation.Some? ==>
        history[i].operation != history[j].operation
  }

  ghost predicate OpOk(s: Sys, o: nat)
    requires o < |s.ops|
  {
    && Queueable(s.ops[o].target, s.ops[o].event)
    && (s.ops[o].status == Synced ==> o in s.cases.inbox)
    && (o in s.cases.inbox ==> s.ops[o].caseId < |s.cases.rows|)
    && (o in s.cases.inbox && s.ops[o].target == Decided ==> s.cases.rows[s.ops[o].caseId].status == Decided)
  }

  ghost predicate AttemptOk(s: Sys, a: Attempt) {
    a.op < |s.ops| && (a.phase.Replied? && a.phase.ok ==> a.op in s.cases.inbox)
  }

  ghost predicate Inv(s: Sys) {
    && (forall id {:trigger CaseOk(s.cases.rows[id])} :: 0 <= id < |s.cases.rows| ==> CaseOk(s.cases.rows[id]))
    && (forall id {:trigger EntriesOk(s, id)} :: 0 <= id < |s.cases.rows| ==> EntriesOk(s, id))
    && (forall o {:trigger OpOk(s, o)} :: 0 <= o < |s.ops| ==> OpOk(s, o))
    && (forall a {:trigger AttemptOk(s, s.attempts[a])} :: 0 <= a < |s.attempts| ==> AttemptOk(s, s.attempts[a]))
    && (forall o :: o in s.cases.inbox ==> o < |s.ops|)
    && (forall o, p :: 0 <= o < p < |s.ops| ==>
        s.ops[o].instance != s.ops[p].instance || s.ops[o].event != s.ops[p].event)
  }

  /** b is later than a. */
  ghost predicate Later(a: Sys, b: Sys) {
    && |a.cases.rows| <= |b.cases.rows| && |a.ops| <= |b.ops| && a.cases.inbox <= b.cases.inbox
    && (forall id :: 0 <= id < |a.cases.rows| ==> Progresses(a.cases.rows[id], b.cases.rows[id]))
    && (forall o :: 0 <= o < |a.ops| ==>
          b.ops[o].caseId == a.ops[o].caseId && b.ops[o].target == a.ops[o].target && b.ops[o].event == a.ops[o].event)
  }

  lemma SetCaseKeeps(s: Sys, id: nat, c: Case)
    requires Inv(s) && id < |s.cases.rows| && CaseOk(c) && Progresses(s.cases.rows[id], c)
    requires c.history == s.cases.rows[id].history
             || (|c.history| == |s.cases.rows[id].history| + 1 && c.history[|c.history| - 1].operation.None?)
    ensures Inv(SetCase(s, id, Some(c))) && Later(s, SetCase(s, id, Some(c)))
  {
    var b := SetCase(s, id, Some(c));
    forall k | 0 <= k < |b.cases.rows| ensures EntriesOk(b, k) { assert EntriesOk(s, k); }
    forall o | 0 <= o < |b.ops| ensures OpOk(b, o) { assert OpOk(s, o); }
    forall a | 0 <= a < |b.attempts| ensures AttemptOk(b, b.attempts[a]) { assert AttemptOk(s, s.attempts[a]); }
  }

  lemma QueueKeeps(s: Sys, instance: nat, caseId: nat, target: Status, event: EventType)
    requires Inv(s) && Queueable(target, event)
    ensures var b := s.(ops := QueueSync(s.ops, instance, caseId, target, event)); Inv(b) && Later(s, b)
  {
    var b := s.(ops := QueueSync(s.ops, instance, caseId, target, event));
    forall k | 0 <= k < |b.cases.rows| ensures EntriesOk(b, k) { assert EntriesOk(s, k); }
    forall o | 0 <= o < |b.ops| ensures OpOk(b, o) { if o < |s.ops| { assert OpOk(s, o); } }
    forall a | 0 <= a < |b.attempts| ensures AttemptOk(b, b.attempts[a]) { assert AttemptOk(s, s.attempts[a]); }
  }

  lemma SyncKeeps(s: Sys, o: nat)
    requires Inv(s) && o < |s.ops|
    ensures var (ok, cases) := Sync(s.cases, s.ops[o].caseId, s.ops[o].target, o);
            Inv(s.(cases := cases)) && Later(s, s.(cases := cases)) && (ok ==> o in cases.inbox)
  {
    var op := s.ops[o];
    var (ok, cases) := Sync(s.cases, op.caseId, op.target, o);
    assert OpOk(s, o);
    if cases != s.cases {
      var id := op.caseId;
      var b := s.(cases := cases);
      ApplyKeeps(s.cases.rows[id], op.target, o);
      forall k | 0 <= k < |cases.rows| ensures EntriesOk(b, k) { assert EntriesOk(s, k); }
      forall p | 0 <= p < |b.ops| ensures OpOk(b, p) { assert OpOk(s, p); }
      forall a | 0 <= a < |b.attempts| ensures AttemptOk(b, b.attempts[a]) { assert AttemptOk(s, s.attempts[a]); }
    }
  }

  lemma SetAttemptKeeps(s: Sys, a: nat, phase: Phase)
    requires Inv(s) && a < |s.attempts| && AttemptOk(s, s.attempts[a].(phase := phase))
    ensures Inv(SetAttempt(s, a, phase)) && Later(s, SetAttempt(s, a, phase))
  {
    var b := SetAttempt(s, a, phase);
    forall k | 0 <= k < |b.cases.rows| ensures EntriesOk(b, k) { assert EntriesOk(s, k); }
    forall o | 0 <= o < |b.ops| ensures OpOk(b, o) { assert OpOk(s, o); }
    forall x | 0 <= x < |b.attempts| ensures AttemptOk(b, b.attempts[x]) { assert AttemptOk(s, s.attempts[x]); }
  }

  lemma FinishKeeps(s: Sys, a: nat, works: bool, max: nat)
    requires Inv(s)
    ensures Inv(Step(Finish(a, works, max), s)) && Later(s, Step(Finish(a, works, max), s))
  {
    if a < |s.attempts| && s.attempts[a].phase.Replied? && s.attempts[a].op < |s.ops| {
      var (i, ok) := (s.attempts[a].op, s.attempts[a].phase.ok && works);
      assert AttemptOk(s, s.attempts[a]) && OpOk(s, i);
      var mid := s.(ops := s.ops[i := FinishOp(s.ops[i], s.attempts[a].attempts, ok, max)]);
      forall k | 0 <= k < |mid.cases.rows| ensures EntriesOk(mid, k) { assert EntriesOk(s, k); }
      forall o | 0 <= o < |mid.ops| ensures OpOk(mid, o) { assert OpOk(s, o); }
      forall x | 0 <= x < |mid.attempts| ensures AttemptOk(mid, mid.attempts[x]) { assert AttemptOk(s, s.attempts[x]); }
      SetAttemptKeeps(mid, a, Done);
    }
  }

  lemma GrowKeeps(s: Sys, b: Sys)
    requires Inv(s) && b.ops == s.ops && b.cases.inbox == s.cases.inbox
    requires b.cases.rows == s.cases.rows || b.cases.rows == s.cases.rows + [CREATED]
    requires s.attempts <= b.attempts && forall a :: |s.attempts| <= a < |b.attempts| ==> AttemptOk(b, b.attempts[a])
    ensures Inv(b) && Later(s, b)
  {
    forall k | 0 <= k < |b.cases.rows| ensures EntriesOk(b, k) { if k < |s.cases.rows| { assert EntriesOk(s, k); } }
    forall o | 0 <= o < |b.ops| ensures OpOk(b, o) { assert OpOk(s, o); }
    forall a | 0 <= a < |b.attempts| ensures AttemptOk(b, b.attempts[a]) {
      if a < |s.attempts| { assert AttemptOk(s, s.attempts[a]); }
    }
  }

  lemma CaseStepKeeps(cmd: Command, s: Sys)
    requires Inv(s) && (cmd.UpdateCase? || cmd.TouchCase? || cmd.CancelCase?)
    ensures Inv(Step(cmd, s)) && Later(s, Step(cmd, s))
  {
    if cmd.id < |s.cases.rows| {
      var c := s.cases.rows[cmd.id];
      assert CaseOk(c);
      match cmd
      case UpdateCase(id, version, status) =>
        if Update(c, version, status).Some? {
          UpdateKeeps(c, version, status);
          SetCaseKeeps(s, id, Update(c, version, status).value);
        }
      case TouchCase(id) => SetCaseKeeps(s, id, Touch(c));
      case CancelCase(id, version) =>
        if Cancel(c, version).Some? {
          CancelKeeps(c, version);
          SetCaseKeeps(s, id, Cancel(c, version).value);
        }
    }
  }

  lemma CallKeeps(s: Sys, a: nat, net: Net)
    requires Inv(s)
    ensures Inv(Step(CallCase(a, net), s)) && Later(s, Step(CallCase(a, net), s))
  {
    if a < |s.attempts| && s.attempts[a].phase == Read && s.attempts[a].op < |s.ops| {
      var o := s.attempts[a].op;
      if net == Unreachable {
        SetAttemptKeeps(s, a, Replied(false));
      } else {
        var (ok, cases) := Sync(s.cases, s.ops[o].caseId, s.ops[o].target, o);
        SyncKeeps(s, o);
        var mid := s.(cases := cases);
        SetAttemptKeeps(mid, a, Replied(ok && net == Answered));
        LaterTransitive(s, mid, Step(CallCase(a, net), s));
      }
    }
  }

  lemma StepKeeps(cmd: Command, s: Sys)
    requires Inv(s)
    ensures Inv(Step(cmd, s)) && Later(s, Step(cmd, s))
  {
    match cmd
    case CreateCase => GrowKeeps(s, Step(cmd, s));
    case Begin(instance) => GrowKeeps(s, Step(cmd, s));
    case Queue(instance, caseId, target, event) =>
      if Queueable(target, event) { QueueKeeps(s, instance, caseId, target, event); }
    case CallCase(a, net) => CallKeeps(s, a, net);
    case Finish(a, works, max) => FinishKeeps(s, a, works, max);
    case _ => CaseStepKeeps(cmd, s);
  }

  lemma LaterTransitive(a: Sys, b: Sys, c: Sys)
    requires Later(a, b) && Later(b, c)
    ensures Later(a, c)
  {
  }

  lemma {:induction false} EveryRun(steps: seq<Command>, j: nat, k: nat)
    requires j <= k <= |steps|
    ensures Inv(StateOf(steps, k)) && Later(StateOf(steps, j), StateOf(steps, k))
    decreases k
  {
    EveryState(steps, k);
    if j < k {
      EveryRun(steps, j, k - 1);
      StepKeeps(steps[k - 1], StateOf(steps, k - 1));
      LaterTransitive(StateOf(steps, j), StateOf(steps, k - 1), StateOf(steps, k));
    }
  }

  lemma {:induction false} EveryState(steps: seq<Command>, k: nat)
    requires k <= |steps|
    ensures Inv(StateOf(steps, k))
  {
    if k > 0 {
      EveryState(steps, k - 1);
      StepKeeps(steps[k - 1], StateOf(steps, k - 1));
    }
  }

  // ---------------------------------------------------------------- theorems

  /** Once a decision's operation is SYNCED, its case is DECIDED in that state and in every later one,
    * however often the call is repeated and whatever replies are lost. */
  lemma {:induction false} SyncedDecisionStays(steps: seq<Command>, j: nat, k: nat, o: nat)
    requires j <= k <= |steps| && o < |StateOf(steps, j).ops|
    requires StateOf(steps, j).ops[o].event == DecisionSync && StateOf(steps, j).ops[o].status == Synced
    ensures var (a, b) := (StateOf(steps, j), StateOf(steps, k));
            a.ops[o].caseId < |b.cases.rows| && b.cases.rows[a.ops[o].caseId].status == Decided
  {
    EveryRun(steps, j, j);
    EveryRun(steps, j, k);
    assert OpOk(StateOf(steps, j), o);
    assert Progresses(StateOf(steps, j).cases.rows[StateOf(steps, j).ops[o].caseId],
                      StateOf(steps, k).cases.rows[StateOf(steps, j).ops[o].caseId]);
  }

  /** An operation moves at most one case, its own, and at most once. */
  lemma {:induction false} OperationMovesOnce(steps: seq<Command>, k: nat, id: nat, i: nat, id': nat, i': nat)
    requires k <= |steps|
    requires var rows := StateOf(steps, k).cases.rows;
             && id < |rows| && i < |rows[id].history| && id' < |rows| && i' < |rows[id'].history|
             && rows[id].history[i].operation.Some? && rows[id].history[i].operation == rows[id'].history[i'].operation
    ensures id == id' && i == i'
    ensures var s := StateOf(steps, k);
            var o := s.cases.rows[id].history[i].operation.value;
            o < |s.ops| && s.ops[o].caseId == id
  {
    EveryRun(steps, k, k);
    var s := StateOf(steps, k);
    assert EntriesOk(s, id) && EntriesOk(s, id');
  }

  /** The history of a case is a path from DRAFT to its status, under strictly growing versions. */
  lemma {:induction false} HistoryIsAPath(steps: seq<Command>, k: nat, id: nat)
    requires k <= |steps| && id < |StateOf(steps, k).cases.rows|
    ensures CaseOk(StateOf(steps, k).cases.rows[id])
    ensures var history := StateOf(steps, k).cases.rows[id].history;
            forall i, j :: 0 <= i < j < |history| ==> history[i].version < history[j].version && !Final(history[i].to)
  {
    EveryRun(steps, k, k);
    assert CaseOk(StateOf(steps, k).cases.rows[id]);
    var history := StateOf(steps, k).cases.rows[id].history;
    forall i, j | 0 <= i < j < |history| ensures history[i].version < history[j].version && !Final(history[i].to) {
      VersionsGrow(history, i, j);
    }
  }

  lemma {:induction false} VersionsGrow(history: seq<Entry>, i: nat, j: nat)
    requires i < j < |history| && forall k :: 1 <= k < |history| ==> Connected(history[k - 1], history[k])
    ensures history[i].version < history[j].version && !Final(history[i].to)
  {
    assert Connected(history[j - 1], history[j]);
    if i < j - 1 { VersionsGrow(history, i, j - 1); }
  }

  /** A final status is never left, and the history only grows. */
  lemma {:induction false} CasesProgress(steps: seq<Command>, j: nat, k: nat, id: nat)
    requires j <= k <= |steps| && id < |StateOf(steps, j).cases.rows|
    ensures id < |StateOf(steps, k).cases.rows|
    ensures Progresses(StateOf(steps, j).cases.rows[id], StateOf(steps, k).cases.rows[id])
  {
    EveryRun(steps, j, k);
  }

  /** An operation that is queued again keeps its first target, and the Case service ignores it: so for
    * operations other than a decision SYNCED says nothing about the current status. */
  lemma RequeuedOperationIgnored(s: Sys, instance: nat, caseId: nat, target: Status, event: EventType, o: nat)
    requires Inv(s) && o < |s.ops| && s.ops[o].instance == instance && s.ops[o].event == event && o in s.cases.inbox
    ensures var ops := QueueSync(s.ops, instance, caseId, target, event);
            && |ops| == |s.ops| && ops[o] == s.ops[o].(status := Pending)
            && Sync(s.cases, ops[o].caseId, ops[o].target, o) == (true, s.cases)
  {
    assert OpOk(s, o);
    var found := FindOp(s.ops, instance, event).value;
    assert found == o;
  }
}
