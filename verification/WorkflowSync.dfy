/** The workflow service and the Case service together.
  *
  * The transaction of a workflow command also queues the sync operation it calls for.  A joint run
  * interleaves such transactions with everything else that happens to cases and operations.
  */
module WorkflowSync {
  import opened Common
  import opened WorkflowModel
  import W = WorkflowInvariants
  import WorkflowRuns
  import WorkflowTheorems
  import WorkflowEffects
  import C = CaseSync

  /** The next workflow command ends, or something happens to the cases and the operations. */
  datatype Move = Transaction | Service(cmd: C.Command)

  /** How many of the workflow commands have ended, and the rows of cases and operations. */
  datatype Joint = Joint(done: nat, sync: C.Sys)

  /** The operation that goes with what a transaction wrote: validate, recommend and decide queue one,
    * asking for more information does not. */
  function Queued(a: Db, b: Db): Option<C.Command> {
    if |b.decisions| > |a.decisions| then
      var x := b.decisions[|b.decisions| - 1];
      if x.instance < |b.instances|
      then Some(C.Queue(x.instance, b.instances[x.instance].caseId, C.Decided, C.DecisionSync)) else None
    else if |b.recs| > |a.recs| then
      var x := b.recs[|b.recs| - 1];
      if x.outcome != RequestMoreInformation && x.instance < |b.instances|
      then Some(C.Queue(x.instance, b.instances[x.instance].caseId, C.DecisionPending, C.RecommendationSync)) else None
    else if |b.runs| > |a.runs| then
      var x := b.runs[|b.runs| - 1];
      if x.instance < |b.instances|
      then Some(C.Queue(x.instance, b.instances[x.instance].caseId,
                        if x.pass then C.UnderReview else C.EvidenceCollection, C.ValidationSync)) else None
    else None
  }

  function Enqueue(a: Db, b: Db, s: C.Sys): C.Sys {
    var op := Queued(a, b);
    if op.Some? then C.Step(op.value, s) else s
  }

  function Advance(calls: seq<Call>, move: Move, s: Joint): (r: Joint)
    requires Schedule(calls) && s.done <= |calls|
    ensures r.done <= |calls|
  {
    match move
    case Service(cmd) => if cmd.Queue? then s else s.(sync := C.Step(cmd, s.sync))
    case Transaction =>
      if s.done == |calls| then s
      else Joint(s.done + 1, Enqueue(At(calls, s.done), At(calls, s.done + 1), s.sync))
  }

  /** The state after the first n moves of a run in which the workflow commands end in the order of `calls`. */
  function JointAt(calls: seq<Call>, moves: seq<Move>, n: nat): (r: Joint)
    requires Schedule(calls) && n <= |moves|
    ensures r.done <= |calls|
  {
    if n == 0 then Joint(0, C.START) else Advance(calls, moves[n - 1], JointAt(calls, moves, n - 1))
  }

  // ---------------------------------------------------------------- the invariant

  /** The operation of a decision. */
  predicate OpOf(op: C.Op, x: Decision) {
    op.instance == x.instance && op.caseId == x.caseId && op.event == C.DecisionSync && op.target == C.Decided
  }

  ghost predicate HasOp(ops: seq<C.Op>, x: Decision) { exists o :: 0 <= o < |ops| && OpOf(ops[o], x) }

  ghost predicate HasDecision(decisions: seq<Decision>, op: C.Op) {
    exists d :: 0 <= d < |decisions| && OpOf(op, decisions[d])
  }

  /** Operations that say DECIDED are those of the decisions on record. */
  ghost predicate OpsLinked(decisions: seq<Decision>, ops: seq<C.Op>) {
    && (forall d :: 0 <= d < |decisions| ==> HasOp(ops, decisions[d]))
    && forall o :: 0 <= o < |ops| && (ops[o].event == C.DecisionSync || ops[o].target == C.Decided) ==>
         HasDecision(decisions, ops[o])
  }

  /** An operation wrote each DECIDED in this history. */
  ghost predicate Stamped(history: seq<C.Entry>, ops: seq<C.Op>) {
    forall i :: 0 <= i < |history| && history[i].to == C.Decided ==>
      history[i].operation.Some? && history[i].operation.value < |ops|
          && ops[history[i].operation.value].target == C.Decided
  }

  ghost predicate Linked(decisions: seq<Decision>, s: C.Sys) {
    && C.Inv(s) && OpsLinked(decisions, s.ops)
    && forall id :: 0 <= id < |s.cases.rows| ==> Stamped(s.cases.rows[id].history, s.ops)
  }

  /** The same operations, whatever their status. */
  ghost predicate SameOps(a: seq<C.Op>, b: seq<C.Op>) {
    |a| == |b| && forall o :: 0 <= o < |a| ==>
      a[o].instance == b[o].instance && a[o].caseId == b[o].caseId && a[o].event == b[o].event
          && a[o].target == b[o].target
  }

  lemma SameOpsLinked(decisions: seq<Decision>, a: seq<C.Op>, b: seq<C.Op>)
    requires SameOps(a, b) && OpsLinked(decisions, a)
    ensures OpsLinked(decisions, b)
  {
    forall d | 0 <= d < |decisions| ensures HasOp(b, decisions[d]) {
      assert HasOp(a, decisions[d]);
      var o :| 0 <= o < |a| && OpOf(a[o], decisions[d]);
      assert OpOf(b[o], decisions[d]);
    }
    forall o | 0 <= o < |b| && (b[o].event == C.DecisionSync || b[o].target == C.Decided)
      ensures HasDecision(decisions, b[o]) {
      assert HasDecision(decisions, a[o]);
      var d :| 0 <= d < |decisions| && OpOf(a[o], decisions[d]);
      assert OpOf(b[o], decisions[d]);
    }
  }

  lemma ServiceKeepsOps(cmd: C.Command, s: C.Sys)
    requires !cmd.Queue?
    ensures SameOps(s.ops, C.Step(cmd, s).ops)
  {
  }

  lemma ServiceKeepsStamps(cmd: C.Command, s: C.Sys, id: nat)
    requires C.Inv(s) && !cmd.Queue? && id < |C.Step(cmd, s).cases.rows|
    requires forall k :: 0 <= k < |s.cases.rows| ==> Stamped(s.cases.rows[k].history, s.ops)
    ensures Stamped(C.Step(cmd, s).cases.rows[id].history, C.Step(cmd, s).ops)
  {
    ServiceKeepsOps(cmd, s);
    if id < |s.cases.rows| { assert Stamped(s.cases.rows[id].history, s.ops); }
  }

  lemma ServiceKeeps(decisions: seq<Decision>, cmd: C.Command, s: C.Sys)
    requires Linked(decisions, s) && !cmd.Queue?
    ensures Linked(decisions, C.Step(cmd, s))
  {
    C.StepKeeps(cmd, s);
    ServiceKeepsOps(cmd, s);
    SameOpsLinked(decisions, s.ops, C.Step(cmd, s).ops);
    forall id | 0 <= id < |C.Step(cmd, s).cases.rows|
      ensures Stamped(C.Step(cmd, s).cases.rows[id].history, C.Step(cmd, s).ops)
    {
      ServiceKeepsStamps(cmd, s, id);
    }
  }

  /** Queueing an operation that is there already, or a new one. */
  lemma QueueShape(s: C.Sys, cmd: C.Command)
    requires C.Inv(s) && cmd.Queue? && C.Queueable(cmd.target, cmd.event)
    ensures var (found, b) := (C.FindOp(s.ops, cmd.instance, cmd.event), C.Step(cmd, s));
            && b.cases == s.cases
            && (found.Some? ==> SameOps(s.ops, b.ops))
            && (found.None? ==> b.ops == s.ops + [C.Op(cmd.instance, cmd.caseId, cmd.target, cmd.event, C.Pending, 0)])
  {
  }

  lemma MoreOpsStamped(history: seq<C.Entry>, a: seq<C.Op>, b: seq<C.Op>)
    requires Stamped(history, a) && (SameOps(a, b) || a <= b)
    ensures Stamped(history, b)
  {
  }

  lemma OtherQueueKeeps(decisions: seq<Decision>, cmd: C.Command, s: C.Sys)
    requires Linked(decisions, s) && cmd.Queue? && C.Syncable(cmd.target) && cmd.target != C.Decided
             && cmd.event != C.DecisionSync
    ensures Linked(decisions, C.Step(cmd, s))
  {
    var b := C.Step(cmd, s);
    C.StepKeeps(cmd, s);
    QueueShape(s, cmd);
    if SameOps(s.ops, b.ops) {
      SameOpsLinked(decisions, s.ops, b.ops);
    } else {
      forall d | 0 <= d < |decisions| ensures HasOp(b.ops, decisions[d]) { OpStays(s.ops, b.ops, decisions[d]); }
    }
    forall id | 0 <= id < |b.cases.rows| ensures Stamped(b.cases.rows[id].history, b.ops) {
      MoreOpsStamped(s.cases.rows[id].history, s.ops, b.ops);
    }
  }

  lemma OpStays(a: seq<C.Op>, b: seq<C.Op>, x: Decision)
    requires a <= b && HasOp(a, x)
    ensures HasOp(b, x)
  {
    var o :| 0 <= o < |a| && OpOf(a[o], x);
    assert OpOf(b[o], x);
  }

  lemma DecisionStays(decisions: seq<Decision>, x: Decision, op: C.Op)
    requires HasDecision(decisions, op)
    ensures HasDecision(decisions + [x], op)
  {
    var d :| 0 <= d < |decisions| && OpOf(op, decisions[d]);
    assert OpOf(op, (decisions + [x])[d]);
  }

  /** The first decision of an instance finds no operation, so its own is created. */
  lemma DecisionQueueKeeps(decisions: seq<Decision>, x: Decision, s: C.Sys)
    requires Linked(decisions, s) && forall d :: 0 <= d < |decisions| ==> decisions[d].instance != x.instance
    ensures Linked(decisions + [x], C.Step(C.Queue(x.instance, x.caseId, C.Decided, C.DecisionSync), s))
  {
    var cmd := C.Queue(x.instance, x.caseId, C.Decided, C.DecisionSync);
    var b := C.Step(cmd, s);
    C.StepKeeps(cmd, s);
    QueueShape(s, cmd);
    forall o | 0 <= o < |s.ops| && s.ops[o].event == C.DecisionSync ensures s.ops[o].instance != x.instance {
      assert HasDecision(decisions, s.ops[o]);
    }
    var op := b.ops[|s.ops|];
    assert OpOf(op, x);
    forall d | 0 <= d < |decisions + [x]| ensures HasOp(b.ops, (decisions + [x])[d]) {
      if d < |decisions| { OpStays(s.ops, b.ops, decisions[d]); }
    }
    forall o | 0 <= o < |b.ops| && (b.ops[o].event == C.DecisionSync || b.ops[o].target == C.Decided)
      ensures HasDecision(decisions + [x], b.ops[o])
    {
      if o < |s.ops| {
        DecisionStays(decisions, x, s.ops[o]);
      } else {
        assert OpOf(op, (decisions + [x])[|decisions|]);
      }
    }
    forall id | 0 <= id < |b.cases.rows| ensures Stamped(b.cases.rows[id].history, b.ops) {
      MoreOpsStamped(s.cases.rows[id].history, s.ops, b.ops);
    }
  }

  // ---------------------------------------------------------------- what a transaction adds

  /** A decision is the first of its instance: it found the instance active and ended it. */
  lemma {:induction false} DecisionIsFirst(calls: seq<Call>, k: nat) returns (x: Decision)
    requires Schedule(calls) && k < |calls| && |At(calls, k + 1).decisions| > |At(calls, k).decisions|
    ensures var (a, b) := (At(calls, k), At(calls, k + 1));
            && b.decisions == a.decisions + [x] && x.instance < |b.instances|
                && b.instances[x.instance].caseId == x.caseId
            && forall d :: 0 <= d < |a.decisions| ==> a.decisions[d].instance != x.instance
  {
    WorkflowTheorems.OnlyDecideDecides(calls, k);
    WorkflowRuns.EveryRun(calls, k);
    WorkflowRuns.EveryRun(calls, k + 1);
    var (a, b) := (At(calls, k), At(calls, k + 1));
    assert W.Extends(a, b);
    x := b.decisions[|b.decisions| - 1];
    assert b.decisions == a.decisions + [x];
    assert W.DecisionOk(b, |b.decisions| - 1);
    var i :| 0 <= i < |a.instances| && a.instances[i].active && x.instance == i;
    forall d | 0 <= d < |a.decisions| ensures a.decisions[d].instance != x.instance { assert W.DecisionOk(a, d); }
  }

  lemma {:induction false} TransactionKeeps(calls: seq<Call>, k: nat, s: C.Sys)
    requires Schedule(calls) && k < |calls| && Linked(At(calls, k).decisions, s)
    ensures Linked(At(calls, k + 1).decisions, Enqueue(At(calls, k), At(calls, k + 1), s))
  {
    var (a, b) := (At(calls, k), At(calls, k + 1));
    if |b.decisions| > |a.decisions| {
      var x := DecisionIsFirst(calls, k);
      DecisionQueueKeeps(a.decisions, x, s);
    } else {
      if b.decisions != a.decisions { WorkflowTheorems.OnlyDecideDecides(calls, k); }
      var op := Queued(a, b);
      if op.Some? { OtherQueueKeeps(a.decisions, op.value, s); }
    }
  }

  ghost predicate JointOk(calls: seq<Call>, s: Joint)
    requires Schedule(calls)
  {
    s.done <= |calls| && Linked(At(calls, s.done).decisions, s.sync)
  }

  lemma {:induction false} ServiceAdvances(calls: seq<Call>, cmd: C.Command, s: Joint)
    requires Schedule(calls) && JointOk(calls, s)
    ensures JointOk(calls, Advance(calls, Service(cmd), s))
  {
    if !cmd.Queue? { ServiceKeeps(At(calls, s.done).decisions, cmd, s.sync); }
  }

  lemma {:induction false} TransactionAdvances(calls: seq<Call>, k: nat, s: Joint, b: Joint)
    requires Schedule(calls) && JointOk(calls, s) && s.done == k < |calls|
    requires b == Joint(k + 1, Enqueue(At(calls, k), At(calls, k + 1), s.sync))
    ensures JointOk(calls, b)
  {
    TransactionKeeps(calls, k, s.sync);
  }

  lemma {:induction false} AdvanceKeeps(calls: seq<Call>, move: Move, s: Joint)
    requires Schedule(calls) && JointOk(calls, s)
    ensures JointOk(calls, Advance(calls, move, s))
  {
    match move
    case Service(cmd) => ServiceAdvances(calls, cmd, s);
    case Transaction => if s.done < |calls| { TransactionAdvances(calls, s.done, s, Advance(calls, move, s)); }
  }

  lemma {:induction false} EveryJointRun(calls: seq<Call>, moves: seq<Move>, n: nat)
    requires Schedule(calls) && n <= |moves|
    ensures JointOk(calls, JointAt(calls, moves, n))
  {
    if n > 0 {
      EveryJointRun(calls, moves, n - 1);
      AdvanceKeeps(calls, moves[n - 1], JointAt(calls, moves, n - 1));
    }
  }

  // ---------------------------------------------------------------- what a transaction queues

  /** The one operation of the instance and the event waits; when it is new it has this target and case. */
  ghost predicate Waits(a: C.Sys, b: C.Sys, instance: nat, caseId: CaseId, event: C.EventType, target: C.Status) {
    exists o: nat :: WaitsAt(a, b, o, instance, caseId, event, target)
  }

  ghost predicate WaitsAt(a: C.Sys, b: C.Sys, o: nat, instance: nat, caseId: CaseId, event: C.EventType,
                          target: C.Status) {
    && o < |b.ops| && b.ops[o].instance == instance && b.ops[o].event == event && b.ops[o].status == C.OpStatus.Pending
    && b == a.(ops := b.ops)
    && if o < |a.ops| then b.ops == a.ops[o := a.ops[o].(status := C.OpStatus.Pending)]
       else b.ops == a.ops + [C.Op(instance, caseId, target, event, C.OpStatus.Pending, 0)]
  }

  lemma QueuedWaits(a: C.Sys, instance: nat, caseId: CaseId, event: C.EventType, target: C.Status)
    requires C.Queueable(target, event)
    ensures Waits(a, C.Step(C.Queue(instance, caseId, target, event), a), instance, caseId, event, target)
  {
    var found := C.FindOp(a.ops, instance, event);
    var b := C.Step(C.Queue(instance, caseId, target, event), a);
    assert WaitsAt(a, b, if found.Some? then found.value else |a.ops|, instance, caseId, event, target);
  }

  /** A committed validation queues UNDER_REVIEW or, when it failed, EVIDENCE_COLLECTION. */
  lemma {:induction false} ValidationQueues(calls: seq<Call>, k: nat, s: C.Sys)
    requires Schedule(calls) && k < |calls| && Attempt(calls, k).Some? && calls[k].cmd.CValidate?
    ensures var (a, b, cmd) := (At(calls, k), At(calls, k + 1), calls[k].cmd);
            b.runs != [] && Waits(s, Enqueue(a, b, s), b.runs[|b.runs| - 1].instance, cmd.c, C.ValidationSync,
                                  if cmd.pass then C.UnderReview else C.EvidenceCollection)
  {
    WorkflowEffects.ValidationEffect(calls, k);
    var (a, b, cmd) := (At(calls, k), At(calls, k + 1), calls[k].cmd);
    QueuedWaits(s, b.runs[|a.runs|].instance, cmd.c, C.ValidationSync,
                if cmd.pass then C.UnderReview else C.EvidenceCollection);
  }

  /** A committed recommendation queues DECISION_PENDING, unless it asks for more information. */
  lemma {:induction false} RecommendationQueues(calls: seq<Call>, k: nat, s: C.Sys)
    requires Schedule(calls) && k < |calls| && Attempt(calls, k).Some? && calls[k].cmd.CRecommend?
    ensures var (a, b, cmd) := (At(calls, k), At(calls, k + 1), calls[k].cmd);
            if cmd.outcome == RequestMoreInformation then Enqueue(a, b, s) == s
            else b.recs != [] && Waits(s, Enqueue(a, b, s), b.recs[|b.recs| - 1].instance, cmd.c, C.RecommendationSync,
                                       C.DecisionPending)
  {
    WorkflowEffects.RecommendationEffect(calls, k);
    QueuedWaits(s, At(calls, k + 1).recs[|At(calls, k).recs|].instance, calls[k].cmd.c, C.RecommendationSync,
                C.DecisionPending);
  }

  /** A committed decision, approving or rejecting, queues DECIDED. */
  lemma {:induction false} DecisionQueues(calls: seq<Call>, k: nat, s: C.Sys)
    requires Schedule(calls) && k < |calls| && Attempt(calls, k).Some? && calls[k].cmd.CDecide?
    ensures var (a, b, cmd) := (At(calls, k), At(calls, k + 1), calls[k].cmd);
            b.decisions != [] && Waits(s, Enqueue(a, b, s), b.decisions[|b.decisions| - 1].instance, cmd.c,
                                       C.DecisionSync, C.Decided)
  {
    WorkflowEffects.DecisionEffect(calls, k);
    QueuedWaits(s, At(calls, k + 1).decisions[|At(calls, k).decisions|].instance, calls[k].cmd.c, C.DecisionSync,
                C.Decided);
  }

  lemma {:induction false} OthersQueueNothing(calls: seq<Call>, k: nat, s: C.Sys)
    requires Schedule(calls) && k < |calls|
    requires Attempt(calls, k).Some? ==> !calls[k].cmd.CValidate? && !calls[k].cmd.CRecommend? && !calls[k].cmd.CDecide?
    ensures Enqueue(At(calls, k), At(calls, k + 1), s) == s
  {
  }

  // ---------------------------------------------------------------- theorems

  lemma OnlyOp(decisions: seq<Decision>, s: C.Sys, d: nat) returns (o: nat)
    requires Linked(decisions, s) && d < |decisions|
    ensures o < |s.ops| && OpOf(s.ops[o], decisions[d])
    ensures forall p :: 0 <= p < |s.ops| && OpOf(s.ops[p], decisions[d]) ==> p == o
  {
    assert HasOp(s.ops, decisions[d]);
    o :| 0 <= o < |s.ops| && OpOf(s.ops[o], decisions[d]);
  }

  lemma DecisionTaken(s: C.Sys, o: nat)
    requires C.Inv(s) && o < |s.ops| && s.ops[o].target == C.Decided
    ensures var id := s.ops[o].caseId;
            && (C.Sync(s.cases, id, C.Decided, o).0 <==>
                id < |s.cases.rows| && s.cases.rows[id].status != C.Status.Cancelled)
            && (s.ops[o].status == C.Synced ==> id < |s.cases.rows| && s.cases.rows[id].status == C.Decided)
  {
    assert C.OpOk(s, o);
    var id := s.ops[o].caseId;
    if id < |s.cases.rows| { C.DecisionRefusedIff(s.cases.rows[id], o); }
  }

  /** Every decision has exactly one operation of its own.  The Case service takes it as long as the case is
    * not cancelled, and once the operation is SYNCED the case is DECIDED, then and ever after. */
  lemma {:induction false} DecisionReachesCase(calls: seq<Call>, moves: seq<Move>, n: nat, m: nat, d: nat)
    returns (o: nat)
    requires Schedule(calls) && n <= m <= |moves| && d < |At(calls, JointAt(calls, moves, n).done).decisions|
    ensures var (s, x) := (JointAt(calls, moves, n).sync, At(calls, JointAt(calls, moves, n).done).decisions[d]);
            && o < |s.ops| && OpOf(s.ops[o], x)
            && (forall p :: 0 <= p < |s.ops| && OpOf(s.ops[p], x) ==> p == o)
            && (C.Sync(s.cases, x.caseId, C.Decided, o).0 <==>
                  x.caseId < |s.cases.rows| && s.cases.rows[x.caseId].status != C.Status.Cancelled)
            && (s.ops[o].status == C.Synced ==>
                  var rows := JointAt(calls, moves, m).sync.cases.rows;
                  x.caseId < |rows| && rows[x.caseId].status == C.Decided)
  {
    EveryJointRun(calls, moves, n);
    var (s, decisions) := (JointAt(calls, moves, n), At(calls, JointAt(calls, moves, n).done).decisions);
    o := OnlyOp(decisions, s.sync, d);
    DecisionTaken(s.sync, o);
    if s.sync.ops[o].status == C.Synced { StaysDeaf(calls, moves, n, m, decisions[d].caseId, s.sync.cases.inbox); }
  }

  /** The last entry of the case was written by the operation of this decision. */
  ghost predicate DecidedBy(s: C.Sys, id: nat, x: Decision)
    requires id < |s.cases.rows|
  {
    var history := s.cases.rows[id].history;
    && history != [] && history[|history| - 1].to == C.Decided && history[|history| - 1].operation.Some?
    && var o := history[|history| - 1].operation.value;
    o < |s.ops| && OpOf(s.ops[o], x)
  }

  lemma LastEntry(decisions: seq<Decision>, s: C.Sys, id: nat) returns (d: nat)
    requires Linked(decisions, s) && id < |s.cases.rows| && s.cases.rows[id].status == C.Decided
    ensures d < |decisions| && decisions[d].caseId == id && DecidedBy(s, id, decisions[d])
  {
    var history := s.cases.rows[id].history;
    assert C.CaseOk(s.cases.rows[id]) && C.EntriesOk(s, id) && Stamped(history, s.ops);
    var op := s.ops[history[|history| - 1].operation.value];
    assert HasDecision(decisions, op);
    d :| 0 <= d < |decisions| && OpOf(op, decisions[d]);
  }

  /** A case reads DECIDED only on the strength of a decision that the workflow service has on record for it. */
  lemma {:induction false} DecidedCaseHasDecision(calls: seq<Call>, moves: seq<Move>, n: nat, id: nat) returns (d: nat)
    requires Schedule(calls) && n <= |moves|
    requires id < |JointAt(calls, moves, n).sync.cases.rows|
             && JointAt(calls, moves, n).sync.cases.rows[id].status == C.Decided
    ensures var (s, decisions) := (JointAt(calls, moves, n).sync, At(calls, JointAt(calls, moves, n).done).decisions);
            d < |decisions| && decisions[d].caseId == id && DecidedBy(s, id, decisions[d])
  {
    EveryJointRun(calls, moves, n);
    d := LastEntry(At(calls, JointAt(calls, moves, n).done).decisions, JointAt(calls, moves, n).sync, id);
  }

  /** The case is DECIDED, and of its other operations only those in `seen` have been applied. */
  ghost predicate Deaf(s: C.Sys, id: nat, seen: set<nat>) {
    && id < |s.cases.rows| && s.cases.rows[id].status == C.Decided
    && forall o :: o in s.cases.inbox && o < |s.ops| && s.ops[o].caseId == id && s.ops[o].target != C.Decided ==>
        o in seen
  }

  lemma StepDeaf(cmd: C.Command, s: C.Sys, id: nat, seen: set<nat>)
    requires C.Inv(s) && Deaf(s, id, seen)
    ensures Deaf(C.Step(cmd, s), id, seen)
  {
    C.StepKeeps(cmd, s);
    assert C.Progresses(s.cases.rows[id], C.Step(cmd, s).cases.rows[id]);
  }

  lemma {:induction false} AdvanceDeaf(calls: seq<Call>, move: Move, s: Joint, id: nat, seen: set<nat>)
    requires Schedule(calls) && JointOk(calls, s) && Deaf(s.sync, id, seen)
    ensures Deaf(Advance(calls, move, s).sync, id, seen)
  {
    match move
    case Service(cmd) => if !cmd.Queue? { StepDeaf(cmd, s.sync, id, seen); }
    case Transaction =>
      if s.done < |calls| {
        var op := Queued(At(calls, s.done), At(calls, s.done + 1));
        if op.Some? { StepDeaf(op.value, s.sync, id, seen); }
      }
  }

  lemma {:induction false} StaysDeaf(calls: seq<Call>, moves: seq<Move>, n: nat, m: nat, id: nat, seen: set<nat>)
    requires Schedule(calls) && n <= m <= |moves| && Deaf(JointAt(calls, moves, n).sync, id, seen)
    ensures Deaf(JointAt(calls, moves, m).sync, id, seen)
    decreases m
  {
    if n < m {
      StaysDeaf(calls, moves, n, m - 1, id, seen);
      EveryJointRun(calls, moves, m - 1);
      AdvanceDeaf(calls, moves[m - 1], JointAt(calls, moves, m - 1), id, seen);
    }
  }

  lemma DeafRefuses(s: C.Sys, id: nat, seen: set<nat>, o: nat)
    requires C.Inv(s) && Deaf(s, id, seen) && o < |s.ops| && o !in seen && s.ops[o].caseId == id
             && s.ops[o].target != C.Decided
    ensures o !in s.cases.inbox && s.ops[o].status != C.Synced
            && C.Sync(s.cases, id, s.ops[o].target, o) == (false, s.cases)
  {
    assert C.OpOk(s, o);
  }

  /** Once a case is DECIDED, no operation of a reopened cycle but a decision is ever applied to it again. */
  lemma {:induction false} ReopenedCycleRefused(calls: seq<Call>, moves: seq<Move>, n: nat, m: nat, id: nat, o: nat)
    requires Schedule(calls) && n <= m <= |moves|
    requires id < |JointAt(calls, moves, n).sync.cases.rows|
             && JointAt(calls, moves, n).sync.cases.rows[id].status == C.Decided
    requires o < |JointAt(calls, moves, m).sync.ops| && o !in JointAt(calls, moves, n).sync.cases.inbox
    requires var op := JointAt(calls, moves, m).sync.ops[o]; op.caseId == id && op.target != C.Decided
    ensures var s := JointAt(calls, moves, m).sync;
            o !in s.cases.inbox && s.ops[o].status != C.Synced
                && C.Sync(s.cases, id, s.ops[o].target, o) == (false, s.cases)
  {
    var seen := JointAt(calls, moves, n).sync.cases.inbox;
    StaysDeaf(calls, moves, n, m, id, seen);
    EveryJointRun(calls, moves, m);
    DeafRefuses(JointAt(calls, moves, m).sync, id, seen, o);
  }
}
