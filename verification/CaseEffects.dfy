/** What each request to the Case service, and each step of a synchronization, leaves behind. */
module CaseEffects {
  import opened Common
  import opened CaseSync

  // ---------------------------------------------------------------- one case

  /** The status is new and the history says so under the new version, or nothing but the version changed. */
  ghost predicate Moved(a: Case, b: Case, to: Status, operation: Option<nat>) {
    && b.version == a.version + 1 && b.status == to
    && if to == a.status then b.history == a.history
       else
         && |b.history| == |a.history| + 1 && a.history <= b.history
         && var entry := b.history[|a.history|];
            entry.from == Some(a.status) && entry.to == to && entry.version == b.version && entry.operation == operation
  }

  /** update is accepted under the case's version, and may only open a draft or leave the status as it is. */
  lemma UpdateIff(c: Case, version: nat, status: Option<Status>)
    ensures Update(c, version, status).Some? <==>
              && c.version == version
              && (status.None? || status == Some(c.status) || (status == Some(Open) && c.status == Draft))
    ensures Update(c, version, status).Some? ==>
              Moved(c, Update(c, version, status).value, if status.Some? then status.value else c.status, None)
  {
  }

  /** cancel is accepted under the case's version until the case is decided, closed or cancelled. */
  lemma CancelIff(c: Case, version: nat)
    ensures Cancel(c, version).Some? <==>
              c.version == version && c.status != Decided && c.status != Closed && c.status != Status.Cancelled
    ensures Cancel(c, version).Some? ==> Moved(c, Cancel(c, version).value, Status.Cancelled, None)
  {
  }

  /** A synchronization moves a case that is neither cancelled nor closed, and a decided one nowhere. */
  lemma ApplyIff(c: Case, target: Status, operation: nat)
    ensures Apply(c, target, operation).Some? <==>
              && c.status != Status.Cancelled && c.status != Closed && (c.status == Decided ==> target == Decided)
    ensures Apply(c, target, operation).Some? ==>
              if target == c.status then Apply(c, target, operation).value == c
              else Moved(c, Apply(c, target, operation).value, target, Some(operation))
  {
  }

  /** internalWorkflowSync: an operation that was applied is answered again without effect; another is applied to
    * its own case and noted, or refused without effect. */
  lemma SyncOnce(cases: Cases, id: nat, target: Status, operation: nat)
    ensures var (ok, after) := Sync(cases, id, target, operation);
            && (ok <==>
                  && target in {EvidenceCollection, UnderReview, DecisionPending, Decided} && id < |cases.rows|
                  && (operation in cases.inbox || Apply(cases.rows[id], target, operation).Some?))
            && (!ok || operation in cases.inbox ==> after == cases)
            && (ok && operation !in cases.inbox ==>
                  && |after.rows| == |cases.rows| && after.inbox == cases.inbox + {operation}
                  && after.rows[id].status == target
                  && forall k :: 0 <= k < |cases.rows| && k != id ==> after.rows[k] == cases.rows[k])
  {
  }

  // ---------------------------------------------------------------- queueing and synchronizing

  /** One operation an instance and event type: it keeps its first target and waits again. */
  lemma {:induction false} QueueEffect(steps: seq<Command>, k: nat) returns (o: nat)
    requires k < |steps| && steps[k].Queue? && Queueable(steps[k].target, steps[k].event)
    ensures var (a, b, cmd) := (StateOf(steps, k), StateOf(steps, k + 1), steps[k]);
            && b == a.(ops := b.ops) && |a.ops| <= |b.ops| <= |a.ops| + 1 && o < |b.ops|
            && b.ops[o].instance == cmd.instance && b.ops[o].event == cmd.event && b.ops[o].status == OpStatus.Pending
            && (forall p :: 0 <= p < |a.ops| && p != o ==> b.ops[p] == a.ops[p])
            && (o < |a.ops| ==> |b.ops| == |a.ops| && b.ops[o] == a.ops[o].(status := OpStatus.Pending))
            && (o == |a.ops| ==>
                  && b.ops[o] == Op(cmd.instance, cmd.caseId, cmd.target, cmd.event, OpStatus.Pending, 0)
                  && forall p :: 0 <= p < |a.ops| ==> a.ops[p].instance != cmd.instance || a.ops[p].event != cmd.event)
  {
    var (a, cmd) := (StateOf(steps, k), steps[k]);
    var found := FindOp(a.ops, cmd.instance, cmd.event);
    o := if found.Some? then found.value else |a.ops|;
  }

  lemma {:induction false} NextIsNewest(ops: seq<Op>, instance: nat)
    ensures NextOp(ops, instance).Some? ==>
              forall p :: NextOp(ops, instance).value < p < |ops| && ops[p].instance == instance ==>
                  ops[p].status == Synced
    ensures NextOp(ops, instance).None? ==>
              forall p :: 0 <= p < |ops| && ops[p].instance == instance ==> ops[p].status == Synced
  {
    if ops != [] { NextIsNewest(ops[..|ops| - 1], instance); }
  }

  /** An attempt is made for the newest operation of the instance that is not SYNCED, if there is one. */
  lemma {:induction false} BeginEffect(steps: seq<Command>, k: nat)
    requires k < |steps| && steps[k].Begin?
    ensures var (a, b, instance) := (StateOf(steps, k), StateOf(steps, k + 1), steps[k].instance);
            && (b == a <==> forall p :: 0 <= p < |a.ops| && a.ops[p].instance == instance ==> a.ops[p].status == Synced)
            && (b != a ==>
                  && b == a.(attempts := b.attempts) && |b.attempts| == |a.attempts| + 1 && a.attempts <= b.attempts
                  && var x := b.attempts[|a.attempts|];
                  && x.op < |a.ops| && a.ops[x.op].instance == instance && a.ops[x.op].status != Synced
                  && x.attempts == a.ops[x.op].attempts && x.phase == Phase.Read
                  && forall p :: x.op < p < |a.ops| && a.ops[p].instance == instance ==> a.ops[p].status == Synced)
  {
    var (a, instance) := (StateOf(steps, k), steps[k].instance);
    NextIsNewest(a.ops, instance);
    if NextOp(a.ops, instance).Some? { assert |StateOf(steps, k + 1).attempts| == |a.attempts| + 1; }
  }

  /** After the reply: SYNCED if it was positive and its write works; otherwise FAILED on the last attempt and
    * PENDING before, with the attempts counted from what was read. */
  lemma {:induction false} FinishEffect(steps: seq<Command>, k: nat)
    requires k < |steps| && steps[k].Finish? && steps[k].attempt < |StateOf(steps, k).attempts|
    requires var a := StateOf(steps, k);
             a.attempts[steps[k].attempt].phase.Replied? && a.attempts[steps[k].attempt].op < |a.ops|
    ensures var (a, b) := (StateOf(steps, k), StateOf(steps, k + 1));
            var x := a.attempts[steps[k].attempt];
            var synced := x.phase.ok && steps[k].works;
            && b == a.(ops := b.ops, attempts := b.attempts) && |b.ops| == |a.ops|
            && (forall p :: 0 <= p < |a.ops| && p != x.op ==> b.ops[p] == a.ops[p])
            && b.ops[x.op] == a.ops[x.op].(status := b.ops[x.op].status, attempts := b.ops[x.op].attempts)
            && (b.ops[x.op].status == Synced <==> synced)
            && (!synced ==> (b.ops[x.op].status == OpStatus.Failed <==> x.attempts + 1 >= steps[k].max))
            && (!synced ==> b.ops[x.op].status in {OpStatus.Failed, OpStatus.Pending})
            && b.ops[x.op].attempts == (if synced then a.ops[x.op].attempts + 1 else x.attempts + 1)
            && b.attempts == a.attempts[steps[k].attempt := x.(phase := Phase.Done)]
  {
  }

  /** One call of the Case service: it takes effect exactly when it arrives, and is known to have done so exactly
    * when its answer arrives too. */
  lemma {:induction false} CallEffect(steps: seq<Command>, k: nat)
    requires k < |steps| && steps[k].CallCase? && steps[k].attempt < |StateOf(steps, k).attempts|
    requires var a := StateOf(steps, k);
             a.attempts[steps[k].attempt].phase == Phase.Read && a.attempts[steps[k].attempt].op < |a.ops|
    ensures var (a, b) := (StateOf(steps, k), StateOf(steps, k + 1));
            var o := a.attempts[steps[k].attempt].op;
            var (ok, after) := Sync(a.cases, a.ops[o].caseId, a.ops[o].target, o);
            && b == a.(cases := b.cases, attempts := b.attempts)
            && b.cases == (if steps[k].net == Unreachable then a.cases else after)
            && b.attempts == a.attempts[steps[k].attempt :=
                 a.attempts[steps[k].attempt].(phase := Replied(ok && steps[k].net == Answered))]
  {
  }
}
