/** What each committed command of the workflow service leaves behind, in terms of the command itself. */
module WorkflowEffects {
  import opened Common
  import opened WorkflowModel
  import opened WorkflowInvariants
  import opened WorkflowRuns

  // ---------------------------------------------------------------- frames

  /** Of the instances only i is written: its row version rises by one, its identity stays. */
  ghost predicate OnlyInstance(a: Db, b: Db, i: nat) {
    && i < |a.instances| == |b.instances|
    && (forall j :: 0 <= j < |a.instances| && j != i ==> b.instances[j] == a.instances[j])
    && b.instances[i].caseId == a.instances[i].caseId && b.instances[i].version == a.instances[i].version
    && b.instances[i].cycle == a.instances[i].cycle && b.instances[i].rowVersion == a.instances[i].rowVersion + 1
  }

  /** The record columns of instance i other than these are as before. */
  ghost predicate KeepsRun(a: Db, b: Db, i: nat)
    requires i < |a.instances| && i < |b.instances|
  {
    b.instances[i].currentRun == a.instances[i].currentRun
  }

  ghost predicate KeepsRec(a: Db, b: Db, i: nat)
    requires i < |a.instances| && i < |b.instances|
  {
    b.instances[i].currentRec == a.instances[i].currentRec
  }

  ghost predicate KeepsDecision(a: Db, b: Db, i: nat)
    requires i < |a.instances| && i < |b.instances|
  {
    b.instances[i].currentDecision == a.instances[i].currentDecision
  }

  /** Instance i is active and waits for the new task, which is the last of the table, of this kind and free. */
  ghost predicate Awaits(a: Db, b: Db, i: nat, state: State, kind: TaskKind) {
    && i < |b.instances| && b.instances[i].active && b.instances[i].state == state
    && b.instances[i].activeTask == Some(|a.tasks|)
    && |b.tasks| == |a.tasks| + 1
    && var task := b.tasks[|a.tasks|];
       task.instance == i && task.kind == kind && task.status == Pending && task.assignee.None? && task.claimedBy.None?
  }

  /** The open tasks of instance i, of this kind if one is given, end with this status; all others stay. */
  ghost predicate Closes(a: Db, b: Db, i: nat, kind: Option<TaskKind>, status: TaskStatus) {
    && |a.tasks| <= |b.tasks|
    && forall t :: 0 <= t < |a.tasks| ==>
         if a.tasks[t].instance == i && Open(a.tasks[t]) && kind in {None, Some(a.tasks[t].kind)}
         then b.tasks[t] == a.tasks[t].(status := status) else b.tasks[t] == a.tasks[t]
  }

  /** Task t alone is completed. */
  ghost predicate CompletesOnly(a: Db, b: Db, t: nat) {
    && t < |a.tasks| <= |b.tasks| && Open(a.tasks[t]) && b.tasks[t].status == Completed
    && b.tasks[t].rowVersion == a.tasks[t].rowVersion + 1
    && forall u :: 0 <= u < |a.tasks| && u != t ==> b.tasks[u] == a.tasks[u]
  }

  // ---------------------------------------------------------------- validate

  /** The run holds the verdict and the evidence given, and the verdict decides what happens next. */
  ghost predicate ValidationDone(a: Db, b: Db, c: CaseId, expected: nat, snapshot: seq<Item>, pass: bool) {
    && |b.runs| == |a.runs| + 1 && a.runs <= b.runs
    && var x := b.runs[|a.runs|];
    && x.pass == pass && x.snapshot == snapshot && OnlyInstance(a, b, x.instance)
    && a.instances[x.instance].caseId == c && a.instances[x.instance].active
        && a.instances[x.instance].rowVersion == expected
    && b.instances[x.instance].currentRun == Some(|a.runs|)
    && KeepsRec(a, b, x.instance) && KeepsDecision(a, b, x.instance)
    && (pass ==> Awaits(a, b, x.instance, ReadyForReview, ReviewCase))
    && (!pass ==> Awaits(a, b, x.instance, EvidenceRequired, ProvideEvidence))
    && Closes(a, b, x.instance, None, TaskCancelled)
    && b == a.(runs := b.runs, tasks := b.tasks, instances := b.instances)
  }

  lemma {:induction false} ValidationEffect(calls: seq<Call>, k: nat)
    requires Schedule(calls) && k < |calls| && calls[k].cmd.CValidate? && Attempt(calls, k).Some?
    ensures var CValidate(c, expected, snapshot, pass) := calls[k].cmd;
            ValidationDone(At(calls, k), At(calls, k + 1), c, expected, snapshot, pass)
  {
    ReadsObserved(calls, k);
    var CValidate(c, expected, snapshot, pass) := calls[k].cmd;
    ValidateEffect(At(calls, calls[k].r0), At(calls, k), c, expected, snapshot, pass, At(calls, k + 1));
  }

  lemma ValidateEffect(s0: Db, now: Db, c: CaseId, expected: nat, snapshot: seq<Item>, pass: bool, b: Db)
    requires Inv(now) && Extends(s0, now) && Validate(s0, now, c, expected, snapshot, pass) == Some(b)
    ensures ValidationDone(now, b, c, expected, snapshot, pass)
  {
    var i := FindActive(s0.instances, c).value;
    assert InstanceKept(s0, now, i);
    assert b.runs[|now.runs|].instance == i && InstanceOk(now, i);
  }

  // ---------------------------------------------------------------- review and correction

  /** The review holds the verdict given over the current run; READY asks for a recommendation and
    * anything else for a correction. */
  ghost predicate ReviewDone(a: Db, b: Db, t: nat, user: User, ready: bool) {
    && |b.reviews| == |a.reviews| + 1 && a.reviews <= b.reviews
    && var x := b.reviews[|a.reviews|];
    && x.ready == ready && x.actor == user && OnlyInstance(a, b, x.instance)
    && x.aggregateVersion == b.instances[x.instance].rowVersion
    && a.instances[x.instance].currentRun == Some(x.run) && x.run < |a.runs| && x.snapshot == a.runs[x.run].snapshot
    && KeepsRun(a, b, x.instance) && KeepsRec(a, b, x.instance) && KeepsDecision(a, b, x.instance)
    && (ready ==> Awaits(a, b, x.instance, ReadyForRecommendation, CreateRecommendation))
    && (!ready ==> Awaits(a, b, x.instance, CorrectionRequested, CorrectSubmission))
    && CompletesOnly(a, b, t) && a.tasks[t].instance == x.instance && a.tasks[t].claimedBy == Some(user)
    && b == a.(reviews := b.reviews, tasks := b.tasks, instances := b.instances)
  }

  lemma {:induction false} ReviewEffect(calls: seq<Call>, k: nat)
    requires Schedule(calls) && k < |calls| && calls[k].cmd.CReview? && Attempt(calls, k).Some?
    ensures var CReview(t, wv, tv, user, ready, selected, current) := calls[k].cmd;
            ReviewDone(At(calls, k), At(calls, k + 1), t, user, ready)
  {
    ReadsObserved(calls, k);
    var (s0, s1, s2) := (At(calls, calls[k].r0), At(calls, calls[k].r1), At(calls, calls[k].r2));
    var CReview(t, wv, tv, user, ready, selected, current) := calls[k].cmd;
    SubmitEffect(s0, s1, s2, At(calls, k), t, wv, tv, user, ready, selected, current, At(calls, k + 1));
  }

  lemma SubmitEffect(s0: Db, s1: Db, s2: Db, now: Db, t: nat, wv: nat, tv: nat, user: User, ready: bool,
                     selected: seq<nat>, current: seq<Item>, b: Db)
    requires Observed(s0, s1, s2, now)
    requires SubmitReview(s0, s1, s2, now, t, wv, tv, user, ready, selected, current) == Some(b)
    ensures ReviewDone(now, b, t, user, ready)
  {
    ReviewReads(s0, s1, s2, now, t, wv, tv, user, ready, selected, current, b);
  }

  /** A correction asked for from whatever state the task was open in. */
  ghost predicate CorrectionDone(a: Db, b: Db, t: nat) {
    && t < |a.tasks| && OnlyInstance(a, b, a.tasks[t].instance)
    && var i := a.tasks[t].instance;
    && KeepsRun(a, b, i) && KeepsRec(a, b, i) && KeepsDecision(a, b, i)
    && Awaits(a, b, i, CorrectionRequested, CorrectSubmission) && CompletesOnly(a, b, t)
    && b == a.(tasks := b.tasks, instances := b.instances)
  }

  lemma {:induction false} CorrectionEffect(calls: seq<Call>, k: nat)
    requires Schedule(calls) && k < |calls| && calls[k].cmd.CCorrection? && Attempt(calls, k).Some?
    ensures CorrectionDone(At(calls, k), At(calls, k + 1), calls[k].cmd.t)
  {
    ReadsObserved(calls, k);
    var (s0, now, t) := (At(calls, calls[k].r0), At(calls, k), calls[k].cmd.t);
    assert now.tasks[t].instance == s0.tasks[t].instance;
    assert TaskOk(now, t);
    assert InstanceOk(now, now.tasks[t].instance);
  }

  // ---------------------------------------------------------------- recommend

  /** The recommendation holds the outcome given; only more information keeps it from being decided. */
  ghost predicate RecommendationDone(a: Db, b: Db, c: CaseId, user: User, outcome: RecOutcome) {
    && |b.recs| == |a.recs| + 1 && a.recs <= b.recs
    && var x := b.recs[|a.recs|];
    && x.outcome == outcome && x.actor == user && OnlyInstance(a, b, x.instance)
    && x.aggregateVersion == b.instances[x.instance].rowVersion && a.instances[x.instance].caseId == c
    && a.instances[x.instance].currentRun == Some(x.run) && x.run < |a.runs| && x.snapshot == a.runs[x.run].snapshot
    && b.instances[x.instance].currentRec == Some(|a.recs|)
    && KeepsRun(a, b, x.instance) && KeepsDecision(a, b, x.instance)
    && (outcome != RequestMoreInformation ==> Awaits(a, b, x.instance, DecisionPending, ApproveDecision))
    && (outcome == RequestMoreInformation ==> Awaits(a, b, x.instance, CorrectionRequested, CorrectSubmission))
    && Closes(a, b, x.instance, Some(CreateRecommendation), Completed)
    && b == a.(recs := b.recs, tasks := b.tasks, instances := b.instances)
  }

  lemma {:induction false} RecommendationEffect(calls: seq<Call>, k: nat)
    requires Schedule(calls) && k < |calls| && calls[k].cmd.CRecommend? && Attempt(calls, k).Some?
    ensures var CRecommend(c, wv, user, outcome, current) := calls[k].cmd;
            RecommendationDone(At(calls, k), At(calls, k + 1), c, user, outcome)
  {
    ReadsObserved(calls, k);
    var (s0, s1, s2) := (At(calls, calls[k].r0), At(calls, calls[k].r1), At(calls, calls[k].r2));
    var CRecommend(c, wv, user, outcome, current) := calls[k].cmd;
    RecommendEffect(s0, s1, s2, At(calls, k), c, wv, user, outcome, current, At(calls, k + 1));
  }

  lemma RecommendEffect(s0: Db, s1: Db, s2: Db, now: Db, c: CaseId, wv: nat, user: User, outcome: RecOutcome,
                        current: seq<Item>, b: Db)
    requires Observed(s0, s1, s2, now) && Recommend(s0, s1, now, c, wv, user, outcome, current) == Some(b)
    ensures RecommendationDone(now, b, c, user, outcome)
  {
    RecommendReads(s0, s1, s2, now, c, wv, user, outcome, current, b);
    assert b.recs[|now.recs|].instance == FindActive(s0.instances, c).value;
  }

  // ---------------------------------------------------------------- decide

  /** The decision holds the outcome given, and the instance ends in the state of that name. */
  ghost predicate DecisionDone(a: Db, b: Db, c: CaseId, approved: bool, user: User) {
    && |b.decisions| == |a.decisions| + 1 && a.decisions <= b.decisions
    && var x := b.decisions[|a.decisions|];
    && x.approved == approved && x.decidedBy == user && x.caseId == c && OnlyInstance(a, b, x.instance)
    && var (before, row) := (a.instances[x.instance], b.instances[x.instance]);
    && before.caseId == c && x.cycle == before.cycle && before.currentRec == Some(x.rec)
        && before.currentRun == Some(x.run)
    && (row.state == Approved <==> x.approved) && (row.state == Rejected <==> !x.approved)
    && !row.active && row.activeTask.None? && row.currentDecision == Some(|a.decisions|)
    && KeepsRun(a, b, x.instance) && KeepsRec(a, b, x.instance)
    && before.activeTask.Some? && |b.tasks| == |a.tasks| && CompletesOnly(a, b, before.activeTask.value)
    && b == a.(decisions := b.decisions, tasks := b.tasks, instances := b.instances)
  }

  lemma {:induction false} DecisionEffect(calls: seq<Call>, k: nat)
    requires Schedule(calls) && k < |calls| && calls[k].cmd.CDecide? && Attempt(calls, k).Some?
    ensures var CDecide(c, approved, wv, tv, user, current) := calls[k].cmd;
            DecisionDone(At(calls, k), At(calls, k + 1), c, approved, user)
  {
    ReadsObserved(calls, k);
    var (s0, s1, s2) := (At(calls, calls[k].r0), At(calls, calls[k].r1), At(calls, calls[k].r2));
    var CDecide(c, approved, wv, tv, user, current) := calls[k].cmd;
    DecideEffect(s0, s1, s2, At(calls, k), c, approved, wv, tv, user, current, At(calls, k + 1));
  }

  lemma DecideEffect(s0: Db, s1: Db, s2: Db, now: Db, c: CaseId, approved: bool, wv: nat, tv: nat, user: User,
                     current: seq<Item>, b: Db)
    requires Observed(s0, s1, s2, now) && Decide(s0, s1, s2, now, c, approved, wv, tv, user, current) == Some(b)
    ensures DecisionDone(now, b, c, approved, user)
  {
    DecideReads(s0, s1, s2, now, c, approved, wv, tv, user, current, b);
    assert b.decisions[|now.decisions|].instance == FindActive(s0.instances, c).value;
  }

  // ---------------------------------------------------------------- the other commands

  /** The task has its new holder; a claimed review moves its instance from READY_FOR_REVIEW on. */
  ghost predicate ClaimDone(a: Db, b: Db, t: nat, user: User) {
    && t < |a.tasks| == |b.tasks| && a.tasks[t].status == Pending
    && (a.tasks[t].assignee.None? || a.tasks[t].assignee == Some(user))
    && b.tasks[t] == a.tasks[t].(status := Claimed, claimedBy := Some(user), rowVersion := a.tasks[t].rowVersion + 1)
    && (forall u :: 0 <= u < |a.tasks| && u != t ==> b.tasks[u] == a.tasks[u])
    && b == a.(tasks := b.tasks, instances := b.instances)
    && var i := a.tasks[t].instance;
    && i < |a.instances|
    && if a.tasks[t].kind == ReviewCase && a.instances[i].state == ReadyForReview then
         OnlyInstance(a, b, i)
         && b.instances[i] == a.instances[i].(state := UnderReview, rowVersion := a.instances[i].rowVersion + 1)
       else b.instances == a.instances
  }

  lemma {:induction false} ClaimEffect(calls: seq<Call>, k: nat)
    requires Schedule(calls) && k < |calls| && calls[k].cmd.CClaim? && Attempt(calls, k).Some?
    ensures ClaimDone(At(calls, k), At(calls, k + 1), calls[k].cmd.t, calls[k].cmd.user)
  {
    ReadsObserved(calls, k);
    var (s0, now, t) := (At(calls, calls[k].r0), At(calls, k), calls[k].cmd.t);
    assert now.tasks[t].instance == s0.tasks[t].instance && now.tasks[t].kind == s0.tasks[t].kind;
    assert TaskOk(now, t);
  }

  /** An open task goes back to the queue of the new assignee, whoever had claimed it. */
  ghost predicate AssignDone(a: Db, b: Db, t: nat, user: User) {
    && t < |a.tasks| == |b.tasks| && Open(a.tasks[t]) && b.tasks[t].instance == a.tasks[t].instance
    && b.tasks[t].kind == a.tasks[t].kind && b.tasks[t].status == Pending && b.tasks[t].assignee == Some(user)
    && b.tasks[t].claimedBy.None? && b.tasks[t].rowVersion == a.tasks[t].rowVersion + 1
    && (forall u :: 0 <= u < |a.tasks| && u != t ==> b.tasks[u] == a.tasks[u])
    && b == a.(tasks := b.tasks)
  }

  lemma {:induction false} AssignEffect(calls: seq<Call>, k: nat)
    requires Schedule(calls) && k < |calls| && calls[k].cmd.CAssign? && Attempt(calls, k).Some?
    ensures AssignDone(At(calls, k), At(calls, k + 1), calls[k].cmd.t, calls[k].cmd.user)
  {
  }

  /** A new cycle of the case: not started, active, on a version that was published when it was read. */
  ghost predicate StartDone(a: Db, b: Db, c: CaseId) {
    && |b.instances| == |a.instances| + 1 && a.instances <= b.instances
    && (forall i :: 0 <= i < |a.instances| && a.instances[i].caseId == c ==> !a.instances[i].active)
    && var row := b.instances[|a.instances|];
    && row.caseId == c && row.state == NotStarted && row.active && row.activeTask.None?
    && row.currentRun.None? && row.currentRec.None? && row.currentDecision.None?
    && b == a.(instances := b.instances)
  }

  lemma {:induction false} StartEffect(calls: seq<Call>, k: nat)
    requires Schedule(calls) && k < |calls| && Attempt(calls, k).Some?
    requires calls[k].cmd.CStart? || calls[k].cmd.CReopen? || calls[k].cmd.CAutoStart?
    ensures StartDone(At(calls, k), At(calls, k + 1), calls[k].cmd.c)
    ensures var row := At(calls, k + 1).instances[|At(calls, k).instances|];
            && (calls[k].cmd.CStart? || calls[k].cmd.CAutoStart? ==> row.version == calls[k].cmd.ver)
            && (calls[k].cmd.CReopen? && calls[k].cmd.chosen.Some? ==> row.version == calls[k].cmd.chosen.value)
            && row.version < |At(calls, k).versions| && At(calls, k).versions[row.version].status != Draft
  {
    ReadsObserved(calls, k);
    var s1 := At(calls, calls[k].r1);
    var ver := At(calls, k + 1).instances[|At(calls, k).instances|].version;
    assert calls[k].cmd.CAutoStart? || (ver < |s1.versions| && s1.versions[ver].status == Published);
  }

  /** Ending without a decision cancels what is open. */
  ghost predicate EndDone(a: Db, b: Db, i: nat, state: State) {
    && OnlyInstance(a, b, i) && b.instances[i].state == state && !b.instances[i].active
    && KeepsRun(a, b, i) && KeepsRec(a, b, i) && KeepsDecision(a, b, i) && |b.tasks| == |a.tasks|
    && Closes(a, b, i, None, TaskCancelled)
    && b == a.(tasks := b.tasks, instances := b.instances)
  }

  lemma {:induction false} WithdrawEffect(calls: seq<Call>, k: nat) returns (i: nat)
    requires Schedule(calls) && k < |calls| && calls[k].cmd.CWithdraw? && Attempt(calls, k).Some?
    ensures EndDone(At(calls, k), At(calls, k + 1), i, Withdrawn) && At(calls, k).instances[i].caseId == calls[k].cmd.c
  {
    ReadsObserved(calls, k);
    i := FindActive(At(calls, calls[k].r0).instances, calls[k].cmd.c).value;
    assert InstanceKept(At(calls, calls[k].r0), At(calls, k), i);
  }

  lemma {:induction false} CancelEffect(calls: seq<Call>, k: nat) returns (i: nat)
    requires Schedule(calls) && k < |calls| && calls[k].cmd.CCaseCancelled? && Attempt(calls, k).Some?
    ensures EndDone(At(calls, k), At(calls, k + 1), i, Cancelled) && At(calls, k).instances[i].caseId == calls[k].cmd.c
    ensures At(calls, k).instances[i].active
  {
    i := FindActive(At(calls, k).instances, calls[k].cmd.c).value;
  }

  /** The first half of resubmit completes the correction task that was read as open. */
  lemma {:induction false} ResubmitEffect(calls: seq<Call>, k: nat)
    requires Schedule(calls) && k < |calls| && calls[k].cmd.CResubmit? && Attempt(calls, k).Some?
    ensures var (a, b, t) := (At(calls, k), At(calls, k + 1), calls[k].cmd.t);
            && t < |a.tasks| && a.tasks[t].kind == CorrectSubmission && b == a.(tasks := b.tasks)
                && |b.tasks| == |a.tasks|
            && b.tasks[t] == a.tasks[t].(status := Completed, rowVersion := a.tasks[t].rowVersion + 1)
            && forall u :: 0 <= u < |a.tasks| && u != t ==> b.tasks[u] == a.tasks[u]
  {
    ReadsObserved(calls, k);
    var t := calls[k].cmd.t;
    assert At(calls, k).tasks[t].kind == At(calls, calls[k].r1).tasks[t].kind;
  }

  /** The timer expires exactly the open tasks that are due. */
  lemma {:induction false} ExpireEffect(calls: seq<Call>, k: nat, t: nat)
    requires Schedule(calls) && k < |calls| && calls[k].cmd.CExpire? && t < |At(calls, k).tasks|
    ensures var (a, b) := (At(calls, k), At(calls, k + 1));
            && |b.tasks| == |a.tasks| && b == a.(tasks := b.tasks)
            && if t in calls[k].cmd.due && a.tasks[t].status in {Pending, Claimed}
               then b.tasks[t] == a.tasks[t].(status := Expired, rowVersion := a.tasks[t].rowVersion + 1)
               else b.tasks[t] == a.tasks[t]
  {
  }

  /** A definition version begins as a draft; it is published from a draft and retired from published only, and
    * its content stays. */
  lemma {:induction false} VersionEffect(calls: seq<Call>, k: nat)
    requires Schedule(calls) && k < |calls| && Attempt(calls, k).Some?
    ensures var (a, b) := (At(calls, k), At(calls, k + 1));
            match calls[k].cmd
            case CCreateVersion(content) => b == a.(versions := a.versions + [Version(Draft, content)])
            case CUpdateVersion(v, content) =>
              v < |a.versions| && b == a.(versions := a.versions[v := Version(a.versions[v].status, content)])
            case CPublish(v) =>
              v < |a.versions| && a.versions[v].status == Draft
              && b == a.(versions := a.versions[v := Version(Published, a.versions[v].content)])
            case CRetire(v) =>
              v < |a.versions| && a.versions[v].status == Published
              && b == a.(versions := a.versions[v := Version(Retired, a.versions[v].content)])
            case _ => b.versions == a.versions
  {
  }

  // ---------------------------------------------------------------- what a state tells

  /** What the records of an instance say where its state says that it passed, failed or was decided. */
  ghost predicate StateFits(s: Db, i: nat)
    requires i < |s.instances|
  {
    var row := s.instances[i];
    && (row.state in {ReadyForReview, UnderReview, ReadyForRecommendation, DecisionPending, Approved, Rejected} ==>
          row.currentRun.Some? && row.currentRun.value < |s.runs| && s.runs[row.currentRun.value].pass)
    && (row.state == EvidenceRequired ==>
          row.currentRun.Some? && row.currentRun.value < |s.runs| && !s.runs[row.currentRun.value].pass)
    && (row.state in {Approved, Rejected} ==>
          && row.currentDecision.Some? && row.currentDecision.value < |s.decisions|
          && s.decisions[row.currentDecision.value].instance == i
          && s.decisions[row.currentDecision.value].approved == (row.state == Approved))
  }

  ghost predicate StatesFit(s: Db) { forall i :: 0 <= i < |s.instances| ==> StateFits(s, i) }

  /** Records grow and of the instances only i may have changed its state. */
  lemma OthersFit(a: Db, b: Db, i: nat)
    requires StatesFit(a) && a.runs <= b.runs && a.decisions <= b.decisions && OnlyInstance(a, b, i) && StateFits(b, i)
    ensures StatesFit(b)
  {
    forall j | 0 <= j < |b.instances| ensures StateFits(b, j) { if j != i { assert StateFits(a, j); } }
  }

  lemma SameRowsFit(a: Db, b: Db)
    requires StatesFit(a) && a.runs <= b.runs && a.decisions <= b.decisions && a.instances == b.instances
    ensures StatesFit(b)
  {
    forall j | 0 <= j < |b.instances| ensures StateFits(b, j) { assert StateFits(a, j); }
  }

  lemma RecordFits(cmd: Command, s0: Db, s1: Db, s2: Db, now: Db, b: Db)
    requires Observed(s0, s1, s2, now) && Try(cmd, s0, s1, s2, now) == Some(b) && StatesFit(now)
    requires cmd.CValidate? || cmd.CReview? || cmd.CRecommend? || cmd.CDecide?
    ensures StatesFit(b)
  {
    match cmd
    case CValidate(c, expected, snapshot, pass) =>
      ValidateEffect(s0, now, c, expected, snapshot, pass, b);
      OthersFit(now, b, b.runs[|now.runs|].instance);
    case CReview(t, wv, tv, user, ready, selected, current) =>
      SubmitEffect(s0, s1, s2, now, t, wv, tv, user, ready, selected, current, b);
      ReviewReads(s0, s1, s2, now, t, wv, tv, user, ready, selected, current, b);
      OthersFit(now, b, b.reviews[|now.reviews|].instance);
    case CRecommend(c, wv, user, outcome, current) =>
      RecommendEffect(s0, s1, s2, now, c, wv, user, outcome, current, b);
      RecommendReads(s0, s1, s2, now, c, wv, user, outcome, current, b);
      OthersFit(now, b, b.recs[|now.recs|].instance);
    case CDecide(c, approved, wv, tv, user, current) =>
      DecideEffect(s0, s1, s2, now, c, approved, wv, tv, user, current, b);
      DecideReads(s0, s1, s2, now, c, approved, wv, tv, user, current, b);
      OthersFit(now, b, b.decisions[|now.decisions|].instance);
  }

  lemma RowFits(cmd: Command, s0: Db, s1: Db, s2: Db, now: Db, b: Db)
    requires Observed(s0, s1, s2, now) && Try(cmd, s0, s1, s2, now) == Some(b) && StatesFit(now)
    requires cmd.CClaim? || cmd.CCorrection? || cmd.CWithdraw? || cmd.CCaseCancelled?
    ensures StatesFit(b)
  {
    match cmd
    case CClaim(t, _, _) =>
      var i := s0.tasks[t].instance;
      if b.instances == now.instances { SameRowsFit(now, b); } else { assert StateFits(now, i); OthersFit(now, b, i); }
    case CCorrection(t, _, _) => OthersFit(now, b, s0.tasks[t].instance);
    case CWithdraw(c, _) => OthersFit(now, b, FindActive(s0.instances, c).value);
    case CCaseCancelled(c) => OthersFit(now, b, FindActive(now.instances, c).value);
  }

  lemma StepFits(cmd: Command, s0: Db, s1: Db, s2: Db, now: Db, b: Db)
    requires Observed(s0, s1, s2, now) && Try(cmd, s0, s1, s2, now) == Some(b) && StatesFit(now)
    ensures StatesFit(b)
  {
    if cmd.CValidate? || cmd.CReview? || cmd.CRecommend? || cmd.CDecide? {
      RecordFits(cmd, s0, s1, s2, now, b);
    } else if cmd.CClaim? || cmd.CCorrection? || cmd.CWithdraw? || cmd.CCaseCancelled? {
      RowFits(cmd, s0, s1, s2, now, b);
    } else if cmd.CStart? || cmd.CReopen? || cmd.CAutoStart? {
      NewFits(now, b);
    } else {
      SameRowsFit(now, b);
    }
  }

  lemma NewFits(a: Db, b: Db)
    requires StatesFit(a) && a.runs == b.runs && a.decisions == b.decisions && |b.instances| == |a.instances| + 1
    requires a.instances <= b.instances && b.instances[|a.instances|].state == NotStarted
    ensures StatesFit(b)
  {
    forall j | 0 <= j < |b.instances| ensures StateFits(b, j) { if j < |a.instances| { assert StateFits(a, j); } }
  }

  lemma {:induction false} EveryStateFits(calls: seq<Call>, k: nat)
    requires Schedule(calls) && k <= |calls|
    ensures StatesFit(At(calls, k))
  {
    if k > 0 {
      EveryStateFits(calls, k - 1);
      ReadsObserved(calls, k - 1);
      var (call, result) := (calls[k - 1], Attempt(calls, k - 1));
      if result.Some? {
        StepFits(call.cmd, At(calls, call.r0), At(calls, call.r1), At(calls, call.r2), At(calls, k - 1), result.value);
      }
    }
  }

  /** In every state of every run an instance that reads APPROVED or REJECTED has a current decision of its
    * own on record, with that very outcome. */
  lemma {:induction false} OutcomeOnRecord(calls: seq<Call>, k: nat, i: nat) returns (d: nat)
    requires Schedule(calls) && k <= |calls| && i < |At(calls, k).instances|
    requires At(calls, k).instances[i].state in {Approved, Rejected}
    ensures var s := At(calls, k);
            && s.instances[i].currentDecision == Some(d) && d < |s.decisions| && s.decisions[d].instance == i
            && (s.decisions[d].approved <==> s.instances[i].state == Approved)
  {
    EveryStateFits(calls, k);
    assert StateFits(At(calls, k), i);
    d := At(calls, k).instances[i].currentDecision.value;
  }

  /** From READY_FOR_REVIEW to its outcome an instance stands on a passing run; EVIDENCE_REQUIRED means
    * that its run failed. */
  lemma {:induction false} VerdictOnRecord(calls: seq<Call>, k: nat, i: nat) returns (q: nat)
    requires Schedule(calls) && k <= |calls| && i < |At(calls, k).instances|
    requires At(calls, k).instances[i].state in
               {EvidenceRequired, ReadyForReview, UnderReview, ReadyForRecommendation, DecisionPending, Approved,
                 Rejected}
    ensures var s := At(calls, k);
            && s.instances[i].currentRun == Some(q) && q < |s.runs| && s.runs[q].instance == i
            && (s.runs[q].pass <==> s.instances[i].state != EvidenceRequired)
  {
    EveryRun(calls, k);
    EveryStateFits(calls, k);
    assert StateFits(At(calls, k), i) && InstanceOk(At(calls, k), i);
    q := At(calls, k).instances[i].currentRun.value;
  }

  // ---------------------------------------------------------------- when a command alone is accepted

  lemma {:induction false} OneActive(rows: seq<Instance>, i: nat, c: CaseId)
    requires i < |rows| && rows[i].active && rows[i].caseId == c
    requires forall j :: 0 <= j < |rows| && rows[j].active && rows[j].caseId == c ==> j == i
    ensures FindActive(rows, c) == Some(i)
  {
  }

  lemma ActiveInstance(s: Db, i: nat)
    requires Inv(s) && i < |s.instances| && s.instances[i].active
    ensures FindActive(s.instances, s.instances[i].caseId) == Some(i)
  {
    forall j | 0 <= j < |s.instances| && s.instances[j].active && s.instances[j].caseId == s.instances[i].caseId
      ensures j == i
    {
      assert CycleOk(s.instances, i) && CycleOk(s.instances, j);
    }
    OneActive(s.instances, i, s.instances[i].caseId);
  }

  /** Every pinned version is found again, usable and unchanged. */
  ghost predicate StillCurrent(pinned: seq<Item>, current: seq<Item>) {
    forall x :: x in pinned ==>
      var (before, after) := (FindItem(pinned, x.id), FindItem(current, x.id));
      && before.Some? && after.Some? && after.value.sha256 == before.value.sha256
      && after.value.available && after.value.clean && after.value.authoritative
  }

  lemma AllCurrentIff(pinned: seq<Item>, current: seq<Item>)
    ensures SnapshotCurrent(pinned, current, Ids(pinned)) <==> StillCurrent(pinned, current)
  {
    if SnapshotCurrent(pinned, current, Ids(pinned)) {
      forall x | x in pinned
        ensures FindItem(pinned, x.id).Some? && FindItem(current, x.id).Some?
        ensures FindItem(current, x.id).value.sha256 == FindItem(pinned, x.id).value.sha256
        ensures FindItem(current, x.id).value.available && FindItem(current, x.id).value.clean
        ensures FindItem(current, x.id).value.authoritative
      {
        var k :| 0 <= k < |pinned| && pinned[k] == x;
        assert Ids(pinned)[k] == x.id;
      }
    }
    if StillCurrent(pinned, current) {
      forall k | 0 <= k < |pinned| ensures SnapshotCurrent(pinned, current, [Ids(pinned)[k]]) {
        assert pinned[k] in pinned && Ids(pinned)[k] == pinned[k].id;
      }
      assert forall k :: 0 <= k < |pinned| ==> [Ids(pinned)[k]][0] == Ids(pinned)[k];
    }
  }

  /** Nobody in between: validate is accepted for the active instance of the case under its row version. */
  lemma ValidateAloneIff(s: Db, i: nat, expected: nat, snapshot: seq<Item>, pass: bool)
    requires Inv(s) && i < |s.instances| && s.instances[i].active
    ensures Validate(s, s, s.instances[i].caseId, expected, snapshot, pass).Some? <==>
            s.instances[i].rowVersion == expected
  {
    ActiveInstance(s, i);
    assert InstanceOk(s, i);
  }

  /** A review is accepted from the user who holds the task, whatever its verdict, under both versions and
    * on selected evidence that is still current. */
  lemma ReviewAloneIff(s: Db, t: nat, wv: nat, tv: nat, user: User, ready: bool, selected: seq<nat>, current: seq<Item>)
    requires Inv(s) && StatesFit(s) && t < |s.tasks| && s.tasks[t].kind == ReviewCase && Open(s.tasks[t])
    ensures s.tasks[t].instance < |s.instances|
    ensures var row := s.instances[s.tasks[t].instance];
            && row.currentRun.Some? && row.currentRun.value < |s.runs|
            && (SubmitReview(s, s, s, s, t, wv, tv, user, ready, selected, current).Some? <==>
                  && s.tasks[t].status == Claimed && s.tasks[t].claimedBy == Some(user)
                  && s.tasks[t].rowVersion == tv && row.rowVersion == wv
                  && SnapshotCurrent(s.runs[row.currentRun.value].snapshot, current, selected))
  {
    var i := s.tasks[t].instance;
    assert TaskOk(s, t) && InstanceOk(s, i) && StateFits(s, i);
  }

  /** A recommendation is accepted, whatever its outcome, while the instance waits for one under this row
    * version and its pinned evidence is current. */
  lemma RecommendAloneIff(s: Db, i: nat, wv: nat, user: User, outcome: RecOutcome, current: seq<Item>)
    requires Inv(s) && StatesFit(s) && i < |s.instances| && s.instances[i].active
    ensures var row := s.instances[i];
            Recommend(s, s, s, row.caseId, wv, user, outcome, current).Some? <==>
              && row.state == ReadyForRecommendation && row.rowVersion == wv
              && row.currentRun.Some? && row.currentRun.value < |s.runs|
              && StillCurrent(s.runs[row.currentRun.value].snapshot, current)
  {
    ActiveInstance(s, i);
    assert InstanceOk(s, i) && StateFits(s, i);
    var run := s.instances[i].currentRun;
    if run.Some? && run.value < |s.runs| { AllCurrentIff(s.runs[run.value].snapshot, current); }
  }

  /** The user may act on an open task: nobody else is named on it. */
  ghost predicate MayAct(task: Task, user: User) {
    task.assignee.None? || task.assignee == Some(user) || task.claimedBy == Some(user)
  }

  /** A decision is accepted, approving or rejecting, while the instance waits for one under these versions,
    * the user may act on its open task, the duties of its version are separate and its evidence is current. */
  lemma DecideAloneIff(s: Db, i: nat, approved: bool, wv: nat, tv: nat, user: User, current: seq<Item>)
    requires Inv(s) && StatesFit(s) && i < |s.instances| && s.instances[i].active
             && s.instances[i].state == DecisionPending
    ensures var row := s.instances[i];
            && row.currentRec.Some? && row.currentRec.value < |s.recs|
            && row.currentRun.Some? && row.currentRun.value < |s.runs| && row.version < |s.versions|
            && var (rec, pinned) := (s.recs[row.currentRec.value], s.runs[row.currentRun.value].snapshot);
               var (content, reviewer) := (s.versions[row.version].content, Reviewer(s.reviews, i));
               Decide(s, s, s, s, row.caseId, approved, wv, tv, user, current).Some? <==>
                 && row.rowVersion == wv && row.activeTask.Some? && row.activeTask.value < |s.tasks|
                 && var task := s.tasks[row.activeTask.value];
                 && Open(task) && task.rowVersion == tv && MayAct(task, user)
                 && !(content.fourEyes && rec.actor == user)
                 && !(content.prohibitReviewer && reviewer == Some(user))
                 && !(content.prohibitSubmitter && exists x :: x in pinned && x.createdBy == user)
                 && StillCurrent(pinned, current)
  {
    ActiveInstance(s, i);
    assert InstanceOk(s, i) && StateFits(s, i);
    var row := s.instances[i];
    if row.activeTask.Some? && row.activeTask.value < |s.tasks| { assert TaskOk(s, row.activeTask.value); }
    AllCurrentIff(s.runs[row.currentRun.value].snapshot, current);
  }

  /** A case gets a new cycle while it has none that is active, on a published version. */
  lemma StartAloneIff(s: Db, c: CaseId, ver: nat)
    ensures Start(s, s, c, ver).Some? <==>
              && ver < |s.versions| && s.versions[ver].status == Published
              && forall i :: 0 <= i < |s.instances| && s.instances[i].caseId == c ==> !s.instances[i].active
  {
  }

  lemma {:induction false} LatestIsLast(rows: seq<Instance>, c: CaseId, i: nat)
    requires i < |rows| && rows[i].caseId == c && forall j :: i < j < |rows| ==> rows[j].caseId != c
    requires forall j :: 0 <= j < |rows| && rows[j].caseId == c ==> !rows[j].active && Terminal(rows[j].state)
    requires forall j :: 0 <= j < i && rows[j].caseId == c ==> rows[j].cycle < rows[i].cycle
    ensures LatestEnded(rows, c) == Some(i)
  {
    var last := |rows| - 1;
    if i < last { LatestIsLast(rows[..last], c, i); }
  }

  /** reopen goes on with the version chosen or else with that of the case's last cycle. */
  lemma ReopenAloneIff(s: Db, c: CaseId, i: nat, chosen: Option<nat>)
    requires Inv(s) && i < |s.instances| && s.instances[i].caseId == c
    requires forall j :: i < j < |s.instances| ==> s.instances[j].caseId != c
    ensures var ver := if chosen.Some? then chosen.value else s.instances[i].version;
            && (Reopen(s, s, s, c, chosen).Some? <==>
                  !s.instances[i].active && ver < |s.versions| && s.versions[ver].status == Published)
            && (Reopen(s, s, s, c, chosen).Some? ==> Reopen(s, s, s, c, chosen) == Start(s, s, c, ver))
  {
    if s.instances[i].active {
      ActiveInstance(s, i);
    } else {
      forall j | 0 <= j < |s.instances| && s.instances[j].caseId == c
        ensures !s.instances[j].active && Terminal(s.instances[j].state)
        ensures j < i ==> s.instances[j].cycle < s.instances[i].cycle
      {
        assert InstanceOk(s, j) && CycleOk(s.instances, j) && CycleOk(s.instances, i);
        if j < i { CountGrows(s.instances, c, j, i); }
      }
      LatestIsLast(s.instances, c, i);
    }
  }

  /** A task is claimed while it is pending, under its version, by anyone or by its assignee. */
  lemma ClaimAloneIff(s: Db, t: nat, tv: nat, user: User)
    requires t < |s.tasks|
    ensures Claim(s, s, t, tv, user).Some? <==>
              && s.tasks[t].status == Pending && s.tasks[t].rowVersion == tv
              && (s.tasks[t].assignee.None? || s.tasks[t].assignee == Some(user))
  {
  }

  /** A case's active instance is withdrawn under its row version, and cancelled under any. */
  lemma EndAloneIff(s: Db, i: nat, expected: nat)
    requires Inv(s) && i < |s.instances| && s.instances[i].active
    ensures Withdraw(s, s, s.instances[i].caseId, expected).Some? <==> s.instances[i].rowVersion == expected
    ensures CaseCancelled(s, s.instances[i].caseId).Some?
  {
    ActiveInstance(s, i);
    assert InstanceOk(s, i);
  }

  /** An open task is assigned under its version, whoever holds it. */
  lemma AssignAloneIff(s: Db, t: nat, tv: nat, user: User)
    requires t < |s.tasks|
    ensures Assign(s, t, tv, user).Some? <==> s.tasks[t].status in {Pending, Claimed} && s.tasks[t].rowVersion == tv
  {
  }

  /** A correction is asked for on an open task, under both versions. */
  lemma CorrectionAloneIff(s: Db, t: nat, wv: nat, tv: nat)
    requires Inv(s) && t < |s.tasks|
    ensures s.tasks[t].instance < |s.instances|
    ensures RequestCorrection(s, s, s, t, wv, tv).Some? <==>
              && s.tasks[t].status in {Pending, Claimed} && s.tasks[t].rowVersion == tv
              && s.instances[s.tasks[t].instance].rowVersion == wv
  {
    assert TaskOk(s, t);
  }

  /** resubmit needs an open correction task of the active instance, which then is in CORRECTION_REQUESTED. */
  lemma ResubmitAloneIff(s: Db, i: nat, t: nat)
    requires Inv(s) && i < |s.instances| && s.instances[i].active && t < |s.tasks|
    ensures Resubmit(s, s, s, s.instances[i].caseId, t).Some? <==>
              s.tasks[t].instance == i && s.tasks[t].kind == CorrectSubmission
                  && s.tasks[t].status in {Pending, Claimed}
  {
    ActiveInstance(s, i);
    assert TaskOk(s, t);
  }
}
