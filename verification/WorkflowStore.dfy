/** The transactions of the workflow service as they run: in place, one statement after another. */
module WorkflowStore {
  import opened Common
  import opened WorkflowModel

  /** What a transaction did: its specified result, or nothing at all. */
  ghost predicate Applied(result: Option<Db>, before: Db, committed: bool, after: Db) {
    committed == result.Some? && after == if result.Some? then result.value else before
  }

  class WorkflowTables {
    var versions: seq<Version>
    var instances: seq<Instance>
    var tasks: seq<Task>
    var runs: seq<Run>
    var reviews: seq<Review>
    var recs: seq<Rec>
    var decisions: seq<Decision>

    constructor ()
      ensures Tables() == EMPTY
    {
      versions, instances, tasks, runs, reviews, recs, decisions := [], [], [], [], [], [], [];
    }

    function Tables(): Db
      reads this
    {
      Db(versions, instances, tasks, runs, reviews, recs, decisions)
    }

    /** The write of updateVersion; `seen` is the state in which the version was found to be a draft. */
    method OverwriteVersion(ghost seen: Db, v: nat, content: Content)
      requires v < |seen.versions| && seen.versions[v].status == Draft && v < |versions|
      modifies this
      ensures UpdateVersion(seen, old(Tables()), v, content) == Some(Tables())
    {
      versions := versions[v := versions[v].(content := content)];
    }

    method MoveVersion(v: nat, from: Publication, to: Publication) returns (committed: bool)
      modifies this
      ensures Applied(SetStatus(old(Tables()), v, from, to), old(Tables()), committed, Tables())
    {
      if v >= |versions| || versions[v].status != from { return false; }
      versions := versions[v := versions[v].(status := to)];
      return true;
    }

    method StartInstance(c: CaseId, ver: nat) returns (committed: bool)
      modifies this
      ensures Applied(StartTransaction(old(Tables()), c, ver), old(Tables()), committed, Tables())
    {
      var active := FindActive(instances, c);
      if active.Some? { return false; }
      var cycle := MaxCycle(instances, c) + 1;
      instances := instances + [Instance(c, ver, cycle, NotStarted, true, None, None, None, None, 1)];
      return true;
    }

    method RecordValidation(i: nat, expected: nat, snapshot: seq<Item>, pass: bool) returns (committed: bool)
      modifies this
      ensures Applied(ValidateTransaction(old(Tables()), i, expected, snapshot, pass), old(Tables()), committed,
                      Tables())
    {
      if i >= |instances| || instances[i].rowVersion != expected || !instances[i].active { return false; }
      var run := |runs|;
      runs := runs + [Run(i, pass, snapshot)];
      tasks := CloseOpen(tasks, i, None, TaskCancelled);
      var nextState := if pass then ReadyForReview else EvidenceRequired;
      var task := |tasks|;
      tasks := tasks + [NewTask(i, if pass then ReviewCase else ProvideEvidence)];
      instances := Bump(instances, i, instances[i].(
        state := nextState, currentRun := Some(run), activeTask := Some(task)));
      return true;
    }

    method ClaimTask(t: nat, i: nat, kind: TaskKind, taskVersion: nat, user: User) returns (committed: bool)
      modifies this
      ensures Applied(ClaimTransaction(old(Tables()), t, i, kind, taskVersion, user), old(Tables()), committed,
                      Tables())
    {
      if t >= |tasks| || tasks[t].status != Pending || tasks[t].rowVersion != taskVersion { return false; }
      if tasks[t].assignee.Some? && tasks[t].assignee != Some(user) { return false; }
      tasks := tasks[t := tasks[t].(status := Claimed, claimedBy := Some(user), rowVersion := taskVersion + 1)];
      if kind == ReviewCase {
        if i < |instances| && instances[i].state == ReadyForReview {
          instances := Bump(instances, i, instances[i].(state := UnderReview));
        }
      }
      return true;
    }

    method AssignTask(t: nat, taskVersion: nat, user: User) returns (committed: bool)
      modifies this
      ensures Applied(Assign(old(Tables()), t, taskVersion, user), old(Tables()), committed, Tables())
    {
      if t >= |tasks| || !Open(tasks[t]) || tasks[t].rowVersion != taskVersion { return false; }
      tasks := tasks[t := tasks[t].(assignee := Some(user), claimedBy := None, status := Pending,
                                    rowVersion := taskVersion + 1)];
      return true;
    }

    method RecordReview(t: nat, i: nat, workflowVersion: nat, taskVersion: nat, user: User, ready: bool, run: nat,
                        pinned: seq<Item>) returns (committed: bool)
      modifies this
      ensures Applied(ReviewTransaction(old(Tables()), t, i, workflowVersion, taskVersion, user, ready, run, pinned),
                      old(Tables()), committed, Tables())
    {
      var taskCurrent := t < |tasks| && tasks[t].rowVersion == taskVersion && tasks[t].status == Claimed
                       && tasks[t].claimedBy == Some(user);
      var rowCurrent := i < |instances| && instances[i].rowVersion == workflowVersion && instances[i].active;
      if !taskCurrent || !rowCurrent { return false; }
      reviews := reviews + [Review(i, run, user, ready, pinned, instances[i].rowVersion + 1)];
      tasks := Complete(tasks, t);
      var next := |tasks|;
      tasks := tasks + [NewTask(i, if ready then CreateRecommendation else CorrectSubmission)];
      instances := Bump(instances, i, instances[i].(
        state := if ready then ReadyForRecommendation else CorrectionRequested, activeTask := Some(next)));
      return true;
    }

    method RecordCorrection(t: nat, i: nat, taskVersion: nat) returns (committed: bool)
      modifies this
      ensures Applied(CorrectionTransaction(old(Tables()), t, i, taskVersion), old(Tables()), committed, Tables())
    {
      if t >= |tasks| || tasks[t].rowVersion != taskVersion || !Open(tasks[t]) || i >= |instances| { return false; }
      tasks := Complete(tasks, t);
      var next := |tasks|;
      tasks := tasks + [NewTask(i, CorrectSubmission)];
      instances := Bump(instances, i, instances[i].(state := CorrectionRequested, activeTask := Some(next)));
      return true;
    }

    method RecordRecommendation(i: nat, workflowVersion: nat, user: User, outcome: RecOutcome, run: nat,
                                pinned: seq<Item>) returns (committed: bool)
      modifies this
      ensures Applied(RecommendTransaction(old(Tables()), i, workflowVersion, user, outcome, run, pinned),
                      old(Tables()), committed, Tables())
    {
      if i >= |instances| || instances[i].rowVersion != workflowVersion
         || instances[i].state != ReadyForRecommendation || !instances[i].active { return false; }
      tasks := CloseOpen(tasks, i, Some(CreateRecommendation), Completed);
      var rec := |recs|;
      recs := recs + [Rec(i, run, user, outcome, pinned, instances[i].rowVersion + 1)];
      var task := |tasks|;
      if outcome == RequestMoreInformation {
        tasks := tasks + [NewTask(i, CorrectSubmission)];
        instances := Bump(instances, i, instances[i].(
          state := CorrectionRequested, currentRec := Some(rec), activeTask := Some(task)));
        return true;
      }
      tasks := tasks + [NewTask(i, ApproveDecision)];
      instances := Bump(instances, i, instances[i].(
        state := DecisionPending, currentRec := Some(rec), activeTask := Some(task)));
      return true;
    }

    method RecordDecision(i: nat, t: nat, workflowVersion: nat, taskVersion: nat, c: CaseId, approved: bool, user: User,
                          rec: nat, run: nat, pinned: seq<Item>) returns (committed: bool)
      modifies this
      ensures Applied(DecideTransaction(old(Tables()), i, t, workflowVersion, taskVersion, c, approved, user, rec,
                                        run, pinned),
                      old(Tables()), committed, Tables())
    {
      var rowCurrent := i < |instances| && instances[i].rowVersion == workflowVersion
                   && instances[i].state == DecisionPending && instances[i].active;
      var taskCurrent := t < |tasks| && tasks[t].rowVersion == taskVersion && Open(tasks[t]);
      if !rowCurrent || !taskCurrent { return false; }
      var superseded := Superseded(decisions, c, i);
      var decision := |decisions|;
      decisions := decisions +
        [Decision(c, i, instances[i].cycle, rec, run, approved, user, pinned, superseded)];
      tasks := Complete(tasks, t);
      instances := Bump(instances, i, instances[i].(
        state := if approved then Approved else Rejected, active := false,
        currentDecision := Some(decision), activeTask := None));
      return true;
    }

    /** The writes of withdraw and of the case.cancelled message. */
    method EndInstance(i: nat, state: State)
      requires i < |instances|
      modifies this
      ensures Tables() == End(old(Tables()), i, state)
    {
      tasks := CloseOpen(tasks, i, None, TaskCancelled);
      instances := Bump(instances, i, instances[i].(state := state, active := false));
    }

    /** The expiry half of the operational worker's tick, row by row. */
    method ExpireTasks(due: set<nat>)
      modifies this`tasks
      ensures tasks == ExpireDue(old(tasks), due)
    {
      var k := 0;
      while k < |tasks|
        invariant k <= |tasks| == |old(tasks)|
        invariant forall x :: 0 <= x < k ==> tasks[x] == ExpireDue(old(tasks), due)[x]
        invariant forall x :: k <= x < |tasks| ==> tasks[x] == old(tasks)[x]
      {
        if k in due && Open(tasks[k]) {
          tasks := tasks[k := tasks[k].(status := Expired, rowVersion := tasks[k].rowVersion + 1)];
        }
        k := k + 1;
      }
    }

    /** assertSnapshotCurrent: the loop over the selected versions, rejecting at the first mismatch. */
    method AssertSnapshotCurrent(pinned: seq<Item>, current: seq<Item>, selected: seq<nat>) returns (ok: bool)
      ensures ok == SnapshotCurrent(pinned, current, selected)
    {
      for k := 0 to |selected|
        invariant SnapshotCurrent(pinned, current, selected[..k])
      {
        var before, after := FindItem(pinned, selected[k]), FindItem(current, selected[k]);
        if before.None? || after.None? || before.value.sha256 != after.value.sha256
           || !after.value.available || !after.value.clean || !after.value.authoritative {
          return false;
        }
        assert selected[..k + 1] == selected[..k] + [selected[k]];
      }
      assert selected[..|selected|] == selected;
      return true;
    }
  }
}
