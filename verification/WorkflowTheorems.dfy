/** What the workflow service guarantees in every run, and the two guarantees that hold
  * only when a write finds the row its command read. */
module WorkflowTheorems {
  import opened Common
  import opened WorkflowModel
  import opened WorkflowInvariants
  import opened WorkflowRuns

  // ---------------------------------------------------------------- reads are current at commit

  /** When a review commits: its task is the instance's active task, and the run it cites is current. */
  lemma {:induction false} ReviewCommitsOnCurrentReads(calls: seq<Call>, k: nat)
    requires Schedule(calls) && k < |calls| && calls[k].cmd.CReview? && Attempt(calls, k).Some?
    ensures var (now, b) := (At(calls, k), Attempt(calls, k).value);
            var x := b.reviews[|b.reviews| - 1];
            && b.reviews == now.reviews + [x] && x.instance < |now.instances|
            && now.instances[x.instance].active
            && now.instances[x.instance].activeTask == Some(calls[k].cmd.t)
            && now.instances[x.instance].state in {ReadyForReview, UnderReview}
            && now.instances[x.instance].currentRun == Some(x.run)
            && RestsOn(now, x.instance, x.run, x.snapshot)
  {
    ReadsObserved(calls, k);
    var (now, b) := (At(calls, k), Attempt(calls, k).value);
    var (s0, s1, s2) := (At(calls, calls[k].r0), At(calls, calls[k].r1), At(calls, calls[k].r2));
    var CReview(t, wv, tv, user, ready, selected, current) := calls[k].cmd;
    ReviewReads(s0, s1, s2, now, t, wv, tv, user, ready, selected, current, b);
  }

  /** When a recommendation commits, the run it cites is current and the instance awaits it. */
  lemma {:induction false} RecommendationCommitsOnCurrentReads(calls: seq<Call>, k: nat)
    requires Schedule(calls) && k < |calls| && calls[k].cmd.CRecommend? && Attempt(calls, k).Some?
    ensures var (now, b) := (At(calls, k), Attempt(calls, k).value);
            var x := b.recs[|b.recs| - 1];
            && b.recs == now.recs + [x] && x.instance < |now.instances|
            && now.instances[x.instance].active
            && now.instances[x.instance].state == ReadyForRecommendation
            && now.instances[x.instance].currentRun == Some(x.run)
            && RestsOn(now, x.instance, x.run, x.snapshot)
  {
    ReadsObserved(calls, k);
    var (now, b) := (At(calls, k), Attempt(calls, k).value);
    var (s0, s1, s2) := (At(calls, calls[k].r0), At(calls, calls[k].r1), At(calls, calls[k].r2));
    var CRecommend(c, wv, user, outcome, current) := calls[k].cmd;
    RecommendReads(s0, s1, s2, now, c, wv, user, outcome, current, b);
  }

  /** When a decision commits: the recommendation, run and task it read are still the current ones. */
  lemma {:induction false} DecisionCommitsOnCurrentReads(calls: seq<Call>, k: nat)
    requires Schedule(calls) && k < |calls| && calls[k].cmd.CDecide? && Attempt(calls, k).Some?
    ensures var (now, b) := (At(calls, k), Attempt(calls, k).value);
            var x := b.decisions[|b.decisions| - 1];
            && b.decisions == now.decisions + [x] && x.instance < |now.instances|
            && now.instances[x.instance].active
            && now.instances[x.instance].state == DecisionPending
            && now.instances[x.instance].currentRec == Some(x.rec)
            && now.instances[x.instance].currentRun == Some(x.run)
            && RestsOn(now, x.instance, x.run, x.snapshot)
            && now.instances[x.instance].activeTask.Some?
            && var t := now.instances[x.instance].activeTask.value;
               t < |now.tasks| && Open(now.tasks[t]) && b.tasks == Complete(now.tasks, t)
  {
    ReadsObserved(calls, k);
    var (now, b) := (At(calls, k), Attempt(calls, k).value);
    var (s0, s1, s2) := (At(calls, calls[k].r0), At(calls, calls[k].r1), At(calls, calls[k].r2));
    var CDecide(c, approved, wv, tv, user, current) := calls[k].cmd;
    DecideReads(s0, s1, s2, now, c, approved, wv, tv, user, current, b);
  }

  /** Whatever happened to the version since, it was in force when decide read it, and with the flags it
    * then had the decision respects every duty; its reviewer is still the newest one at commit. */
  lemma {:induction false} DutiesHeldWhenRead(calls: seq<Call>, k: nat)
    requires Schedule(calls) && k < |calls| && calls[k].cmd.CDecide? && Attempt(calls, k).Some?
    ensures var (read, now, b) := (At(calls, calls[k].r1), At(calls, k), Attempt(calls, k).value);
            && b.decisions != []
            && var x := b.decisions[|b.decisions| - 1];
               && x.instance < |now.instances| && x.rec < |now.recs| && x.decidedBy == calls[k].cmd.user
               && now.instances[x.instance].version < |read.versions|
               && read.versions[now.instances[x.instance].version].status != Draft
               && DutiesSeparate(read.versions[now.instances[x.instance].version].content, now.recs[x.rec].actor,
                                 Reviewer(now.reviews, x.instance), x.snapshot, x.decidedBy)
  {
    ReadsObserved(calls, k);
    var (now, b) := (At(calls, k), Attempt(calls, k).value);
    var (s0, s1, s2) := (At(calls, calls[k].r0), At(calls, calls[k].r1), At(calls, calls[k].r2));
    var CDecide(c, approved, wv, tv, user, current) := calls[k].cmd;
    DecideReads(s0, s1, s2, now, c, approved, wv, tv, user, current, b);
    EveryRun(calls, calls[k].r0);
    assert InstanceOk(s0, FindActive(s0.instances, c).value);
  }

  /** When a decision commits, every pinned version was found in the evidence last read, still available,
    * clean and authoritative, and under the hash it was pinned with. */
  lemma {:induction false} DecisionEvidenceUnchanged(calls: seq<Call>, k: nat, id: nat)
    requires Schedule(calls) && k < |calls| && calls[k].cmd.CDecide? && Attempt(calls, k).Some?
    requires var b := Attempt(calls, k).value;
             b.decisions != [] && exists item :: item in b.decisions[|b.decisions| - 1].snapshot && item.id == id
    ensures var (b, current) := (Attempt(calls, k).value, calls[k].cmd.current);
            exists before, after ::
              && before in b.decisions[|b.decisions| - 1].snapshot && after in current && before.id == id == after.id
              && before.sha256 == after.sha256 && after.available && after.clean && after.authoritative
  {
    ReadsObserved(calls, k);
    var (now, b) := (At(calls, k), Attempt(calls, k).value);
    var (s0, s1, s2) := (At(calls, calls[k].r0), At(calls, calls[k].r1), At(calls, calls[k].r2));
    var CDecide(c, approved, wv, tv, user, current) := calls[k].cmd;
    DecideReads(s0, s1, s2, now, c, approved, wv, tv, user, current, b);
    var pinned := b.decisions[|b.decisions| - 1].snapshot;
    assert SnapshotCurrent(pinned, current, Ids(pinned));
    var i :| 0 <= i < |pinned| && pinned[i].id == id;
    assert Ids(pinned)[i] == id;
  }

  // ---------------------------------------------------------------- the custody of a decision

  /** Decision, recommendation and an earlier READY review of one instance cite one passing run
    * and carry its snapshot; the review is the only one the recommendation followed. */
  lemma {:induction false} DecisionCustody(calls: seq<Call>, k: nat, d: nat) returns (v: nat)
    requires Schedule(calls) && k <= |calls| && d < |At(calls, k).decisions|
    ensures var s := At(calls, k);
            var x := s.decisions[d];
            && x.rec < |s.recs| && v < |s.reviews| && x.run < |s.runs|
            && var (rec, review, run) := (s.recs[x.rec], s.reviews[v], s.runs[x.run]);
            && x.instance == rec.instance == review.instance == run.instance
            && x.run == rec.run == review.run && run.pass
            && x.snapshot == rec.snapshot == review.snapshot == run.snapshot
            && rec.outcome != RequestMoreInformation && review.ready
            && review.aggregateVersion + 1 == rec.aggregateVersion
            && forall w: nat :: Follows(s, x.rec, w) ==> w == v
  {
    EveryRun(calls, k);
    var s := At(calls, k);
    assert DecisionOk(s, d);
    assert RecOk(s, s.decisions[d].rec);
    v :| Follows(s, s.decisions[d].rec, v);
    assert ReviewOk(s, v);
  }

  // ---------------------------------------------------------------- tasks are tokens

  /** At most one open task an instance: its active task, of the kind its state asks for. */
  lemma {:induction false} OneOpenTask(calls: seq<Call>, k: nat, t: nat, u: nat)
    requires Schedule(calls) && k <= |calls|
    requires var s := At(calls, k); t < |s.tasks| && u < |s.tasks| && Open(s.tasks[t]) && Open(s.tasks[u])
    ensures var s := At(calls, k);
            && s.tasks[t].instance < |s.instances|
            && var row := s.instances[s.tasks[t].instance];
            && row.active && row.activeTask == Some(t) && KindFor(row.state) == Some(s.tasks[t].kind)
            && (s.tasks[u].instance == s.tasks[t].instance ==> u == t)
  {
    EveryRun(calls, k);
    assert TaskOk(At(calls, k), t) && TaskOk(At(calls, k), u);
  }

  /** This is what protects requestCorrection, whose transaction checks only the task. */
  lemma {:induction false} CorrectionHitsActiveInstance(calls: seq<Call>, k: nat)
    requires Schedule(calls) && k < |calls| && calls[k].cmd.CCorrection? && Attempt(calls, k).Some?
    ensures var (now, b, t) := (At(calls, k), Attempt(calls, k).value, calls[k].cmd.t);
            && t < |now.tasks| && now.tasks[t].instance < |now.instances|
            && now.instances[now.tasks[t].instance].active
            && now.instances[now.tasks[t].instance].activeTask == Some(t)
            && b.instances == Bump(now.instances, now.tasks[t].instance,
                 now.instances[now.tasks[t].instance].(state := CorrectionRequested, activeTask := Some(|now.tasks|)))
  {
    ReadsObserved(calls, k);
    assert TaskOk(At(calls, k), calls[k].cmd.t);
  }

  // ---------------------------------------------------------------- cycles of a case

  /** Two instances of one case are two cycles, in order, and at most the later one is active. */
  lemma {:induction false} CyclesOfACase(calls: seq<Call>, k: nat, i: nat, j: nat)
    requires Schedule(calls) && k <= |calls| && i < j < |At(calls, k).instances|
    requires At(calls, k).instances[i].caseId == At(calls, k).instances[j].caseId
    ensures var rows := At(calls, k).instances;
            && !rows[i].active
            && 1 <= rows[i].cycle < rows[j].cycle <= CountCase(rows, rows[i].caseId)
  {
    EveryRun(calls, k);
    var rows := At(calls, k).instances;
    assert CycleOk(rows, i) && CycleOk(rows, j);
    CountGrows(rows, rows[i].caseId, i, j);
    CountMonotone(rows, rows[i].caseId, j + 1, |rows|);
    assert rows[..|rows|] == rows;
    assert rows[..i + 1][..i] == rows[..i];
  }

  /** Every cycle number from 1 to the number of instances of the case is used. */
  lemma {:induction false} EveryCycleUsed(rows: seq<Instance>, c: CaseId, m: nat) returns (i: nat)
    requires forall x :: 0 <= x < |rows| ==> rows[x].cycle == CountCase(rows[..x + 1], rows[x].caseId)
    requires 1 <= m <= CountCase(rows, c)
    ensures i < |rows| && rows[i].caseId == c && rows[i].cycle == m
  {
    var last := |rows| - 1;
    assert rows[..last + 1] == rows;
    if rows[last].caseId == c && CountCase(rows, c) == m {
      i := last;
    } else {
      var most := rows[..last];
      forall x | 0 <= x < |most| ensures most[x].cycle == CountCase(most[..x + 1], most[x].caseId) {
        assert most[..x + 1] == rows[..x + 1];
      }
      i := EveryCycleUsed(most, c, m);
    }
  }

  lemma {:induction false} CyclesAreExactly(calls: seq<Call>, k: nat, c: CaseId, m: nat) returns (i: nat)
    requires Schedule(calls) && k <= |calls| && 1 <= m <= CountCase(At(calls, k).instances, c)
    ensures var rows := At(calls, k).instances;
            && i < |rows| && rows[i].caseId == c && rows[i].cycle == m
            && forall j :: 0 <= j < |rows| && rows[j].caseId == c && rows[j].cycle == m ==> j == i
  {
    EveryRun(calls, k);
    var rows := At(calls, k).instances;
    forall x | 0 <= x < |rows| ensures rows[x].cycle == CountCase(rows[..x + 1], rows[x].caseId) {
      assert CycleOk(rows, x);
    }
    i := EveryCycleUsed(rows, c, m);
    forall j | 0 <= j < |rows| && rows[j].caseId == c && rows[j].cycle == m ensures j == i {
      if j < i { CyclesOfACase(calls, k, j, i); } else if i < j { CyclesOfACase(calls, k, i, j); }
    }
  }

  /** The decisions of a case form one chain: each supersedes the one before it, of an earlier cycle. */
  lemma {:induction false} DecisionsFormAChain(calls: seq<Call>, k: nat, d: nat)
    requires Schedule(calls) && k <= |calls| && d < |At(calls, k).decisions|
    ensures var rows := At(calls, k).decisions;
            match rows[d].supersedes
            case None => forall e :: 0 <= e < d ==> rows[e].caseId != rows[d].caseId
            case Some(p) =>
              && p < d && rows[p].caseId == rows[d].caseId && rows[p].cycle < rows[d].cycle
              && rows[p].instance != rows[d].instance
              && forall e :: p < e < d ==> rows[e].caseId != rows[d].caseId
  {
    EveryRun(calls, k);
    var s := At(calls, k);
    assert ChainOk(s.decisions, d);
    LastDecisionIsLast(s.decisions[..d], s.decisions[d].caseId);
    if s.decisions[d].supersedes.Some? {
      assert DecisionOk(s, d) && DecisionOk(s, s.decisions[d].supersedes.value);
    }
  }

  lemma {:induction false} LastDecisionIsLast(rows: seq<Decision>, c: CaseId)
    ensures match LastDecision(rows, c)
            case None => forall e :: 0 <= e < |rows| ==> rows[e].caseId != c
            case Some(p) => forall e :: p < e < |rows| ==> rows[e].caseId != c
  {
    if rows != [] && rows[|rows| - 1].caseId != c {
      LastDecisionIsLast(rows[..|rows| - 1], c);
    }
  }

  // ---------------------------------------------------------------- ended instances

  /** Call k is a withdrawal whose transaction finds the instance already ended. */
  ghost predicate WithdrawsEnded(calls: seq<Call>, k: nat)
    requires Schedule(calls) && k < |calls|
  {
    && calls[k].cmd.CWithdraw? && Attempt(calls, k).Some?
    && var i := FindActive(At(calls, calls[k].r0).instances, calls[k].cmd.c).value;
       i < |At(calls, k).instances| && !At(calls, k).instances[i].active
  }

  ghost predicate EndedKept(a: Db, b: Db) {
    && |a.instances| <= |b.instances|
    && forall i :: 0 <= i < |a.instances| && !a.instances[i].active ==> b.instances[i] == a.instances[i]
  }

  /** One call keeps ended instances exactly when it is not such a withdrawal. */
  lemma {:induction false} EndedKeptByCall(calls: seq<Call>, k: nat)
    requires Schedule(calls) && k < |calls|
    ensures EndedKept(At(calls, k), At(calls, k + 1)) <==> !WithdrawsEnded(calls, k)
  {
    ReadsObserved(calls, k);
    if Attempt(calls, k).Some? && !calls[k].cmd.CWithdraw? {
      var call := calls[k];
      LiveCommandsKeepEnded(call.cmd, At(calls, call.r0), At(calls, call.r1), At(calls, call.r2), At(calls, k),
                            At(calls, k + 1));
    }
  }

  lemma {:induction false} LiveCommandsKeepEnded(cmd: Command, s0: Db, s1: Db, s2: Db, now: Db, b: Db)
    requires Observed(s0, s1, s2, now) && Try(cmd, s0, s1, s2, now) == Some(b) && !cmd.CWithdraw?
    ensures EndedKept(now, b)
  {
    match cmd
    case CClaim(t, _, _) =>
      assert TaskOk(now, t);
      assert now.tasks[t].instance < |now.instances| ==> InstanceOk(now, now.tasks[t].instance);
    case CCorrection(t, _, _) => assert TaskOk(now, t);
    case _ =>
  }

  /** Over a whole run, an ended instance never changes again if and only if every
    * withdrawal's transaction found its instance still active. */
  lemma {:induction false} EndedInstancesFrozenIff(calls: seq<Call>)
    requires Schedule(calls)
    ensures EndedFrozen(Trace(calls)) <==> forall k: nat :: k < |calls| ==> !WithdrawsEnded(calls, k)
  {
    var trace := Trace(calls);
    forall k: nat | k < |calls| ensures EndedKept(trace[k], trace[k + 1]) <==> !WithdrawsEnded(calls, k) {
      EndedKeptByCall(calls, k);
    }
    if EndedFrozen(trace) {
      forall k: nat | k < |calls| ensures !WithdrawsEnded(calls, k) {
        assert EndedKept(trace[k], trace[k + 1]);
      }
    }
    if forall k: nat :: k < |calls| ==> !WithdrawsEnded(calls, k) {
      forall j: nat, k: nat | j <= k < |trace| ensures EndedKept(trace[j], trace[k]) {
        EndedKeptAlong(trace, j, k);
      }
    }
  }

  ghost predicate EndedFrozen(trace: seq<Db>) {
    forall j: nat, k: nat :: j <= k < |trace| ==> EndedKept(trace[j], trace[k])
  }

  ghost function Trace(calls: seq<Call>): (r: seq<Db>)
    requires Schedule(calls)
    ensures |r| == |calls| + 1
    ensures forall k: nat :: k <= |calls| ==> r[k] == At(calls, k)
  {
    seq(|calls| + 1, k requires 0 <= k <= |calls| => At(calls, k))
  }

  lemma {:induction false} EndedKeptAlong(trace: seq<Db>, j: nat, k: nat)
    requires j <= k < |trace|
    requires forall m :: j <= m < k ==> EndedKept(trace[m], trace[m + 1])
    ensures EndedKept(trace[j], trace[k])
  {
    if j < k {
      EndedKeptAlong(trace, j, k - 1);
      assert EndedKept(trace[k - 1], trace[k - 1 + 1]);
    }
  }

  const OPEN_CONTENT := Content(false, false, false, 0)
  const FOUR_EYES := Content(true, false, false, 0)

  /** Start a workflow; case.cancelled ends it after the withdrawal read it and before it wrote. */
  const RACED_WITHDRAWAL := [
    Call(CCreateVersion(OPEN_CONTENT), 0, 0, 0), Call(CPublish(0), 1, 1, 1), Call(CStart(7, 0), 2, 2, 2),
    Call(CCaseCancelled(7), 3, 3, 3), Call(CWithdraw(7, 1), 3, 3, 3)]

  /** The first three calls of both counterexamples: create a version, publish it, start a workflow. */
  lemma {:induction false} StartedWith(calls: seq<Call>, content: Content)
    requires Schedule(calls) && |calls| >= 3
    requires calls[0].cmd == CCreateVersion(content)
    requires calls[1].cmd == CPublish(0) && calls[2].cmd == CStart(7, 0) && calls[2].r1 == 2
    ensures At(calls, 1) == EMPTY.(versions := [Version(Draft, content)])
    ensures At(calls, 2) == EMPTY.(versions := [Version(Published, content)])
    ensures At(calls, 3) == At(calls, 2).(instances := [Instance(7, 0, 1, NotStarted, true, None, None, None, None, 1)])
  {
    var (draft, published) := (Version(Draft, content), Version(Published, content));
    var row := Instance(7, 0, 1, NotStarted, true, None, None, None, None, 1);
    assert EMPTY.versions + [draft] == [draft] && [draft][0 := published] == [published];
    assert EMPTY.instances + [row] == [row];
    assert Attempt(calls, 0) == Some(CreateVersion(EMPTY, content));
    assert Attempt(calls, 1) == SetStatus(At(calls, 1), 0, Draft, Published);
    assert Attempt(calls, 2) == StartTransaction(At(calls, 2), 7, 0);
  }

  /** Without that condition an ended instance does change: here CANCELLED becomes WITHDRAWN. */
  lemma {:induction false} EndedInstanceCanChange(calls: seq<Call>)
    requires calls == RACED_WITHDRAWAL
    ensures Schedule(calls)
    ensures |At(calls, 4).instances| == 1 == |At(calls, 5).instances|
    ensures At(calls, 4).instances[0].state == Cancelled
    ensures At(calls, 5).instances[0].state == Withdrawn
  {
    StartedWith(calls, OPEN_CONTENT);
    WithdrawnAfterCancel(calls, 3);
  }

  lemma {:induction false} WithdrawnAfterCancel(calls: seq<Call>, k: nat)
    requires Schedule(calls) && k + 1 < |calls|
    requires calls[k].cmd == CCaseCancelled(7) && calls[k + 1].cmd == CWithdraw(7, 1) && calls[k + 1].r0 == k
    requires At(calls, k).instances == [Instance(7, 0, 1, NotStarted, true, None, None, None, None, 1)]
    ensures |At(calls, k + 1).instances| == 1 && At(calls, k + 1).instances[0].state == Cancelled
    ensures |At(calls, k + 2).instances| == 1 && At(calls, k + 2).instances[0].state == Withdrawn
  {
    CancelThenWithdraw(At(calls, k));
    assert Attempt(calls, k) == CaseCancelled(At(calls, k), 7);
    assert Attempt(calls, k + 1) == Withdraw(At(calls, k), At(calls, k + 1), 7, 1);
  }

  lemma {:induction false} CancelThenWithdraw(s: Db)
    requires s.instances == [Instance(7, 0, 1, NotStarted, true, None, None, None, None, 1)]
    ensures CaseCancelled(s, 7) == Some(End(s, 0, Cancelled))
    ensures Withdraw(s, End(s, 0, Cancelled), 7, 1) == Some(End(End(s, 0, Cancelled), 0, Withdrawn))
    ensures End(s, 0, Cancelled).instances[0].state == Cancelled
    ensures End(End(s, 0, Cancelled), 0, Withdrawn).instances[0].state == Withdrawn
  {
    assert FindActive(s.instances, 7) == Some(0);
  }

  // ---------------------------------------------------------------- published versions and separation of duties

  /** Call k is an updateVersion whose write finds the version no longer a draft. */
  ghost predicate LateWrite(calls: seq<Call>, k: nat)
    requires Schedule(calls) && k < |calls|
  {
    && calls[k].cmd.CUpdateVersion? && Attempt(calls, k).Some?
    && At(calls, k).versions[calls[k].cmd.ver].status != Draft
  }

  /** ... and writes something else than it finds. */
  ghost predicate Overwrites(calls: seq<Call>, k: nat)
    requires Schedule(calls) && k < |calls|
  {
    LateWrite(calls, k) && calls[k].cmd.content != At(calls, k).versions[calls[k].cmd.ver].content
  }

  ghost predicate ContentKept(a: Db, b: Db) {
    && |a.versions| <= |b.versions|
    && forall v :: 0 <= v < |a.versions| && a.versions[v].status != Draft
         ==> b.versions[v].status != Draft && b.versions[v].content == a.versions[v].content
  }

  lemma {:induction false} ContentKeptByCall(calls: seq<Call>, k: nat)
    requires Schedule(calls) && k < |calls|
    ensures ContentKept(At(calls, k), At(calls, k + 1)) <==> !Overwrites(calls, k)
  {
    ReadsObserved(calls, k);
  }

  /** Published and retired versions keep their content throughout a run if and only if no
    * updateVersion wrote, with a draft status it had read earlier, into one of them. */
  lemma {:induction false} VersionsFrozenIff(calls: seq<Call>)
    requires Schedule(calls)
    ensures ContentFrozen(Trace(calls)) <==> forall k: nat :: k < |calls| ==> !Overwrites(calls, k)
  {
    var trace := Trace(calls);
    forall k: nat | k < |calls| ensures ContentKept(trace[k], trace[k + 1]) <==> !Overwrites(calls, k) {
      ContentKeptByCall(calls, k);
    }
    if ContentFrozen(trace) {
      forall k: nat | k < |calls| ensures !Overwrites(calls, k) {
        assert ContentKept(trace[k], trace[k + 1]);
      }
    }
    if forall k: nat :: k < |calls| ==> !Overwrites(calls, k) {
      forall j: nat, k: nat | j <= k < |trace| ensures ContentKept(trace[j], trace[k]) {
        ContentKeptAlong(trace, j, k);
      }
    }
  }

  ghost predicate ContentFrozen(trace: seq<Db>) {
    forall j: nat, k: nat :: j <= k < |trace| ==> ContentKept(trace[j], trace[k])
  }

  lemma {:induction false} ContentKeptAlong(trace: seq<Db>, j: nat, k: nat)
    requires j <= k < |trace|
    requires forall m :: j <= m < k ==> ContentKept(trace[m], trace[m + 1])
    ensures ContentKept(trace[j], trace[k])
  {
    if j < k {
      ContentKeptAlong(trace, j, k - 1);
      assert ContentKept(trace[k - 1], trace[k - 1 + 1]);
    }
  }

  /** updateVersion reads a draft, the draft is published and a workflow starts, then the write lands. */
  const RACED_UPDATE := [
    Call(CCreateVersion(FOUR_EYES), 0, 0, 0), Call(CPublish(0), 1, 1, 1), Call(CStart(7, 0), 2, 2, 2),
    Call(CUpdateVersion(0, OPEN_CONTENT), 1, 1, 1)]

  /** So the duty flags of a running workflow can change: here four-eyes is switched off. */
  lemma {:induction false} DutyFlagsCanChange(calls: seq<Call>)
    requires calls == RACED_UPDATE
    ensures Schedule(calls)
    ensures At(calls, 3).versions == [Version(Published, FOUR_EYES)]
    ensures |At(calls, 3).instances| == 1 && At(calls, 3).instances[0].active
    ensures At(calls, 3).instances[0].version == 0
    ensures At(calls, 4).versions == [Version(Published, OPEN_CONTENT)]
  {
    StartedWith(calls, FOUR_EYES);
    var started := At(calls, 3);
    var (before, after) := (Version(Published, FOUR_EYES), Version(Published, OPEN_CONTENT));
    assert [before][0 := after] == [after];
    assert Attempt(calls, 3) == UpdateVersion(At(calls, 1), started, 0, OPEN_CONTENT);
  }

  lemma {:induction false} OnlyDecideDecides(calls: seq<Call>, k: nat)
    requires Schedule(calls) && k < |calls| && At(calls, k + 1).decisions != At(calls, k).decisions
    ensures calls[k].cmd.CDecide? && Attempt(calls, k).Some?
    ensures |At(calls, k + 1).decisions| == |At(calls, k).decisions| + 1
    ensures At(calls, k + 1) == Attempt(calls, k).value
  {
  }
}
