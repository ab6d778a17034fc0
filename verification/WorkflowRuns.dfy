/** Every command keeps the invariant, whatever happened between its reads and its write. */
module WorkflowRuns {
  import opened Common
  import opened WorkflowModel
  import opened WorkflowInvariants

  /** The reads of a command are sound earlier states, in order. */
  ghost predicate Observed(s0: Db, s1: Db, s2: Db, now: Db) {
    && Inv(now)
    && Extends(s0, s1) && Extends(s1, s2) && Extends(s2, now)
    && Extends(s0, now) && Extends(s1, now)
  }

  /** A row read at an earlier moment is still the row if its version is. */
  lemma RowUnchanged(s: Db, now: Db, i: nat)
    requires Extends(s, now) && i < |s.instances| && s.instances[i].rowVersion == now.instances[i].rowVersion
    ensures s.instances[i] == now.instances[i]
    ensures LastReview(s.reviews, i) == LastReview(now.reviews, i)
  {
    assert InstanceKept(s, now, i);
  }

  /** Between two states in which the row is the same, no intermediate read saw anything else. */
  lemma ReviewsUnchanged(s0: Db, s2: Db, now: Db, i: nat)
    requires Extends(s0, s2) && Extends(s2, now) && i < |s0.instances|
    requires s0.instances[i].rowVersion == now.instances[i].rowVersion
    ensures s2.instances[i] == now.instances[i] && LastReview(s2.reviews, i) == LastReview(now.reviews, i)
  {
    assert InstanceKept(s0, s2, i) && InstanceKept(s2, now, i);
  }

  // ---------------------------------------------------------------- one lemma a command

  lemma StartKeepsInv(s1: Db, now: Db, c: CaseId, ver: nat, b: Db)
    requires Inv(now) && Extends(s1, now) && Start(s1, now, c, ver) == Some(b)
    ensures Inv(b) && Extends(now, b)
  {
    var n := |now.instances|;
    forall i | 0 <= i < n ensures now.instances[i].cycle == CountCase(now.instances[..i + 1], now.instances[i].caseId) {
      assert CycleOk(now.instances, i);
    }
    MaxCycleIsCount(now.instances, c);
    assert b.instances[..n] == now.instances;
    forall i | 0 <= i < |b.instances| ensures InstanceOk(b, i) && CycleOk(b.instances, i) {
      if i < n {
        assert InstanceOk(now, i) && CycleOk(now.instances, i);
        assert b.instances[..i + 1] == now.instances[..i + 1];
      } else {
        assert b.instances[..i + 1] == b.instances;
      }
    }
    forall i | 0 <= i < n ensures InstanceKept(now, b, i) {}
    forall t | 0 <= t < |b.tasks| ensures TaskOk(b, t) { assert TaskOk(now, t); }
    GrownInstancesKeepRecords(now, b);
  }

  lemma GrownInstancesKeepRecords(a: Db, b: Db)
    requires Inv(a) && b == a.(instances := b.instances) && a.instances <= b.instances
    ensures forall q :: 0 <= q < |b.runs| ==> RunOk(b, q)
    ensures forall v :: 0 <= v < |b.reviews| ==> ReviewOk(b, v)
    ensures forall r :: 0 <= r < |b.recs| ==> RecOk(b, r)
    ensures forall d :: 0 <= d < |b.decisions| ==> DecisionOk(b, d)
  {
    forall q | 0 <= q < |b.runs| ensures RunOk(b, q) { assert RunOk(a, q); }
    forall v | 0 <= v < |b.reviews| ensures ReviewOk(b, v) { assert ReviewOk(a, v); }
    forall r | 0 <= r < |b.recs| ensures RecOk(b, r) {
      assert RecOk(a, r);
      var v: nat :| Follows(a, r, v);
      assert Follows(b, r, v);
    }
    forall d | 0 <= d < |b.decisions| ensures DecisionOk(b, d) { assert DecisionOk(a, d); }
  }

  lemma ValidateTouches(now: Db, i: nat, expected: nat, snapshot: seq<Item>, pass: bool, b: Db)
    requires Inv(now) && ValidateTransaction(now, i, expected, snapshot, pass) == Some(b)
    ensures Touches(now, b, i)
  {
    assert InstanceOk(now, i);
    forall t | 0 <= t < |b.tasks| && b.tasks[t].instance == i ensures TaskOk(b, t) {}
  }

  lemma ClaimKeepsInv(s0: Db, now: Db, t: nat, taskVersion: nat, user: User, b: Db)
    requires Inv(now) && Extends(s0, now) && Claim(s0, now, t, taskVersion, user) == Some(b)
    ensures Inv(b) && Extends(now, b)
  {
    var i := now.tasks[t].instance;
    assert TaskOk(now, t);
    if b.instances == now.instances {
      TasksOnlyKeepInv(now, b);
    } else {
      assert InstanceOk(now, i);
      forall k | 0 <= k < |b.tasks| && b.tasks[k].instance == i ensures TaskOk(b, k) { assert TaskOk(now, k); }
      TouchKeepsInv(now, b, i);
    }
  }

  /** A review transaction that commits acts on the run, row and task that are current. */
  lemma ReviewReads(s0: Db, s1: Db, s2: Db, now: Db, t: nat, wv: nat, tv: nat, user: User, ready: bool,
                    selected: seq<nat>, current: seq<Item>, b: Db)
    requires Observed(s0, s1, s2, now)
    requires SubmitReview(s0, s1, s2, now, t, wv, tv, user, ready, selected, current) == Some(b)
    ensures t < |now.tasks| && t < |s0.tasks| && Open(now.tasks[t]) && now.tasks[t].kind == ReviewCase
    ensures s0.tasks[t].instance == now.tasks[t].instance < |s1.instances|
    ensures var i := now.tasks[t].instance;
            && i < |now.instances| && now.instances[i] == s1.instances[i]
            && now.instances[i].active && now.instances[i].activeTask == Some(t)
            && now.instances[i].state in {ReadyForReview, UnderReview}
            && CurrentValidation(s2, s1.instances[i]) == CurrentValidation(now, now.instances[i])
            && CurrentValidation(now, now.instances[i]).Some?
            && var q := now.instances[i].currentRun.value;
               RestsOn(now, i, q, s2.runs[q].snapshot)
               && ReviewTransaction(now, t, i, wv, tv, user, ready, q, s2.runs[q].snapshot) == Some(b)
  {
    var i := s0.tasks[t].instance;
    RowUnchanged(s1, now, i);
    assert TaskOk(now, t) && InstanceOk(now, i);
  }

  lemma ReviewKeepsInv(s0: Db, s1: Db, s2: Db, now: Db, t: nat, wv: nat, tv: nat, user: User, ready: bool,
                       selected: seq<nat>, current: seq<Item>, b: Db)
    requires Observed(s0, s1, s2, now)
    requires SubmitReview(s0, s1, s2, now, t, wv, tv, user, ready, selected, current) == Some(b)
    ensures Inv(b) && Extends(now, b)
  {
    ReviewReads(s0, s1, s2, now, t, wv, tv, user, ready, selected, current, b);
    var i := now.tasks[t].instance;
    ReviewTouches(now, t, i, wv, tv, user, ready, now.instances[i].currentRun.value,
                  now.runs[now.instances[i].currentRun.value].snapshot, b);
    TouchKeepsInv(now, b, i);
  }

  lemma ReviewTouches(now: Db, t: nat, i: nat, wv: nat, tv: nat, user: User, ready: bool, q: nat, pinned: seq<Item>,
                      b: Db)
    requires Inv(now) && ReviewTransaction(now, t, i, wv, tv, user, ready, q, pinned) == Some(b)
    requires now.tasks[t].instance == i && RestsOn(now, i, q, pinned) && now.instances[i].currentRun == Some(q)
    ensures Touches(now, b, i)
  {
    assert InstanceOk(now, i) && TaskOk(now, t);
    forall k | 0 <= k < |b.tasks| && b.tasks[k].instance == i ensures TaskOk(b, k) {
      if k < |now.tasks| { assert TaskOk(now, k); }
    }
    LastReviewOfPrefix(now.reviews, b.reviews[|now.reviews|], i);
  }

  lemma CorrectionKeepsInv(s0: Db, s1: Db, now: Db, t: nat, wv: nat, tv: nat, b: Db)
    requires Inv(now) && Extends(s0, now) && RequestCorrection(s0, s1, now, t, wv, tv) == Some(b)
    ensures Inv(b) && Extends(now, b)
  {
    var i := now.tasks[t].instance;
    assert TaskOk(now, t) && InstanceOk(now, i);
    forall k | 0 <= k < |b.tasks| && b.tasks[k].instance == i ensures TaskOk(b, k) {
      if k < |now.tasks| { assert TaskOk(now, k); }
    }
    TouchKeepsInv(now, b, i);
  }

  /** A recommendation that commits acts on the row and run that are current. */
  lemma RecommendReads(s0: Db, s1: Db, s2: Db, now: Db, c: CaseId, wv: nat, user: User, outcome: RecOutcome,
                       current: seq<Item>, b: Db)
    requires Observed(s0, s1, s2, now)
    requires Recommend(s0, s1, now, c, wv, user, outcome, current) == Some(b)
    ensures var i := FindActive(s0.instances, c).value;
            && i < |now.instances| && now.instances[i] == s0.instances[i] && now.instances[i].active
            && CurrentValidation(s1, s0.instances[i]) == CurrentValidation(now, now.instances[i])
            && CurrentValidation(now, now.instances[i]).Some?
            && var q := now.instances[i].currentRun.value;
               RestsOn(now, i, q, s1.runs[q].snapshot)
               && RecommendTransaction(now, i, wv, user, outcome, q, s1.runs[q].snapshot) == Some(b)
  {
    var i := FindActive(s0.instances, c).value;
    RowUnchanged(s0, now, i);
    assert InstanceOk(now, i);
  }

  lemma RecommendTouches(now: Db, i: nat, wv: nat, user: User, outcome: RecOutcome, q: nat, pinned: seq<Item>, b: Db)
    requires Inv(now) && RecommendTransaction(now, i, wv, user, outcome, q, pinned) == Some(b)
    requires RestsOn(now, i, q, pinned) && now.instances[i].currentRun == Some(q)
    ensures Touches(now, b, i)
  {
    assert InstanceOk(now, i);
    forall k | 0 <= k < |b.tasks| && b.tasks[k].instance == i ensures TaskOk(b, k) {
      if k < |now.tasks| { assert TaskOk(now, k); }
    }
    var n := |now.recs|;
    assert Follows(b, n, LastReview(now.reviews, i).value);
    assert RecOk(b, n);
  }

  /** A decision that commits acts on the row, run, recommendation, task and reviewer that are current. */
  lemma DecideReads(s0: Db, s1: Db, s2: Db, now: Db, c: CaseId, approved: bool, wv: nat, tv: nat, user: User,
                    current: seq<Item>, b: Db)
    requires Observed(s0, s1, s2, now)
    requires Decide(s0, s1, s2, now, c, approved, wv, tv, user, current) == Some(b)
    ensures var i := FindActive(s0.instances, c).value;
            && i < |now.instances| && now.instances[i] == s0.instances[i]
            && now.instances[i].active && now.instances[i].caseId == c
            && now.instances[i].activeTask.Some? && now.instances[i].currentRec.Some?
            && CurrentValidation(s1, s0.instances[i]) == CurrentValidation(now, now.instances[i])
            && CurrentValidation(now, now.instances[i]).Some?
            && var (t, r, q) := (now.instances[i].activeTask.value, now.instances[i].currentRec.value,
                                 now.instances[i].currentRun.value);
               && r < |now.recs| && s1.recs[r] == now.recs[r]
               && t < |now.tasks| && Open(now.tasks[t]) && now.tasks[t].kind == ApproveDecision
               && Reviewer(s2.reviews, i) == Reviewer(now.reviews, i)
               && RestsOn(now, i, q, s1.runs[q].snapshot)
               && now.instances[i].version < |s1.versions|
               && DutiesSeparate(s1.versions[now.instances[i].version].content, now.recs[r].actor,
                                 Reviewer(now.reviews, i), s1.runs[q].snapshot, user)
               && DecideTransaction(now, i, t, wv, tv, c, approved, user, r, q, s1.runs[q].snapshot) == Some(b)
  {
    var i := FindActive(s0.instances, c).value;
    RowUnchanged(s0, now, i);
    ExtendsTransitive(s0, s1, s2);
    ReviewsUnchanged(s0, s2, now, i);
    assert InstanceOk(now, i);
    assert s1.reviews <= s2.reviews && s2.reviews <= now.reviews;
  }

  lemma DecideTouches(now: Db, i: nat, t: nat, wv: nat, tv: nat, c: CaseId, approved: bool, user: User, r: nat, q: nat,
                      pinned: seq<Item>, b: Db)
    requires Inv(now) && DecideTransaction(now, i, t, wv, tv, c, approved, user, r, q, pinned) == Some(b)
    requires RestsOn(now, i, q, pinned) && now.instances[i].currentRun == Some(q) && now.instances[i].caseId == c
    requires now.instances[i].currentRec == Some(r) && now.instances[i].activeTask == Some(t)
    ensures Touches(now, b, i)
  {
    assert InstanceOk(now, i) && TaskOk(now, t);
    forall k | 0 <= k < |b.tasks| && b.tasks[k].instance == i ensures TaskOk(b, k) { assert TaskOk(now, k); }
    assert DecisionOk(b, |now.decisions|);
  }

  lemma RecommendKeepsInv(s0: Db, s1: Db, s2: Db, now: Db, c: CaseId, wv: nat, user: User, outcome: RecOutcome,
                          current: seq<Item>, b: Db)
    requires Observed(s0, s1, s2, now)
    requires Recommend(s0, s1, now, c, wv, user, outcome, current) == Some(b)
    ensures Inv(b) && Extends(now, b)
  {
    RecommendReads(s0, s1, s2, now, c, wv, user, outcome, current, b);
    var i := FindActive(s0.instances, c).value;
    var q := now.instances[i].currentRun.value;
    RecommendTouches(now, i, wv, user, outcome, q, s1.runs[q].snapshot, b);
    TouchKeepsInv(now, b, i);
  }

  lemma DecideKeepsInv(s0: Db, s1: Db, s2: Db, now: Db, c: CaseId, approved: bool, wv: nat, tv: nat, user: User,
                       current: seq<Item>, b: Db)
    requires Observed(s0, s1, s2, now)
    requires Decide(s0, s1, s2, now, c, approved, wv, tv, user, current) == Some(b)
    ensures Inv(b) && Extends(now, b)
  {
    DecideReads(s0, s1, s2, now, c, approved, wv, tv, user, current, b);
    var i := FindActive(s0.instances, c).value;
    var row := now.instances[i];
    DecideTouches(now, i, row.activeTask.value, wv, tv, c, approved, user, row.currentRec.value,
                  row.currentRun.value, s1.runs[row.currentRun.value].snapshot, b);
    TouchKeepsInv(now, b, i);
  }

  /** Ending is sound whether or not the instance is still active. */
  lemma EndTouches(now: Db, i: nat, state: State)
    requires Inv(now) && i < |now.instances| && state in {Withdrawn, Cancelled}
    ensures Touches(now, End(now, i, state), i)
  {
    var b := End(now, i, state);
    assert InstanceOk(now, i);
    forall k | 0 <= k < |b.tasks| && b.tasks[k].instance == i ensures TaskOk(b, k) { assert TaskOk(now, k); }
  }

  // ---------------------------------------------------------------- every command, every run

  lemma TryKeepsInv(cmd: Command, s0: Db, s1: Db, s2: Db, now: Db, b: Db)
    requires Observed(s0, s1, s2, now) && Try(cmd, s0, s1, s2, now) == Some(b)
    ensures Inv(b) && Extends(now, b)
  {
    match cmd
    case CCreateVersion(_) => VersionsOnlyKeepInv(now, b);
    case CUpdateVersion(_, _) => VersionsOnlyKeepInv(now, b);
    case CPublish(_) => VersionsOnlyKeepInv(now, b);
    case CRetire(_) => VersionsOnlyKeepInv(now, b);
    case CStart(c, ver) => StartKeepsInv(s1, now, c, ver, b);
    case CReopen(c, chosen) =>
      var prior := LatestEnded(s0.instances, c);
      StartKeepsInv(s1, now, c, if chosen.Some? then chosen.value else s0.instances[prior.value].version, b);
    case CAutoStart(c, ver) =>
      ExtendsReflexive(now);
      StartKeepsInv(now, now, c, ver, b);
    case CValidate(c, expected, snapshot, pass) =>
      var i := FindActive(s0.instances, c).value;
      ValidateTouches(now, i, expected, snapshot, pass, b);
      TouchKeepsInv(now, b, i);
    case CClaim(t, tv, user) => ClaimKeepsInv(s0, now, t, tv, user, b);
    case CAssign(_, _, _) => TasksOnlyKeepInv(now, b);
    case CReview(t, wv, tv, user, ready, selected, current) =>
      ReviewKeepsInv(s0, s1, s2, now, t, wv, tv, user, ready, selected, current, b);
    case CCorrection(t, wv, tv) => CorrectionKeepsInv(s0, s1, now, t, wv, tv, b);
    case CResubmit(_, _) => TasksOnlyKeepInv(now, b);
    case CRecommend(c, wv, user, outcome, current) =>
      RecommendKeepsInv(s0, s1, s2, now, c, wv, user, outcome, current, b);
    case CDecide(c, approved, wv, tv, user, current) =>
      DecideKeepsInv(s0, s1, s2, now, c, approved, wv, tv, user, current, b);
    case CWithdraw(c, expected) =>
      EndTouches(now, FindActive(s0.instances, c).value, Withdrawn);
      TouchKeepsInv(now, b, FindActive(s0.instances, c).value);
    case CCaseCancelled(c) =>
      EndTouches(now, FindActive(now.instances, c).value, Cancelled);
      TouchKeepsInv(now, b, FindActive(now.instances, c).value);
    case CExpire(_) => TasksOnlyKeepInv(now, b);
  }

  lemma ExtendsReflexive(a: Db)
    ensures Extends(a, a)
  {
    forall i | 0 <= i < |a.instances| ensures InstanceKept(a, a, i) {}
  }

  lemma {:induction false} CallKeeps(calls: seq<Call>, k: nat)
    requires Schedule(calls) && k < |calls|
    requires Observed(At(calls, calls[k].r0), At(calls, calls[k].r1), At(calls, calls[k].r2), At(calls, k))
    ensures Inv(At(calls, k + 1)) && Extends(At(calls, k), At(calls, k + 1))
  {
    var call := calls[k];
    var result := Attempt(calls, k);
    if result.Some? {
      TryKeepsInv(call.cmd, At(calls, call.r0), At(calls, call.r1), At(calls, call.r2), At(calls, k), result.value);
    } else {
      ExtendsReflexive(At(calls, k));
    }
  }

  /** In every interleaving of any number of actors, every state is sound and only extends earlier ones. */
  lemma {:induction false} EveryRun(calls: seq<Call>, k: nat)
    requires Schedule(calls) && k <= |calls|
    ensures Inv(At(calls, k))
    ensures forall j: nat :: j <= k ==> Extends(At(calls, j), At(calls, k))
    decreases k, 0
  {
    ExtendsReflexive(At(calls, k));
    if k > 0 {
      EveryRun(calls, k - 1);
      ReadsObserved(calls, k - 1);
      CallKeeps(calls, k - 1);
      forall j: nat | j <= k ensures Extends(At(calls, j), At(calls, k)) {
        if j < k { ExtendsTransitive(At(calls, j), At(calls, k - 1), At(calls, k)); }
      }
    }
  }

  lemma {:induction false} ReadsObserved(calls: seq<Call>, k: nat)
    requires Schedule(calls) && k < |calls|
    ensures Observed(At(calls, calls[k].r0), At(calls, calls[k].r1), At(calls, calls[k].r2), At(calls, k))
    decreases k, 1
  {
    EveryRun(calls, calls[k].r1);
    EveryRun(calls, calls[k].r2);
    EveryRun(calls, k);
  }
}
