/** Separation of duties: exactly when a decision respects the duty flags of its version. */
module WorkflowDuties {
  import opened Common
  import opened WorkflowModel
  import opened WorkflowInvariants
  import opened WorkflowRuns
  import opened WorkflowTheorems

  /** Under these flags, decision d was made by somebody who must not: its recommendation's author,
    * the author of the review that recommendation followed, or a creator of pinned evidence. */
  ghost predicate Forbids(content: Content, s: Db, d: nat)
    requires d < |s.decisions|
  {
    var x := s.decisions[d];
    && x.rec < |s.recs|
    && (|| (content.fourEyes && x.decidedBy == s.recs[x.rec].actor)
        || (content.prohibitReviewer && exists v: nat :: Follows(s, x.rec, v) && x.decidedBy == s.reviews[v].actor)
        || (content.prohibitSubmitter && exists item :: item in x.snapshot && x.decidedBy == item.createdBy))
  }

  /** The decision respects the flags its version has now. */
  ghost predicate Separated(s: Db, d: nat)
    requires d < |s.decisions|
  {
    var x := s.decisions[d];
    && x.instance < |s.instances| && s.instances[x.instance].version < |s.versions|
    && !Forbids(s.versions[s.instances[x.instance].version].content, s, d)
  }

  // ---------------------------------------------------------------- what decide checked

  /** Call k made decision d of the state at m, and read version v with this content. */
  ghost predicate Made(calls: seq<Call>, k: nat, m: nat, d: nat, v: nat)
    requires Schedule(calls)
  {
    && k < m <= |calls| && calls[k].cmd.CDecide? && Attempt(calls, k).Some?
    && |At(calls, k).decisions| == d < |At(calls, m).decisions|
    && At(calls, m).decisions[d].instance < |At(calls, m).instances|
    && At(calls, m).instances[At(calls, m).decisions[d].instance].version == v
    && v < |At(calls, calls[k].r1).versions| && At(calls, calls[k].r1).versions[v].status != Draft
  }

  /** Every decision was made by some call. */
  lemma {:induction false} MadeByCall(calls: seq<Call>, m: nat, d: nat) returns (k: nat)
    requires Schedule(calls) && m <= |calls| && d < |At(calls, m).decisions|
    ensures k < m && calls[k].cmd.CDecide? && Attempt(calls, k).Some? && |At(calls, k).decisions| == d
  {
    if d < |At(calls, m - 1).decisions| {
      k := MadeByCall(calls, m - 1, d);
    } else {
      k := m - 1;
      OnlyDecideDecides(calls, k);
    }
  }

  /** With the flags it read, the decision was admissible in the state its transaction left. */
  lemma {:induction false} AdmissibleWhenMade(calls: seq<Call>, k: nat)
    requires Schedule(calls) && k < |calls| && calls[k].cmd.CDecide? && Attempt(calls, k).Some?
    ensures var (d, read, b) := (|At(calls, k).decisions|, At(calls, calls[k].r1), At(calls, k + 1));
            && |b.decisions| == d + 1 && b.decisions[d].instance < |b.instances|
            && var v := b.instances[b.decisions[d].instance].version;
               v < |read.versions| && read.versions[v].status != Draft && !Forbids(read.versions[v].content, b, d)
  {
    ReadsObserved(calls, k);
    var (now, b, call) := (At(calls, k), Attempt(calls, k).value, calls[k]);
    var (s0, s1, s2) := (At(calls, call.r0), At(calls, call.r1), At(calls, call.r2));
    var CDecide(c, approved, wv, tv, user, current) := call.cmd;
    DecideReads(s0, s1, s2, now, c, approved, wv, tv, user, current, b);
    var i := FindActive(s0.instances, c).value;
    var x := b.decisions[|now.decisions|];
    assert InstanceOk(now, i);
    EveryRun(calls, call.r0);
    assert InstanceOk(s0, i);
    forall v: nat | Follows(b, x.rec, v) ensures Some(b.reviews[v].actor) == Reviewer(now.reviews, i) {
      assert v == LastReview(now.reviews, i).value;
    }
    DutiesAdmit(s1.versions[now.instances[i].version].content, b, |now.decisions|, Reviewer(now.reviews, i));
  }

  lemma DutiesAdmit(content: Content, s: Db, d: nat, reviewer: Option<User>)
    requires d < |s.decisions| && s.decisions[d].rec < |s.recs|
    requires DutiesSeparate(content, s.recs[s.decisions[d].rec].actor, reviewer, s.decisions[d].snapshot,
                            s.decisions[d].decidedBy)
    requires forall v: nat :: Follows(s, s.decisions[d].rec, v) ==> Some(s.reviews[v].actor) == reviewer
    ensures !Forbids(content, s, d)
  {
  }

  /** Who made a decision, on what recommendation and after which review, never changes. */
  lemma {:induction false} ForbidsStays(content: Content, a: Db, b: Db, d: nat)
    requires Inv(a) && Inv(b) && Extends(a, b) && d < |a.decisions|
    ensures Forbids(content, a, d) <==> Forbids(content, b, d)
  {
    var x := a.decisions[d];
    assert b.decisions[d] == x;
    assert DecisionOk(a, d) && RecOk(a, x.rec);
    var w: nat :| Follows(a, x.rec, w);
    assert Follows(b, x.rec, w);
    forall v: nat ensures Follows(a, x.rec, v) <==> v == w {}
    forall v: nat ensures Follows(b, x.rec, v) <==> v == w {}
  }

  lemma {:induction false} AdmissibleEverAfter(calls: seq<Call>, k: nat, m: nat, d: nat) returns (v: nat)
    requires Schedule(calls) && k < m <= |calls| && calls[k].cmd.CDecide? && Attempt(calls, k).Some?
    requires |At(calls, k).decisions| == d
    ensures Made(calls, k, m, d, v) && !Forbids(At(calls, calls[k].r1).versions[v].content, At(calls, m), d)
  {
    AdmissibleWhenMade(calls, k);
    EveryRun(calls, k + 1);
    EveryRun(calls, m);
    var (a, b) := (At(calls, k + 1), At(calls, m));
    assert Extends(a, b);
    var i := a.decisions[d].instance;
    v := a.instances[i].version;
    assert InstanceKept(a, b, i);
    ForbidsStays(At(calls, calls[k].r1).versions[v].content, a, b, d);
  }

  // ---------------------------------------------------------------- what wrote the flags

  ghost predicate Updates(calls: seq<Call>, k: nat, v: nat)
    requires Schedule(calls) && k < |calls|
  {
    calls[k].cmd.CUpdateVersion? && calls[k].cmd.ver == v && Attempt(calls, k).Some?
  }

  /** What each call wrote into version v, if it was an updateVersion of v that was not rejected. */
  ghost function Writes(calls: seq<Call>, v: nat): (r: seq<Option<Content>>)
    requires Schedule(calls)
    ensures |r| == |calls|
    ensures forall k: nat :: k < |calls| ==> r[k] == if Updates(calls, k, v) then Some(calls[k].cmd.content) else None
  {
    seq(|calls|, k requires 0 <= k < |calls| => if Updates(calls, k, v) then Some(calls[k].cmd.content) else None)
  }

  /** The j-th is the last write from a on and before m. */
  ghost predicate LastWrite(writes: seq<Option<Content>>, a: nat, j: nat, m: nat) {
    a <= j < m <= |writes| && writes[j].Some? && forall i :: j < i < m ==> writes[i].None?
  }

  /** Version v in every state of the run; before it exists, any version. */
  ghost function VersionTrace(calls: seq<Call>, v: nat): (r: seq<Version>)
    requires Schedule(calls)
    ensures |r| == |calls| + 1
    ensures forall k: nat :: k <= |calls| && v < |At(calls, k).versions| ==> r[k] == At(calls, k).versions[v]
  {
    seq(|calls| + 1, k requires 0 <= k <= |calls| =>
      if v < |At(calls, k).versions| then At(calls, k).versions[v] else Version(Draft, Content(false, false, false, 0)))
  }

  ghost predicate Follow(trace: seq<Version>, writes: seq<Option<Content>>, k: nat)
    requires k + 1 < |trace| && k < |writes|
  {
    && trace[k + 1].content == (if writes[k].Some? then writes[k].value else trace[k].content)
    && (trace[k].status != Draft ==> trace[k + 1].status != Draft)
  }

  lemma VersionByCommand(cmd: Command, s0: Db, s1: Db, s2: Db, now: Db, b: Db, v: nat)
    requires Try(cmd, s0, s1, s2, now) == Some(b) && v < |now.versions|
    ensures v < |b.versions|
    ensures b.versions[v].content ==
            if cmd.CUpdateVersion? && cmd.ver == v then cmd.content else now.versions[v].content
    ensures now.versions[v].status != Draft ==> b.versions[v].status != Draft
  {
  }

  lemma {:induction false} VersionByCall(calls: seq<Call>, k: nat, v: nat)
    requires Schedule(calls) && k < |calls| && v < |At(calls, k).versions|
    ensures v < |At(calls, k + 1).versions| && Follow(VersionTrace(calls, v), Writes(calls, v), k)
  {
    var (call, result) := (calls[k], Attempt(calls, k));
    if result.Some? {
      VersionByCommand(call.cmd, At(calls, call.r0), At(calls, call.r1), At(calls, call.r2), At(calls, k),
                       result.value, v);
    }
  }

  lemma {:induction false} VersionStays(calls: seq<Call>, v: nat, a: nat, m: nat)
    requires Schedule(calls) && a <= m <= |calls| && v < |At(calls, a).versions|
    ensures v < |At(calls, m).versions|
  {
    EveryRun(calls, m);
    assert Extends(At(calls, a), At(calls, m));
  }

  /** The content of a version is what the last write since some state left, or what it was then. */
  lemma {:induction false} LastWriteWins(trace: seq<Version>, writes: seq<Option<Content>>, a: nat, m: nat)
    requires a <= m < |trace| == |writes| + 1 && forall k: nat :: a <= k < m ==> Follow(trace, writes, k)
    ensures trace[a].status != Draft ==> trace[m].status != Draft
    ensures forall j: nat :: LastWrite(writes, a, j, m) ==> trace[m].content == writes[j].value
    ensures (forall j: nat :: !LastWrite(writes, a, j, m)) ==> trace[m].content == trace[a].content
  {
    if a < m {
      var p := m - 1;
      LastWriteWins(trace, writes, a, p);
      assert Follow(trace, writes, p);
      if writes[p].Some? {
        assert LastWrite(writes, a, p, m);
        forall j: nat | LastWrite(writes, a, j, m) ensures j == p { assert !(j < p); }
      } else {
        forall j: nat | LastWrite(writes, a, j, m) ensures LastWrite(writes, a, j, p) {}
        if forall j: nat :: !LastWrite(writes, a, j, m) {
          forall j: nat ensures !LastWrite(writes, a, j, p) { assert !LastWrite(writes, a, j, m); }
        }
      }
    }
  }

  lemma {:induction false} ContentSince(calls: seq<Call>, v: nat, a: nat, m: nat)
    requires Schedule(calls) && a <= m <= |calls| && v < |At(calls, a).versions|
    ensures v < |At(calls, m).versions|
    ensures At(calls, a).versions[v].status != Draft ==> At(calls, m).versions[v].status != Draft
    ensures forall j: nat :: LastWrite(Writes(calls, v), a, j, m) ==>
              At(calls, m).versions[v].content == Writes(calls, v)[j].value
    ensures (forall j: nat :: !LastWrite(Writes(calls, v), a, j, m)) ==>
              At(calls, m).versions[v].content == At(calls, a).versions[v].content
  {
    var (trace, writes) := (VersionTrace(calls, v), Writes(calls, v));
    forall k: nat | a <= k < m ensures Follow(trace, writes, k) {
      VersionStays(calls, v, a, k);
      VersionByCall(calls, k, v);
    }
    VersionStays(calls, v, a, m);
    LastWriteWins(trace, writes, a, m);
  }

  // ---------------------------------------------------------------- the theorem

  /** Every flag set in b is set in a. */
  predicate NoStricter(a: Content, b: Content) {
    && (b.fourEyes ==> a.fourEyes)
    && (b.prohibitReviewer ==> a.prohibitReviewer)
    && (b.prohibitSubmitter ==> a.prohibitSubmitter)
  }

  lemma {:induction false} NoStricterAdmits(a: Content, b: Content, s: Db, d: nat)
    requires d < |s.decisions| && NoStricter(a, b) && !Forbids(a, s, d)
    ensures !Forbids(b, s, d)
  {
  }

  /** Some update since state a was the last before m and set flags that forbid decision d. */
  ghost predicate ForbiddenSince(s: Db, d: nat, writes: seq<Option<Content>>, a: nat, m: nat)
    requires d < |s.decisions|
  {
    exists j: nat :: LastWrite(writes, a, j, m) && Forbids(writes[j].value, s, d)
  }

  lemma {:induction false} ForbiddenIff(s: Db, d: nat, writes: seq<Option<Content>>, a: nat, m: nat, before: Content,
                                        after: Content)
    requires d < |s.decisions| && !Forbids(before, s, d)
    requires forall j: nat :: LastWrite(writes, a, j, m) ==> after == writes[j].value
    requires (forall j: nat :: !LastWrite(writes, a, j, m)) ==> after == before
    ensures Forbids(after, s, d) <==> ForbiddenSince(s, d, writes, a, m)
  {
    if Forbids(after, s, d) {
      var j: nat :| LastWrite(writes, a, j, m);
      assert Forbids(writes[j].value, s, d);
    }
  }

  /** Every write into v since its read was into a version that was a draft no longer. */
  lemma {:induction false} WritesWereLate(calls: seq<Call>, v: nat, a: nat, j: nat)
    requires Schedule(calls) && a <= j < |calls| && v < |At(calls, a).versions|
             && At(calls, a).versions[v].status != Draft
    requires Writes(calls, v)[j].Some?
    ensures LateWrite(calls, j)
  {
    ContentSince(calls, v, a, j);
  }

  /** In every run and every state m, decision d breaks the duties its version then asks for exactly when the
    * last updateVersion since decide read the flags has set some that forbid its decider.  Every such
    * update found the version no longer a draft.  So as long as no flag is set that was not set when
    * decide read it, the decision respects them all. */
  lemma {:induction false} SeparationOfDuties(calls: seq<Call>, m: nat, d: nat) returns (k: nat, v: nat)
    requires Schedule(calls) && m <= |calls| && d < |At(calls, m).decisions|
    ensures Made(calls, k, m, d, v) && v < |At(calls, m).versions|
    ensures Separated(At(calls, m), d) <==> !ForbiddenSince(At(calls, m), d, Writes(calls, v), calls[k].r1, m)
    ensures forall j: nat :: calls[k].r1 <= j < m && Writes(calls, v)[j].Some? ==> LateWrite(calls, j)
    ensures NoStricter(At(calls, calls[k].r1).versions[v].content, At(calls, m).versions[v].content) ==>
              Separated(At(calls, m), d)
  {
    k := MadeByCall(calls, m, d);
    v := AdmissibleEverAfter(calls, k, m, d);
    var (a, s, writes) := (calls[k].r1, At(calls, m), Writes(calls, v));
    var read := At(calls, a).versions[v].content;
    ContentSince(calls, v, a, m);
    forall j: nat | a <= j < m && writes[j].Some? ensures LateWrite(calls, j) { WritesWereLate(calls, v, a, j); }
    ForbiddenIff(s, d, writes, a, m, read, s.versions[v].content);
    if NoStricter(read, s.versions[v].content) { NoStricterAdmits(read, s.versions[v].content, s, d); }
  }

  // ---------------------------------------------------------------- a run that breaks a duty

  const NOBODY: Option<User> := None

  /** One workflow from its definition to a decision by user 2, who also recommended it.  decide has read
    * the flags when updateVersion, which saw the draft, switches four-eyes on. */
  const AUTHOR_DECIDES := [
    Call(CCreateVersion(OPEN_CONTENT), 0, 0, 0), Call(CPublish(0), 1, 1, 1), Call(CStart(7, 0), 2, 2, 2),
    Call(CValidate(7, 1, [], true), 3, 3, 3), Call(CClaim(0, 1, 1), 4, 4, 4),
    Call(CReview(0, 3, 2, 1, true, [], []), 5, 5, 5), Call(CRecommend(7, 4, 2, RecommendApproval, []), 6, 6, 6),
    Call(CUpdateVersion(0, FOUR_EYES), 1, 1, 1), Call(CDecide(7, true, 5, 1, 2, []), 7, 7, 7)]

  function Row(state: State, task: Option<nat>, run: Option<nat>, rec: Option<nat>, rowVersion: nat): Instance {
    Instance(7, 0, 1, state, true, task, run, rec, None, rowVersion)
  }

  function Done(kind: TaskKind, status: TaskStatus, claimedBy: Option<User>, rowVersion: nat): Task {
    Task(0, kind, status, None, claimedBy, rowVersion)
  }

  const OPEN_VERSION := Version(Published, OPEN_CONTENT)
  const RUN := WorkflowModel.Run(0, true, [])
  const REVIEW := WorkflowModel.Review(0, 0, 1, true, [], 4)
  const REC := WorkflowModel.Rec(0, 0, 2, RecommendApproval, [], 5)
  const REVIEWED := Done(ReviewCase, Completed, Some(1), 3)

  const STARTED := Db([OPEN_VERSION], [Row(NotStarted, None, None, None, 1)], [], [], [], [], [])
  const VALIDATED := Db([OPEN_VERSION], [Row(ReadyForReview, Some(0), Some(0), None, 2)],
                        [Done(ReviewCase, Pending, NOBODY, 1)], [RUN], [], [], [])
  const CLAIMED := Db([OPEN_VERSION], [Row(UnderReview, Some(0), Some(0), None, 3)],
                      [Done(ReviewCase, TaskStatus.Claimed, Some(1), 2)], [RUN], [], [], [])
  const AFTER_REVIEW := Db([OPEN_VERSION], [Row(ReadyForRecommendation, Some(1), Some(0), None, 4)],
                           [REVIEWED, Done(CreateRecommendation, Pending, NOBODY, 1)], [RUN], [REVIEW], [], [])
  const RECOMMENDED := Db([OPEN_VERSION], [Row(DecisionPending, Some(2), Some(0), Some(0), 5)],
                          [REVIEWED, Done(CreateRecommendation, Completed, NOBODY, 1),
                           Done(ApproveDecision, Pending, NOBODY, 1)],
                          [RUN], [REVIEW], [REC], [])

  lemma Replace<T>(x: T, y: T)
    ensures [x][0 := y] == [y]
  {
  }

  lemma ValidateRuns()
    ensures Validate(STARTED, STARTED, 7, 1, [], true) == Some(VALIDATED)
  {
    assert FindActive(STARTED.instances, 7) == Some(0);
    Replace(STARTED.instances[0], VALIDATED.instances[0]);
    assert CloseOpen(STARTED.tasks, 0, None, TaskCancelled) == [];
    assert [] + VALIDATED.tasks == VALIDATED.tasks && [] + [RUN] == [RUN];
  }

  lemma ClaimRuns()
    ensures Claim(VALIDATED, VALIDATED, 0, 1, 1) == Some(CLAIMED)
  {
    Replace(VALIDATED.tasks[0], CLAIMED.tasks[0]);
    Replace(VALIDATED.instances[0], CLAIMED.instances[0]);
  }

  lemma ReviewRuns()
    ensures SubmitReview(CLAIMED, CLAIMED, CLAIMED, CLAIMED, 0, 3, 2, 1, true, [], []) == Some(AFTER_REVIEW)
  {
    Replace(CLAIMED.tasks[0], REVIEWED);
    Replace(CLAIMED.instances[0], AFTER_REVIEW.instances[0]);
    assert [] + [REVIEW] == [REVIEW];
    assert [REVIEWED] + [AFTER_REVIEW.tasks[1]] == AFTER_REVIEW.tasks;
  }

  lemma RecommendRuns()
    ensures Recommend(AFTER_REVIEW, AFTER_REVIEW, AFTER_REVIEW, 7, 4, 2, RecommendApproval, []) == Some(RECOMMENDED)
  {
    assert FindActive(AFTER_REVIEW.instances, 7) == Some(0);
    var closed := CloseOpen(AFTER_REVIEW.tasks, 0, Some(CreateRecommendation), Completed);
    assert closed == RECOMMENDED.tasks[..2];
    assert closed + [RECOMMENDED.tasks[2]] == RECOMMENDED.tasks;
    Replace(AFTER_REVIEW.instances[0], RECOMMENDED.instances[0]);
    assert [] + [REC] == [REC];
  }

  /** The decision on a state whose version has changed since it was read. */
  lemma DecideRuns(now: Db) returns (b: Db)
    requires now == RECOMMENDED.(versions := [Version(Published, FOUR_EYES)])
    ensures Decide(RECOMMENDED, RECOMMENDED, RECOMMENDED, now, 7, true, 5, 1, 2, []) == Some(b)
    ensures b.versions == now.versions && b.recs == [REC]
    ensures b.decisions == [Decision(7, 0, 1, 0, 0, true, 2, [], None)]
    ensures |b.instances| == 1 && b.instances[0].version == 0 && b.instances[0].state == Approved
  {
    assert FindActive(RECOMMENDED.instances, 7) == Some(0);
    assert LastReview(RECOMMENDED.reviews, 0) == Some(0);
    assert now.decisions + [Decision(7, 0, 1, 0, 0, true, 2, [], None)] == [Decision(7, 0, 1, 0, 0, true, 2, [], None)];
    b := DecideTransaction(now, 0, 2, 5, 1, 7, true, 2, 0, 0, []).value;
  }

  /** The state the run ends in: the author of the recommendation decided under four-eyes. */
  ghost predicate AuthorDecided(s: Db) {
    && s.versions == [Version(Published, FOUR_EYES)]
    && |s.decisions| == 1 && s.decisions[0].decidedBy == 2 && s.decisions[0].rec == 0 && s.recs == [REC]
  }

  lemma {:induction false} Commits(calls: seq<Call>, k: nat, read: Db, now: Db, b: Db)
    requires Schedule(calls) && k < |calls| && At(calls, k) == now
    requires At(calls, calls[k].r0) == At(calls, calls[k].r1) == At(calls, calls[k].r2) == read
    requires Try(calls[k].cmd, read, read, read, now) == Some(b)
    ensures At(calls, k + 1) == b
  {
    assert Attempt(calls, k) == Some(b);
  }

  lemma {:induction false} RunToReview(calls: seq<Call>, k: nat)
    requires Schedule(calls) && k + 2 < |calls| && At(calls, k) == STARTED
    requires calls[k] == Call(CValidate(7, 1, [], true), k, k, k)
             && calls[k + 1] == Call(CClaim(0, 1, 1), k + 1, k + 1, k + 1)
    ensures At(calls, k + 2) == CLAIMED
  {
    ValidateRuns();
    Commits(calls, k, STARTED, STARTED, VALIDATED);
    ClaimRuns();
    Commits(calls, k + 1, VALIDATED, VALIDATED, CLAIMED);
  }

  lemma {:induction false} RunToRecommendation(calls: seq<Call>, k: nat)
    requires Schedule(calls) && k + 2 < |calls| && At(calls, k) == CLAIMED
    requires calls[k] == Call(CReview(0, 3, 2, 1, true, [], []), k, k, k)
    requires calls[k + 1] == Call(CRecommend(7, 4, 2, RecommendApproval, []), k + 1, k + 1, k + 1)
    ensures At(calls, k + 2) == RECOMMENDED
  {
    ReviewRuns();
    Commits(calls, k, CLAIMED, CLAIMED, AFTER_REVIEW);
    RecommendRuns();
    Commits(calls, k + 1, AFTER_REVIEW, AFTER_REVIEW, RECOMMENDED);
  }

  lemma {:induction false} RunToDecision(calls: seq<Call>, k: nat, draft: nat)
    requires Schedule(calls) && k + 2 == |calls| && At(calls, k) == RECOMMENDED && draft <= k
    requires At(calls, draft) == EMPTY.(versions := [Version(Draft, OPEN_CONTENT)])
    requires calls[k] == Call(CUpdateVersion(0, FOUR_EYES), draft, draft, draft)
    requires calls[k + 1] == Call(CDecide(7, true, 5, 1, 2, []), k, k, k)
    ensures AuthorDecided(At(calls, k + 2))
    ensures At(calls, k + 1).versions == [Version(Published, FOUR_EYES)] && At(calls, k + 1).decisions == []
  {
    var now := RECOMMENDED.(versions := [Version(Published, FOUR_EYES)]);
    Replace(OPEN_VERSION, Version(Published, FOUR_EYES));
    Commits(calls, k, At(calls, draft), RECOMMENDED, now);
    var b := DecideRuns(now);
    Commits(calls, k + 1, RECOMMENDED, now, b);
  }

  /** The author of the recommendation decides, and four-eyes was on when the decision was committed. */
  lemma {:induction false} AuthorDecidesUnderFourEyes(calls: seq<Call>)
    requires calls == AUTHOR_DECIDES
    ensures Schedule(calls)
    ensures At(calls, |calls| - 1).versions == [Version(Published, FOUR_EYES)] && At(calls, |calls| - 1).decisions == []
    ensures AuthorDecided(At(calls, |calls|)) && !Separated(At(calls, |calls|), 0)
  {
    var k := |calls| - 6;
    StartedWith(calls, OPEN_CONTENT);
    assert At(calls, k) == STARTED;
    RunToReview(calls, k);
    RunToRecommendation(calls, k + 2);
    RunToDecision(calls, k + 4, 1);
  }
}
