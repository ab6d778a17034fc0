/** What every transaction of the workflow service keeps, and how states relate over time. */
module WorkflowInvariants {
  import opened Common
  import opened WorkflowModel

  // ---------------------------------------------------------------- row invariants

  /** The kind of task that waits for an instance in each state. */
  function KindFor(s: State): Option<TaskKind> {
    match s
    case EvidenceRequired => Some(ProvideEvidence)
    case ReadyForReview => Some(ReviewCase)
    case UnderReview => Some(ReviewCase)
    case CorrectionRequested => Some(CorrectSubmission)
    case ReadyForRecommendation => Some(CreateRecommendation)
    case DecisionPending => Some(ApproveDecision)
    case _ => None
  }

  /** An open task belongs to a live instance, is its active task and is the kind its state asks for. */
  ghost predicate TaskOk(s: Db, t: nat)
    requires t < |s.tasks|
  {
    var task := s.tasks[t];
    && task.instance < |s.instances|
    && (Open(task) ==>
          var row := s.instances[task.instance];
          row.active && row.activeTask == Some(t) && KindFor(row.state) == Some(task.kind))
  }

  ghost predicate RunOk(s: Db, q: nat)
    requires q < |s.runs|
  {
    s.runs[q].instance < |s.instances|
  }

  /** Run q belongs to instance i, passed, and pinned exactly this snapshot. */
  ghost predicate RestsOn(s: Db, i: nat, q: nat, snapshot: seq<Item>) {
    q < |s.runs| && s.runs[q].instance == i && s.runs[q].pass && s.runs[q].snapshot == snapshot
  }

  ghost predicate ReviewOk(s: Db, v: nat)
    requires v < |s.reviews|
  {
    var x := s.reviews[v];
    && x.instance < |s.instances|
    && RestsOn(s, x.instance, x.run, x.snapshot)
    && x.aggregateVersion <= s.instances[x.instance].rowVersion
  }

  /** Review v is the one that recommendation r followed. */
  ghost predicate Follows(s: Db, r: nat, v: nat)
    requires r < |s.recs|
  {
    && v < |s.reviews|
    && s.reviews[v].instance == s.recs[r].instance
    && s.reviews[v].ready
    && s.reviews[v].run == s.recs[r].run
    && s.reviews[v].aggregateVersion + 1 == s.recs[r].aggregateVersion
  }

  ghost predicate RecOk(s: Db, r: nat)
    requires r < |s.recs|
  {
    var x := s.recs[r];
    && x.instance < |s.instances|
    && RestsOn(s, x.instance, x.run, x.snapshot)
    && exists v: nat :: Follows(s, r, v)
  }

  ghost predicate DecisionOk(s: Db, d: nat)
    requires d < |s.decisions|
  {
    var x := s.decisions[d];
    && x.instance < |s.instances|
    && !s.instances[x.instance].active
    && x.caseId == s.instances[x.instance].caseId
    && x.cycle == s.instances[x.instance].cycle
    && RestsOn(s, x.instance, x.run, x.snapshot)
    && x.rec < |s.recs| && s.recs[x.rec].instance == x.instance && s.recs[x.rec].run == x.run
    && s.recs[x.rec].outcome != RequestMoreInformation
  }

  /** The newest review of i is a READY one, written when i had row version `at`, over run q. */
  ghost predicate Reviewed(s: Db, i: nat, at: int, q: Option<nat>) {
    var v := LastReview(s.reviews, i);
    && v.Some? && s.reviews[v.value].ready
    && s.reviews[v.value].aggregateVersion == at && Some(s.reviews[v.value].run) == q
  }

  ghost predicate Recommended(s: Db, i: nat)
    requires i < |s.instances|
  {
    var row := s.instances[i];
    && row.currentRec.Some? && row.currentRec.value < |s.recs|
    && var rec := s.recs[row.currentRec.value];
    && rec.instance == i && rec.aggregateVersion == row.rowVersion && Some(rec.run) == row.currentRun
    && rec.outcome != RequestMoreInformation
    && Reviewed(s, i, row.rowVersion - 1, row.currentRun)
  }

  ghost predicate InstanceOk(s: Db, i: nat)
    requires i < |s.instances|
  {
    var row := s.instances[i];
    && (row.active <==> !Terminal(row.state))
    && row.version < |s.versions| && s.versions[row.version].status != Draft
    && (row.currentRun.Some? ==> row.currentRun.value < |s.runs| && s.runs[row.currentRun.value].instance == i)
    && (row.activeTask.Some? ==> row.activeTask.value < |s.tasks| && s.tasks[row.activeTask.value].instance == i)
    && (row.state == ReadyForRecommendation ==> Reviewed(s, i, row.rowVersion, row.currentRun))
    && (row.state == DecisionPending ==> Recommended(s, i))
  }

  function CountCase(rows: seq<Instance>, c: CaseId): nat {
    if rows == [] then 0 else
      CountCase(rows[..|rows| - 1], c) + if rows[|rows| - 1].caseId == c then 1 else 0
  }

  /** The instance is the cycle-th of its case, and only the last of a case may be active. */
  ghost predicate CycleOk(rows: seq<Instance>, i: nat)
    requires i < |rows|
  {
    && rows[i].cycle == CountCase(rows[..i + 1], rows[i].caseId)
    && (rows[i].active ==> forall j :: i < j < |rows| ==> rows[j].caseId != rows[i].caseId)
  }

  function LastDecision(rows: seq<Decision>, c: CaseId): (r: Option<nat>)
    ensures r.Some? ==> r.value < |rows| && rows[r.value].caseId == c
  {
    if rows == [] then None else
      var last := |rows| - 1;
      if rows[last].caseId == c then Some(last) else LastDecision(rows[..last], c)
  }

  /** A decision supersedes exactly the previous decision of its case, which is of an earlier cycle. */
  ghost predicate ChainOk(rows: seq<Decision>, d: nat)
    requires d < |rows|
  {
    && rows[d].supersedes == LastDecision(rows[..d], rows[d].caseId)
    && forall e :: 0 <= e < d && rows[e].caseId == rows[d].caseId ==> rows[e].cycle < rows[d].cycle
  }

  ghost predicate ReviewsOrdered(rows: seq<Review>) {
    forall v, w :: 0 <= v < w < |rows| && rows[v].instance == rows[w].instance
      ==> rows[v].aggregateVersion < rows[w].aggregateVersion
  }

  ghost predicate Inv(s: Db) {
    && (forall i :: 0 <= i < |s.instances| ==> InstanceOk(s, i))
    && (forall i :: 0 <= i < |s.instances| ==> CycleOk(s.instances, i))
    && (forall t :: 0 <= t < |s.tasks| ==> TaskOk(s, t))
    && (forall q :: 0 <= q < |s.runs| ==> RunOk(s, q))
    && (forall v :: 0 <= v < |s.reviews| ==> ReviewOk(s, v))
    && (forall r :: 0 <= r < |s.recs| ==> RecOk(s, r))
    && (forall d :: 0 <= d < |s.decisions| ==> DecisionOk(s, d))
    && (forall d :: 0 <= d < |s.decisions| ==> ChainOk(s.decisions, d))
    && ReviewsOrdered(s.reviews)
  }

  // ---------------------------------------------------------------- states over time

  /** Instance i, seen in a and later in b: the row version never falls, and where it did not
    * rise the row and the reviews of the instance are the same. */
  ghost predicate InstanceKept(a: Db, b: Db, i: nat)
    requires i < |a.instances| <= |b.instances|
  {
    var (x, y) := (a.instances[i], b.instances[i]);
    && x.caseId == y.caseId && x.version == y.version && x.cycle == y.cycle
    && x.rowVersion <= y.rowVersion
    && (y.active ==> x.active)
    && (x.rowVersion == y.rowVersion ==> x == y && LastReview(a.reviews, i) == LastReview(b.reviews, i))
  }

  ghost predicate Extends(a: Db, b: Db) {
    && |a.instances| <= |b.instances|
    && (forall i :: 0 <= i < |a.instances| ==> InstanceKept(a, b, i))
    && |a.tasks| <= |b.tasks|
    && (forall t :: 0 <= t < |a.tasks| ==>
        a.tasks[t].instance == b.tasks[t].instance && a.tasks[t].kind == b.tasks[t].kind)
    && a.runs <= b.runs && a.reviews <= b.reviews && a.recs <= b.recs && a.decisions <= b.decisions
    && |a.versions| <= |b.versions|
    && (forall v :: 0 <= v < |a.versions| && a.versions[v].status != Draft ==> b.versions[v].status != Draft)
  }

  lemma ExtendsTransitive(a: Db, b: Db, c: Db)
    requires Extends(a, b) && Extends(b, c)
    ensures Extends(a, c)
  {
    forall i | 0 <= i < |a.instances| ensures InstanceKept(a, c, i) {
      assert InstanceKept(a, b, i) && InstanceKept(b, c, i);
    }
  }

  // ---------------------------------------------------------------- lemmas about the queries

  lemma LastReviewOfPrefix(rows: seq<Review>, x: Review, i: nat)
    ensures LastReview(rows + [x], i) == if x.instance == i then Some(|rows|) else LastReview(rows, i)
  {
    assert (rows + [x])[..|rows|] == rows;
  }

  lemma {:induction false} MaxCycleIsCount(rows: seq<Instance>, c: CaseId)
    requires forall i :: 0 <= i < |rows| ==> rows[i].cycle == CountCase(rows[..i + 1], rows[i].caseId)
    ensures MaxCycle(rows, c) == CountCase(rows, c)
  {
    if rows != [] {
      var most := rows[..|rows| - 1];
      forall i | 0 <= i < |most| ensures most[i].cycle == CountCase(most[..i + 1], most[i].caseId) {
        assert most[..i + 1] == rows[..i + 1];
      }
      MaxCycleIsCount(most, c);
      assert rows[..|rows| - 1 + 1] == rows;
    }
  }

  lemma {:induction false} CountGrows(rows: seq<Instance>, c: CaseId, i: nat, j: nat)
    requires i < j < |rows| && rows[j].caseId == c
    ensures CountCase(rows[..i + 1], c) < CountCase(rows[..j + 1], c)
  {
    assert rows[..j + 1][..j] == rows[..j];
    if i + 1 < j {
      if rows[j - 1].caseId == c {
        CountGrows(rows, c, i, j - 1);
      } else {
        CountMonotone(rows, c, i + 1, j);
      }
    }
  }

  lemma {:induction false} CountMonotone(rows: seq<Instance>, c: CaseId, m: nat, n: nat)
    requires m <= n <= |rows|
    ensures CountCase(rows[..m], c) <= CountCase(rows[..n], c)
  {
    if m < n {
      CountMonotone(rows, c, m, n - 1);
      assert rows[..n][..n - 1] == rows[..n - 1];
    }
  }

  lemma {:induction false} CountIgnoresRows(a: seq<Instance>, b: seq<Instance>, c: CaseId)
    requires |a| == |b| && forall i :: 0 <= i < |a| ==> a[i].caseId == b[i].caseId
    ensures CountCase(a, c) == CountCase(b, c)
  {
    if a != [] {
      CountIgnoresRows(a[..|a| - 1], b[..|b| - 1], c);
    }
  }

  /** With no decision of instance i yet, the decision superseded is the case's last one. */
  lemma {:induction false} SupersededIsLast(rows: seq<Decision>, c: CaseId, i: nat)
    requires forall d :: 0 <= d < |rows| ==> rows[d].instance != i
    ensures Superseded(rows, c, i) == LastDecision(rows, c)
  {
    if rows != [] {
      SupersededIsLast(rows[..|rows| - 1], c, i);
    }
  }

  // ---------------------------------------------------------------- transactions on one instance

  /** Transaction a -> b writes only instance i and rows of instance i, and leaves it sound. */
  ghost predicate Touches(a: Db, b: Db, i: nat) {
    && i < |a.instances| && |b.instances| == |a.instances|
    && (forall j :: 0 <= j < |a.instances| && j != i ==> b.instances[j] == a.instances[j])
    && b.instances[i].caseId == a.instances[i].caseId
    && b.instances[i].version == a.instances[i].version
    && b.instances[i].cycle == a.instances[i].cycle
    && b.instances[i].rowVersion == a.instances[i].rowVersion + 1
    && (b.instances[i].active ==> a.instances[i].active)
    && b.versions == a.versions
    && |a.tasks| <= |b.tasks|
    && (forall t :: 0 <= t < |a.tasks| ==>
        b.tasks[t].instance == a.tasks[t].instance && b.tasks[t].kind == a.tasks[t].kind)
    && (forall t :: 0 <= t < |b.tasks| ==>
          if b.tasks[t].instance == i then TaskOk(b, t) else t < |a.tasks| && b.tasks[t] == a.tasks[t])
    && AppendsRun(a.runs, b.runs, i)
    && AppendsReview(a, b, i)
    && AppendsRec(a, b, i)
    && AppendsDecision(a, b, i)
    && InstanceOk(b, i)
  }

  ghost predicate AppendsRun(a: seq<Run>, b: seq<Run>, i: nat) {
    b == a || (|b| == |a| + 1 && b[..|a|] == a && b[|a|].instance == i)
  }

  ghost predicate AppendsReview(a: Db, b: Db, i: nat)
    requires i < |a.instances|
  {
    b.reviews == a.reviews
    || (|b.reviews| == |a.reviews| + 1 && b.reviews[..|a.reviews|] == a.reviews
        && b.reviews[|a.reviews|].instance == i
        && b.reviews[|a.reviews|].aggregateVersion == a.instances[i].rowVersion + 1
        && ReviewOk(b, |a.reviews|))
  }

  ghost predicate AppendsRec(a: Db, b: Db, i: nat) {
    b.recs == a.recs
    || (|b.recs| == |a.recs| + 1 && b.recs[..|a.recs|] == a.recs && b.recs[|a.recs|].instance == i
        && RecOk(b, |a.recs|))
  }

  ghost predicate AppendsDecision(a: Db, b: Db, i: nat)
    requires i < |a.instances|
  {
    b.decisions == a.decisions
    || (|b.decisions| == |a.decisions| + 1 && b.decisions[..|a.decisions|] == a.decisions
        && a.instances[i].active && b.decisions[|a.decisions|].instance == i
        && b.decisions[|a.decisions|].supersedes == Superseded(a.decisions, a.instances[i].caseId, i)
        && DecisionOk(b, |a.decisions|))
  }

  lemma LastReviewKept(a: Db, b: Db, i: nat, j: nat)
    requires Touches(a, b, i) && j != i
    ensures LastReview(b.reviews, j) == LastReview(a.reviews, j)
  {
    if b.reviews != a.reviews {
      var x := b.reviews[|a.reviews|];
      assert b.reviews == a.reviews + [x];
      LastReviewOfPrefix(a.reviews, x, j);
    }
  }

  lemma TouchExtends(a: Db, b: Db, i: nat)
    requires Touches(a, b, i)
    ensures Extends(a, b)
  {
    forall j | 0 <= j < |a.instances| ensures InstanceKept(a, b, j) {
      if j != i { LastReviewKept(a, b, i, j); }
    }
  }

  lemma TouchKeepsInstances(a: Db, b: Db, i: nat)
    requires Inv(a) && Touches(a, b, i)
    ensures forall j :: 0 <= j < |b.instances| ==> InstanceOk(b, j)
  {
    forall j | 0 <= j < |b.instances| ensures InstanceOk(b, j) {
      if j != i {
        assert InstanceOk(a, j);
        LastReviewKept(a, b, i, j);
      }
    }
  }

  lemma TouchKeepsCycles(a: Db, b: Db, i: nat)
    requires Inv(a) && Touches(a, b, i)
    ensures forall j :: 0 <= j < |b.instances| ==> CycleOk(b.instances, j)
  {
    forall j | 0 <= j < |b.instances| ensures CycleOk(b.instances, j) {
      assert CycleOk(a.instances, j);
      CountIgnoresRows(a.instances[..j + 1], b.instances[..j + 1], a.instances[j].caseId);
    }
  }

  lemma TouchKeepsTasksAndRuns(a: Db, b: Db, i: nat)
    requires Inv(a) && Touches(a, b, i)
    ensures forall t :: 0 <= t < |b.tasks| ==> TaskOk(b, t)
    ensures forall q :: 0 <= q < |b.runs| ==> RunOk(b, q)
  {
    forall t | 0 <= t < |b.tasks| ensures TaskOk(b, t) {
      if b.tasks[t].instance != i { assert TaskOk(a, t); }
    }
    forall q | 0 <= q < |b.runs| ensures RunOk(b, q) {
      if q < |a.runs| {
        assert RunOk(a, q);
        assert b.runs[q] == b.runs[..|a.runs|][q];
      }
    }
  }

  lemma TouchKeepsReviews(a: Db, b: Db, i: nat)
    requires Inv(a) && Touches(a, b, i)
    ensures forall v :: 0 <= v < |b.reviews| ==> ReviewOk(b, v)
    ensures ReviewsOrdered(b.reviews)
  {
    TouchExtends(a, b, i);
    forall v | 0 <= v < |b.reviews| ensures ReviewOk(b, v) {
      if v < |a.reviews| { assert ReviewOk(a, v); }
    }
    forall v, w | 0 <= v < w < |b.reviews| && b.reviews[v].instance == b.reviews[w].instance
      ensures b.reviews[v].aggregateVersion < b.reviews[w].aggregateVersion
    {
      assert ReviewOk(a, v);
    }
  }

  lemma TouchKeepsRecs(a: Db, b: Db, i: nat)
    requires Inv(a) && Touches(a, b, i)
    ensures forall r :: 0 <= r < |b.recs| ==> RecOk(b, r)
  {
    TouchExtends(a, b, i);
    forall r | 0 <= r < |b.recs| ensures RecOk(b, r) {
      if r < |a.recs| {
        assert RecOk(a, r);
        var v: nat :| Follows(a, r, v);
        assert Follows(b, r, v);
      }
    }
  }

  lemma TouchKeepsDecisions(a: Db, b: Db, i: nat)
    requires Inv(a) && Touches(a, b, i)
    ensures forall d :: 0 <= d < |b.decisions| ==> DecisionOk(b, d)
    ensures forall d :: 0 <= d < |b.decisions| ==> ChainOk(b.decisions, d)
  {
    TouchExtends(a, b, i);
    var n := |a.decisions|;
    forall d | 0 <= d < |b.decisions| ensures DecisionOk(b, d) {
      if d < n { assert DecisionOk(a, d); }
    }
    forall d | 0 <= d < |b.decisions| ensures ChainOk(b.decisions, d) {
      if d < n {
        assert ChainOk(a.decisions, d);
        assert b.decisions[..d] == a.decisions[..d];
      } else {
        NewDecisionChains(a, b, i);
      }
    }
  }

  lemma NewDecisionChains(a: Db, b: Db, i: nat)
    requires Inv(a) && Touches(a, b, i) && b.decisions != a.decisions
    ensures ChainOk(b.decisions, |a.decisions|)
  {
    var n := |a.decisions|;
    var c := a.instances[i].caseId;
    assert DecisionOk(b, n);
    forall e | 0 <= e < n ensures a.decisions[e].instance != i {
      assert DecisionOk(a, e);
    }
    SupersededIsLast(a.decisions, c, i);
    forall e | 0 <= e < n && a.decisions[e].caseId == c ensures a.decisions[e].cycle < b.decisions[n].cycle {
      assert DecisionOk(a, e);
      var j := a.decisions[e].instance;
      assert CycleOk(a.instances, i) && CycleOk(a.instances, j);
      assert j < i;
      CountGrows(a.instances, c, j, i);
    }
    assert b.decisions[..n] == a.decisions;
  }

  lemma TouchKeepsInv(a: Db, b: Db, i: nat)
    requires Inv(a) && Touches(a, b, i)
    ensures Inv(b) && Extends(a, b)
  {
    TouchExtends(a, b, i);
    TouchKeepsInstances(a, b, i);
    TouchKeepsCycles(a, b, i);
    TouchKeepsTasksAndRuns(a, b, i);
    TouchKeepsReviews(a, b, i);
    TouchKeepsRecs(a, b, i);
    TouchKeepsDecisions(a, b, i);
  }

  // ---------------------------------------------------------------- other transactions

  /** Task rows change, but none is reopened or moved. */
  lemma TasksOnlyKeepInv(a: Db, b: Db)
    requires Inv(a) && b == a.(tasks := b.tasks) && |b.tasks| == |a.tasks|
    requires forall t :: 0 <= t < |a.tasks| ==>
               && b.tasks[t].instance == a.tasks[t].instance && b.tasks[t].kind == a.tasks[t].kind
               && (Open(b.tasks[t]) ==> Open(a.tasks[t]))
    ensures Inv(b) && Extends(a, b)
  {
    forall i | 0 <= i < |b.instances| ensures InstanceOk(b, i) && InstanceKept(a, b, i) { assert InstanceOk(a, i); }
    forall t | 0 <= t < |b.tasks| ensures TaskOk(b, t) { assert TaskOk(a, t); }
    SameRowsKeepRecords(a, b);
  }

  lemma VersionsOnlyKeepInv(a: Db, b: Db)
    requires Inv(a) && b == a.(versions := b.versions) && |b.versions| >= |a.versions|
    requires forall v :: 0 <= v < |a.versions| && a.versions[v].status != Draft ==> b.versions[v].status != Draft
    ensures Inv(b) && Extends(a, b)
  {
    forall i | 0 <= i < |b.instances| ensures InstanceOk(b, i) && InstanceKept(a, b, i) { assert InstanceOk(a, i); }
    forall t | 0 <= t < |b.tasks| ensures TaskOk(b, t) { assert TaskOk(a, t); }
    SameRowsKeepRecords(a, b);
  }

  lemma SameRowsKeepRecords(a: Db, b: Db)
    requires Inv(a) && b.instances == a.instances && b.runs == a.runs && b.reviews == a.reviews
    requires b.recs == a.recs && b.decisions == a.decisions
    ensures forall q :: 0 <= q < |b.runs| ==> RunOk(b, q)
    ensures forall v :: 0 <= v < |b.reviews| ==> ReviewOk(b, v)
    ensures forall r :: 0 <= r < |b.recs| ==> RecOk(b, r)
    ensures forall d :: 0 <= d < |b.decisions| ==> DecisionOk(b, d)
  {
    forall q | 0 <= q < |b.runs| ensures RunOk(b, q) { assert RunOk(a, q); }
    forall v | 0 <= v < |b.reviews| ensures ReviewOk(b, v) { assert ReviewOk(a, v); }
    forall r | 0 <= r < |b.recs| ensures RecOk(b, r) {
      assert RecOk(a, r);
      var v: nat :| Follows(a, r, v);
      assert Follows(b, r, v);
    }
    forall d | 0 <= d < |b.decisions| ensures DecisionOk(b, d) { assert DecisionOk(a, d); }
  }
}
