/** The tables of the validation-workflow service and its commands.
  *
  * A table is a sequence: a row's identifier is its position and the order of the
  * rows is the order in which they were created.  A command is asynchronous code: it
  * reads the tables at several moments and writes them in one transaction at the end.
  * It is therefore a function of the database states it saw (`s0`, `s1`, `s2`, in the
  * order of its awaits) and of the state `now` in which its transaction runs.  The
  * result is None when the command is rejected, and the new database otherwise.
  *
  * An organization and a case identifier together are one `CaseId`.
  */
module WorkflowModel {
  import opened Common

  type User = nat
  type CaseId = nat

  datatype State =
    | NotStarted | EvidenceRequired | ReadyForReview | UnderReview | CorrectionRequested
    | ReadyForRecommendation | DecisionPending | Approved | Rejected | Withdrawn | Cancelled

  predicate Terminal(s: State) { s in {Approved, Rejected, Withdrawn, Cancelled} }

  datatype TaskKind = ProvideEvidence | ReviewCase | CorrectSubmission | CreateRecommendation | ApproveDecision

  datatype TaskStatus = Pending | Claimed | Completed | TaskCancelled | Expired

  /** One line of an evidence snapshot. */
  datatype Item = Item(id: nat, sha256: nat, available: bool, clean: bool, authoritative: bool, createdBy: User)

  datatype Publication = Draft | Published | Retired

  /** What updateVersion may write: the three duty flags and everything else. */
  datatype Content = Content(fourEyes: bool, prohibitReviewer: bool, prohibitSubmitter: bool, configuration: nat)

  datatype Version = Version(status: Publication, content: Content)

  datatype Instance = Instance(
    caseId: CaseId, version: nat, cycle: nat, state: State, active: bool, activeTask: Option<nat>,
    currentRun: Option<nat>, currentRec: Option<nat>, currentDecision: Option<nat>, rowVersion: nat)

  datatype Task = Task(
    instance: nat, kind: TaskKind, status: TaskStatus, assignee: Option<User>, claimedBy: Option<User>, rowVersion: nat)

  datatype Run = Run(instance: nat, pass: bool, snapshot: seq<Item>)

  datatype Review = Review(
    instance: nat, run: nat, actor: User, ready: bool, snapshot: seq<Item>, aggregateVersion: nat)

  datatype Rec = Rec(
    instance: nat, run: nat, actor: User, outcome: RecOutcome, snapshot: seq<Item>, aggregateVersion: nat)

  datatype RecOutcome = RecommendApproval | RecommendRejection | RequestMoreInformation

  datatype Decision = Decision(
    caseId: CaseId, instance: nat, cycle: nat, rec: nat, run: nat, approved: bool, decidedBy: User,
    snapshot: seq<Item>, supersedes: Option<nat>)

  datatype Db = Db(
    versions: seq<Version>, instances: seq<Instance>, tasks: seq<Task>, runs: seq<Run>,
    reviews: seq<Review>, recs: seq<Rec>, decisions: seq<Decision>)

  const EMPTY := Db([], [], [], [], [], [], [])

  // ---------------------------------------------------------------- queries

  predicate Open(t: Task) { t.status == Pending || t.status == Claimed }

  /** findFirst({ caseId, active: true }) */
  function FindActive(rows: seq<Instance>, c: CaseId): (r: Option<nat>)
    ensures r.Some? ==> r.value < |rows| && rows[r.value].caseId == c && rows[r.value].active
    ensures r.None? ==> forall i :: 0 <= i < |rows| && rows[i].caseId == c ==> !rows[i].active
  {
    if rows == [] then None else
      var last := |rows| - 1;
      var earlier := FindActive(rows[..last], c);
      if earlier.Some? then earlier
      else if rows[last].caseId == c && rows[last].active then Some(last) else None
  }

  /** aggregate _max: { cycleNumber } ?? 0 */
  function MaxCycle(rows: seq<Instance>, c: CaseId): nat {
    if rows == [] then 0 else
      var last := rows[|rows| - 1];
      var rest := MaxCycle(rows[..|rows| - 1], c);
      if last.caseId == c && last.cycle > rest then last.cycle else rest
  }

  /** The ended instance of the case with the highest cycle, which reopen continues. */
  function LatestEnded(rows: seq<Instance>, c: CaseId): (r: Option<nat>)
    ensures r.Some? ==> r.value < |rows| && rows[r.value].caseId == c && !rows[r.value].active
  {
    if rows == [] then None else
      var last := |rows| - 1;
      var rest := LatestEnded(rows[..last], c);
      if rows[last].caseId == c && !rows[last].active && Terminal(rows[last].state)
         && (rest.None? || rows[rest.value].cycle <= rows[last].cycle)
      then Some(last) else rest
  }

  /** The newest review of an instance, which is also its newest REVIEW_SUBMITTED actor row. */
  function LastReview(rows: seq<Review>, i: nat): (r: Option<nat>)
    ensures r.Some? ==> r.value < |rows| && rows[r.value].instance == i
  {
    if rows == [] then None else
      var last := |rows| - 1;
      if rows[last].instance == i then Some(last) else LastReview(rows[..last], i)
  }

  /** The newest decision of the case made by an instance other than `i`. */
  function Superseded(rows: seq<Decision>, c: CaseId, i: nat): (r: Option<nat>)
    ensures r.Some? ==> r.value < |rows| && rows[r.value].caseId == c && rows[r.value].instance != i
  {
    if rows == [] then None else
      var last := |rows| - 1;
      if rows[last].caseId == c && rows[last].instance != i then Some(last)
      else Superseded(rows[..last], c, i)
  }

  /** new Map(items.map(...)).get(id): a later item with the same id wins. */
  function FindItem(items: seq<Item>, id: nat): (r: Option<Item>)
    ensures r.Some? ==> r.value in items && r.value.id == id
    ensures r.None? ==> forall x :: x in items ==> x.id != id
  {
    if items == [] then None else
      var last := |items| - 1;
      if items[last].id == id then Some(items[last]) else FindItem(items[..last], id)
  }

  /** assertSnapshotCurrent */
  predicate SnapshotCurrent(pinned: seq<Item>, current: seq<Item>, selected: seq<nat>) {
    forall k :: 0 <= k < |selected| ==>
      var before, after := FindItem(pinned, selected[k]), FindItem(current, selected[k]);
      before.Some? && after.Some? && before.value.sha256 == after.value.sha256
      && after.value.available && after.value.clean && after.value.authoritative
  }

  function Ids(items: seq<Item>): seq<nat> { seq(|items|, k requires 0 <= k < |items| => items[k].id) }

  /** currentValidation: the instance's current run, which must have passed. */
  function CurrentValidation(s: Db, row: Instance): (r: Option<nat>)
    ensures r.Some? ==> row.currentRun == r && r.value < |s.runs| && s.runs[r.value].pass
  {
    if row.currentRun.Some? && row.currentRun.value < |s.runs| && s.runs[row.currentRun.value].pass
    then row.currentRun else None
  }

  // ---------------------------------------------------------------- task writes

  /** updateMany over the open tasks of instance `i` (of one kind, or of every kind). */
  function CloseOpen(tasks: seq<Task>, i: nat, kind: Option<TaskKind>, status: TaskStatus): (r: seq<Task>)
    ensures |r| == |tasks|
  {
    seq(|tasks|, k requires 0 <= k < |tasks| =>
      if tasks[k].instance == i && Open(tasks[k]) && (kind.None? || kind.value == tasks[k].kind)
      then tasks[k].(status := status) else tasks[k])
  }

  function Complete(tasks: seq<Task>, t: nat): seq<Task>
    requires t < |tasks|
  {
    tasks[t := tasks[t].(status := Completed, rowVersion := tasks[t].rowVersion + 1)]
  }

  /** The tick of the operational worker: every open task past its due date expires. */
  function ExpireDue(tasks: seq<Task>, due: set<nat>): (r: seq<Task>)
    ensures |r| == |tasks|
  {
    seq(|tasks|, k requires 0 <= k < |tasks| =>
      if k in due && Open(tasks[k])
      then tasks[k].(status := Expired, rowVersion := tasks[k].rowVersion + 1) else tasks[k])
  }

  function NewTask(i: nat, kind: TaskKind): Task { Task(i, kind, Pending, None, None, 1) }

  /** Write an instance row; every such write in the service increments rowVersion. */
  function Bump(rows: seq<Instance>, i: nat, row: Instance): seq<Instance>
    requires i < |rows|
  {
    rows[i := row.(rowVersion := rows[i].rowVersion + 1)]
  }

  // ---------------------------------------------------------------- definition versions

  function CreateVersion(now: Db, content: Content): Db {
    now.(versions := now.versions + [Version(Draft, content)])
  }

  /** The draft status is read before the write, and the write names only the id. */
  function UpdateVersion(s0: Db, now: Db, v: nat, content: Content): Option<Db> {
    if v < |s0.versions| && s0.versions[v].status == Draft && v < |now.versions|
    then Some(now.(versions := now.versions[v := now.versions[v].(content := content)])) else None
  }

  function SetStatus(now: Db, v: nat, from: Publication, to: Publication): Option<Db> {
    if v < |now.versions| && now.versions[v].status == from
    then Some(now.(versions := now.versions[v := now.versions[v].(status := to)])) else None
  }

  // ---------------------------------------------------------------- start and reopen

  /** start: the version was published when read; the transaction rechecks only the case. */
  function Start(s1: Db, now: Db, c: CaseId, ver: nat): Option<Db> {
    if ver < |s1.versions| && s1.versions[ver].status == Published then StartTransaction(now, c, ver) else None
  }

  function StartTransaction(now: Db, c: CaseId, ver: nat): Option<Db> {
    if FindActive(now.instances, c).Some? then None else
      Some(now.(instances := now.instances +
        [Instance(c, ver, MaxCycle(now.instances, c) + 1, NotStarted, true, None, None, None, None, 1)]))
  }

  function Reopen(s0: Db, s1: Db, now: Db, c: CaseId, chosen: Option<nat>): Option<Db> {
    var prior := LatestEnded(s0.instances, c);
    if prior.None? then None
    else Start(s1, now, c, if chosen.Some? then chosen.value else s0.instances[prior.value].version)
  }

  // ---------------------------------------------------------------- validate

  /** `pass` is the verdict of the rules on what was read; `snapshot` is the evidence read. */
  function Validate(s0: Db, now: Db, c: CaseId, expected: nat, snapshot: seq<Item>, pass: bool): Option<Db> {
    var found := FindActive(s0.instances, c);
    if found.None? || Terminal(s0.instances[found.value].state) || s0.instances[found.value].rowVersion != expected
    then None else ValidateTransaction(now, found.value, expected, snapshot, pass)
  }

  function ValidateTransaction(now: Db, i: nat, expected: nat, snapshot: seq<Item>, pass: bool): Option<Db> {
    if !(i < |now.instances| && now.instances[i].rowVersion == expected && now.instances[i].active) then None else
      var task := NewTask(i, if pass then ReviewCase else ProvideEvidence);
      Some(now.(
        runs := now.runs + [Run(i, pass, snapshot)],
        tasks := CloseOpen(now.tasks, i, None, TaskCancelled) + [task],
        instances := Bump(now.instances, i, now.instances[i].(
          state := if pass then ReadyForReview else EvidenceRequired,
          currentRun := Some(|now.runs|), activeTask := Some(|now.tasks|)))))
  }

  // ---------------------------------------------------------------- tasks

  function Claim(s0: Db, now: Db, t: nat, taskVersion: nat, user: User): Option<Db> {
    if t < |s0.tasks| then ClaimTransaction(now, t, s0.tasks[t].instance, s0.tasks[t].kind, taskVersion, user) else None
  }

  function ClaimTransaction(now: Db, t: nat, i: nat, kind: TaskKind, taskVersion: nat, user: User): Option<Db> {
    if !(t < |now.tasks| && now.tasks[t].status == Pending && now.tasks[t].rowVersion == taskVersion
         && (now.tasks[t].assignee.None? || now.tasks[t].assignee == Some(user))) then None else
      var claimed := now.(tasks := now.tasks[t := now.tasks[t].(
        status := Claimed, claimedBy := Some(user), rowVersion := taskVersion + 1)]);
      if kind == ReviewCase && i < |now.instances| && now.instances[i].state == ReadyForReview
      then Some(claimed.(instances := Bump(now.instances, i, now.instances[i].(state := UnderReview))))
      else Some(claimed)
  }

  function Assign(now: Db, t: nat, taskVersion: nat, user: User): Option<Db> {
    if t < |now.tasks| && Open(now.tasks[t]) && now.tasks[t].rowVersion == taskVersion
    then Some(now.(tasks := now.tasks[t := now.tasks[t].(
      assignee := Some(user), claimedBy := None, status := Pending, rowVersion := taskVersion + 1)]))
    else None
  }

  // ---------------------------------------------------------------- review and correction

  /** taskRow (s0), instanceById (s1), currentValidation (s2), then the transaction. */
  function SubmitReview(s0: Db, s1: Db, s2: Db, now: Db, t: nat, workflowVersion: nat, taskVersion: nat, user: User,
                        ready: bool, selected: seq<nat>, current: seq<Item>): Option<Db>
  {
    if !(t < |s0.tasks| && s0.tasks[t].kind == ReviewCase && s0.tasks[t].status == Claimed
         && (s0.tasks[t].claimedBy == Some(user) || s0.tasks[t].assignee == Some(user))) then None else
      var i := s0.tasks[t].instance;
      if !(i < |s1.instances| && s1.instances[i].rowVersion == workflowVersion) then None else
        var run := CurrentValidation(s2, s1.instances[i]);
        if run.None? || !SnapshotCurrent(s2.runs[run.value].snapshot, current, selected) then None else
          ReviewTransaction(now, t, i, workflowVersion, taskVersion, user, ready, run.value,
                            s2.runs[run.value].snapshot)
  }

  function ReviewTransaction(now: Db, t: nat, i: nat, workflowVersion: nat, taskVersion: nat, user: User,
                             ready: bool, run: nat, pinned: seq<Item>): Option<Db>
  {
    if !(t < |now.tasks| && now.tasks[t].rowVersion == taskVersion && now.tasks[t].status == Claimed
         && now.tasks[t].claimedBy == Some(user)
         && i < |now.instances| && now.instances[i].rowVersion == workflowVersion && now.instances[i].active)
    then None else
      var task := NewTask(i, if ready then CreateRecommendation else CorrectSubmission);
      Some(now.(
        reviews := now.reviews + [Review(i, run, user, ready, pinned, workflowVersion + 1)],
        tasks := Complete(now.tasks, t) + [task],
        instances := Bump(now.instances, i, now.instances[i].(
          state := if ready then ReadyForRecommendation else CorrectionRequested,
          activeTask := Some(|now.tasks|)))))
  }

  /** The workflow version is compared before the transaction; the transaction checks only the task. */
  function RequestCorrection(s0: Db, s1: Db, now: Db, t: nat, workflowVersion: nat, taskVersion: nat): Option<Db> {
    if !(t < |s0.tasks| && s0.tasks[t].instance < |s1.instances|
         && s1.instances[s0.tasks[t].instance].rowVersion == workflowVersion)
    then None else CorrectionTransaction(now, t, s0.tasks[t].instance, taskVersion)
  }

  function CorrectionTransaction(now: Db, t: nat, i: nat, taskVersion: nat): Option<Db> {
    if !(t < |now.tasks| && now.tasks[t].rowVersion == taskVersion && Open(now.tasks[t]) && i < |now.instances|)
    then None else
      Some(now.(
        tasks := Complete(now.tasks, t) + [NewTask(i, CorrectSubmission)],
        instances := Bump(now.instances, i, now.instances[i].(
          state := CorrectionRequested, activeTask := Some(|now.tasks|)))))
  }

  /** First half of resubmit: the correction task read as open is completed by id.  The
    * second half is a Validate command. */
  function Resubmit(s0: Db, s1: Db, now: Db, c: CaseId, t: nat): Option<Db> {
    var found := FindActive(s0.instances, c);
    if found.Some? && s0.instances[found.value].state == CorrectionRequested
       && t < |s1.tasks| && s1.tasks[t].instance == found.value && s1.tasks[t].kind == CorrectSubmission
       && Open(s1.tasks[t]) && t < |now.tasks|
    then Some(now.(tasks := Complete(now.tasks, t))) else None
  }

  // ---------------------------------------------------------------- recommend

  function Recommend(s0: Db, s1: Db, now: Db, c: CaseId, workflowVersion: nat, user: User, outcome: RecOutcome,
                     current: seq<Item>): Option<Db>
  {
    var found := FindActive(s0.instances, c);
    if found.None? || s0.instances[found.value].state != ReadyForRecommendation
       || s0.instances[found.value].rowVersion != workflowVersion then None else
      var run := CurrentValidation(s1, s0.instances[found.value]);
      if run.None? then None else
        var pinned := s1.runs[run.value].snapshot;
        if !SnapshotCurrent(pinned, current, Ids(pinned)) then None
        else RecommendTransaction(now, found.value, workflowVersion, user, outcome, run.value, pinned)
  }

  function RecommendTransaction(now: Db, i: nat, workflowVersion: nat, user: User, outcome: RecOutcome,
                                run: nat, pinned: seq<Item>): Option<Db>
  {
    if !(i < |now.instances| && now.instances[i].rowVersion == workflowVersion
         && now.instances[i].state == ReadyForRecommendation && now.instances[i].active) then None else
      var more := outcome == RequestMoreInformation;
      Some(now.(
        recs := now.recs + [Rec(i, run, user, outcome, pinned, workflowVersion + 1)],
        tasks := CloseOpen(now.tasks, i, Some(CreateRecommendation), Completed)
                 + [NewTask(i, if more then CorrectSubmission else ApproveDecision)],
        instances := Bump(now.instances, i, now.instances[i].(
          state := if more then CorrectionRequested else DecisionPending,
          currentRec := Some(|now.recs|), activeTask := Some(|now.tasks|)))))
  }

  // ---------------------------------------------------------------- decide

  /** The duty checks of decide, on the version, recommendation and reviewer it read. */
  predicate DutiesSeparate(content: Content, recommender: User, reviewer: Option<User>, pinned: seq<Item>, user: User) {
    && (content.fourEyes ==> recommender != user)
    && (content.prohibitReviewer ==> reviewer != Some(user))
    && (content.prohibitSubmitter ==> forall x :: x in pinned ==> x.createdBy != user)
  }

  function Reviewer(reviews: seq<Review>, i: nat): Option<User> {
    var v := LastReview(reviews, i);
    if v.Some? then Some(reviews[v.value].actor) else None
  }

  /** activeInstance (s0); recommendation, version, run and task (s1); reviewer (s2); the transaction. */
  function Decide(s0: Db, s1: Db, s2: Db, now: Db, c: CaseId, approved: bool, workflowVersion: nat, taskVersion: nat,
                  user: User, current: seq<Item>): Option<Db>
  {
    var found := FindActive(s0.instances, c);
    if found.None? then None else
      var i := found.value;
      var row := s0.instances[i];
      if !(row.state == DecisionPending && row.rowVersion == workflowVersion && row.currentRec.Some?
           && row.activeTask.Some?) then None else
        var run := CurrentValidation(s1, row);
        var (r, t) := (row.currentRec.value, row.activeTask.value);
        if !(run.Some? && r < |s1.recs| && row.version < |s1.versions| && t < |s1.tasks|) then None else
          var task := s1.tasks[t];
          var pinned := s1.runs[run.value].snapshot;
          if !(task.kind == ApproveDecision && Open(task) && task.rowVersion == taskVersion
               && (task.assignee.None? || task.assignee == Some(user) || task.claimedBy == Some(user))
               && DutiesSeparate(s1.versions[row.version].content, s1.recs[r].actor, Reviewer(s2.reviews, i), pinned,
                                 user)
               && SnapshotCurrent(pinned, current, Ids(pinned)))
          then None
          else DecideTransaction(now, i, t, workflowVersion, taskVersion, c, approved, user, r, run.value, pinned)
  }

  function DecideTransaction(now: Db, i: nat, t: nat, workflowVersion: nat, taskVersion: nat, c: CaseId, approved: bool,
                             user: User, r: nat, run: nat, pinned: seq<Item>): Option<Db>
  {
    if !(i < |now.instances| && now.instances[i].rowVersion == workflowVersion
         && now.instances[i].state == DecisionPending && now.instances[i].active
         && t < |now.tasks| && now.tasks[t].rowVersion == taskVersion && Open(now.tasks[t])) then None else
      var decision := Decision(c, i, now.instances[i].cycle, r, run, approved, user, pinned,
                               Superseded(now.decisions, c, i));
      Some(now.(
        decisions := now.decisions + [decision],
        tasks := Complete(now.tasks, t),
        instances := Bump(now.instances, i, now.instances[i].(
          state := if approved then Approved else Rejected, active := false,
          currentDecision := Some(|now.decisions|), activeTask := None))))
  }

  // ---------------------------------------------------------------- ending without a decision

  /** The row version is compared before the transaction; the transaction rechecks nothing. */
  function Withdraw(s0: Db, now: Db, c: CaseId, expected: nat): Option<Db> {
    var found := FindActive(s0.instances, c);
    if found.Some? && s0.instances[found.value].rowVersion == expected && found.value < |now.instances|
    then Some(End(now, found.value, Withdrawn)) else None
  }

  /** The case.cancelled message: read and write are one transaction. */
  function CaseCancelled(now: Db, c: CaseId): Option<Db> {
    var found := FindActive(now.instances, c);
    if found.Some? && now.instances[found.value].state !in {Approved, Rejected}
    then Some(End(now, found.value, Cancelled)) else None
  }

  function End(now: Db, i: nat, state: State): Db
    requires i < |now.instances|
  {
    now.(tasks := CloseOpen(now.tasks, i, None, TaskCancelled),
         instances := Bump(now.instances, i, now.instances[i].(state := state, active := false)))
  }

  // ---------------------------------------------------------------- runs of the service

  datatype Command =
    | CCreateVersion(content: Content)
    | CUpdateVersion(ver: nat, content: Content)
    | CPublish(ver: nat)
    | CRetire(ver: nat)
    | CStart(c: CaseId, ver: nat)
    | CReopen(c: CaseId, chosen: Option<nat>)
    | CAutoStart(c: CaseId, ver: nat)
    | CValidate(c: CaseId, expected: nat, snapshot: seq<Item>, pass: bool)
    | CClaim(t: nat, taskVersion: nat, user: User)
    | CAssign(t: nat, taskVersion: nat, user: User)
    | CReview(t: nat, workflowVersion: nat, taskVersion: nat, user: User, ready: bool, selected: seq<nat>,
              current: seq<Item>)
    | CCorrection(t: nat, workflowVersion: nat, taskVersion: nat)
    | CResubmit(c: CaseId, t: nat)
    | CRecommend(c: CaseId, workflowVersion: nat, user: User, outcome: RecOutcome, current: seq<Item>)
    | CDecide(c: CaseId, approved: bool, workflowVersion: nat, taskVersion: nat, user: User, current: seq<Item>)
    | CWithdraw(c: CaseId, expected: nat)
    | CCaseCancelled(c: CaseId)
    | CExpire(due: set<nat>)

  function Try(cmd: Command, s0: Db, s1: Db, s2: Db, now: Db): Option<Db> {
    match cmd
    case CCreateVersion(content) => Some(CreateVersion(now, content))
    case CUpdateVersion(v, content) => UpdateVersion(s0, now, v, content)
    case CPublish(v) => SetStatus(now, v, Draft, Published)
    case CRetire(v) => SetStatus(now, v, Published, Retired)
    case CStart(c, ver) => Start(s1, now, c, ver)
    case CReopen(c, chosen) => Reopen(s0, s1, now, c, chosen)
    case CAutoStart(c, ver) => Start(now, now, c, ver)
    case CValidate(c, expected, snapshot, pass) => Validate(s0, now, c, expected, snapshot, pass)
    case CClaim(t, tv, user) => Claim(s0, now, t, tv, user)
    case CAssign(t, tv, user) => Assign(now, t, tv, user)
    case CReview(t, wv, tv, user, ready, selected, current) =>
      SubmitReview(s0, s1, s2, now, t, wv, tv, user, ready, selected, current)
    case CCorrection(t, wv, tv) => RequestCorrection(s0, s1, now, t, wv, tv)
    case CResubmit(c, t) => Resubmit(s0, s1, now, c, t)
    case CRecommend(c, wv, user, outcome, current) => Recommend(s0, s1, now, c, wv, user, outcome, current)
    case CDecide(c, approved, wv, tv, user, current) => Decide(s0, s1, s2, now, c, approved, wv, tv, user, current)
    case CWithdraw(c, expected) => Withdraw(s0, now, c, expected)
    case CCaseCancelled(c) => CaseCancelled(now, c)
    case CExpire(due) => Some(now.(tasks := ExpireDue(now.tasks, due)))
  }

  /** A command together with the positions, in the history of the database, of its reads. */
  datatype Call = Call(cmd: Command, r0: nat, r1: nat, r2: nat)

  /** Any number of actors: each call read three earlier states, in order. */
  predicate Schedule(calls: seq<Call>) {
    forall k :: 0 <= k < |calls| ==> calls[k].r0 <= calls[k].r1 <= calls[k].r2 <= k
  }

  /** What the k-th call of a history returned; None when it was rejected. */
  function Attempt(calls: seq<Call>, k: nat): Option<Db>
    requires Schedule(calls) && k < |calls|
    decreases k, 1
  {
    Try(calls[k].cmd, At(calls, calls[k].r0), At(calls, calls[k].r1), At(calls, calls[k].r2), At(calls, k))
  }

  /** The database after the first k calls. */
  function At(calls: seq<Call>, k: nat): Db
    requires Schedule(calls) && k <= |calls|
    decreases k, 0
  {
    if k == 0 then EMPTY else
      var result := Attempt(calls, k - 1);
      if result.Some? then result.value else At(calls, k - 1)
  }
}
