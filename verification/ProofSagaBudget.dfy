/** How many submissions a request can make when one worker at a time holds it, and exactly
  * when the configured maximum is kept. */
module ProofSagaBudget {
  import opened Common
  import opened CanonicalJson
  import opened Chaincode
  import opened ProofSaga

  predicate Live(x: Session) { x.phase != Ended }

  /** A lease is only granted while no other call of process is under way for the request. */
  ghost predicate OneAtATime(max: nat, calls: seq<Call>)
    requires Schedule(calls)
  {
    forall k :: 0 <= k < |calls| && calls[k].cmd.Acquire? && Attempt(max, calls, k).Some? ==>
      NobodyHolds(StateOf(max, calls, k), calls[k].cmd.id)
  }

  ghost predicate NobodyHolds(sys: Sys, id: nat) {
    forall x :: 0 <= x < |sys.sessions| && sys.sessions[x].request == id ==> !Live(sys.sessions[x])
  }

  // ---------------------------------------------------------------- attempt numbers

  predicate Marking(phase: Phase) { phase.Marked? || phase.Numbered? || phase.Anchored? || phase.Failed? }

  /** What a session knows fits its request: the attempts it read, or the attempt it is making. */
  ghost predicate SessionFits(sys: Sys, x: Session) {
    && x.request < |sys.requests|
    && var row := sys.requests[x.request];
    && (x.phase in {Acquired, Ready, Polled, Confirming} ==> x.attempt.None?)
    && (x.phase in {Ready, Polled, Confirming} ==> x.seen == row.attempts)
    && (Marking(x.phase) ==> x.attempt == Some(row.attempts))
    && (x.phase.Marked? ==> row.attempts !in row.numbers)
    && (x.attempt.Some? ==> 1 <= x.attempt.value <= row.attempts)
    && (x.attempt.Some? ==> x.attempt.value == x.seen + 1)
    && (x.submitted ==> x.attempt.Some? && (x.phase.Anchored? || x.phase.Failed? || x.phase.Ended?))
    && x.was != Submitted
  }

  ghost predicate RowFits(row: Request) {
    row.state != Submitted && forall n :: n in row.numbers ==> 1 <= n <= row.attempts
  }

  /** Two sessions of one request are not both under way, and never make the same attempt. */
  ghost predicate Apart(x: Session, y: Session) {
    x.request == y.request ==>
      !(Live(x) && Live(y)) && (x.attempt.Some? && y.attempt.Some? ==> x.attempt != y.attempt)
  }

  ghost predicate Took(sys: Sys, x: nat, r: nat, n: nat) {
    x < |sys.sessions| && sys.sessions[x].request == r && sys.sessions[x].attempt == Some(n)
  }

  ghost predicate Taken(sys: Sys, r: nat, n: nat) { exists x: nat :: Took(sys, x, r, n) }

  /** Every number up to the request's attempts was taken by some session. */
  ghost predicate Covered(sys: Sys, r: nat)
    requires r < |sys.requests|
  {
    forall n: nat :: 1 <= n <= sys.requests[r].attempts ==> Taken(sys, r, n)
  }

  ghost predicate Fit(sys: Sys) {
    && (forall r {:trigger RowFits(sys.requests[r])} :: 0 <= r < |sys.requests| ==> RowFits(sys.requests[r]))
    && (forall r {:trigger Covered(sys, r)} :: 0 <= r < |sys.requests| ==> Covered(sys, r))
    && (forall x {:trigger SessionFits(sys, sys.sessions[x])} :: 0 <= x < |sys.sessions| ==>
        SessionFits(sys, sys.sessions[x]))
    && (forall x, y {:trigger Apart(sys.sessions[x], sys.sessions[y])} :: 0 <= x < y < |sys.sessions| ==>
        Apart(sys.sessions[x], sys.sessions[y]))
  }

  /** The request and session of a step: other sessions keep, the request may make one more attempt. */
  ghost predicate Moves(a: Sys, b: Sys, sid: nat) {
    && sid < |a.sessions| && |b.sessions| == |a.sessions|
    && (forall x :: 0 <= x < |a.sessions| && x != sid ==> b.sessions[x] == a.sessions[x])
    && |b.requests| == |a.requests|
    && var (x, y) := (a.sessions[sid], b.sessions[sid]);
    && Live(x) && y.request == x.request < |a.requests|
    && (forall r :: 0 <= r < |a.requests| && r != x.request ==> b.requests[r] == a.requests[r])
    && var (row, after) := (a.requests[x.request], b.requests[x.request]);
    && RowFits(after) && SessionFits(b, y)
    && if after.attempts == row.attempts then y.attempt == x.attempt
       else after.attempts == row.attempts + 1 && y.attempt == Some(after.attempts)
            && x.attempt.None? && after.numbers == row.numbers
  }

  lemma MovesKeepsFit(a: Sys, b: Sys, sid: nat)
    requires Fit(a) && Moves(a, b, sid)
    ensures Fit(b)
  {
    var r := a.sessions[sid].request;
    assert SessionFits(a, a.sessions[sid]);
    forall x | 0 <= x < |b.sessions| ensures SessionFits(b, b.sessions[x]) {
      if x != sid {
        assert SessionFits(a, a.sessions[x]);
        if a.sessions[x].request == r { PairApart(a, x, sid); }
      }
    }
    forall x, y | 0 <= x < y < |b.sessions| ensures Apart(b.sessions[x], b.sessions[y]) {
      assert Apart(a.sessions[x], a.sessions[y]);
      assert SessionFits(a, a.sessions[x]) && SessionFits(a, a.sessions[y]);
    }
    forall q | 0 <= q < |b.requests| ensures Covered(b, q) { CoveredAfter(a, b, sid, q); }
  }

  lemma PairApart(a: Sys, x: nat, y: nat)
    requires Fit(a) && x < |a.sessions| && y < |a.sessions| && x != y
    ensures Apart(a.sessions[x], a.sessions[y])
  {
    if x < y { assert Apart(a.sessions[x], a.sessions[y]); } else { assert Apart(a.sessions[y], a.sessions[x]); }
  }

  lemma CoveredAfter(a: Sys, b: Sys, sid: nat, q: nat)
    requires Fit(a) && Moves(a, b, sid) && q < |b.requests|
    ensures Covered(b, q)
  {
    assert Covered(a, q);
    forall n: nat | 1 <= n <= b.requests[q].attempts ensures Taken(b, q, n) {
      if n <= a.requests[q].attempts {
        assert Taken(a, q, n);
        var x: nat :| Took(a, x, q, n);
        assert Took(b, x, q, n);
      } else {
        assert Took(b, sid, q, n);
      }
    }
  }

  // ---------------------------------------------------------------- steps keep the numbering

  /** A write of a row that leaves its attempts and numbers alone: retry and reconcile. */
  lemma RowOnlyKeepsFit(a: Sys, id: nat, row: Request)
    requires Fit(a) && id < |a.requests| && RowFits(row)
    requires row.attempts == a.requests[id].attempts && row.numbers == a.requests[id].numbers
    ensures Fit(SetRequest(a, id, row))
  {
    var b := SetRequest(a, id, row);
    forall x | 0 <= x < |b.sessions| ensures SessionFits(b, b.sessions[x]) { assert SessionFits(a, a.sessions[x]); }
    forall q | 0 <= q < |b.requests| ensures Covered(b, q) {
      assert Covered(a, q);
      forall n: nat | 1 <= n <= b.requests[q].attempts ensures Taken(b, q, n) {
        assert Taken(a, q, n);
        var x: nat :| Took(a, x, q, n);
        assert Took(b, x, q, n);
      }
    }
  }

  lemma AcquireKeepsFit(s0: Sys, now: Sys, id: nat, owner: nat, time: int, until: int, b: Sys)
    requires Fit(now) && AcquireStep(s0, now, id, owner, time, until) == Some(b) && NobodyHolds(now, id)
    ensures Fit(b)
  {
    var row := now.requests[id].(lease := Some(Lease(owner, until)));
    assert RowFits(now.requests[id]);
    RowOnlyKeepsFit(now, id, row);
    var mid := SetRequest(now, id, row);
    forall x | 0 <= x < |b.sessions| ensures SessionFits(b, b.sessions[x]) {
      if x < |mid.sessions| { assert SessionFits(mid, mid.sessions[x]); }
    }
    forall q | 0 <= q < |b.requests| ensures Covered(b, q) {
      assert Covered(mid, q);
      forall n: nat | 1 <= n <= b.requests[q].attempts ensures Taken(b, q, n) {
        assert Taken(mid, q, n);
        var x: nat :| Took(mid, x, q, n);
        assert Took(b, x, q, n);
      }
    }
  }

  lemma CreateKeepsFit(now: Sys, kind: ProofKind, p: Struct, b: Sys)
    requires Fit(now) && CreateStep(now, kind, p) == Some(b)
    ensures Fit(b)
  {
    forall x | 0 <= x < |b.sessions| ensures SessionFits(b, b.sessions[x]) { assert SessionFits(now, now.sessions[x]); }
    forall q | 0 <= q < |b.requests| ensures Covered(b, q) {
      forall n: nat | 1 <= n <= b.requests[q].attempts ensures Taken(b, q, n) {
        assert Covered(now, q);
        assert Taken(now, q, n);
        var x: nat :| Took(now, x, q, n);
        assert Took(b, x, q, n);
      }
    }
  }

  predicate OfSession(cmd: Command) {
    cmd.ReadRequest? || cmd.Poll? || cmd.ConfirmExisting? || cmd.Mark? || cmd.Number? || cmd.Submit?
    || cmd.CommitSuccess? || cmd.CommitFailure?
  }

  lemma SubmitPhase(ledger: State, kind: ProofKind, payload: Json, net: Net)
    ensures SubmitProof(ledger, kind, payload, net).0.Anchored? || SubmitProof(ledger, kind, payload, net).0.Failed?
  {
  }

  lemma SubmitMoves(now: Sys, sid: nat, net: Net, b: Sys)
    requires Fit(now) && SubmitStep(now, sid, net) == Some(b)
    ensures Moves(now, b, sid)
  {
    var x := now.sessions[sid];
    assert SessionFits(now, x) && RowFits(now.requests[x.request]);
    SubmitPhase(now.ledger, now.requests[x.request].kind, x.payload, net);
  }

  lemma ReadingMoves(max: nat, cmd: Command, s0: Sys, s1: Sys, now: Sys, b: Sys)
    requires Fit(now) && (cmd.ReadRequest? || cmd.Poll? || cmd.ConfirmExisting?)
             && Try(max, cmd, s0, s1, now) == Some(b)
    ensures cmd.sid < |now.sessions| && Moves(now, b, cmd.sid)
  {
    var x := now.sessions[cmd.sid];
    assert SessionFits(now, x) && RowFits(now.requests[x.request]);
  }

  lemma AttemptMoves(max: nat, cmd: Command, s0: Sys, s1: Sys, now: Sys, b: Sys)
    requires Fit(now) && (cmd.Mark? || cmd.Number?) && Try(max, cmd, s0, s1, now) == Some(b)
    ensures cmd.sid < |now.sessions| && Moves(now, b, cmd.sid)
  {
    var x := now.sessions[cmd.sid];
    assert SessionFits(now, x) && RowFits(now.requests[x.request]);
  }

  lemma CommitMoves(max: nat, cmd: Command, s0: Sys, s1: Sys, now: Sys, b: Sys)
    requires Fit(now) && (cmd.CommitSuccess? || cmd.CommitFailure?) && Try(max, cmd, s0, s1, now) == Some(b)
    ensures cmd.sid < |now.sessions| && Moves(now, b, cmd.sid)
  {
    var x := now.sessions[cmd.sid];
    assert SessionFits(now, x) && RowFits(now.requests[x.request]);
  }

  lemma CrashKeepsFit(now: Sys, sid: nat, b: Sys)
    requires Fit(now) && CrashStep(now, sid) == Some(b)
    ensures Fit(b)
  {
    assert SessionFits(now, now.sessions[sid]);
    if Live(now.sessions[sid]) {
      assert RowFits(now.requests[now.sessions[sid].request]);
      MovesKeepsFit(now, b, sid);
    } else {
      assert b.sessions == now.sessions;
    }
  }

  lemma LedgerKeepsFit(now: Sys, ledger: State)
    requires Fit(now)
    ensures Fit(now.(ledger := ledger))
  {
    var b := now.(ledger := ledger);
    forall x | 0 <= x < |b.sessions| ensures SessionFits(b, b.sessions[x]) { assert SessionFits(now, now.sessions[x]); }
    forall q | 0 <= q < |b.requests| ensures Covered(b, q) {
      assert Covered(now, q);
      forall n: nat | 1 <= n <= b.requests[q].attempts ensures Taken(b, q, n) {
        assert Taken(now, q, n);
        var x: nat :| Took(now, x, q, n);
        assert Took(b, x, q, n);
      }
    }
  }

  lemma StepKeepsFit(max: nat, cmd: Command, s0: Sys, s1: Sys, now: Sys, b: Sys)
    requires Fit(now) && Try(max, cmd, s0, s1, now) == Some(b)
    requires cmd.Acquire? ==> NobodyHolds(now, cmd.id)
    ensures Fit(b)
  {
    match cmd
    case Create(kind, p) => CreateKeepsFit(now, kind, p, b);
    case Acquire(id, owner, time, until) => AcquireKeepsFit(s0, now, id, owner, time, until, b);
    case Submit(sid, net) =>
      SubmitMoves(now, sid, net, b);
      MovesKeepsFit(now, b, sid);
    case Crash(sid) => CrashKeepsFit(now, sid, b);
    case Retry(id) =>
      assert RowFits(now.requests[id]);
      RowOnlyKeepsFit(now, id, RetryRow(now.requests[id]));
    case Reconcile(id) =>
      assert RowFits(now.requests[id]);
      RowOnlyKeepsFit(now, id, now.requests[id].(state := Confirmed));
    case Invoke(call) => LedgerKeepsFit(now, b.ledger);
    case _ =>
      if cmd.ReadRequest? || cmd.Poll? || cmd.ConfirmExisting? {
        ReadingMoves(max, cmd, s0, s1, now, b);
      } else if cmd.Mark? || cmd.Number? {
        AttemptMoves(max, cmd, s0, s1, now, b);
      } else {
        CommitMoves(max, cmd, s0, s1, now, b);
      }
      MovesKeepsFit(now, b, cmd.sid);
  }

  lemma {:induction false} NumberingInEveryRun(max: nat, calls: seq<Call>, k: nat)
    requires Schedule(calls) && OneAtATime(max, calls) && k <= |calls|
    ensures Fit(StateOf(max, calls, k))
  {
    if k > 0 {
      NumberingInEveryRun(max, calls, k - 1);
      if Attempt(max, calls, k - 1).Some? {
        var call := calls[k - 1];
        StepKeepsFit(max, call.cmd, StateOf(max, calls, call.r0), StateOf(max, calls, call.r1),
                     StateOf(max, calls, k - 1), StateOf(max, calls, k));
      }
    }
  }

  /** The attempts of a request are numbered 1, 2, ... without gap or repetition, whatever was retried. */
  lemma {:induction false} AttemptNumbers(max: nat, calls: seq<Call>, k: nat, r: nat, n: nat) returns (x: nat)
    requires Schedule(calls) && OneAtATime(max, calls) && k <= |calls| && r < |StateOf(max, calls, k).requests|
    requires 1 <= n <= StateOf(max, calls, k).requests[r].attempts
    ensures var sys := StateOf(max, calls, k);
            && Took(sys, x, r, n) && (forall y: nat :: Took(sys, y, r, n) ==> y == x)
            && (forall m :: m in sys.requests[r].numbers ==> 1 <= m <= sys.requests[r].attempts)
  {
    NumberingInEveryRun(max, calls, k);
    var sys := StateOf(max, calls, k);
    assert Covered(sys, r);
    assert Taken(sys, r, n);
    x :| Took(sys, x, r, n);
    forall y: nat | Took(sys, y, r, n) ensures y == x { if y != x { PairApart(sys, x, y); } }
    assert RowFits(sys.requests[r]);
  }

  // ---------------------------------------------------------------- the maximum

  /** A request that still waits for a worker has attempts left, and none has made too many. */
  ghost predicate Budget(max: nat, row: Request) {
    row.attempts <= max && (row.state in {Pending, FailedRetryable} ==> row.attempts < max)
  }

  ghost predicate InBudget(max: nat, sys: Sys) {
    forall r :: 0 <= r < |sys.requests| ==> Budget(max, sys.requests[r])
  }

  /** The same for what sessions read while the row was waiting. */
  ghost predicate SessionsInBudget(max: nat, sys: Sys) {
    forall x :: 0 <= x < |sys.sessions| && sys.sessions[x].phase in {Ready, Polled} && Eligible(sys.sessions[x].was)
      ==> sys.sessions[x].seen < max
  }

  /** A manual retry whose write finds the row no longer FAILED_RETRYABLE. */
  ghost predicate StaleRetry(max: nat, calls: seq<Call>, k: nat)
    requires Schedule(calls) && k < |calls|
  {
    && calls[k].cmd.Retry? && Attempt(max, calls, k).Some?
    && StateOf(max, calls, k).requests[calls[k].cmd.id].state != FailedRetryable
  }

  /** A worker that goes on although the row it read under its lease no longer waited for one. */
  ghost predicate StaleWorker(max: nat, calls: seq<Call>, k: nat)
    requires Schedule(calls) && k < |calls|
  {
    && calls[k].cmd.Mark? && Attempt(max, calls, k).Some?
    && !Eligible(StateOf(max, calls, k).sessions[calls[k].cmd.sid].was)
  }

  /** The first of these on a row whose attempts are used up. */
  ghost predicate Revives(max: nat, calls: seq<Call>, k: nat)
    requires Schedule(calls) && k < |calls|
  {
    StaleRetry(max, calls, k) && StateOf(max, calls, k).requests[calls[k].cmd.id].attempts >= max
  }

  /** The second on a row that was read with its attempts used up. */
  ghost predicate Overruns(max: nat, calls: seq<Call>, k: nat)
    requires Schedule(calls) && k < |calls|
  {
    StaleWorker(max, calls, k) && StateOf(max, calls, k).sessions[calls[k].cmd.sid].seen >= max
  }

  ghost predicate Missteps(max: nat, calls: seq<Call>, k: nat)
    requires Schedule(calls) && k < |calls|
  {
    Revives(max, calls, k) || Overruns(max, calls, k)
  }

  lemma RetryBudget(max: nat, s0: Sys, now: Sys, id: nat, b: Sys)
    requires InBudget(max, now) && RetryStep(s0, now, id) == Some(b)
    ensures InBudget(max, b) <==> !(now.requests[id].state != FailedRetryable && now.requests[id].attempts >= max)
  {
    assert Budget(max, now.requests[id]);
    assert b.requests[id].state == Pending && b.requests[id].attempts == now.requests[id].attempts;
    if InBudget(max, b) { assert Budget(max, b.requests[id]); }
  }

  lemma MarkBudget(max: nat, now: Sys, sid: nat, b: Sys)
    requires Fit(now) && InBudget(max, now) && SessionsInBudget(max, now) && MarkStep(now, sid) == Some(b)
    ensures InBudget(max, b) <==> !(!Eligible(now.sessions[sid].was) && now.sessions[sid].seen >= max)
  {
    var x := now.sessions[sid];
    assert SessionFits(now, x) && Budget(max, now.requests[x.request]);
    assert b.requests[x.request].state == Submitting && b.requests[x.request].attempts == x.seen + 1;
    if InBudget(max, b) { assert Budget(max, b.requests[x.request]); }
  }

  lemma ReadBudget(max: nat, now: Sys, sid: nat, payload: Json, b: Sys)
    requires Fit(now) && InBudget(max, now) && SessionsInBudget(max, now) && ReadStep(now, sid, payload) == Some(b)
    ensures SessionsInBudget(max, b) && InBudget(max, b)
  {
    var row := now.requests[now.sessions[sid].request];
    assert Budget(max, row) && RowFits(row);
  }

  lemma CommitFailureBudget(max: nat, now: Sys, sid: nat, b: Sys)
    requires Fit(now) && InBudget(max, now) && CommitFailureStep(now, max, sid) == Some(b)
    ensures InBudget(max, b)
  {
    var x := now.sessions[sid];
    assert SessionFits(now, x) && Budget(max, now.requests[x.request]);
  }

  lemma OtherStepsInBudget(max: nat, cmd: Command, s0: Sys, s1: Sys, now: Sys, b: Sys)
    requires 0 < max && Fit(now) && InBudget(max, now) && Try(max, cmd, s0, s1, now) == Some(b)
    requires !cmd.Retry? && !cmd.Mark? && !cmd.ReadRequest? && !cmd.CommitFailure?
    ensures InBudget(max, b)
  {
    forall r | 0 <= r < |b.requests| ensures Budget(max, b.requests[r]) {
      if r < |now.requests| { assert Budget(max, now.requests[r]); }
    }
  }

  lemma OtherSessionsInBudget(max: nat, cmd: Command, s0: Sys, s1: Sys, now: Sys, b: Sys)
    requires Fit(now) && SessionsInBudget(max, now) && Try(max, cmd, s0, s1, now) == Some(b) && !cmd.ReadRequest?
    ensures SessionsInBudget(max, b)
  {
    if cmd.Submit? {
      var x := now.sessions[cmd.sid];
      SubmitPhase(now.ledger, now.requests[x.request].kind, x.payload, cmd.net);
    }
  }

  /** One step keeps the budget exactly when it is neither of the two. */
  lemma {:induction false} BudgetKeptByCall(max: nat, calls: seq<Call>, k: nat)
    requires Schedule(calls) && OneAtATime(max, calls) && k < |calls| && 0 < max
    requires InBudget(max, StateOf(max, calls, k)) && SessionsInBudget(max, StateOf(max, calls, k))
    ensures InBudget(max, StateOf(max, calls, k + 1)) <==> !Missteps(max, calls, k)
    ensures SessionsInBudget(max, StateOf(max, calls, k + 1))
  {
    NumberingInEveryRun(max, calls, k);
    var (now, b, call) := (StateOf(max, calls, k), StateOf(max, calls, k + 1), calls[k]);
    if Attempt(max, calls, k).Some? {
      var (s0, s1) := (StateOf(max, calls, call.r0), StateOf(max, calls, call.r1));
      match call.cmd {
        case Retry(id) => RetryBudget(max, s0, now, id, b);
        case Mark(sid) => MarkBudget(max, now, sid, b);
        case ReadRequest(sid, payload) => ReadBudget(max, now, sid, payload, b);
        case CommitFailure(sid) => CommitFailureBudget(max, now, sid, b);
        case _ => OtherStepsInBudget(max, call.cmd, s0, s1, now, b);
      }
      if !call.cmd.ReadRequest? { OtherSessionsInBudget(max, call.cmd, s0, s1, now, b); }
    }
  }

  lemma {:induction false} BudgetUpTo(max: nat, calls: seq<Call>, k: nat)
    requires Schedule(calls) && OneAtATime(max, calls) && k <= |calls| && 0 < max
    requires forall m: nat :: m < k ==> !Missteps(max, calls, m)
    ensures InBudget(max, StateOf(max, calls, k)) && SessionsInBudget(max, StateOf(max, calls, k))
  {
    if k > 0 {
      BudgetUpTo(max, calls, k - 1);
      BudgetKeptByCall(max, calls, k - 1);
    }
  }

  lemma {:induction false} SessionsFollow(max: nat, calls: seq<Call>, k: nat)
    requires Schedule(calls) && OneAtATime(max, calls) && k <= |calls| && 0 < max
    requires forall m: nat :: m <= k ==> InBudget(max, StateOf(max, calls, m))
    ensures SessionsInBudget(max, StateOf(max, calls, k))
  {
    if k > 0 {
      SessionsFollow(max, calls, k - 1);
      BudgetKeptByCall(max, calls, k - 1);
    }
  }

  ghost predicate AlwaysInBudget(max: nat, calls: seq<Call>)
    requires Schedule(calls)
  {
    forall k: nat :: k <= |calls| ==> InBudget(max, StateOf(max, calls, k))
  }

  ghost predicate NoMissteps(max: nat, calls: seq<Call>)
    requires Schedule(calls)
  {
    forall k: nat :: k < |calls| ==> !Missteps(max, calls, k)
  }

  lemma {:induction false} InBudgetNoMisstep(max: nat, calls: seq<Call>, k: nat)
    requires Schedule(calls) && OneAtATime(max, calls) && 0 < max && AlwaysInBudget(max, calls) && k < |calls|
    ensures !Missteps(max, calls, k)
  {
    SessionsFollow(max, calls, k);
    BudgetKeptByCall(max, calls, k);
    assert InBudget(max, StateOf(max, calls, k + 1));
  }

  /** With one worker at a time, every request stays within the maximum, and waits for a worker only with
    * attempts left, if and only if no retry revived and no worker overran a request that had used them up. */
  lemma {:induction false} BudgetKeptIff(max: nat, calls: seq<Call>)
    requires Schedule(calls) && OneAtATime(max, calls) && 0 < max
    ensures AlwaysInBudget(max, calls) <==> NoMissteps(max, calls)
  {
    if NoMissteps(max, calls) {
      forall k: nat | k <= |calls| ensures InBudget(max, StateOf(max, calls, k)) { BudgetUpTo(max, calls, k); }
    }
    if AlwaysInBudget(max, calls) {
      forall k: nat | k < |calls| ensures !Missteps(max, calls, k) { InBudgetNoMisstep(max, calls, k); }
    }
  }

  /** In particular the guards that the source leaves out would be enough. */
  lemma {:induction false} GuardsSuffice(max: nat, calls: seq<Call>)
    requires Schedule(calls) && OneAtATime(max, calls) && 0 < max
    requires forall k: nat :: k < |calls| ==> !StaleRetry(max, calls, k) && !StaleWorker(max, calls, k)
    ensures AlwaysInBudget(max, calls)
  {
    forall k: nat | k < |calls| ensures !Missteps(max, calls, k) {
      assert !StaleRetry(max, calls, k) && !StaleWorker(max, calls, k);
    }
    BudgetKeptIff(max, calls);
  }
}
