/** How often a request is submitted, and how much work its attempts can take, when one worker at a
  * time holds it. */
module ProofSagaSubmissions {
  import opened Common
  import opened ProofSaga
  import opened ProofSagaBudget

  // ---------------------------------------------------------------- what became of each attempt

  predicate Of(x: Session, r: nat) { x.request == r && x.attempt.Some? }

  ghost function Marked(sys: Sys, r: nat): set<nat> {
    set x: nat | x < |sys.sessions| && Of(sys.sessions[x], r)
  }

  /** Attempts that called submitProof. */
  ghost function Submissions(sys: Sys, r: nat): set<nat> {
    set x: nat | x < |sys.sessions| && Of(sys.sessions[x], r) && sys.sessions[x].submitted
  }

  /** Attempts that ended, by a crash, without calling it. */
  ghost function Lost(sys: Sys, r: nat): set<nat> {
    set x: nat | x < |sys.sessions| && Of(sys.sessions[x], r) && !sys.sessions[x].submitted && !Live(sys.sessions[x])
  }

  /** Attempts that are about to call it. */
  ghost function InFlight(sys: Sys, r: nat): set<nat> {
    set x: nat | x < |sys.sessions| && Of(sys.sessions[x], r) && !sys.sessions[x].submitted && Live(sys.sessions[x])
  }

  ghost function MarkedUpTo(sys: Sys, r: nat, n: nat): set<nat> {
    set x: nat | x < |sys.sessions| && Of(sys.sessions[x], r) && sys.sessions[x].attempt.value <= n
  }

  lemma {:induction false} CountMarked(sys: Sys, r: nat, n: nat)
    requires Fit(sys) && r < |sys.requests| && n <= sys.requests[r].attempts
    ensures |MarkedUpTo(sys, r, n)| == n
  {
    if n == 0 {
      forall x: nat | x < |sys.sessions| && Of(sys.sessions[x], r) ensures sys.sessions[x].attempt.value >= 1 {
        assert SessionFits(sys, sys.sessions[x]);
      }
      assert MarkedUpTo(sys, r, n) == {};
    } else {
      CountMarked(sys, r, n - 1);
      assert Covered(sys, r) && Taken(sys, r, n);
      var x: nat :| Took(sys, x, r, n);
      forall y | y in MarkedUpTo(sys, r, n) ensures y == x || y in MarkedUpTo(sys, r, n - 1) {
        if y != x { PairApart(sys, x, y); }
      }
      assert MarkedUpTo(sys, r, n) == MarkedUpTo(sys, r, n - 1) + {x};
    }
  }

  /** Every attempt a request counts is one session that submitted, was lost, or is in flight. */
  lemma {:induction false} AttemptsAccounted(sys: Sys, r: nat)
    requires Fit(sys) && r < |sys.requests|
    ensures |Submissions(sys, r)| + |Lost(sys, r)| + |InFlight(sys, r)| == sys.requests[r].attempts == |Marked(sys, r)|
  {
    var n := sys.requests[r].attempts;
    CountMarked(sys, r, n);
    forall x | x in Marked(sys, r) ensures x in MarkedUpTo(sys, r, n) { assert SessionFits(sys, sys.sessions[x]); }
    assert Marked(sys, r) == MarkedUpTo(sys, r, n);
    var (a, b, c) := (Submissions(sys, r), Lost(sys, r), InFlight(sys, r));
    assert Marked(sys, r) == a + b + c;
    assert a !! b && (a + b) !! c;
  }

  // ---------------------------------------------------------------- steps

  lemma {:induction false} SubmissionsKept(max: nat, cmd: Command, s0: Sys, s1: Sys, now: Sys, b: Sys, r: nat)
    requires Fit(now) && Try(max, cmd, s0, s1, now) == Some(b)
    requires cmd.Submit? ==> now.sessions[cmd.sid].request != r
    ensures Submissions(b, r) == Submissions(now, r)
  {
    if OfSession(cmd) {
      var x := now.sessions[cmd.sid];
      assert SessionFits(now, x);
      OneSession(max, cmd, s0, s1, now, b);
    } else if cmd.Crash? {
      assert SessionFits(now, now.sessions[cmd.sid]);
    }
  }

  /** A step of a session changes that session alone, keeps its request, and only a submission marks it so. */
  lemma OneSession(max: nat, cmd: Command, s0: Sys, s1: Sys, now: Sys, b: Sys)
    requires Fit(now) && OfSession(cmd) && Try(max, cmd, s0, s1, now) == Some(b)
    ensures cmd.sid < |now.sessions| && |b.sessions| == |now.sessions|
    ensures forall x :: 0 <= x < |now.sessions| && x != cmd.sid ==> b.sessions[x] == now.sessions[x]
    ensures b.sessions[cmd.sid].request == now.sessions[cmd.sid].request
    ensures !cmd.Submit? ==> b.sessions[cmd.sid].submitted == now.sessions[cmd.sid].submitted
    ensures now.sessions[cmd.sid].submitted ==> b.sessions[cmd.sid].attempt == now.sessions[cmd.sid].attempt
  {
    assert SessionFits(now, now.sessions[cmd.sid]);
  }

  /** After a submission, a request has as many as the attempt's number, less the attempts that were lost. */
  lemma {:induction false} SubmissionCount(now: Sys, sid: nat, net: Net, b: Sys)
    requires Fit(now) && SubmitStep(now, sid, net) == Some(b)
    ensures sid < |now.sessions|
    ensures var x := now.sessions[sid];
            |Submissions(b, x.request)| + |Lost(now, x.request)| == x.seen + 1
  {
    var x := now.sessions[sid];
    var r := x.request;
    assert SessionFits(now, x);
    SubmitMoves(now, sid, net, b);
    MovesKeepsFit(now, b, sid);
    AttemptsAccounted(b, r);
    forall y: nat | y < |b.sessions| && y != sid && b.sessions[y].request == r ensures !Live(b.sessions[y]) {
      PairApart(now, y, sid);
    }
    assert InFlight(b, r) == {};
    assert Lost(b, r) == Lost(now, r);
  }

  // ---------------------------------------------------------------- the maximum of submissions

  /** A submission by a session that read at least the maximum of attempts, those lost not counted. */
  ghost predicate OverSubmits(max: nat, calls: seq<Call>, k: nat)
    requires Schedule(calls) && k < |calls|
  {
    && calls[k].cmd.Submit? && Attempt(max, calls, k).Some?
    && var x := StateOf(max, calls, k).sessions[calls[k].cmd.sid];
    x.seen >= max + |Lost(StateOf(max, calls, k), x.request)|
  }

  ghost predicate Within(max: nat, sys: Sys) { forall r: nat :: |Submissions(sys, r)| <= max }

  lemma {:induction false} WithinByCall(max: nat, calls: seq<Call>, k: nat)
    requires Schedule(calls) && OneAtATime(max, calls) && k < |calls| && Within(max, StateOf(max, calls, k))
    ensures Within(max, StateOf(max, calls, k + 1)) <==> !OverSubmits(max, calls, k)
  {
    NumberingInEveryRun(max, calls, k);
    var (call, result) := (calls[k], Attempt(max, calls, k));
    if result.Some? {
      WithinByStep(max, call.cmd, StateOf(max, calls, call.r0), StateOf(max, calls, call.r1), StateOf(max, calls, k),
                   result.value);
    }
  }

  lemma {:induction false} WithinByStep(max: nat, cmd: Command, s0: Sys, s1: Sys, now: Sys, b: Sys)
    requires Fit(now) && Within(max, now) && Try(max, cmd, s0, s1, now) == Some(b)
    ensures Within(max, b) <==>
            !(cmd.Submit? && now.sessions[cmd.sid].seen >= max + |Lost(now, now.sessions[cmd.sid].request)|)
  {
    forall r: nat | cmd.Submit? ==> now.sessions[cmd.sid].request != r ensures |Submissions(b, r)| <= max {
      SubmissionsKept(max, cmd, s0, s1, now, b, r);
      assert |Submissions(now, r)| <= max;
    }
    if cmd.Submit? {
      SubmissionCount(now, cmd.sid, cmd.net, b);
      assert Within(max, b) <==> |Submissions(b, now.sessions[cmd.sid].request)| <= max;
    }
  }

  ghost predicate AlwaysWithin(max: nat, calls: seq<Call>)
    requires Schedule(calls)
  {
    forall k: nat :: k <= |calls| ==> Within(max, StateOf(max, calls, k))
  }

  ghost predicate NeverOver(max: nat, calls: seq<Call>)
    requires Schedule(calls)
  {
    forall k: nat :: k < |calls| ==> !OverSubmits(max, calls, k)
  }

  lemma {:induction false} WithinUpTo(max: nat, calls: seq<Call>, k: nat)
    requires Schedule(calls) && OneAtATime(max, calls) && k <= |calls| && NeverOver(max, calls)
    ensures Within(max, StateOf(max, calls, k))
  {
    if k > 0 {
      WithinUpTo(max, calls, k - 1);
      WithinByCall(max, calls, k - 1);
    } else {
      forall r: nat ensures |Submissions(StateOf(max, calls, k), r)| <= max {
        assert Submissions(StateOf(max, calls, k), r) == {};
      }
    }
  }

  /** With one worker at a time, no request is ever submitted more often than the maximum, manual retries
    * included, if and only if nobody submits after reading the maximum of attempts, lost ones not counted. */
  lemma {:induction false} SubmissionsWithinIff(max: nat, calls: seq<Call>)
    requires Schedule(calls) && OneAtATime(max, calls)
    ensures AlwaysWithin(max, calls) <==> NeverOver(max, calls)
  {
    if NeverOver(max, calls) {
      forall k: nat | k <= |calls| ensures Within(max, StateOf(max, calls, k)) { WithinUpTo(max, calls, k); }
    }
    if AlwaysWithin(max, calls) {
      forall k: nat | k < |calls| ensures !OverSubmits(max, calls, k) {
        assert Within(max, StateOf(max, calls, k)) && Within(max, StateOf(max, calls, k + 1));
        WithinByCall(max, calls, k);
      }
    }
  }

  /** Without the missteps that break the budget of attempts, the maximum of submissions is kept too. */
  lemma {:induction false} SubmissionsBounded(max: nat, calls: seq<Call>, k: nat, r: nat)
    requires Schedule(calls) && OneAtATime(max, calls) && k <= |calls| && 0 < max
    requires r < |StateOf(max, calls, k).requests|
    requires forall m: nat :: m < k ==> !Missteps(max, calls, m)
    ensures |Submissions(StateOf(max, calls, k), r)| <= |Marked(StateOf(max, calls, k), r)| <= max
  {
    NumberingInEveryRun(max, calls, k);
    BudgetUpTo(max, calls, k);
    AttemptsAccounted(StateOf(max, calls, k), r);
    assert Budget(max, StateOf(max, calls, k).requests[r]);
  }

  // ---------------------------------------------------------------- termination

  /** process makes progress: how many steps a session in this phase has left at most. */
  function Remaining(phase: Phase): nat {
    match phase
    case Acquired => 7
    case Ready => 6
    case Polled => 5
    case Confirming => 5
    case Marked => 4
    case Numbered => 3
    case Anchored(_) => 2
    case Failed(_, _) => 1
    case Ended => 0
  }

  lemma SessionProgresses(max: nat, cmd: Command, s0: Sys, s1: Sys, now: Sys, b: Sys)
    requires OfSession(cmd) && Try(max, cmd, s0, s1, now) == Some(b)
    ensures cmd.sid < |now.sessions| && |b.sessions| == |now.sessions|
    ensures Remaining(b.sessions[cmd.sid].phase) < Remaining(now.sessions[cmd.sid].phase)
    ensures forall x :: 0 <= x < |now.sessions| && x != cmd.sid ==> b.sessions[x] == now.sessions[x]
  {
    if cmd.Submit? {
      var x := now.sessions[cmd.sid];
      SubmitPhase(now.ledger, now.requests[x.request].kind, x.payload, cmd.net);
    }
  }

  /** Call k is a step that one of the sessions in s made. */
  ghost predicate StepOf(max: nat, calls: seq<Call>, k: nat, s: set<nat>)
    requires Schedule(calls) && k < |calls|
  {
    OfSession(calls[k].cmd) && calls[k].cmd.sid in s && Attempt(max, calls, k).Some?
  }

  /** The steps that the sessions in s have made among the first k calls. */
  ghost function Work(max: nat, calls: seq<Call>, k: nat, s: set<nat>): nat
    requires Schedule(calls) && k <= |calls|
  {
    if k == 0 then 0 else Work(max, calls, k - 1, s) + if StepOf(max, calls, k - 1, s) then 1 else 0
  }

  ghost function Left(sys: Sys, x: nat): nat {
    if x < |sys.sessions| then Remaining(sys.sessions[x].phase) else 7
  }

  lemma {:induction false} LeftByStep(max: nat, cmd: Command, s0: Sys, s1: Sys, now: Sys, b: Sys, x: nat)
    requires Try(max, cmd, s0, s1, now) == Some(b)
    ensures Left(b, x) + (if OfSession(cmd) && cmd.sid == x then 1 else 0) <= Left(now, x)
  {
    if OfSession(cmd) { SessionProgresses(max, cmd, s0, s1, now, b); }
  }

  /** No session ever makes more than seven steps. */
  lemma {:induction false} SessionWork(max: nat, calls: seq<Call>, k: nat, x: nat)
    requires Schedule(calls) && k <= |calls|
    ensures Work(max, calls, k, {x}) + Left(StateOf(max, calls, k), x) <= 7
  {
    if k > 0 {
      SessionWork(max, calls, k - 1, x);
      var (call, result) := (calls[k - 1], Attempt(max, calls, k - 1));
      if result.Some? {
        LeftByStep(max, call.cmd, StateOf(max, calls, call.r0), StateOf(max, calls, call.r1),
                   StateOf(max, calls, k - 1), result.value, x);
      }
    }
  }

  lemma {:induction false} WorkSplits(max: nat, calls: seq<Call>, k: nat, s: set<nat>, x: nat)
    requires Schedule(calls) && k <= |calls| && x in s
    ensures Work(max, calls, k, s) == Work(max, calls, k, s - {x}) + Work(max, calls, k, {x})
  {
    if k > 0 { WorkSplits(max, calls, k - 1, s, x); }
  }

  lemma {:induction false} WorkOfAll(max: nat, calls: seq<Call>, k: nat, s: set<nat>)
    requires Schedule(calls) && k <= |calls|
    ensures Work(max, calls, k, s) <= 7 * |s|
  {
    if s == {} {
      NoWork(max, calls, k);
    } else {
      var x :| x in s;
      WorkOfAll(max, calls, k, s - {x});
      SessionWork(max, calls, k, x);
      WorkSplits(max, calls, k, s, x);
    }
  }

  lemma {:induction false} NoWork(max: nat, calls: seq<Call>, k: nat)
    requires Schedule(calls) && k <= |calls|
    ensures Work(max, calls, k, {}) == 0
  {
    if k > 0 { NoWork(max, calls, k - 1); }
  }

  /** The saga of a request terminates: at most the maximum of sessions make an attempt, and together they
    * make at most seven steps for each. */
  lemma {:induction false} AttemptsTerminate(max: nat, calls: seq<Call>, k: nat, r: nat)
    requires Schedule(calls) && OneAtATime(max, calls) && k <= |calls| && 0 < max
    requires r < |StateOf(max, calls, k).requests|
    requires forall m: nat :: m < k ==> !Missteps(max, calls, m)
    ensures |Marked(StateOf(max, calls, k), r)| <= max
    ensures Work(max, calls, k, Marked(StateOf(max, calls, k), r)) <= 7 * max
  {
    SubmissionsBounded(max, calls, k, r);
    WorkOfAll(max, calls, k, Marked(StateOf(max, calls, k), r));
  }

  /** Every step of a worker decreases the attempts its request has left or, where they stay, the steps its
    * session has left. */
  lemma {:induction false} MeasureDecreases(max: nat, calls: seq<Call>, k: nat)
    requires Schedule(calls) && OneAtATime(max, calls) && k < |calls| && 0 < max
    requires forall m: nat :: m <= k ==> !Missteps(max, calls, m)
    requires OfSession(calls[k].cmd) && Attempt(max, calls, k).Some?
    ensures var (now, b, sid) := (StateOf(max, calls, k), StateOf(max, calls, k + 1), calls[k].cmd.sid);
            && sid < |now.sessions| && sid < |b.sessions| && now.sessions[sid].request < |now.requests| == |b.requests|
            && (var (before, after) := (now.requests[now.sessions[sid].request], b.requests[now.sessions[sid].request]);
                && before.attempts <= after.attempts <= max
                && (before.attempts == after.attempts ==>
                      Remaining(b.sessions[sid].phase) < Remaining(now.sessions[sid].phase)))
  {
    var (call, now, b) := (calls[k], StateOf(max, calls, k), StateOf(max, calls, k + 1));
    var (s0, s1) := (StateOf(max, calls, call.r0), StateOf(max, calls, call.r1));
    NumberingInEveryRun(max, calls, k);
    BudgetUpTo(max, calls, k + 1);
    SessionProgresses(max, call.cmd, s0, s1, now, b);
    AttemptsGrow(max, call.cmd, s0, s1, now, b);
    assert Budget(max, b.requests[now.sessions[call.cmd.sid].request]);
  }

  lemma AttemptsGrow(max: nat, cmd: Command, s0: Sys, s1: Sys, now: Sys, b: Sys)
    requires Fit(now) && OfSession(cmd) && Try(max, cmd, s0, s1, now) == Some(b)
    ensures cmd.sid < |now.sessions| && now.sessions[cmd.sid].request < |now.requests| == |b.requests|
    ensures now.requests[now.sessions[cmd.sid].request].attempts <= b.requests[now.sessions[cmd.sid].request].attempts
  {
    assert SessionFits(now, now.sessions[cmd.sid]);
  }
}
