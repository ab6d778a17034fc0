/** Two runs of the saga, one worker at a time, in which a request exceeds its maximum of attempts. */
module ProofSagaCounterexamples {
  import opened Common
  import opened CanonicalJson
  import opened Chaincode
  import opened ProofSaga
  import opened ProofSagaBudget
  import opened ProofSagaSubmissions

  lemma {:induction false} Runs(max: nat, calls: seq<Call>, k: nat, cmd: Command, at: nat, s0: Sys, now: Sys, b: Sys)
    requires Schedule(calls) && k < |calls| && calls[k] == Call(cmd, at, at)
    requires StateOf(max, calls, at) == s0 && StateOf(max, calls, k) == now
    requires Try(max, cmd, s0, s0, now) == Some(b)
    ensures StateOf(max, calls, k + 1) == b
  {
    assert Attempt(max, calls, k) == Some(b);
  }

  /** One attempt that never reaches the ledger, by the session that will be number sid. */
  function Failing(sid: nat, doc: Json, at: nat): seq<Call> {
    [Call(Acquire(0, sid, 0, 60), at, at), Call(ReadRequest(sid, doc), at, at), Call(Mark(sid), at, at),
     Call(Number(sid), at, at), Call(Submit(sid, Unreachable(true)), at, at), Call(CommitFailure(sid), at, at)]
  }

  ghost predicate CallsAt(calls: seq<Call>, k: nat, part: seq<Call>) {
    k + |part| <= |calls| && forall i :: 0 <= i < |part| ==> calls[k + i] == part[i]
  }

  function FailedSession(row: Request, doc: Json): Session {
    Session(0, Ended, row.state, row.attempts, row.binding, doc, Some(row.attempts + 1), true)
  }

  function AfterFailure(max: nat, row: Request): Request {
    FailureRow(MarkRow(row).(numbers := row.numbers + {row.attempts + 1}), max, row.attempts + 1, true, false)
  }

  ghost predicate Waiting(row: Request) {
    && CompleteEnvelope(row.kind, row.envelope) && row.state in {Pending, FailedRetryable} && row.lease.None?
    && row.binding.None? && row.attempts + 1 !in row.numbers
  }

  lemma One<T>(r: T, q: T)
    ensures [r][0 := q] == [q]
  {
  }

  lemma Last<T>(s: seq<T>, y: T, z: T)
    ensures (s + [y])[|s| := z] == s + [z]
  {
  }

  lemma AcquireRead(row: Request, sessions: seq<Session>, doc: Json) returns (mid: Sys, b: Sys)
    requires CompleteEnvelope(row.kind, row.envelope) && row.state != Confirmed && row.lease.None?
    requires WellFormed(doc) && Denote(doc) == Denote(Payload(row))
    ensures var (n, leased) := (|sessions|, row.(lease := Some(Lease(|sessions|, 60))));
      && mid == Sys([leased], sessions + [Session(0, Acquired, Pending, 0, None, Null, None, false)], map[])
      && b == Sys([leased], sessions + [Session(0, Ready, row.state, row.attempts, row.binding, doc, None, false)],
                  map[])
      && (forall seen: Sys :: seen.requests != [] && Eligible(seen.requests[0].state) && seen.requests[0].lease.None?
            ==> AcquireStep(seen, Sys([row], sessions, map[]), 0, n, 0, 60) == Some(mid))
      && ReadStep(mid, n, doc) == Some(b)
  {
    var n := |sessions|;
    var leased := row.(lease := Some(Lease(n, 60)));
    var x := Session(0, Acquired, Pending, 0, None, Null, None, false);
    mid := Sys([leased], sessions + [x], map[]);
    b := Sys([leased], sessions + [x.(phase := Ready, was := row.state, seen := row.attempts, bound := row.binding,
                                      payload := doc)], map[]);
    One(row, leased);
    Last(sessions, x, b.sessions[n]);
  }

  /** The state after marking, numbering, submitting in vain and committing the failure. */
  lemma FailingSteps(max: nat, row: Request, sessions: seq<Session>, x: Session)
    returns (marked: Sys, numbered: Sys, answered: Sys, failed: Sys)
    requires x.phase == Ready && x.request == 0 && x.bound.None? && x.seen == row.attempts
             && row.attempts + 1 !in row.numbers
    ensures var n := |sessions|;
      && MarkStep(Sys([row], sessions + [x], map[]), n) == Some(marked)
      && NumberStep(marked, n) == Some(numbered)
      && SubmitStep(numbered, n, Unreachable(true)) == Some(answered)
      && CommitFailureStep(answered, max, n) == Some(failed)
      && failed == Sys([AfterFailure(max, row)],
                       sessions + [x.(phase := Ended, attempt := Some(row.attempts + 1), submitted := true)], map[])
      && answered == Sys([MarkRow(row).(numbers := row.numbers + {row.attempts + 1})],
                         sessions + [x.(phase := Failed(true, false), attempt := Some(row.attempts + 1),
                                        submitted := true)], map[])
  {
    var a := x.(phase := Marked, attempt := Some(row.attempts + 1));
    var b := a.(phase := Numbered);
    var c := a.(phase := Failed(true, false), submitted := true);
    var d := c.(phase := Ended);
    var row1 := MarkRow(row);
    var row2 := row1.(numbers := row1.numbers + {row.attempts + 1});
    marked := Sys([row1], sessions + [a], map[]);
    numbered := Sys([row2], sessions + [b], map[]);
    answered := Sys([row2], sessions + [c], map[]);
    failed := Sys([AfterFailure(max, row)], sessions + [d], map[]);
    One(row, row1);
    One(row1, row2);
    One(row2, AfterFailure(max, row));
    Last(sessions, x, a);
    Last(sessions, a, b);
    Last(sessions, b, c);
    Last(sessions, c, d);
  }

  lemma {:induction false} AcquireReadRun(max: nat, calls: seq<Call>, k: nat, at: nat, row: Request,
                                          sessions: seq<Session>,
                                           doc: Json) returns (ready: Sys)
    requires Schedule(calls) && k + 1 < |calls| && at <= k && StateOf(max, calls, k) == Sys([row], sessions, map[])
    requires calls[k] == Call(Acquire(0, |sessions|, 0, 60), at, at)
    requires calls[k + 1] == Call(ReadRequest(|sessions|, doc), at, at)
    requires CompleteEnvelope(row.kind, row.envelope) && row.state != Confirmed && row.lease.None?
    requires var seen := StateOf(max, calls, at);
             seen.requests != [] && Eligible(seen.requests[0].state) && seen.requests[0].lease.None?
    requires WellFormed(doc) && Denote(doc) == Denote(Payload(row))
    ensures StateOf(max, calls, k + 2) == ready
    ensures ready == Sys([row.(lease := Some(Lease(|sessions|, 60)))],
                         sessions + [Session(0, Ready, row.state, row.attempts, row.binding, doc, None, false)], map[])
  {
    var acquired;
    acquired, ready := AcquireRead(row, sessions, doc);
    var seen := StateOf(max, calls, at);
    Runs(max, calls, k, Acquire(0, |sessions|, 0, 60), at, seen, Sys([row], sessions, map[]), acquired);
    Runs(max, calls, k + 1, ReadRequest(|sessions|, doc), at, seen, acquired, ready);
  }

  lemma {:induction false} FailingRun(max: nat, calls: seq<Call>, k: nat, at: nat, row: Request,
                                      sessions: seq<Session>, x: Session)
    requires Schedule(calls) && k + 3 < |calls| && at <= k
             && StateOf(max, calls, k) == Sys([row], sessions + [x], map[])
    requires calls[k] == Call(Mark(|sessions|), at, at) && calls[k + 1] == Call(Number(|sessions|), at, at)
    requires calls[k + 2] == Call(Submit(|sessions|, Unreachable(true)), at, at)
    requires calls[k + 3] == Call(CommitFailure(|sessions|), at, at)
    requires x.phase == Ready && x.request == 0 && x.bound.None? && x.seen == row.attempts
             && row.attempts + 1 !in row.numbers
    ensures StateOf(max, calls, k + 4) ==
            Sys([AfterFailure(max, row)],
                sessions + [x.(phase := Ended, attempt := Some(row.attempts + 1), submitted := true)], map[])
  {
    var (n, seen) := (|sessions|, StateOf(max, calls, at));
    var marked, numbered, answered, failed := FailingSteps(max, row, sessions, x);
    SubmitRun(max, calls, k, at, row, sessions, x);
    Runs(max, calls, k + 3, CommitFailure(n), at, seen, answered, failed);
  }

  /** Six steps of a history in which one worker makes an attempt that fails. */
  lemma {:induction false} FailedAttempt(max: nat, calls: seq<Call>, k: nat, row: Request, sessions: seq<Session>,
                                         doc: Json)
    requires Schedule(calls) && CallsAt(calls, k, Failing(|sessions|, doc, k))
    requires StateOf(max, calls, k) == Sys([row], sessions, map[]) && Waiting(row)
    requires WellFormed(doc) && Denote(doc) == Denote(Payload(row))
    ensures StateOf(max, calls, k + 6) == Sys([AfterFailure(max, row)], sessions + [FailedSession(row, doc)], map[])
  {
    var part := Failing(|sessions|, doc, k);
    assert calls[k + 0] == part[0] && calls[k + 1] == part[1] && calls[k + 2] == part[2] && calls[k + 3] == part[3]
           && calls[k + 4] == part[4] && calls[k + 5] == part[5];
    var ready := AcquireReadRun(max, calls, k, k, row, sessions, doc);
    FailingRun(max, calls, k + 2, k, ready.requests[0], sessions, ready.sessions[|sessions|]);
  }

  lemma {:induction false} Created(max: nat, calls: seq<Call>, kind: ProofKind, p: Struct)
    requires Schedule(calls) && calls != [] && calls[0] == Call(Create(kind, p), 0, 0) && CompleteEnvelope(kind, p)
    ensures StateOf(max, calls, 1) == Sys([NewRequest(kind, p)], [], map[])
  {
    assert START.requests + [NewRequest(kind, p)] == [NewRequest(kind, p)];
    Runs(max, calls, 0, Create(kind, p), 0, START, START, Sys([NewRequest(kind, p)], [], map[]));
  }

  /** Worker 1 picks the request while it is PENDING, worker 0 uses up its one attempt, and worker 1,
    * which acquires by the lease alone, makes a second one and submits again. */
  function OverrunCalls(kind: ProofKind, p: Struct, doc: Json): seq<Call> {
    [Call(Create(kind, p), 0, 0)] + Failing(0, doc, 1)
    + [Call(Acquire(0, 1, 0, 60), 1, 1), Call(ReadRequest(1, doc), 1, 1), Call(Mark(1), 1, 1), Call(Number(1), 1, 1),
       Call(Submit(1, Unreachable(true)), 1, 1)]
  }

  lemma {:induction false} SubmitRun(max: nat, calls: seq<Call>, k: nat, at: nat, row: Request,
                                     sessions: seq<Session>, x: Session)
    requires Schedule(calls) && k + 2 < |calls| && at <= k
             && StateOf(max, calls, k) == Sys([row], sessions + [x], map[])
    requires calls[k] == Call(Mark(|sessions|), at, at) && calls[k + 1] == Call(Number(|sessions|), at, at)
    requires calls[k + 2] == Call(Submit(|sessions|, Unreachable(true)), at, at)
    requires x.phase == Ready && x.request == 0 && x.bound.None? && x.seen == row.attempts
             && row.attempts + 1 !in row.numbers
    ensures StateOf(max, calls, k + 3) ==
            Sys([MarkRow(row).(numbers := row.numbers + {row.attempts + 1})],
                sessions + [x.(phase := Failed(true, false), attempt := Some(row.attempts + 1), submitted := true)],
                    map[])
  {
    var (n, seen) := (|sessions|, StateOf(max, calls, at));
    var marked, numbered, answered, failed := FailingSteps(max, row, sessions, x);
    Runs(max, calls, k, Mark(n), at, seen, Sys([row], sessions + [x], map[]), marked);
    Runs(max, calls, k + 1, Number(n), at, seen, marked, numbered);
    Runs(max, calls, k + 2, Submit(n, Unreachable(true)), at, seen, numbered, answered);
  }

  /** Nobody holds the request wherever the history acquires it. */
  lemma {:induction false} NobodyElse(max: nat, calls: seq<Call>, k: nat, row: Request, session: Session)
    requires Schedule(calls) && k + 6 < |calls|
    requires forall i :: 0 <= i < |calls| && calls[i].cmd.Acquire? ==> i == k || i == k + 6
    requires StateOf(max, calls, k).sessions == [] && StateOf(max, calls, k + 6).sessions == [session] && !Live(session)
    ensures OneAtATime(max, calls)
  {
  }

  lemma {:induction false} OverrunFrom(max: nat, calls: seq<Call>, k: nat, at: nat, dead: Request, session: Session,
                                       doc: Json)
    requires Schedule(calls) && at <= k && k + 5 == |calls| && StateOf(max, calls, k) == Sys([dead], [session], map[])
    requires CompleteEnvelope(dead.kind, dead.envelope) && dead.state != Confirmed && dead.lease.None?
             && dead.binding.None?
    requires dead.attempts == 1 && dead.numbers == {1} && session.request == 0 && session.submitted
             && session.attempt.Some?
    requires StateOf(max, calls, at).requests != [] && Waiting(StateOf(max, calls, at).requests[0])
    requires WellFormed(doc) && Denote(doc) == Denote(Payload(dead))
    requires calls[k] == Call(Acquire(0, 1, 0, 60), at, at) && calls[k + 1] == Call(ReadRequest(1, doc), at, at)
    requires calls[k + 2] == Call(Mark(1), at, at) && calls[k + 3] == Call(Number(1), at, at)
    requires calls[k + 4] == Call(Submit(1, Unreachable(true)), at, at)
    ensures |StateOf(max, calls, k + 5).requests| == 1 && StateOf(max, calls, k + 5).requests[0].attempts == 2
    ensures Submissions(StateOf(max, calls, k + 5), 0) == {0, 1}
  {
    var ready := AcquireReadRun(max, calls, k, at, dead, [session], doc);
    SubmitRun(max, calls, k + 2, at, ready.requests[0], [session], ready.sessions[1]);
    assert |StateOf(max, calls, k + 5).sessions| == 2;
  }

  lemma OverrunSchedule(calls: seq<Call>, kind: ProofKind, p: Struct, doc: Json, k: nat)
    requires calls == OverrunCalls(kind, p, doc) && k == 1
    ensures Schedule(calls) && |calls| == k + 11 && calls[0] == Call(Create(kind, p), 0, 0)
    ensures CallsAt(calls, k, Failing(0, doc, k)) && calls[k + 6] == Call(Acquire(0, 1, 0, 60), k, k)
    ensures calls[k + 7] == Call(ReadRequest(1, doc), k, k) && calls[k + 8] == Call(Mark(1), k, k)
    ensures calls[k + 9] == Call(Number(1), k, k) && calls[k + 10] == Call(Submit(1, Unreachable(true)), k, k)
    ensures forall i :: 0 <= i < |calls| && calls[i].cmd.Acquire? ==> i == k || i == k + 6
  {
    var first := Failing(0, doc, 1);
    assert |first| == 6 && forall i :: 0 <= i < 6 ==> calls[1 + i] == first[i];
  }

  /** One worker at a time, and still a request is submitted twice although the maximum is one. */
  lemma {:induction false} OverrunExceedsMaximum(max: nat, calls: seq<Call>, kind: ProofKind, p: Struct, doc: Json)
    requires max == 1 && CompleteEnvelope(kind, p) && calls == OverrunCalls(kind, p, doc)
    requires WellFormed(doc) && Denote(doc) == Denote(Payload(NewRequest(kind, p)))
    ensures Schedule(calls)
    ensures |StateOf(max, calls, |calls|).requests| == 1 && StateOf(max, calls, |calls|).requests[0].attempts == 2
    ensures |Submissions(StateOf(max, calls, |calls|), 0)| == 2 > max
    ensures OneAtATime(max, calls)
  {
    var k: nat :| k == 1;
    var row := NewRequest(kind, p);
    OverrunSchedule(calls, kind, p, doc, k);
    Created(max, calls, kind, p);
    FailedAttempt(max, calls, k, row, [], doc);
    assert [] + [FailedSession(row, doc)] == [FailedSession(row, doc)];
    NobodyElse(max, calls, k, row, FailedSession(row, doc));
    OverrunFrom(max, calls, k + 6, k, AfterFailure(max, row), FailedSession(row, doc), doc);
  }

  /** retry reads FAILED_RETRYABLE after the first attempt and writes after the second and last. */
  function RevivedCalls(kind: ProofKind, p: Struct, doc: Json): seq<Call> {
    [Call(Create(kind, p), 0, 0)] + Failing(0, doc, 1) + Failing(1, doc, 7) + [Call(Retry(0), 7, 7)]
  }

  lemma {:induction false} RevivedFrom(max: nat, calls: seq<Call>, k: nat, row: Request, doc: Json)
    requires max == 2 && Schedule(calls) && k + 13 == |calls| && StateOf(max, calls, k) == Sys([row], [], map[])
    requires Waiting(row) && row.attempts == 0 && row.numbers == {} && WellFormed(doc)
             && Denote(doc) == Denote(Payload(row))
    requires CallsAt(calls, k, Failing(0, doc, k)) && CallsAt(calls, k + 6, Failing(1, doc, k + 6))
    requires calls[k + 12] == Call(Retry(0), k + 6, k + 6)
    ensures |StateOf(max, calls, |calls|).requests| == 1
    ensures StateOf(max, calls, |calls|).requests[0].state == Pending
    ensures StateOf(max, calls, |calls|).requests[0].attempts == 2
    ensures StateOf(max, calls, k + 6).sessions == [FailedSession(row, doc)]
  {
    var (again, sessions) := (AfterFailure(max, row), [FailedSession(row, doc)]);
    FailedAttempt(max, calls, k, row, [], doc);
    assert [] + sessions == sessions;
    FailedAttempt(max, calls, k + 6, again, sessions, doc);
    var now := Sys([AfterFailure(max, again)], sessions + [FailedSession(again, doc)], map[]);
    Runs(max, calls, k + 12, Retry(0), k + 6, StateOf(max, calls, k + 6), now,
         SetRequest(now, 0, RetryRow(now.requests[0])));
  }

  lemma RevivedSchedule(calls: seq<Call>, kind: ProofKind, p: Struct, doc: Json, k: nat)
    requires calls == RevivedCalls(kind, p, doc) && k == 1
    ensures Schedule(calls) && |calls| == k + 13 && calls[0] == Call(Create(kind, p), 0, 0)
    ensures CallsAt(calls, k, Failing(0, doc, k)) && CallsAt(calls, k + 6, Failing(1, doc, k + 6))
    ensures calls[k + 12] == Call(Retry(0), k + 6, k + 6)
    ensures forall i :: 0 <= i < |calls| && calls[i].cmd.Acquire? ==> i == k || i == k + 6
  {
    var (first, second) := (Failing(0, doc, 1), Failing(1, doc, 7));
    assert |first| == 6 && |second| == 6;
    assert forall i :: 0 <= i < 6 ==> calls[1 + i] == first[i];
    assert forall i :: 0 <= i < 6 ==> calls[7 + i] == second[i];
  }

  lemma {:induction false} RetryRevivesSpentRequest(max: nat, calls: seq<Call>, kind: ProofKind, p: Struct, doc: Json)
    requires max == 2 && CompleteEnvelope(kind, p) && calls == RevivedCalls(kind, p, doc)
    requires WellFormed(doc) && Denote(doc) == Denote(Payload(NewRequest(kind, p)))
    ensures Schedule(calls)
    ensures |StateOf(max, calls, |calls|).requests| == 1
    ensures StateOf(max, calls, |calls|).requests[0].state == Pending
    ensures StateOf(max, calls, |calls|).requests[0].attempts == 2
    ensures OneAtATime(max, calls)
  {
    var k: nat :| k == 1;
    var row := NewRequest(kind, p);
    RevivedSchedule(calls, kind, p, doc, k);
    Created(max, calls, kind, p);
    RevivedFrom(max, calls, k, row, doc);
    NobodyElse(max, calls, k, row, FailedSession(row, doc));
  }
}
