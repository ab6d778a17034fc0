/** What a scan result and the other steps do to a version, and what its status tells in every run. */
module EvidenceOutcomes {
  import opened Common
  import opened EvidenceLineage
  import opened EvidenceTheorems

  // ---------------------------------------------------------------- what a status tells

  ghost predicate FoundInfected(s: Sys, v: nat) {
    exists i :: 0 <= i < |s.scans| && s.scans[i].version == v && s.scans[i].status == Infected
  }

  ghost predicate StatusOk(s: Sys, v: nat)
    requires v < |s.versions|
  {
    && (s.versions[v].status == Available ==> Promotable(s, v))
    && (s.versions[v].status == Rejected ==> FoundInfected(s, v))
  }

  ghost predicate WorkerRests(s: Sys, x: Worker) { x.phase == Rejecting ==> FoundInfected(s, x.version) }

  ghost predicate StatusesRest(s: Sys) {
    && (forall v :: 0 <= v < |s.versions| ==> StatusOk(s, v))
    && forall w :: 0 <= w < |s.workers| ==> WorkerRests(s, s.workers[w])
  }

  lemma InfectedStays(a: Sys, b: Sys, v: nat)
    requires a.scans <= b.scans && FoundInfected(a, v)
    ensures FoundInfected(b, v)
  {
    var i :| 0 <= i < |a.scans| && a.scans[i].version == v && a.scans[i].status == Infected;
    assert b.scans[i] == a.scans[i];
  }

  lemma StatusStays(a: Sys, b: Sys, v: nat)
    requires Later(a, b) && v < |a.versions| && StatusOk(a, v) && b.versions[v].status == a.versions[v].status
    ensures StatusOk(b, v)
  {
    assert VersionKept(a.versions[v], b.versions[v]);
    if a.versions[v].status == Available { CleanStays(a, b, v); }
    if a.versions[v].status == Rejected { InfectedStays(a, b, v); }
  }

  /** A step after which every status that is new has its reason. */
  lemma RestKeeps(a: Sys, b: Sys)
    requires StatusesRest(a) && Later(a, b)
    requires forall v :: 0 <= v < |b.versions| ==>
               StatusOk(b, v) || (v < |a.versions| && b.versions[v].status == a.versions[v].status)
    requires forall w :: 0 <= w < |b.workers| ==>
               WorkerRests(b, b.workers[w])
               || (w < |a.workers| && b.workers[w].phase == a.workers[w].phase
                   && b.workers[w].version == a.workers[w].version)
    ensures StatusesRest(b)
  {
    forall v | 0 <= v < |b.versions| ensures StatusOk(b, v) {
      if v < |a.versions| && b.versions[v].status == a.versions[v].status { StatusStays(a, b, v); }
    }
    forall w | 0 <= w < |b.workers| ensures WorkerRests(b, b.workers[w]) {
      if w < |a.workers| && b.workers[w].phase == a.workers[w].phase == Rejecting
          && b.workers[w].version == a.workers[w].version {
        assert WorkerRests(a, a.workers[w]);
        InfectedStays(a, b, a.workers[w].version);
      }
    }
  }

  lemma UploadRests(cmd: Command, seen: Sys, s: Sys, b: Sys)
    requires Later(s, b) && StatusesRest(s) && Try(cmd, seen, s) == Some(b)
    requires cmd.CRegister? || cmd.CPrepare? || cmd.CStore? || cmd.CFinishUpload? || cmd.CUploadFailure?
             || cmd.CAbandon?
             || cmd.CIntegrityFailure? || cmd.CRequeue? || cmd.CCleanQuarantine?
    ensures StatusesRest(b)
  {
    RestKeeps(s, b);
  }

  lemma WorkRests(cmd: Command, seen: Sys, s: Sys, b: Sys)
    requires Later(s, b) && StatusesRest(s) && Try(cmd, seen, s) == Some(b)
    requires cmd.CClaim? || cmd.CStartScan? || cmd.CCopy? || cmd.CCheckHash? || cmd.CFail?
    ensures StatusesRest(b)
  {
    RestKeeps(s, b);
  }

  lemma ScanRests(s: Sys, w: nat, result: ScanStatus, b: Sys)
    requires Later(s, b) && StatusesRest(s) && RecordScan(s, w, result) == Some(b)
    ensures StatusesRest(b)
  {
    if b.workers[w].phase == Rejecting {
      var i := |s.scans|;
      assert b.scans[i].version == b.workers[w].version && b.scans[i].status == Infected;
      assert WorkerRests(b, b.workers[w]);
    }
    RestKeeps(s, b);
  }

  lemma FinalizeRests(s: Sys, w: nat, works: bool, b: Sys)
    requires Inv(s) && Later(s, b) && StatusesRest(s) && Finalize(s, w, works) == Some(b)
    ensures StatusesRest(b)
  {
    assert WorkerOk(s, s.workers[w]);
    CleanStaysIf(s, b, s.workers[w].version);
    RestKeeps(s, b);
  }

  lemma RejectRests(s: Sys, w: nat, b: Sys)
    requires Later(s, b) && StatusesRest(s) && RejectInfected(s, w) == Some(b)
    ensures StatusesRest(b)
  {
    var v := s.workers[w].version;
    assert WorkerRests(s, s.workers[w]);
    InfectedStays(s, b, v);
    assert StatusOk(b, v);
    RestKeeps(s, b);
  }

  lemma StepRests(cmd: Command, seen: Sys, s: Sys, b: Sys)
    requires Inv(s) && StatusesRest(s) && Try(cmd, seen, s) == Some(b)
    ensures StatusesRest(b)
  {
    StepKeeps(cmd, seen, s, b);
    match cmd
    case CRecordScan(w, result) => ScanRests(s, w, result, b);
    case CFinalize(w, works) => FinalizeRests(s, w, works, b);
    case CReject(w) => RejectRests(s, w, b);
    case CClaim(_, _, _) => WorkRests(cmd, seen, s, b);
    case CStartScan(_) => WorkRests(cmd, seen, s, b);
    case CCopy(_) => WorkRests(cmd, seen, s, b);
    case CCheckHash(_) => WorkRests(cmd, seen, s, b);
    case CFail(_, _) => WorkRests(cmd, seen, s, b);
    case _ => UploadRests(cmd, seen, s, b);
  }

  lemma {:induction false} CallRests(calls: seq<Call>, k: nat)
    requires Schedule(calls) && k < |calls| && StatusesRest(StateOf(calls, k))
    ensures StatusesRest(StateOf(calls, k + 1))
  {
    EveryRun(calls, k, k);
    var (seen, s) := (StateOf(calls, calls[k].read), StateOf(calls, k));
    var next := Try(calls[k].cmd, seen, s);
    if next.Some? { StepRests(calls[k].cmd, seen, s, next.value); }
  }

  lemma {:induction false} EveryStatusRests(calls: seq<Call>, k: nat)
    requires Schedule(calls) && k <= |calls|
    ensures StatusesRest(StateOf(calls, k))
  {
    if k > 0 {
      EveryStatusRests(calls, k - 1);
      CallRests(calls, k - 1);
    }
  }

  /** A version that ever was AVAILABLE was found clean, and its canonical bytes hash to its recorded hash, then
    * and ever after. */
  lemma {:induction false} AvailableIsCleanAndIntact(calls: seq<Call>, j: nat, k: nat, v: nat)
    requires Schedule(calls) && j <= k <= |calls| && v < |StateOf(calls, j).versions|
    requires StateOf(calls, j).versions[v].status == Available
    ensures v < |StateOf(calls, k).versions| && Promotable(StateOf(calls, k), v)
  {
    EveryStatusRests(calls, j);
    EveryRun(calls, j, k);
    var (a, b) := (StateOf(calls, j), StateOf(calls, k));
    assert StatusOk(a, v) && VersionKept(a.versions[v], b.versions[v]);
    CleanStays(a, b, v);
  }

  /** A version that ever was REJECTED was found infected. */
  lemma {:induction false} RejectedIsInfected(calls: seq<Call>, j: nat, k: nat, v: nat)
    requires Schedule(calls) && j <= k <= |calls| && v < |StateOf(calls, j).versions|
    requires StateOf(calls, j).versions[v].status == Rejected
    ensures FoundInfected(StateOf(calls, k), v)
  {
    EveryStatusRests(calls, j);
    EveryRun(calls, j, k);
    assert StatusOk(StateOf(calls, j), v);
    InfectedStays(StateOf(calls, j), StateOf(calls, k), v);
  }

  // ---------------------------------------------------------------- what the other steps do

  /** Step k was taken. */
  ghost predicate Taken(calls: seq<Call>, k: nat)
    requires Schedule(calls)
  {
    k < |calls| && Try(calls[k].cmd, StateOf(calls, calls[k].read), StateOf(calls, k)).Some?
  }

  /** When each step around a scan is taken. */
  lemma StepIff(cmd: Command, seen: Sys, s: Sys)
    ensures match cmd
      case CStore(v, _, _) => Try(cmd, seen, s).Some? <==> v < |s.versions| && s.versions[v].upload == Prepared
      case CFinishUpload(v) => Try(cmd, seen, s).Some? <==> v < |s.versions| && s.versions[v].upload.Stored?
      case CUploadFailure(v) => Try(cmd, seen, s).Some? <==> v < |s.versions| && s.versions[v].upload != Ended
      case CClaim(j, time, _) =>
        Try(cmd, seen, s).Some? <==>
            j < |seen.jobs| && j < |s.jobs| && Waits(seen.jobs[j], time) && Waits(s.jobs[j], time)
      case CAbandon(v) => Try(cmd, seen, s).Some? <==> v < |s.versions| && s.versions[v].status == UploadPending
      case CIntegrityFailure(v) => Try(cmd, seen, s).Some? <==> v < |s.versions|
      case CRequeue(j, time) =>
        Try(cmd, seen, s).Some? <==> j < |s.jobs| && s.jobs[j].status.Leased? && s.jobs[j].status.expires < time
      case CCleanQuarantine(_) => Try(cmd, seen, s).Some?
      case CRegister => Try(cmd, seen, s).Some?
      case _ => true
  {
  }

  /** The job is pending, to be tried again, or held under a lease that has expired. */
  ghost predicate Waits(job: Job, time: int) {
    && job.status != JobCompleted && job.status != JobFailed
    && (job.status.Leased? ==> job.status.expires < time)
  }

  /** The new version is the last of the table, waits for its bytes, and is the asset's latest. */
  lemma {:induction false} PrepareEffect(calls: seq<Call>, k: nat)
    requires Schedule(calls) && Taken(calls, k) && calls[k].cmd.CPrepare?
    ensures var (a, b, asset) := (StateOf(calls, k), StateOf(calls, k + 1), calls[k].cmd.asset);
            && |b.versions| == |a.versions| + 1 && a.versions <= b.versions
            && b == a.(assets := b.assets, versions := b.versions)
            && var row := b.versions[|a.versions|];
            && row.status == UploadPending && row.sha.None? && row.upload == Prepared
            && row.asset < |b.assets| && b.assets[row.asset].latest == row.number
            && (asset.None? ==> row.asset == |a.assets| && row.number == 1 && b.assets == a.assets + [Asset(1, None)])
            && (asset.Some? ==>
                  && row.asset == asset.value < |a.assets| && row.number == a.assets[row.asset].latest + 1
                  && b.assets == a.assets[row.asset := a.assets[row.asset].(latest := row.number)])
  {
  }

  /** The bytes lie in quarantine and the hash taken on the way is kept, not yet recorded. */
  lemma {:induction false} StoreEffect(calls: seq<Call>, k: nat)
    requires Schedule(calls) && Taken(calls, k) && calls[k].cmd.CStore?
    ensures var (a, b, cmd) := (StateOf(calls, k), StateOf(calls, k + 1), calls[k].cmd);
            && cmd.v < |a.versions| && a.versions[cmd.v].upload == Prepared
            && b == a.(quarantine := a.quarantine[cmd.v := cmd.stored],
                       versions := a.versions[cmd.v := a.versions[cmd.v].(upload := Stored(Sha256(cmd.hashed)))])
  {
  }

  /** The hash is recorded, the version is UPLOADED and a scan job waits for it. */
  lemma {:induction false} FinishEffect(calls: seq<Call>, k: nat)
    requires Schedule(calls) && Taken(calls, k) && calls[k].cmd.CFinishUpload?
    ensures var (a, b, v) := (StateOf(calls, k), StateOf(calls, k + 1), calls[k].cmd.v);
            && v < |a.versions| && a.versions[v].upload.Stored?
            && b == a.(jobs := b.jobs, versions := b.versions)
            && b.versions == a.versions[v := a.versions[v].(
                 status := Uploaded, sha := Some(a.versions[v].upload.hashed), upload := Committed)]
            && b.jobs == a.jobs + [Job(v, JobPending, 0)]
  {
  }

  /** A failed upload fails its version unless the scan has begun; nothing else of the version changes. */
  lemma {:induction false} UploadFailureEffect(calls: seq<Call>, k: nat)
    requires Schedule(calls) && Taken(calls, k) && calls[k].cmd.CUploadFailure?
    ensures var (a, b, v) := (StateOf(calls, k), StateOf(calls, k + 1), calls[k].cmd.v);
            && v < |a.versions| && b == a.(versions := a.versions[v := b.versions[v]])
            && b.versions[v] == a.versions[v].(status := b.versions[v].status, upload := Ended)
            && (a.versions[v].status in {UploadPending, Uploaded} ==> b.versions[v].status == VersionFailed)
            && (a.versions[v].status !in {UploadPending, Uploaded} ==> b.versions[v].status == a.versions[v].status)
  {
  }

  /** A job is claimed while it waits or its lease has expired, and counts the attempt. */
  lemma {:induction false} ClaimEffect(calls: seq<Call>, k: nat)
    requires Schedule(calls) && Taken(calls, k) && calls[k].cmd.CClaim?
    ensures var (a, b) := (StateOf(calls, k), StateOf(calls, k + 1));
            var CClaim(j, time, until) := calls[k].cmd;
            && j < |a.jobs| && a.jobs[j].status !in {JobCompleted, JobFailed}
            && (a.jobs[j].status.Leased? ==> a.jobs[j].status.expires < time)
            && b == a.(jobs := b.jobs, workers := b.workers)
            && b.jobs == a.jobs[j := Job(a.jobs[j].version, Leased(|a.workers|, until), a.jobs[j].attempts + 1)]
            && b.workers == a.workers + [Worker(j, a.jobs[j].version, a.jobs[j].attempts + 1, Claimed, None)]
  {
  }

  /** The sweeps: abandoned uploads and exhausted integrity jobs fail their versions, expired leases go back. */
  lemma {:induction false} SweepEffect(calls: seq<Call>, k: nat)
    requires Schedule(calls) && Taken(calls, k)
    ensures var (a, b) := (StateOf(calls, k), StateOf(calls, k + 1));
            match calls[k].cmd
            case CAbandon(v) =>
              v < |a.versions| && a.versions[v].status == UploadPending
              && b == a.(versions := a.versions[v := a.versions[v].(status := VersionFailed)])
            case CIntegrityFailure(v) =>
              v < |a.versions| && b == a.(versions := a.versions[v := a.versions[v].(status := VersionFailed)])
            case CRequeue(j, time) =>
              j < |a.jobs| && a.jobs[j].status.Leased? && a.jobs[j].status.expires < time
              && b == a.(jobs := a.jobs[j := a.jobs[j].(status := JobRetry)])
            case CCleanQuarantine(v) => b == a.(quarantine := a.quarantine - {v})
            case CRegister => b == a.(assets := a.assets + [Asset(0, None)])
            case _ => true
  {
  }

  // ---------------------------------------------------------------- a scan with nobody in between

  /** promote, its steps one after another. */
  ghost function Promoted(s: Sys, w: nat, works: bool): Sys
    requires At(s, w, FoundClean) && s.versions[s.workers[w].version].asset < |s.assets|
  {
    var copied := Copy(s, w).value;
    if copied.workers[w].phase == Failing then copied else
      var checked := CheckHash(copied, w).value;
      if checked.workers[w].phase == Failing then checked else Finalize(checked, w, works).value
  }

  /** scan, its steps one after another. */
  ghost function Processed(s: Sys, w: nat, result: ScanStatus, works: bool, max: nat): Sys
    requires At(s, w, Claimed) && s.versions[s.workers[w].version].asset < |s.assets|
  {
    var read := StartScan(s, w).value;
    if read.workers[w].phase == Done then read else
      var scanned := RecordScan(read, w, result).value;
      if scanned.workers[w].phase == Rejecting then RejectInfected(scanned, w).value else
        var promoted := if scanned.workers[w].phase == FoundClean then Promoted(scanned, w, works) else scanned;
        if promoted.workers[w].phase == Failing then FailJob(promoted, w, max).value else promoted
  }

  /** Of the versions only v is written, and of it only the status. */
  ghost predicate OnlyStatus(a: Sys, b: Sys, v: nat, status: VersionStatus) {
    v < |a.versions| && b.versions == a.versions[v := a.versions[v].(status := status)]
  }

  ghost predicate OnlyJob(a: Sys, b: Sys, j: nat, status: JobStatus) {
    b.jobs == if j < |a.jobs| then a.jobs[j := a.jobs[j].(status := status)] else a.jobs
  }

  ghost predicate NumberTaken(s: Sys, v: nat, n: nat) {
    exists i :: 0 <= i < |s.scans| && s.scans[i].version == v && s.scans[i].number == n
  }

  /** What the scanner says of the object, which may be gone. */
  ghost function Found(s: Sys, v: nat, result: ScanStatus): ScanStatus {
    if v in s.quarantine then result else ScanError
  }

  /** The bytes in quarantine are those that were hashed on upload. */
  ghost predicate Intact(s: Sys, v: nat)
    requires v < |s.versions|
  {
    v in s.quarantine && s.versions[v].sha == Some(Sha256(s.quarantine[v]))
  }

  /** A version that is available already is left alone. */
  ghost predicate NothingToDo(a: Sys, w: nat, b: Sys)
    requires w < |a.workers|
  {
    && b.versions == a.versions && b.assets == a.assets && b.scans == a.scans && b.canonical == a.canonical
    && OnlyJob(a, b, a.workers[w].job, JobCompleted)
  }

  /** An infected version is REJECTED, the job is over and nothing becomes current. */
  ghost predicate InfectedDone(a: Sys, w: nat, b: Sys)
    requires w < |a.workers|
  {
    var x := a.workers[w];
    && OnlyStatus(a, b, x.version, Rejected) && OnlyJob(a, b, x.job, JobCompleted)
    && b.assets == a.assets && b.canonical == a.canonical
    && b.scans == a.scans + [ScanAttempt(x.version, x.attempt, Infected)]
  }

  /** A clean version whose bytes are intact is AVAILABLE and current, with its bytes in the canonical store. */
  ghost predicate CleanDone(a: Sys, w: nat, b: Sys)
    requires w < |a.workers| && a.workers[w].version < |a.versions| && Intact(a, a.workers[w].version)
  {
    var x := a.workers[w];
    var asset := a.versions[x.version].asset;
    && OnlyStatus(a, b, x.version, Available) && OnlyJob(a, b, x.job, JobCompleted)
    && asset < |a.assets| && b.assets == a.assets[asset := a.assets[asset].(current := Some(x.version))]
    && b.canonical == a.canonical[x.version := a.quarantine[x.version]]
    && b.scans == a.scans + [ScanAttempt(x.version, x.attempt, Clean)]
  }

  /** Anything else: the job is tried again or, after its last attempt, fails with its version. */
  ghost predicate FailureDone(a: Sys, w: nat, max: nat, b: Sys)
    requires w < |a.workers| && a.workers[w].version < |a.versions|
  {
    var (x, row) := (a.workers[w], a.versions[a.workers[w].version]);
    && b.assets == a.assets
    && (x.attempt >= max ==> OnlyStatus(a, b, x.version, VersionFailed) && OnlyJob(a, b, x.job, JobFailed))
    && (x.attempt < max ==>
          && OnlyJob(a, b, x.job, JobRetry)
          && OnlyStatus(a, b, x.version, if row.status == Uploaded then Scanning else row.status))
  }

  ghost predicate ScanDone(a: Sys, w: nat, result: ScanStatus, works: bool, max: nat, b: Sys)
    requires w < |a.workers| && a.workers[w].version < |a.versions|
  {
    var (x, v) := (a.workers[w], a.workers[w].version);
    && |b.workers| == |a.workers| && b.workers[w].phase == Done && b.quarantine == a.quarantine
    && (forall y :: 0 <= y < |a.workers| && y != w ==> b.workers[y] == a.workers[y])
    && if a.versions[v].status == Available then NothingToDo(a, w, b)
       else if NumberTaken(a, v, x.attempt) then FailureDone(a, w, max, b) && b.scans == a.scans
           && b.canonical == a.canonical
       else if Found(a, v, result) == Infected then InfectedDone(a, w, b)
       else if Found(a, v, result) == Clean && Intact(a, v) && works then CleanDone(a, w, b)
       else FailureDone(a, w, max, b) && b.scans == a.scans + [ScanAttempt(v, x.attempt, Found(a, v, result))]
  }

  /** The state after the version was read and marked. */
  ghost function Started(s: Sys, w: nat): Sys
    requires At(s, w, Claimed)
  {
    var (x, row) := (s.workers[w], s.versions[s.workers[w].version]);
    var status := if row.status == Uploaded then Scanning else row.status;
    s.(versions := s.versions[x.version := row.(status := status)],
       workers := s.workers[w := x.(phase := Reading, sha := row.sha)])
  }

  lemma StartsScan(s: Sys, w: nat)
    requires At(s, w, Claimed) && s.versions[s.workers[w].version].status != Available
    ensures StartScan(s, w) == Some(Started(s, w))
  {
    var v := s.workers[w].version;
    assert s.versions[v].(status := s.versions[v].status) == s.versions[v];
  }

  lemma AlreadyAvailable(s: Sys, w: nat, result: ScanStatus, works: bool, max: nat)
    requires At(s, w, Claimed) && s.versions[s.workers[w].version].asset < |s.assets|
    requires s.versions[s.workers[w].version].status == Available
    ensures ScanDone(s, w, result, works, max, Processed(s, w, result, works, max))
  {
  }

  /** The scan's result decides where the worker goes on. */
  lemma Records(s: Sys, w: nat, result: ScanStatus)
    requires At(s, w, Reading)
    ensures var (x, v) := (s.workers[w], s.workers[w].version);
            var found := Found(s, v, result);
            RecordScan(s, w, result) == Some(
              if NumberTaken(s, v, x.attempt) then SetWorker(s, w, Failing)
              else SetWorker(s.(scans := s.scans + [ScanAttempt(v, x.attempt, found)]), w,
                             if found == Infected then Rejecting else if found == Clean then FoundClean else Failing))
  {
  }

  lemma FailsDone(a: Sys, w: nat, max: nat, c: Sys)
    requires At(a, w, Claimed) && a.versions[a.workers[w].version].status != Available && At(c, w, Failing)
    requires var m := Started(a, w);
             c == m.(scans := c.scans, canonical := c.canonical,
                     workers := m.workers[w := m.workers[w].(phase := Failing)])
    ensures FailJob(c, w, max).Some?
    ensures var b := FailJob(c, w, max).value;
            && FailureDone(a, w, max, b) && b.scans == c.scans && b.canonical == c.canonical
                && b.quarantine == a.quarantine
            && |b.workers| == |a.workers| && b.workers[w].phase == Done
            && forall y :: 0 <= y < |a.workers| && y != w ==> b.workers[y] == a.workers[y]
  {
  }

  /** Copying, checking and finalizing what was found clean. */
  lemma PromotesClean(a: Sys, w: nat, c: Sys, works: bool)
    requires At(a, w, Claimed) && At(c, w, FoundClean) && a.versions[a.workers[w].version].asset < |a.assets|
    requires var m := Started(a, w);
             c == m.(scans := c.scans, workers := m.workers[w := m.workers[w].(phase := FoundClean)])
    ensures var (b, x) := (Promoted(c, w, works), a.workers[w]);
            if Intact(a, x.version) && works then
              && OnlyStatus(a, b, x.version, Available) && OnlyJob(a, b, x.job, JobCompleted) && b.scans == c.scans
              && b.assets == a.assets[a.versions[x.version].asset :=
                                      a.assets[a.versions[x.version].asset].(current := Some(x.version))]
              && b.canonical == a.canonical[x.version := a.quarantine[x.version]] && b.quarantine == a.quarantine
              && b.workers == c.workers[w := c.workers[w].(phase := Done)]
            else b == c.(canonical := b.canonical, workers := c.workers[w := c.workers[w].(phase := Failing)])
  {
    var v := a.workers[w].version;
    if c.workers[w].sha.Some? && v in c.quarantine {
      var copied := SetWorker(c.(canonical := c.canonical[v := c.quarantine[v]]), w, Copied);
      assert Copy(c, w) == Some(copied);
      if Intact(a, v) {
        assert CheckHash(copied, w) == Some(SetWorker(copied, w, Checked));
      }
    }
  }

  /** What each result of a scan leads to. */
  lemma ScanOutcome(s: Sys, w: nat, result: ScanStatus, works: bool, max: nat)
    requires At(s, w, Claimed) && s.versions[s.workers[w].version].asset < |s.assets|
    ensures ScanDone(s, w, result, works, max, Processed(s, w, result, works, max))
  {
    var v := s.workers[w].version;
    if s.versions[v].status == Available {
      AlreadyAvailable(s, w, result, works, max);
      return;
    }
    StartsScan(s, w);
    var read := Started(s, w);
    Records(read, w, result);
    var scanned := RecordScan(read, w, result).value;
    if scanned.workers[w].phase == Failing {
      FailsDone(s, w, max, scanned);
    } else if scanned.workers[w].phase == FoundClean {
      PromotesClean(s, w, scanned, works);
      if !(Intact(s, v) && works) { FailsDone(s, w, max, Promoted(scanned, w, works)); }
    }
  }
}
