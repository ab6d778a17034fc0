/** Evidence versions: upload, malware scan, promotion, failure and cleanup.
  *
  * A version's identifier is its position in the table; its quarantine and canonical objects lie
  * under keys of their own, so both stores are maps from versions.  SHA-256 is a free constructor.
  * Copying an object copies its bytes; what was stored for an upload need not be what was hashed.
  */
module EvidenceLineage {
  import opened Common

  type Bytes = seq<nat>

  datatype Digest = Sha256(bytes: Bytes)

  datatype VersionStatus = UploadPending | Uploaded | Scanning | Available | Rejected | VersionFailed

  /** Where the upload of a version stands: prepared, stored with the hash taken on the way, committed, over. */
  datatype Upload = Prepared | Stored(hashed: Digest) | Committed | Ended

  datatype Asset = Asset(latest: nat, current: Option<nat>)

  datatype Version = Version(
    asset: nat, number: nat, previousId: Option<nat>, previousSha: Option<Digest>, status: VersionStatus,
    sha: Option<Digest>, upload: Upload)

  datatype JobStatus = JobPending | JobRetry | Leased(owner: nat, expires: int) | JobCompleted | JobFailed

  /** The malware scan of a version. */
  datatype Job = Job(version: nat, status: JobStatus, attempts: nat)

  datatype ScanStatus = Clean | Infected | ScanError

  datatype ScanAttempt = ScanAttempt(version: nat, number: nat, status: ScanStatus)

  /** Where a worker stands with a job: claimed, version read, found clean, copied, hash checked;
    * to be failed, to be rejected, done. */
  datatype Phase = Claimed | Reading | FoundClean | Copied | Checked | Failing | Rejecting | Done

  /** A worker's call of scan, with what it read. */
  datatype Worker = Worker(job: nat, version: nat, attempt: nat, phase: Phase, sha: Option<Digest>)

  datatype Sys = Sys(
    assets: seq<Asset>, versions: seq<Version>, jobs: seq<Job>, scans: seq<ScanAttempt>, workers: seq<Worker>,
    quarantine: map<nat, Bytes>, canonical: map<nat, Bytes>)

  const START := Sys([], [], [], [], [], map[], map[])

  // ---------------------------------------------------------------- uploading

  /** findFirst by asset and number. */
  function FindVersion(versions: seq<Version>, asset: nat, number: nat): (r: Option<nat>)
    ensures r.Some? ==> r.value < |versions| && versions[r.value].asset == asset && versions[r.value].number == number
    ensures r.None? ==> forall v :: 0 <= v < |versions| ==>
            !(versions[v].asset == asset && versions[v].number == number)
  {
    if versions == [] then None
    else if versions[|versions| - 1].asset == asset && versions[|versions| - 1].number == number
        then Some(|versions| - 1)
    else FindVersion(versions[..|versions| - 1], asset, number)
  }

  /** prepareUpload: a first version with a new asset, or the next one of an asset whose last has its hash. */
  function Prepare(s: Sys, asset: Option<nat>): Option<Sys> {
    if asset.None? then
      Some(s.(assets := s.assets + [Asset(1, None)],
              versions := s.versions + [Version(|s.assets|, 1, None, None, UploadPending, None, Prepared)]))
    else if asset.value >= |s.assets| then None
    else
      var a := asset.value;
      var latest := s.assets[a].latest + 1;
      var previous := if latest > 1 then FindVersion(s.versions, a, latest - 1) else None;
      if latest > 1 && (previous.None? || s.versions[previous.value].sha.None?) then None
      else
        var previousSha := if previous.Some? then s.versions[previous.value].sha else None;
        Some(s.(assets := s.assets[a := s.assets[a].(latest := latest)],
                versions := s.versions + [Version(a, latest, previous, previousSha, UploadPending, None, Prepared)]))
  }

  /** An asset that a source trigger refers to has no version yet. */
  function Register(s: Sys): Sys { s.(assets := s.assets + [Asset(0, None)]) }

  function SetVersion(s: Sys, v: nat, row: Version): Sys
    requires v < |s.versions|
  {
    s.(versions := s.versions[v := row])
  }

  function StoreObject(s: Sys, v: nat, stored: Bytes, hashed: Bytes): Option<Sys> {
    if v < |s.versions| && s.versions[v].upload == Prepared then
      var row := s.versions[v].(upload := Stored(Sha256(hashed)));
      Some(SetVersion(s, v, row).(quarantine := s.quarantine[v := stored]))
    else None
  }

  /** The transaction that ends an upload: by id, with a scan job. */
  function FinishUpload(s: Sys, v: nat): Option<Sys> {
    if v < |s.versions| && s.versions[v].upload.Stored? then
      var row := s.versions[v].(status := Uploaded, sha := Some(s.versions[v].upload.hashed), upload := Committed);
      Some(SetVersion(s, v, row).(jobs := s.jobs + [Job(v, JobPending, 0)]))
    else None
  }

  /** markUploadFailure, which can also follow a commit whose reply was lost. */
  function MarkUploadFailure(s: Sys, v: nat): Option<Sys> {
    if v < |s.versions| && s.versions[v].upload != Ended then
      var row := s.versions[v];
      var status := if row.status in {UploadPending, Uploaded} then VersionFailed else row.status;
      Some(SetVersion(s, v, row.(status := status, upload := Ended)))
    else None
  }

  // ---------------------------------------------------------------- processing

  predicate Claimable(job: Job, time: int) {
    job.status == JobPending || job.status == JobRetry || (job.status.Leased? && job.status.expires < time)
  }

  function ClaimJob(seen: Sys, s: Sys, j: nat, time: int, until: int): Option<Sys> {
    if j < |seen.jobs| && Claimable(seen.jobs[j], time) && j < |s.jobs| && Claimable(s.jobs[j], time) then
      var job := s.jobs[j].(status := Leased(|s.workers|, until), attempts := s.jobs[j].attempts + 1);
      Some(s.(jobs := s.jobs[j := job], workers := s.workers + [Worker(j, job.version, job.attempts, Claimed, None)]))
    else None
  }

  function SetWorker(s: Sys, w: nat, phase: Phase): Sys
    requires w < |s.workers|
  {
    s.(workers := s.workers[w := s.workers[w].(phase := phase)])
  }

  function SetJob(s: Sys, j: nat, status: JobStatus): Sys {
    if j < |s.jobs| then s.(jobs := s.jobs[j := s.jobs[j].(status := status)]) else s
  }

  predicate At(s: Sys, w: nat, phase: Phase) {
    w < |s.workers| && s.workers[w].phase == phase && s.workers[w].version < |s.versions|
  }

  /** The version is read and, unless it is available already, marked as being scanned. */
  function StartScan(s: Sys, w: nat): Option<Sys> {
    if !At(s, w, Claimed) then None else
      var (v, j) := (s.workers[w].version, s.workers[w].job);
      if s.versions[v].status == Available then Some(SetWorker(SetJob(s, j, JobCompleted), w, Done))
      else
        var row := s.versions[v];
        var marked := if row.status in {Uploaded, Scanning} then row.(status := Scanning) else row;
        Some(SetVersion(s, v, marked).(workers := s.workers[w := s.workers[w].(phase := Reading, sha := row.sha)]))
  }

  /** Scanning the quarantined object and recording the attempt, whose number is unique for the version. */
  function RecordScan(s: Sys, w: nat, result: ScanStatus): Option<Sys> {
    if !At(s, w, Reading) then None else
      var (v, n) := (s.workers[w].version, s.workers[w].attempt);
      if exists i :: 0 <= i < |s.scans| && s.scans[i].version == v && s.scans[i].number == n
      then Some(SetWorker(s, w, Failing))
      else
        var outcome := if v in s.quarantine then result else ScanError;
        var phase := match outcome case Clean => FoundClean case Infected => Rejecting case ScanError => Failing;
        Some(SetWorker(s.(scans := s.scans + [ScanAttempt(v, n, outcome)]), w, phase))
  }

  /** promoteToCanonical; without the version's hash there is nothing to promote. */
  function Copy(s: Sys, w: nat): Option<Sys> {
    if !At(s, w, FoundClean) then None else
      var v := s.workers[w].version;
      if s.workers[w].sha.None? || v !in s.quarantine then Some(SetWorker(s, w, Failing))
      else Some(SetWorker(s.(canonical := s.canonical[v := s.quarantine[v]]), w, Copied))
  }

  /** The canonical bytes are read back and hashed. */
  function CheckHash(s: Sys, w: nat): Option<Sys> {
    if !At(s, w, Copied) then None else
      var v := s.workers[w].version;
      if v in s.canonical && s.workers[w].sha == Some(Sha256(s.canonical[v])) then Some(SetWorker(s, w, Checked))
      else Some(SetWorker(s, w, Failing))
  }

  /** The transaction that makes a version available and current; `works` is false when it aborts. */
  function Finalize(s: Sys, w: nat, works: bool): Option<Sys> {
    if !At(s, w, Checked) then None
    else if !works then Some(SetWorker(s, w, Failing))
    else
      var v := s.workers[w].version;
      var a := s.versions[v].asset;
      if a >= |s.assets| then None else
        var made := SetVersion(s, v, s.versions[v].(status := Available)).(
          assets := s.assets[a := s.assets[a].(current := Some(v))]);
        Some(SetWorker(SetJob(made, s.workers[w].job, JobCompleted), w, Done))
  }

  function RejectInfected(s: Sys, w: nat): Option<Sys> {
    if !At(s, w, Rejecting) then None else
      var v := s.workers[w].version;
      var rejected := SetVersion(s, v, s.versions[v].(status := Rejected));
      Some(SetWorker(SetJob(rejected, s.workers[w].job, JobCompleted), w, Done))
  }

  /** fail: a last attempt fails the version with the job. */
  function FailJob(s: Sys, w: nat, max: nat): Option<Sys> {
    if !At(s, w, Failing) then None else
      var x := s.workers[w];
      var exhausted := x.attempt >= max;
      var row := if exhausted then s.versions[x.version].(status := VersionFailed) else s.versions[x.version];
      Some(SetWorker(SetJob(SetVersion(s, x.version, row), x.job, if exhausted then JobFailed else JobRetry), w, Done))
  }

  // ---------------------------------------------------------------- steps

  datatype Command =
    | CRegister
    | CPrepare(asset: Option<nat>)
    | CStore(v: nat, stored: Bytes, hashed: Bytes)
    | CFinishUpload(v: nat)
    | CUploadFailure(v: nat)
    | CClaim(j: nat, time: int, until: int)
    | CStartScan(w: nat)
    | CRecordScan(w: nat, result: ScanStatus)
    | CCopy(w: nat)
    | CCheckHash(w: nat)
    | CFinalize(w: nat, works: bool)
    | CReject(w: nat)
    | CFail(w: nat, max: nat)
    | CIntegrityFailure(v: nat)       // an integrity job that is out of attempts
    | CAbandon(v: nat)                // reconcile: an upload session that expired
    | CRequeue(j: nat, time: int)     // reconcile: a lease that expired
    | CCleanQuarantine(v: nat)        // after promotion, or by reconcile

  function Try(cmd: Command, seen: Sys, s: Sys): Option<Sys> {
    match cmd
    case CRegister => Some(Register(s))
    case CPrepare(asset) => Prepare(s, asset)
    case CStore(v, stored, hashed) => StoreObject(s, v, stored, hashed)
    case CFinishUpload(v) => FinishUpload(s, v)
    case CUploadFailure(v) => MarkUploadFailure(s, v)
    case CClaim(j, time, until) => ClaimJob(seen, s, j, time, until)
    case CStartScan(w) => StartScan(s, w)
    case CRecordScan(w, result) => RecordScan(s, w, result)
    case CCopy(w) => Copy(s, w)
    case CCheckHash(w) => CheckHash(s, w)
    case CFinalize(w, works) => Finalize(s, w, works)
    case CReject(w) => RejectInfected(s, w)
    case CFail(w, max) => FailJob(s, w, max)
    case CIntegrityFailure(v) =>
      if v < |s.versions| then Some(SetVersion(s, v, s.versions[v].(status := VersionFailed))) else None
    case CAbandon(v) =>
      if v < |s.versions| && s.versions[v].status == UploadPending
      then Some(SetVersion(s, v, s.versions[v].(status := VersionFailed))) else None
    case CRequeue(j, time) =>
      if j < |s.jobs| && s.jobs[j].status.Leased? && s.jobs[j].status.expires < time
      then Some(SetJob(s, j, JobRetry)) else None
    case CCleanQuarantine(v) => Some(s.(quarantine := s.quarantine - {v}))
  }

  /** A step and the position in the history of what it read earlier. */
  datatype Call = Call(cmd: Command, read: nat)

  predicate Schedule(calls: seq<Call>) { forall k :: 0 <= k < |calls| ==> calls[k].read <= k }

  function StateOf(calls: seq<Call>, k: nat): Sys
    requires Schedule(calls) && k <= |calls|
    decreases k
  {
    if k == 0 then START else
      var s := StateOf(calls, k - 1);
      var next := Try(calls[k - 1].cmd, StateOf(calls, calls[k - 1].read), s);
      if next.Some? then next.value else s
  }
}
