/** The transactions of evidence upload and processing as they run: in place, statement by statement. */
module EvidenceStore {
  import opened Common
  import opened EvidenceLineage
  import opened EvidenceOutcomes

  class EvidenceTables {
    var assets: seq<Asset>
    var versions: seq<Version>
    var jobs: seq<Job>
    var scans: seq<ScanAttempt>
    var workers: seq<Worker>
    var quarantine: map<nat, Bytes>
    var canonical: map<nat, Bytes>

    constructor ()
      ensures Tables() == START
    {
      assets, versions, jobs, scans, workers, quarantine, canonical := [], [], [], [], [], map[], map[];
    }

    function Tables(): Sys
      reads this
    {
      Sys(assets, versions, jobs, scans, workers, quarantine, canonical)
    }

    method PrepareUpload(asset: Option<nat>) returns (accepted: bool)
      modifies this`assets, this`versions
      ensures accepted == Prepare(old(Tables()), asset).Some?
      ensures Tables() == if accepted then Prepare(old(Tables()), asset).value else old(Tables())
    {
      if asset.None? {
        versions := versions + [Version(|assets|, 1, None, None, UploadPending, None, Prepared)];
        assets := assets + [Asset(1, None)];
        return true;
      }
      var a := asset.value;
      if a >= |assets| { return false; }
      var latest := assets[a].latest + 1;
      var previous: Option<nat> := None;
      var previousSha: Option<Digest> := None;
      if latest > 1 {
        previous := FindVersion(versions, a, latest - 1);
        if previous.None? || versions[previous.value].sha.None? { return false; }
        previousSha := versions[previous.value].sha;
      }
      assets := assets[a := assets[a].(latest := latest)];
      versions := versions + [Version(a, latest, previous, previousSha, UploadPending, None, Prepared)];
      return true;
    }

    method CompleteUpload(v: nat) returns (done: bool)
      modifies this`versions, this`jobs
      ensures done == FinishUpload(old(Tables()), v).Some?
      ensures Tables() == if done then FinishUpload(old(Tables()), v).value else old(Tables())
    {
      if v >= |versions| || !versions[v].upload.Stored? { return false; }
      versions := versions[v := versions[v].(status := Uploaded, sha := Some(versions[v].upload.hashed),
                                             upload := Committed)];
      jobs := jobs + [Job(v, JobPending, 0)];
      return true;
    }

    method FailUpload(v: nat) returns (done: bool)
      modifies this`versions
      ensures done == MarkUploadFailure(old(Tables()), v).Some?
      ensures Tables() == if done then MarkUploadFailure(old(Tables()), v).value else old(Tables())
    {
      if v >= |versions| || versions[v].upload == Ended { return false; }
      if versions[v].status == UploadPending || versions[v].status == Uploaded {
        versions := versions[v := versions[v].(status := VersionFailed)];
      }
      versions := versions[v := versions[v].(upload := Ended)];
      return true;
    }

    method EndJob(j: nat, status: JobStatus)
      modifies this`jobs
      ensures jobs == SetJob(old(Tables()), j, status).jobs
    {
      if j < |jobs| { jobs := jobs[j := jobs[j].(status := status)]; }
    }

    /** The start of scan: read the version and mark it, or finish when it is available already. */
    method BeginScan(w: nat)
      requires At(Tables(), w, Claimed)
      modifies this
      ensures Tables() == StartScan(old(Tables()), w).value
    {
      var v := workers[w].version;
      if versions[v].status == Available {
        EndJob(workers[w].job, JobCompleted);
        workers := workers[w := workers[w].(phase := Done)];
        return;
      }
      if versions[v].status == Uploaded || versions[v].status == Scanning {
        versions := versions[v := versions[v].(status := Scanning)];
      }
      workers := workers[w := workers[w].(phase := Reading, sha := versions[v].sha)];
    }

    method Reject(w: nat)
      requires At(Tables(), w, Rejecting)
      modifies this
      ensures Tables() == RejectInfected(old(Tables()), w).value
    {
      var v := workers[w].version;
      versions := versions[v := versions[v].(status := Rejected)];
      EndJob(workers[w].job, JobCompleted);
      workers := workers[w := workers[w].(phase := Done)];
    }

    method Fail(w: nat, max: nat)
      requires At(Tables(), w, Failing)
      modifies this
      ensures Tables() == FailJob(old(Tables()), w, max).value
    {
      var v := workers[w].version;
      var exhausted := workers[w].attempt >= max;
      EndJob(workers[w].job, if exhausted then JobFailed else JobRetry);
      if exhausted { versions := versions[v := versions[v].(status := VersionFailed)]; }
      workers := workers[w := workers[w].(phase := Done)];
    }

    /** scan for one worker that has claimed its job, with nobody else writing in between: the steps of
      * the worker, one after another. */
    method Process(w: nat, result: ScanStatus, works: bool, max: nat)
      requires At(Tables(), w, Claimed) && versions[workers[w].version].asset < |assets|
      modifies this
      ensures Tables() == Processed(old(Tables()), w, result, works, max)
      ensures ScanDone(old(Tables()), w, result, works, max, Tables())
    {
      ScanOutcome(Tables(), w, result, works, max);
      BeginScan(w);
      if workers[w].phase == Done { return; }
      var next := RecordScan(Tables(), w, result).value;
      scans, workers := next.scans, next.workers;
      if workers[w].phase == Rejecting {
        Reject(w);
        return;
      }
      if workers[w].phase == FoundClean { Promote(w, works); }
      if workers[w].phase == Failing { Fail(w, max); }
    }

    /** promote: copy, compare the hash, then one transaction. */
    method Promote(w: nat, works: bool)
      requires w < |workers| && workers[w].phase == FoundClean && workers[w].version < |versions|
      requires versions[workers[w].version].asset < |assets|
      modifies this
      ensures Tables() == Promoted(old(Tables()), w, works)
      ensures |workers| == |old(workers)| && workers[w] == old(workers)[w].(phase := workers[w].phase)
      ensures workers[w].phase in {Failing, Done}
      ensures |versions| == |old(versions)|
    {
      var v, j := workers[w].version, workers[w].job;
      if workers[w].sha.None? || v !in quarantine {
        workers := workers[w := workers[w].(phase := Failing)];
        return;
      }
      canonical := canonical[v := quarantine[v]];
      workers := workers[w := workers[w].(phase := Copied)];
      if workers[w].sha != Some(Sha256(canonical[v])) || !works {
        workers := workers[w := workers[w].(phase := Failing)];
        return;
      }
      versions := versions[v := versions[v].(status := Available)];
      var a := versions[v].asset;
      assets := assets[a := assets[a].(current := Some(v))];
      EndJob(j, JobCompleted);
      workers := workers[w := workers[w].(phase := Done)];
    }

    /** The first loop of reconcile: leases that expired. */
    method RequeueExpired(time: int)
      modifies this`jobs
      ensures |jobs| == |old(jobs)|
      ensures forall j :: 0 <= j < |jobs| ==>
                jobs[j] == if old(jobs)[j].status.Leased? && old(jobs)[j].status.expires < time
                           then old(jobs)[j].(status := JobRetry) else old(jobs)[j]
    {
      for k := 0 to |jobs|
        invariant |jobs| == |old(jobs)|
        invariant forall j :: 0 <= j < |jobs| ==>
                    jobs[j] == if j < k && old(jobs)[j].status.Leased? && old(jobs)[j].status.expires < time
                               then old(jobs)[j].(status := JobRetry) else old(jobs)[j]
      {
        if jobs[k].status.Leased? && jobs[k].status.expires < time { jobs := jobs[k := jobs[k].(status := JobRetry)]; }
      }
    }

    /** The second loop of reconcile: upload sessions that expired. */
    method AbandonExpired(sessions: seq<nat>)
      requires forall i :: 0 <= i < |sessions| ==> sessions[i] < |versions|
      modifies this`versions
      ensures |versions| == |old(versions)|
      ensures forall v :: 0 <= v < |versions| ==>
                versions[v] == if v in sessions && old(versions)[v].status == UploadPending
                               then old(versions)[v].(status := VersionFailed) else old(versions)[v]
    {
      for k := 0 to |sessions|
        invariant |versions| == |old(versions)|
        invariant forall v :: 0 <= v < |versions| ==>
                    versions[v] == if v in sessions[..k] && old(versions)[v].status == UploadPending
                                   then old(versions)[v].(status := VersionFailed) else old(versions)[v]
      {
        assert sessions[..k + 1] == sessions[..k] + [sessions[k]];
        var v := sessions[k];
        if versions[v].status == UploadPending { versions := versions[v := versions[v].(status := VersionFailed)]; }
      }
      assert sessions[..|sessions|] == sessions;
    }
  }
}
