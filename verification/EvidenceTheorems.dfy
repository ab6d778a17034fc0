/** Lineage without gaps, write-once hashes and promotion only after a clean scan, in every run. */
module EvidenceTheorems {
  import opened Common
  import opened EvidenceLineage

  // ---------------------------------------------------------------- invariants

  /** Before its commit an upload has no hash, and before it is stored no object. */
  ghost predicate UploadFits(s: Sys, v: nat)
    requires v < |s.versions|
  {
    && (s.versions[v].upload == Prepared || s.versions[v].upload.Stored? ==> s.versions[v].sha.None?)
    && (s.versions[v].upload == Prepared ==> v !in s.quarantine && v !in s.canonical)
  }

  /** A version is numbered within its asset and linked to the one before. */
  ghost predicate VersionOk(s: Sys, v: nat)
    requires v < |s.versions|
  {
    var row := s.versions[v];
    && row.asset < |s.assets| && 1 <= row.number <= s.assets[row.asset].latest
    && (if row.number == 1 then row.previousId.None? && row.previousSha.None?
        else
          && row.previousId.Some? && row.previousId.value < v
          && var previous := s.versions[row.previousId.value];
             previous.asset == row.asset && previous.number == row.number - 1
             && previous.sha.Some? && previous.sha == row.previousSha)
    && UploadFits(s, v)
  }

  ghost predicate NumbersDistinct(s: Sys) {
    forall v, w :: 0 <= v < w < |s.versions| && s.versions[v].asset == s.versions[w].asset ==>
        s.versions[v].number < s.versions[w].number
  }

  ghost predicate HasNumber(s: Sys, a: nat, n: nat) {
    exists v: nat :: v < |s.versions| && s.versions[v].asset == a && s.versions[v].number == n
  }

  ghost predicate AssetOk(s: Sys, a: nat)
    requires a < |s.assets|
  {
    && (forall n: nat :: 1 <= n <= s.assets[a].latest ==> HasNumber(s, a, n))
    && (s.assets[a].current.Some? ==>
          var v := s.assets[a].current.value;
          v < |s.versions| && s.versions[v].asset == a && Promotable(s, v))
  }

  ghost predicate FoundCleanScan(s: Sys, v: nat) {
    exists i :: 0 <= i < |s.scans| && s.scans[i].version == v && s.scans[i].status == Clean
  }

  /** The version was found clean, and its canonical bytes hash to its recorded hash. */
  ghost predicate Promotable(s: Sys, v: nat)
    requires v < |s.versions|
  {
    FoundCleanScan(s, v) && v in s.canonical && s.versions[v].sha == Some(Sha256(s.canonical[v]))
  }

  /** Copies are faithful: wherever an object still lies in both stores, it is the same. */
  ghost predicate StoresAgree(s: Sys) {
    && (forall v :: v in s.quarantine || v in s.canonical ==> v < |s.versions|)
    && forall v :: v in s.quarantine && v in s.canonical ==> s.quarantine[v] == s.canonical[v]
  }

  ghost predicate WorkerOk(s: Sys, x: Worker) {
    && x.version < |s.versions|
    && (x.sha.Some? ==> s.versions[x.version].sha == x.sha)
    && (x.phase in {FoundClean, Copied, Checked} ==> FoundCleanScan(s, x.version))
    && (x.phase in {Copied, Checked} ==> x.version in s.canonical && x.sha.Some?)
    && (x.phase == Checked ==> x.sha == Some(Sha256(s.canonical[x.version])))
  }

  ghost predicate Inv(s: Sys) {
    && (forall v :: 0 <= v < |s.versions| ==> VersionOk(s, v))
    && NumbersDistinct(s)
    && (forall a :: 0 <= a < |s.assets| ==> AssetOk(s, a))
    && StoresAgree(s)
    && (forall w :: 0 <= w < |s.workers| ==> WorkerOk(s, s.workers[w]))
    && (forall j :: 0 <= j < |s.jobs| ==> s.jobs[j].version < |s.versions|)
  }

  /** b is later than a: links, hashes and canonical bytes that were there are unchanged. */
  ghost predicate Later(a: Sys, b: Sys) {
    && |a.versions| <= |b.versions| && |a.assets| <= |b.assets| && a.scans <= b.scans
    && (forall v :: 0 <= v < |a.versions| ==> VersionKept(a.versions[v], b.versions[v]))
    && (forall i :: 0 <= i < |a.assets| ==> a.assets[i].latest <= b.assets[i].latest)
    && (forall v :: v in a.canonical ==> v in b.canonical && b.canonical[v] == a.canonical[v])
  }

  ghost predicate VersionKept(x: Version, y: Version) {
    && y.asset == x.asset && y.number == x.number && y.previousId == x.previousId && y.previousSha == x.previousSha
    && (x.sha.Some? ==> y.sha == x.sha)
    && (x.upload in {Committed, Ended} ==> y.upload in {Committed, Ended} && y.sha == x.sha)
  }

  lemma LaterTransitive(a: Sys, b: Sys, c: Sys)
    requires Later(a, b) && Later(b, c)
    ensures Later(a, c)
  {
  }

  lemma CleanStays(a: Sys, b: Sys, v: nat)
    requires a.scans <= b.scans && FoundCleanScan(a, v)
    ensures FoundCleanScan(b, v)
  {
    var i :| 0 <= i < |a.scans| && a.scans[i].version == v && a.scans[i].status == Clean;
    assert b.scans[i] == a.scans[i];
  }

  // ---------------------------------------------------------------- frames

  /** A step that keeps numbers and links and changes at most statuses, a fresh hash, jobs and scans. */
  ghost predicate Quiet(a: Sys, b: Sys) {
    && Later(a, b) && |b.versions| == |a.versions| && |b.assets| == |a.assets|
    && (forall i :: 0 <= i < |a.assets| ==> b.assets[i].latest == a.assets[i].latest)
    && (forall v :: 0 <= v < |a.versions| ==> UploadFits(b, v))
    && (forall j :: 0 <= j < |b.jobs| ==> b.jobs[j].version < |b.versions|)
    && StoresAgree(b)
  }

  lemma QuietKeeps(a: Sys, b: Sys)
    requires Inv(a) && Quiet(a, b)
    requires forall i :: 0 <= i < |a.assets| && b.assets[i].current != a.assets[i].current ==>
               b.assets[i].current.Some? && b.assets[i].current.value < |b.versions|
               && b.versions[b.assets[i].current.value].asset == i && Promotable(b, b.assets[i].current.value)
    requires forall w :: 0 <= w < |b.workers| ==>
               WorkerOk(b, b.workers[w]) || (w < |a.workers| && b.workers[w] == a.workers[w])
    ensures Inv(b)
  {
    forall v | 0 <= v < |b.versions| ensures VersionOk(b, v) { assert VersionOk(a, v); }
    forall i | 0 <= i < |b.assets| ensures AssetOk(b, i) { AssetKept(a, b, i); }
    forall w | 0 <= w < |b.workers| ensures WorkerOk(b, b.workers[w]) {
      if w < |a.workers| && b.workers[w] == a.workers[w] { WorkerKept(a, b, a.workers[w]); }
    }
  }

  lemma AssetKept(a: Sys, b: Sys, i: nat)
    requires Inv(a) && Later(a, b) && i < |a.assets| && b.assets[i].latest == a.assets[i].latest
    requires b.assets[i].current != a.assets[i].current ==>
               b.assets[i].current.Some? && b.assets[i].current.value < |b.versions|
               && b.versions[b.assets[i].current.value].asset == i && Promotable(b, b.assets[i].current.value)
    ensures AssetOk(b, i)
  {
    assert AssetOk(a, i);
    forall n: nat | 1 <= n <= b.assets[i].latest ensures HasNumber(b, i, n) {
      assert HasNumber(a, i, n);
      var v: nat :| v < |a.versions| && a.versions[v].asset == i && a.versions[v].number == n;
      assert b.versions[v].asset == i && b.versions[v].number == n;
    }
    if a.assets[i].current.Some? { CleanStaysIf(a, b, a.assets[i].current.value); }
  }

  lemma CleanStaysIf(a: Sys, b: Sys, v: nat)
    requires a.scans <= b.scans
    ensures FoundCleanScan(a, v) ==> FoundCleanScan(b, v)
  {
    if FoundCleanScan(a, v) { CleanStays(a, b, v); }
  }

  lemma WorkerKept(a: Sys, b: Sys, x: Worker)
    requires Later(a, b) && WorkerOk(a, x)
    ensures WorkerOk(b, x)
  {
    CleanStaysIf(a, b, x.version);
  }

  // ---------------------------------------------------------------- one lemma a step

  lemma PrepareKeeps(s: Sys, asset: Option<nat>, b: Sys)
    requires Inv(s) && Prepare(s, asset) == Some(b)
    ensures Inv(b) && Later(s, b)
  {
    var n := |s.versions|;
    forall v | 0 <= v < n && asset.Some? && s.versions[v].asset == asset.value
      ensures s.versions[v].number <= s.assets[asset.value].latest { assert VersionOk(s, v); }
    forall v | 0 <= v < |b.versions| ensures VersionOk(b, v) { if v < n { assert VersionOk(s, v); } }
    forall v, w | 0 <= v < w < |b.versions| && b.versions[v].asset == b.versions[w].asset
      ensures b.versions[v].number < b.versions[w].number { assert VersionOk(s, v); }
    forall a | 0 <= a < |b.assets| ensures AssetOk(b, a) { PreparedAsset(s, asset, b, a); }
    forall w | 0 <= w < |b.workers| ensures WorkerOk(b, b.workers[w]) { WorkerKept(s, b, s.workers[w]); }
  }

  lemma RegisterKeeps(s: Sys)
    requires Inv(s)
    ensures Inv(Register(s)) && Later(s, Register(s))
  {
    var b := Register(s);
    forall v | 0 <= v < |b.versions| ensures VersionOk(b, v) { assert VersionOk(s, v); }
    forall a | 0 <= a < |b.assets| ensures AssetOk(b, a) { if a < |s.assets| { AssetKept(s, b, a); } }
    forall w | 0 <= w < |b.workers| ensures WorkerOk(b, b.workers[w]) { WorkerKept(s, b, s.workers[w]); }
  }

  lemma PreparedAsset(s: Sys, asset: Option<nat>, b: Sys, a: nat)
    requires Inv(s) && Prepare(s, asset) == Some(b) && a < |b.assets|
    ensures AssetOk(b, a)
  {
    var n := |s.versions|;
    assert a < |s.assets| ==> AssetOk(s, a);
    forall k: nat | 1 <= k <= b.assets[a].latest ensures HasNumber(b, a, k) {
      if a < |s.assets| && k <= s.assets[a].latest {
        assert HasNumber(s, a, k);
        var v: nat :| v < n && s.versions[v].asset == a && s.versions[v].number == k;
        assert b.versions[v] == s.versions[v];
      } else {
        assert b.versions[n].asset == a && b.versions[n].number == k;
      }
    }
    if a < |s.assets| && s.assets[a].current.Some? { CleanStaysIf(s, b, s.assets[a].current.value); }
  }

  /** A step that writes no asset and no worker but w. */
  lemma WorkerStepKeeps(a: Sys, b: Sys, w: nat)
    requires Inv(a) && Quiet(a, b) && b.assets == a.assets && |b.workers| == |a.workers| && w < |b.workers|
    requires forall x :: 0 <= x < |b.workers| && x != w ==> b.workers[x] == a.workers[x]
    requires WorkerOk(b, b.workers[w])
    ensures Inv(b)
  {
    QuietKeeps(a, b);
  }

  lemma StoreKeeps(s: Sys, v: nat, stored: Bytes, hashed: Bytes, b: Sys)
    requires Inv(s) && StoreObject(s, v, stored, hashed) == Some(b)
    ensures Inv(b) && Later(s, b)
  {
    assert VersionOk(s, v) && UploadFits(s, v);
    forall w | 0 <= w < |s.versions| ensures UploadFits(b, w) { assert VersionOk(s, w); }
    QuietKeeps(s, b);
  }

  lemma FinishUploadKeeps(s: Sys, v: nat, b: Sys)
    requires Inv(s) && FinishUpload(s, v) == Some(b)
    ensures Inv(b) && Later(s, b)
  {
    assert VersionOk(s, v) && UploadFits(s, v);
    forall w | 0 <= w < |s.versions| ensures UploadFits(b, w) { assert VersionOk(s, w); }
    QuietKeeps(s, b);
  }

  lemma UploadFailureKeeps(s: Sys, v: nat, b: Sys)
    requires Inv(s) && MarkUploadFailure(s, v) == Some(b)
    ensures Inv(b) && Later(s, b)
  {
    assert VersionOk(s, v) && UploadFits(s, v);
    forall w | 0 <= w < |s.versions| ensures UploadFits(b, w) { assert VersionOk(s, w); }
    QuietKeeps(s, b);
  }

  lemma StatusKeeps(s: Sys, cmd: Command, seen: Sys, b: Sys)
    requires Inv(s) && Try(cmd, seen, s) == Some(b)
    requires cmd.CIntegrityFailure? || cmd.CAbandon? || cmd.CRequeue? || cmd.CCleanQuarantine?
    ensures Inv(b) && Later(s, b)
  {
    forall v | 0 <= v < |s.versions| ensures UploadFits(b, v) { assert VersionOk(s, v); }
    QuietKeeps(s, b);
  }

  lemma ClaimKeeps(seen: Sys, s: Sys, j: nat, time: int, until: int, b: Sys)
    requires Inv(s) && ClaimJob(seen, s, j, time, until) == Some(b)
    ensures Inv(b) && Later(s, b)
  {
    forall v | 0 <= v < |s.versions| ensures UploadFits(b, v) { assert VersionOk(s, v); }
    QuietKeeps(s, b);
  }

  lemma StartScanKeeps(s: Sys, w: nat, b: Sys)
    requires Inv(s) && StartScan(s, w) == Some(b)
    ensures Inv(b) && Later(s, b)
  {
    forall v | 0 <= v < |s.versions| ensures UploadFits(b, v) { assert VersionOk(s, v); }
    assert WorkerOk(s, s.workers[w]);
    WorkerStepKeeps(s, b, w);
  }

  lemma RecordScanKeeps(s: Sys, w: nat, result: ScanStatus, b: Sys)
    requires Inv(s) && RecordScan(s, w, result) == Some(b)
    ensures Inv(b) && Later(s, b)
  {
    forall v | 0 <= v < |s.versions| ensures UploadFits(b, v) { assert VersionOk(s, v); }
    assert WorkerOk(s, s.workers[w]);
    if b.scans != s.scans { assert b.scans[|s.scans|].version == s.workers[w].version; }
    WorkerStepKeeps(s, b, w);
  }

  lemma CopyKeeps(s: Sys, w: nat, b: Sys)
    requires Inv(s) && Copy(s, w) == Some(b)
    ensures Inv(b) && Later(s, b)
  {
    forall v | 0 <= v < |s.versions| ensures UploadFits(b, v) { assert VersionOk(s, v); }
    assert WorkerOk(s, s.workers[w]);
    CleanStaysIf(s, b, s.workers[w].version);
    WorkerStepKeeps(s, b, w);
  }

  lemma CheckHashKeeps(s: Sys, w: nat, b: Sys)
    requires Inv(s) && CheckHash(s, w) == Some(b)
    ensures Inv(b) && Later(s, b)
  {
    forall v | 0 <= v < |s.versions| ensures UploadFits(b, v) { assert VersionOk(s, v); }
    assert WorkerOk(s, s.workers[w]);
    CleanStaysIf(s, b, s.workers[w].version);
    WorkerStepKeeps(s, b, w);
  }

  lemma FinalizeKeeps(s: Sys, w: nat, works: bool, b: Sys)
    requires Inv(s) && Finalize(s, w, works) == Some(b)
    ensures Inv(b) && Later(s, b)
  {
    forall v | 0 <= v < |s.versions| ensures UploadFits(b, v) { assert VersionOk(s, v); }
    assert WorkerOk(s, s.workers[w]);
    CleanStaysIf(s, b, s.workers[w].version);
    QuietKeeps(s, b);
  }

  lemma RejectKeeps(s: Sys, w: nat, b: Sys)
    requires Inv(s) && RejectInfected(s, w) == Some(b)
    ensures Inv(b) && Later(s, b)
  {
    forall v | 0 <= v < |s.versions| ensures UploadFits(b, v) { assert VersionOk(s, v); }
    assert WorkerOk(s, s.workers[w]);
    WorkerStepKeeps(s, b, w);
  }

  lemma FailKeeps(s: Sys, w: nat, max: nat, b: Sys)
    requires Inv(s) && FailJob(s, w, max) == Some(b)
    ensures Inv(b) && Later(s, b)
  {
    forall v | 0 <= v < |s.versions| ensures UploadFits(b, v) { assert VersionOk(s, v); }
    assert WorkerOk(s, s.workers[w]);
    WorkerStepKeeps(s, b, w);
  }

  lemma StepKeeps(cmd: Command, seen: Sys, s: Sys, b: Sys)
    requires Inv(s) && Try(cmd, seen, s) == Some(b)
    ensures Inv(b) && Later(s, b)
  {
    match cmd
    case CRegister => RegisterKeeps(s);
    case CPrepare(asset) => PrepareKeeps(s, asset, b);
    case CClaim(j, time, until) => ClaimKeeps(seen, s, j, time, until, b);
    case CStartScan(w) => StartScanKeeps(s, w, b);
    case CRecordScan(w, result) => RecordScanKeeps(s, w, result, b);
    case CCopy(w) => CopyKeeps(s, w, b);
    case CCheckHash(w) => CheckHashKeeps(s, w, b);
    case CFinalize(w, works) => FinalizeKeeps(s, w, works, b);
    case CReject(w) => RejectKeeps(s, w, b);
    case CFail(w, max) => FailKeeps(s, w, max, b);
    case CStore(v, stored, hashed) => StoreKeeps(s, v, stored, hashed, b);
    case CFinishUpload(v) => FinishUploadKeeps(s, v, b);
    case CUploadFailure(v) => UploadFailureKeeps(s, v, b);
    case _ => StatusKeeps(s, cmd, seen, b);
  }

  lemma {:induction false} NextKeeps(calls: seq<Call>, k: nat)
    requires Schedule(calls) && k < |calls|
    ensures Keeps(StateOf(calls, k), StateOf(calls, k + 1))
  {
    var (seen, s) := (StateOf(calls, calls[k].read), StateOf(calls, k));
    var next := Try(calls[k].cmd, seen, s);
    if Inv(s) && next.Some? { StepKeeps(calls[k].cmd, seen, s, next.value); }
  }

  /** All the states of a run. */
  ghost function Trace(calls: seq<Call>): (r: seq<Sys>)
    requires Schedule(calls)
    ensures |r| == |calls| + 1
    ensures forall k: nat :: k <= |calls| ==> r[k] == StateOf(calls, k)
  {
    seq(|calls| + 1, k requires 0 <= k <= |calls| => StateOf(calls, k))
  }

  ghost predicate Keeps(a: Sys, b: Sys) { Inv(a) ==> Inv(b) && Later(a, b) }

  lemma {:induction false} KeptAlong(trace: seq<Sys>, j: nat, k: nat)
    requires j <= k < |trace| && Inv(trace[0])
    requires forall m: nat :: m + 1 < |trace| ==> Keeps(trace[m], trace[m + 1])
    ensures Inv(trace[k]) && Later(trace[j], trace[k])
  {
    if k > 0 {
      KeptAlong(trace, if j < k then j else k - 1, k - 1);
      assert Keeps(trace[k - 1], trace[k - 1 + 1]);
      if j < k { LaterTransitive(trace[j], trace[k - 1], trace[k]); }
    }
  }

  lemma {:induction false} EveryRun(calls: seq<Call>, j: nat, k: nat)
    requires Schedule(calls) && j <= k <= |calls|
    ensures Inv(StateOf(calls, k)) && Later(StateOf(calls, j), StateOf(calls, k))
  {
    var trace := Trace(calls);
    forall m: nat | m + 1 < |trace| ensures Keeps(trace[m], trace[m + 1]) { NextKeeps(calls, m); }
    KeptAlong(trace, j, k);
  }

  // ---------------------------------------------------------------- theorems

  /** Every number from 1 to the latest is the number of exactly one version of the asset. */
  lemma {:induction false} NumbersWithoutGaps(calls: seq<Call>, k: nat, a: nat, n: nat) returns (v: nat)
    requires Schedule(calls) && k <= |calls| && a < |StateOf(calls, k).assets|
    requires 1 <= n <= StateOf(calls, k).assets[a].latest
    ensures var versions := StateOf(calls, k).versions;
            && v < |versions| && versions[v].asset == a && versions[v].number == n
            && forall w :: 0 <= w < |versions| && versions[w].asset == a && versions[w].number == n ==> w == v
  {
    EveryRun(calls, k, k);
    var s := StateOf(calls, k);
    assert AssetOk(s, a) && HasNumber(s, a, n);
    v :| v < |s.versions| && s.versions[v].asset == a && s.versions[v].number == n;
    assert forall x, y :: 0 <= x < y < |s.versions| && s.versions[x].asset == s.versions[y].asset ==>
           s.versions[x].number != s.versions[y].number;
  }

  /** Each later version carries, from its creation on, the id and the hash of its predecessor. */
  lemma {:induction false} PredecessorLinked(calls: seq<Call>, j: nat, k: nat, v: nat)
    requires Schedule(calls) && j <= k <= |calls| && v < |StateOf(calls, j).versions|
    ensures var (x, versions) := (StateOf(calls, j).versions[v], StateOf(calls, k).versions);
            && v < |versions| && versions[v].previousId == x.previousId && versions[v].previousSha == x.previousSha
            && versions[v].asset == x.asset && versions[v].number == x.number
            && if x.number == 1 then x.previousId.None? && x.previousSha.None?
               else
                 && x.previousId.Some? && x.previousId.value < v && x.previousSha.Some?
                 && versions[x.previousId.value].asset == x.asset
                 && versions[x.previousId.value].number == x.number - 1
                 && versions[x.previousId.value].sha == x.previousSha
  {
    EveryRun(calls, j, j);
    EveryRun(calls, j, k);
    assert VersionOk(StateOf(calls, j), v);
    assert VersionKept(StateOf(calls, j).versions[v], StateOf(calls, k).versions[v]);
    if StateOf(calls, j).versions[v].number > 1 {
      var p := StateOf(calls, j).versions[v].previousId.value;
      assert VersionKept(StateOf(calls, j).versions[p], StateOf(calls, k).versions[p]);
    }
  }

  /** A recorded hash is never written again. */
  lemma {:induction false} HashWrittenOnce(calls: seq<Call>, j: nat, k: nat, v: nat)
    requires Schedule(calls) && j <= k <= |calls| && v < |StateOf(calls, j).versions|
    requires StateOf(calls, j).versions[v].sha.Some?
    ensures v < |StateOf(calls, k).versions| && StateOf(calls, k).versions[v].sha == StateOf(calls, j).versions[v].sha
  {
    EveryRun(calls, j, k);
    assert VersionKept(StateOf(calls, j).versions[v], StateOf(calls, k).versions[v]);
  }

  /** A version that was ever made current belongs to its asset, was found clean, and has canonical bytes
    * that hash to its recorded hash, then and in every later state. */
  lemma {:induction false} CurrentIsCleanAndIntact(calls: seq<Call>, j: nat, k: nat, a: nat)
    requires Schedule(calls) && j <= k <= |calls| && a < |StateOf(calls, j).assets|
    requires StateOf(calls, j).assets[a].current.Some?
    ensures var (v, s) := (StateOf(calls, j).assets[a].current.value, StateOf(calls, k));
            v < |s.versions| && s.versions[v].asset == a && Promotable(s, v)
  {
    EveryRun(calls, j, j);
    EveryRun(calls, j, k);
    var (v, s) := (StateOf(calls, j).assets[a].current.value, StateOf(calls, k));
    assert AssetOk(StateOf(calls, j), a);
    assert VersionKept(StateOf(calls, j).versions[v], s.versions[v]);
    CleanStays(StateOf(calls, j), s, v);
  }

  ghost predicate OnlyVersion(s: Sys, a: nat, n: nat, v: nat) {
    forall w :: 0 <= w < |s.versions| && s.versions[w].asset == a && s.versions[w].number == n ==> w == v
  }

  lemma OneVersion(s: Sys, a: nat, v: nat)
    requires NumbersDistinct(s) && v < |s.versions| && s.versions[v].asset == a
    ensures OnlyVersion(s, a, s.versions[v].number, v)
  {
  }

  /** A new version of an existing asset is accepted exactly when the asset has none yet or its latest
    * version has its hash. */
  lemma {:induction false} NextVersionIff(calls: seq<Call>, k: nat, a: nat) returns (v: nat)
    requires Schedule(calls) && k <= |calls| && a < |StateOf(calls, k).assets|
    ensures var s := StateOf(calls, k);
            if s.assets[a].latest == 0 then Prepare(s, Some(a)).Some?
            else
              && v < |s.versions| && s.versions[v].asset == a && s.versions[v].number == s.assets[a].latest
              && OnlyVersion(s, a, s.assets[a].latest, v)
              && (Prepare(s, Some(a)).Some? <==> s.versions[v].sha.Some?)
  {
    v := 0;
    EveryRun(calls, k, k);
    var s := StateOf(calls, k);
    if s.assets[a].latest > 0 {
      assert AssetOk(s, a) && HasNumber(s, a, s.assets[a].latest);
      v := FindVersion(s.versions, a, s.assets[a].latest).value;
      OneVersion(s, a, v);
    }
  }

  /** The upload of v ended without its hash, and v is the n-th and latest version of asset a. */
  ghost predicate UploadLost(s: Sys, v: nat, a: nat, n: nat) {
    && v < |s.versions| && s.versions[v].upload == Ended && s.versions[v].sha.None?
    && s.versions[v].asset == a && s.versions[v].number == n && a < |s.assets| && s.assets[a].latest == n
  }

  /** Such an upload is the asset's last: no later version is ever accepted. */
  lemma {:induction false} FailedUploadBlocksAsset(calls: seq<Call>, j: nat, k: nat, v: nat, a: nat, n: nat)
    requires Schedule(calls) && j <= k <= |calls| && UploadLost(StateOf(calls, j), v, a, n)
    ensures a < |StateOf(calls, k).assets| && StateOf(calls, k).assets[a].latest == n
    ensures Prepare(StateOf(calls, k), Some(a)).None?
    decreases k
  {
    if j < k {
      FailedUploadBlocksAsset(calls, j, k - 1, v, a, n);
      LatestGrowsByPrepare(calls, k - 1, a);
    }
    StillBlocked(calls, j, k, v, a, n);
  }

  lemma {:induction false} StillBlocked(calls: seq<Call>, j: nat, k: nat, v: nat, a: nat, n: nat)
    requires Schedule(calls) && j <= k <= |calls| && UploadLost(StateOf(calls, j), v, a, n)
    requires a < |StateOf(calls, k).assets| && StateOf(calls, k).assets[a].latest == n
    ensures Prepare(StateOf(calls, k), Some(a)).None?
  {
    EveryRun(calls, j, k);
    assert VersionKept(StateOf(calls, j).versions[v], StateOf(calls, k).versions[v]);
    assert VersionOk(StateOf(calls, k), v);
    var w := NextVersionIff(calls, k, a);
    assert w == v;
  }

  lemma {:induction false} LatestGrowsByPrepare(calls: seq<Call>, k: nat, a: nat)
    requires Schedule(calls) && k < |calls| && a < |StateOf(calls, k).assets|
             && Prepare(StateOf(calls, k), Some(a)).None?
    ensures a < |StateOf(calls, k + 1).assets|
            && StateOf(calls, k + 1).assets[a].latest == StateOf(calls, k).assets[a].latest
  {
    var (seen, s) := (StateOf(calls, calls[k].read), StateOf(calls, k));
    if Try(calls[k].cmd, seen, s).Some? { StepLatest(calls[k].cmd, seen, s, a); }
  }

  lemma StepLatest(cmd: Command, seen: Sys, s: Sys, a: nat)
    requires a < |s.assets| && Prepare(s, Some(a)).None? && Try(cmd, seen, s).Some?
    ensures var b := Try(cmd, seen, s).value; a < |b.assets| && b.assets[a].latest == s.assets[a].latest
  {
  }

  /** An upload is prepared and fails; then the next version is asked for. */
  const LOST_UPLOAD := [Call(CPrepare(None), 0), Call(CUploadFailure(0), 1), Call(CPrepare(Some(0)), 2)]

  lemma {:induction false} Steps(calls: seq<Call>, k: nat, cmd: Command, s: Sys, next: Option<Sys>)
    requires Schedule(calls) && k < |calls| && calls[k] == Call(cmd, k) && StateOf(calls, k) == s
    requires Try(cmd, s, s) == next
    ensures StateOf(calls, k + 1) == if next.Some? then next.value else s
  {
  }

  const PREPARED_VERSION := Version(0, 1, None, None, UploadPending, None, Prepared)
  const FAILED_VERSION := Version(0, 1, None, None, VersionFailed, None, Ended)
  const WITH_UPLOAD := START.(assets := [Asset(1, None)], versions := [PREPARED_VERSION])
  const WITH_FAILURE := START.(assets := [Asset(1, None)], versions := [FAILED_VERSION])

  lemma FirstPrepared()
    ensures Prepare(START, None) == Some(WITH_UPLOAD)
  {
    assert START.assets + [Asset(1, None)] == [Asset(1, None)];
    assert START.versions + [PREPARED_VERSION] == [PREPARED_VERSION];
  }

  lemma FirstFailed()
    ensures MarkUploadFailure(WITH_UPLOAD, 0) == Some(WITH_FAILURE)
  {
    assert [PREPARED_VERSION][0 := FAILED_VERSION] == [FAILED_VERSION];
  }

  lemma SecondRefused()
    ensures Prepare(WITH_FAILURE, Some(0)).None?
  {
    assert FindVersion(WITH_FAILURE.versions, 0, 1) == Some(0);
  }

  lemma {:induction false} FirstUpload(calls: seq<Call>, k: nat, s0: Sys, s1: Sys, s2: Sys)
    requires Schedule(calls) && k + 1 < |calls| && StateOf(calls, k) == s0
    requires calls[k] == Call(CPrepare(None), k) && calls[k + 1] == Call(CUploadFailure(0), k + 1)
    requires Prepare(s0, None) == Some(s1) && MarkUploadFailure(s1, 0) == Some(s2)
    ensures StateOf(calls, k + 2) == s2
  {
    Steps(calls, k, CPrepare(None), s0, Some(s1));
    Steps(calls, k + 1, CUploadFailure(0), s1, Some(s2));
  }

  lemma {:induction false} NextRefused(calls: seq<Call>, k: nat, s: Sys)
    requires Schedule(calls) && k < |calls| && StateOf(calls, k) == s
    requires calls[k] == Call(CPrepare(Some(0)), k) && Prepare(s, Some(0)).None?
    ensures StateOf(calls, k + 1) == s
  {
    Steps(calls, k, CPrepare(Some(0)), s, None);
  }

  /** The failure happens: the asset that it leaves is refused its second version. */
  lemma {:induction false} LostUploadReached(calls: seq<Call>)
    requires calls == LOST_UPLOAD
    ensures Schedule(calls)
    ensures UploadLost(StateOf(calls, |calls| - 1), 0, 0, 1)
    ensures Prepare(StateOf(calls, |calls| - 1), Some(0)).None?
            && StateOf(calls, |calls|) == StateOf(calls, |calls| - 1)
  {
    FirstPrepared();
    FirstFailed();
    SecondRefused();
    FirstUpload(calls, |calls| - 3, START, WITH_UPLOAD, WITH_FAILURE);
    NextRefused(calls, |calls| - 1, WITH_FAILURE);
  }
}
