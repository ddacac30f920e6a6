/** Whole histories of service operations: registration, quota, uniqueness. */
module TorrentJobRuns {
  import opened Wrappers
  import opened TorrentState
  import opened TorrentJobs
  import opened TorrentJobsProofs
  import opened TorrentHandlesProofs

  function DoAll(s: Shared, ops: seq<Op>, cfg: Config): Shared {
    if ops == [] then s else Do(DoAll(s, ops[..|ops| - 1], cfg), ops[|ops| - 1], cfg)
  }

  /** The state before operation n of a history. */
  function At(s: Shared, ops: seq<Op>, n: nat, cfg: Config): Shared
    requires n <= |ops|
  {
    DoAll(s, ops[..n], cfg)
  }

  ghost predicate LegalRun(s: Shared, ops: seq<Op>, cfg: Config) {
    forall n {:trigger ops[n]} :: 0 <= n < |ops| ==> Legal(At(s, ops, n, cfg), ops[n])
  }

  lemma AtNext(s: Shared, ops: seq<Op>, n: nat, cfg: Config)
    requires n < |ops|
    ensures At(s, ops, n + 1, cfg) == Do(At(s, ops, n, cfg), ops[n], cfg)
  {
    assert ops[..n + 1][..n] == ops[..n];
  }

  lemma {:induction false} SafeRunGood(s: Shared, ops: seq<Op>, n: nat, cfg: Config)
    requires Good(s) && LegalRun(s, ops, cfg) && n <= |ops|
    requires forall k :: 0 <= k < n ==> Safe(At(s, ops, k, cfg), ops[k], cfg)
    ensures Good(At(s, ops, n, cfg))
  {
    if n > 0 {
      SafeRunGood(s, ops, n - 1, cfg);
      AtNext(s, ops, n - 1, cfg);
      OpGood(At(s, ops, n - 1, cfg), ops[n - 1], cfg);
    }
  }

  /** In every history, all active jobs and live magnets are registered all the
      time exactly when every operation was safe at the moment it ran. */
  lemma RunGood(s: Shared, ops: seq<Op>, cfg: Config)
    requires Good(s) && LegalRun(s, ops, cfg)
    ensures (forall n :: 0 <= n <= |ops| ==> Good(At(s, ops, n, cfg)))
       <==> (forall n :: 0 <= n < |ops| ==> Safe(At(s, ops, n, cfg), ops[n], cfg))
  {
    if forall n :: 0 <= n < |ops| ==> Safe(At(s, ops, n, cfg), ops[n], cfg) {
      forall n | 0 <= n <= |ops| ensures Good(At(s, ops, n, cfg)) {
        SafeRunGood(s, ops, n, cfg);
      }
    } else if forall n :: 0 <= n <= |ops| ==> Good(At(s, ops, n, cfg)) {
      forall n | 0 <= n < |ops| ensures Safe(At(s, ops, n, cfg), ops[n], cfg) {
        GoodStepSafe(s, ops, n, cfg);
      }
    }
  }

  lemma GoodStepSafe(s: Shared, ops: seq<Op>, n: nat, cfg: Config)
    requires LegalRun(s, ops, cfg) && n < |ops|
    requires Good(At(s, ops, n, cfg)) && Good(At(s, ops, n + 1, cfg))
    ensures Safe(At(s, ops, n, cfg), ops[n], cfg)
  {
    AtNext(s, ops, n, cfg);
    OpGood(At(s, ops, n, cfg), ops[n], cfg);
  }

  // ---- Quota ----------------------------------------------------------------------

  ghost predicate QuotaKept(s: Shared, cfg: Config) {
    cfg.maxConcurrentDownloads > 0 ==> forall u :: |ActiveOf(s.jobs, u)| <= cfg.maxConcurrentDownloads
  }

  /** Pause and Resume never look at the quota: on a job that is not active
      they need a free slot. */
  predicate QuotaSafe(s: Shared, op: Op, cfg: Config) {
    (op.PauseOp? || op.ResumeOp?) && op.j in s.jobs && !IsActive(s.jobs[op.j].status)
    && !IndexRefuses(s.jobs, op.j, if op.PauseOp? then Paused else Downloading)
    ==> cfg.maxConcurrentDownloads <= 0 || |ActiveOf(s.jobs, s.jobs[op.j].userId)| < cfg.maxConcurrentDownloads
  }

  /** No job became active. */
  predicate NoneActivated(jobs: map<JobId, Job>, jobs': map<JobId, Job>) {
    forall j :: j in jobs' && IsActive(jobs'[j].status) ==>
      j in jobs && IsActive(jobs[j].status) && jobs[j].userId == jobs'[j].userId
          && jobs[j].infoHash == jobs'[j].infoHash
  }

  lemma NoneActivatedQuota(s: Shared, s': Shared, cfg: Config)
    requires QuotaKept(s, cfg) && NoneActivated(s.jobs, s'.jobs)
    ensures QuotaKept(s', cfg)
  {
    forall u ensures |ActiveOf(s'.jobs, u)| <= |ActiveOf(s.jobs, u)| {
      SubsetSize(ActiveOf(s'.jobs, u), ActiveOf(s.jobs, u));
    }
  }

  /** Exactly one job became active: its user uses one more slot. */
  lemma OneActivatedQuota(s: Shared, s': Shared, j: JobId, cfg: Config)
    requires QuotaKept(s, cfg) && (j in s.jobs ==> !IsActive(s.jobs[j].status))
    requires j in s'.jobs && IsActive(s'.jobs[j].status)
    requires s'.jobs == s.jobs[j := s'.jobs[j]]
    ensures QuotaKept(s', cfg) <==>
      (cfg.maxConcurrentDownloads <= 0 || |ActiveOf(s.jobs, s'.jobs[j].userId)| < cfg.maxConcurrentDownloads)
  {
    var u := s'.jobs[j].userId;
    assert ActiveOf(s'.jobs, u) == ActiveOf(s.jobs, u) + {j};
    forall v | v != u ensures ActiveOf(s'.jobs, v) == ActiveOf(s.jobs, v) {}
    if cfg.maxConcurrentDownloads > 0 && |ActiveOf(s.jobs, u)| >= cfg.maxConcurrentDownloads {
      assert |ActiveOf(s'.jobs, u)| > cfg.maxConcurrentDownloads;
    }
  }

  lemma DropKeepsJobs(s: Shared, h: InfoHash, j: JobId)
    ensures DropUnused(s, h).jobs == s.jobs && Release(s, j, h).jobs == s.jobs
  {
  }

  lemma StatusQuota(s: Shared, j: JobId, status: Status, cfg: Config)
    requires QuotaKept(s, cfg)
    ensures !IsActive(status) || (j in s.jobs && IsActive(s.jobs[j].status))
            ==> QuotaKept(UpdateStatus(s, j, status), cfg)
    ensures IsActive(status) && j in s.jobs && !IsActive(s.jobs[j].status) && !IndexRefuses(s.jobs, j, status) ==>
      (QuotaKept(UpdateStatus(s, j, status), cfg) <==>
       (cfg.maxConcurrentDownloads <= 0 || |ActiveOf(s.jobs, s.jobs[j].userId)| < cfg.maxConcurrentDownloads))
  {
    var s' := UpdateStatus(s, j, status);
    if j !in s.jobs || IndexRefuses(s.jobs, j, status) {
    } else if IsActive(status) && !IsActive(s.jobs[j].status) {
      OneActivatedQuota(s, s', j, cfg);
    } else {
      NoneActivatedQuota(s, s', cfg);
    }
  }

  lemma SubmitQuota(s: Shared, j: JobId, u: UserId, h: InfoHash, req: Request, cfg: Config)
    requires QuotaKept(s, cfg) && j !in s.jobs && QuotaFree(s, u, req, cfg)
    ensures QuotaKept(FinishSubmit(s, j, u, h, req), cfg)
    ensures QuotaKept(RegisterAndFinish(s, j, u, h, req), cfg)
  {
    OneActivatedQuota(s, s.(jobs := s.jobs[j := Job(u, h, Downloading)]), j, cfg);
  }

  lemma SubmitFileQuota(s: Shared, id: Handle, u: UserId, now: int, j: JobId, req: Request, cfg: Config)
    requires QuotaKept(s, cfg) && j !in s.jobs
    ensures QuotaKept(SubmitTorrentFile(s, now, id, u, j, req, cfg), cfg)
  {
    var (s1, r) := Lookup(s, now, id, u, Submit);
    assert s1.jobs == s.jobs;
    if r.Found? && MaySubmit(s1, u, r.entry.infoHash, req, cfg) {
      SubmitQuota(s1, j, u, r.entry.infoHash, req, cfg);
    }
  }

  lemma StatusActivatesNothing(s: Shared, j: JobId, status: Status)
    requires !IsActive(status) || (j in s.jobs && IsActive(s.jobs[j].status))
    ensures NoneActivated(s.jobs, UpdateStatus(s, j, status).jobs)
  {
  }

  lemma ImportActivatesNothing(s: Shared, j: JobId, imported: nat, cfg: Config)
    requires j in s.jobs
    ensures NoneActivated(s.jobs, ImportCompleted(s, j, imported, cfg).jobs)
  {
    StatusActivatesNothing(s, j, Failed);
    StatusActivatesNothing(s, j, Seeding);
    StatusActivatesNothing(s, j, Done);
    DropKeepsJobs(UpdateStatus(s, j, Failed), s.jobs[j].infoHash, j);
    DropKeepsJobs(UpdateStatus(s, j, Done), s.jobs[j].infoHash, j);
  }

  /** Sync, cancel and delete never activate a job. */
  lemma EndActivatesNothing(s: Shared, op: Op, cfg: Config)
    requires op.CancelOp? || op.DeleteOp? || op.SyncOp?
    ensures NoneActivated(s.jobs, Do(s, op, cfg).jobs)
  {
    match op
    case CancelOp(j) =>
      if j in s.jobs {
        StatusActivatesNothing(s, j, Canceled);
        DropKeepsJobs(UpdateStatus(s, j, Canceled), s.jobs[j].infoHash, j);
      }
    case DeleteOp(j, _) => if j in s.jobs { DropKeepsJobs(s, s.jobs[j].infoHash, j); }
    case SyncOp(j, complete, imported) =>
      if j in s.jobs && IsListed(s.jobs[j].status) {
        StatusActivatesNothing(s, j, Importing);
        ImportActivatesNothing(UpdateStatus(s, j, Importing), j, imported, cfg);
      }
  }

  lemma HandleOpsKeepJobs(s: Shared, op: Op, cfg: Config)
    requires !op.SubmitFileOp? && !op.SubmitOp? && !op.PauseOp? && !op.ResumeOp? && !op.CancelOp? && !op.DeleteOp?
             && !op.SyncOp?
    ensures Do(s, op, cfg).jobs == s.jobs
  {
    match op
    case AddUploadOp(_, _, _, _, _, _, order) => DeleteAllFacts(s, order);
    case AddMagnetOp(_, _, _, _, _, order, _) => DeleteAllFacts(s, order);
    case DropOp(h) => DropKeepsJobs(s, h, 0);
    case GetFileOp(id, u, now) => PendingOpKeepsJobs(s, now, id, u, Peek);
    case DiscardOp(id, u, now) => PendingOpKeepsJobs(s, now, id, u, Discard);
    case TimeOutOp(id) => if id in s.pending { DropKeepsJobs(MarkTimedOut(s, id), s.pending[id].infoHash, 0); }
    case ExpireOp(id) => if id in s.pending { DropKeepsJobs(DeletePending(s, id), s.pending[id].infoHash, 0); }
    case _ =>
  }

  lemma PendingOpKeepsJobs(s: Shared, now: int, id: Handle, u: UserId, mode: LookupMode)
    ensures var (s1, r) := Lookup(s, now, id, u, mode);
            s1.jobs == s.jobs && (r.Found? || r.ExpiredEntry? ==> DropPending(s1, r.entry).jobs == s.jobs)
  {
  }

  /** Every operation keeps every user within MaxConcurrentDownloads, except
      exactly a Pause or Resume that revives an ended job without a free slot. */
  lemma OpQuota(s: Shared, op: Op, cfg: Config)
    requires QuotaKept(s, cfg) && Legal(s, op)
    ensures QuotaKept(Do(s, op, cfg), cfg) <==> QuotaSafe(s, op, cfg)
  {
    match op
    case SubmitFileOp(id, u, now, j, req) => SubmitFileQuota(s, id, u, now, j, req, cfg);
    case SubmitOp(j, u, h, req) =>
      if MaySubmit(s, u, h, req, cfg) { SubmitQuota(s, j, u, h, req, cfg); }
    case PauseOp(j) => StatusQuota(s, j, Paused, cfg);
    case ResumeOp(j) => StatusQuota(s, j, Downloading, cfg);
    case _ =>
      if op.CancelOp? || op.DeleteOp? || op.SyncOp? {
        EndActivatesNothing(s, op, cfg);
        NoneActivatedQuota(s, Do(s, op, cfg), cfg);
      } else {
        HandleOpsKeepJobs(s, op, cfg);
      }
  }

  lemma {:induction false} SafeRunQuota(s: Shared, ops: seq<Op>, n: nat, cfg: Config)
    requires QuotaKept(s, cfg) && LegalRun(s, ops, cfg) && n <= |ops|
    requires forall k :: 0 <= k < n ==> QuotaSafe(At(s, ops, k, cfg), ops[k], cfg)
    ensures QuotaKept(At(s, ops, n, cfg), cfg)
  {
    if n > 0 {
      SafeRunQuota(s, ops, n - 1, cfg);
      AtNext(s, ops, n - 1, cfg);
      OpQuota(At(s, ops, n - 1, cfg), ops[n - 1], cfg);
    }
  }

  /** In every history, every user stays within MaxConcurrentDownloads all the
      time exactly when no Pause or Resume revived an ended job without a slot. */
  lemma RunQuota(s: Shared, ops: seq<Op>, cfg: Config)
    requires QuotaKept(s, cfg) && LegalRun(s, ops, cfg)
    ensures (forall n :: 0 <= n <= |ops| ==> QuotaKept(At(s, ops, n, cfg), cfg))
       <==> (forall n :: 0 <= n < |ops| ==> QuotaSafe(At(s, ops, n, cfg), ops[n], cfg))
  {
    if forall n :: 0 <= n < |ops| ==> QuotaSafe(At(s, ops, n, cfg), ops[n], cfg) {
      forall n | 0 <= n <= |ops| ensures QuotaKept(At(s, ops, n, cfg), cfg) {
        SafeRunQuota(s, ops, n, cfg);
      }
    } else if forall n :: 0 <= n <= |ops| ==> QuotaKept(At(s, ops, n, cfg), cfg) {
      forall n | 0 <= n < |ops| ensures QuotaSafe(At(s, ops, n, cfg), ops[n], cfg) {
        KeptStepSafe(s, ops, n, cfg);
      }
    }
  }

  lemma KeptStepSafe(s: Shared, ops: seq<Op>, n: nat, cfg: Config)
    requires LegalRun(s, ops, cfg) && n < |ops|
    requires QuotaKept(At(s, ops, n, cfg), cfg) && QuotaKept(At(s, ops, n + 1, cfg), cfg)
    ensures QuotaSafe(At(s, ops, n, cfg), ops[n], cfg)
  {
    AtNext(s, ops, n, cfg);
    OpQuota(At(s, ops, n, cfg), ops[n], cfg);
  }

  // ---- One active job per user and info hash -----------------------------------------

  ghost predicate OneActiveJob(jobs: map<JobId, Job>) {
    forall j, k :: (j in jobs && k in jobs && j != k && IsActive(jobs[j].status) && IsActive(jobs[k].status)
                    && jobs[j].userId == jobs[k].userId) ==> jobs[j].infoHash != jobs[k].infoHash
  }

  /** Whatever the operations, a user never has two active jobs on one torrent. */
  lemma OpOneActiveJob(s: Shared, op: Op, cfg: Config)
    requires OneActiveJob(s.jobs) && Legal(s, op)
    ensures OneActiveJob(Do(s, op, cfg).jobs)
  {
    match op
    case SubmitFileOp(id, u, now, j, req) => SubmitFileOneActive(s, id, u, now, j, req, cfg);
    case SubmitOp(j, u, h, req) =>
      if MaySubmit(s, u, h, req, cfg) { InsertOneActive(s.jobs, j, u, h); }
    case PauseOp(j) => StatusOneActive(s, j, Paused);
    case ResumeOp(j) => StatusOneActive(s, j, Downloading);
    case _ =>
      if op.CancelOp? || op.DeleteOp? || op.SyncOp? {
        EndActivatesNothing(s, op, cfg);
        NoneActivatedUnique(s.jobs, Do(s, op, cfg).jobs);
      } else {
        HandleOpsKeepJobs(s, op, cfg);
      }
  }

  lemma SubmitFileOneActive(s: Shared, id: Handle, u: UserId, now: int, j: JobId, req: Request, cfg: Config)
    requires OneActiveJob(s.jobs) && j !in s.jobs
    ensures OneActiveJob(SubmitTorrentFile(s, now, id, u, j, req, cfg).jobs)
  {
    var h := SubmitFileJobs(s, id, u, now, j, req, cfg);
    if !ActiveJobOf(s.jobs, u, h) { InsertOneActive(s.jobs, j, u, h); }
  }

  /** A submitted handle adds at most its own job, and none beside an active one. */
  lemma SubmitFileJobs(s: Shared, id: Handle, u: UserId, now: int, j: JobId, req: Request, cfg: Config)
    returns (h: InfoHash)
    ensures var jobs := SubmitTorrentFile(s, now, id, u, j, req, cfg).jobs;
            jobs == s.jobs || (jobs == s.jobs[j := Job(u, h, Downloading)] && !ActiveJobOf(s.jobs, u, h))
  {
    LookupKeepsJobs(s, now, id, u, Submit);
    var (s1, r) := Lookup(s, now, id, u, Submit);
    h := 0;
    match r
    case Found(e) =>
      h := e.infoHash;
      SubmitEntryJobs(s1, e, j, u, req, cfg);
    case ExpiredEntry(e) => DropKeepsJobs(s1, e.infoHash, j);
    case _ =>
  }

  lemma LookupKeepsJobs(s: Shared, now: int, id: Handle, u: UserId, mode: LookupMode)
    ensures Lookup(s, now, id, u, mode).0.jobs == s.jobs
  {
  }

  lemma FinishSubmitJobs(s: Shared, j: JobId, u: UserId, h: InfoHash, req: Request)
    ensures var jobs := FinishSubmit(s, j, u, h, req).jobs;
            jobs == s.jobs || jobs == s.jobs[j := Job(u, h, Downloading)]
  {
  }

  lemma SubmitEntryJobs(s: Shared, e: Entry, j: JobId, u: UserId, req: Request, cfg: Config)
    ensures var jobs := SubmitEntry(s, e, j, u, req, cfg).jobs;
            jobs == s.jobs || (jobs == s.jobs[j := Job(u, e.infoHash, Downloading)]
                               && !ActiveJobOf(s.jobs, u, e.infoHash))
  {
    var h := e.infoHash;
    if MaySubmit(s, u, h, req, cfg) {
      FinishSubmitJobs(s, j, u, h, req);
      FinishSubmitJobs(AddTorrent(s, h), j, u, h, req);
      DropKeepsJobs(s, h, j);
    } else {
      DropKeepsJobs(s, h, j);
    }
  }

  lemma InsertOneActive(jobs: map<JobId, Job>, j: JobId, u: UserId, h: InfoHash)
    requires OneActiveJob(jobs) && !ActiveJobOf(jobs, u, h)
    ensures OneActiveJob(jobs[j := Job(u, h, Downloading)])
  {
  }

  lemma NoneActivatedUnique(jobs: map<JobId, Job>, jobs': map<JobId, Job>)
    requires OneActiveJob(jobs) && NoneActivated(jobs, jobs')
    ensures OneActiveJob(jobs')
  {
  }

  lemma StatusOneActive(s: Shared, j: JobId, status: Status)
    requires OneActiveJob(s.jobs)
    ensures OneActiveJob(UpdateStatus(s, j, status).jobs)
  {
  }

  // ---- Two histories in which a torrent is lost ---------------------------------------

  const Cfg := Config(2, false)
  const Ok := Request(Some([1]), 10, 10, 0, 5, true, Ready)

  function JobsOnly(jobs: map<JobId, Job>): Shared {
    Shared(map[], map[7 := 0], 1, jobs, multiset{}, map[])
  }

  lemma FirstSubmit(s: Shared, j: JobId, u: UserId)
    requires s.pending == map[] && forall k :: k in s.jobs ==> s.jobs[k].userId != u
    ensures Do(s, SubmitOp(j, u, 7, Ok), Cfg) == AddTorrent(s, 7).(jobs := s.jobs[j := Job(u, 7, Downloading)])
  {
  }

  const PausedAndActive := JobsOnly(map[0 := Job(1, 7, Paused), 1 := Job(2, 7, Downloading)])

  lemma PausedBesideActive()
    ensures Do(Do(Do(InitShared, SubmitOp(0, 1, 7, Ok), Cfg), PauseOp(0), Cfg), SubmitOp(1, 2, 7, Ok), Cfg)
            == PausedAndActive
  {
    FirstSubmit(InitShared, 0, 1);
    var s1 := JobsOnly(map[0 := Job(1, 7, Downloading)]);
    assert Do(InitShared, SubmitOp(0, 1, 7, Ok), Cfg) == s1;
    var s2 := JobsOnly(map[0 := Job(1, 7, Paused)]);
    assert Do(s1, PauseOp(0), Cfg) == s2;
    FirstSubmit(s2, 1, 2);
  }

  lemma CancelBesidePaused()
    ensures Good(PausedAndActive)
    ensures var s := Do(PausedAndActive, CancelOp(1), Cfg);
            0 in s.jobs && s.jobs[0] == Job(1, 7, Paused) && 7 !in s.client
  {
    var s3 := PausedAndActive;
    assert UpdateStatus(s3, 1, Canceled) == JobsOnly(map[0 := Job(1, 7, Paused), 1 := Job(2, 7, Canceled)]);
  }

  /** User 1 pauses a job; user 2's job on the same torrent is cancelled. The
      ListActive query does not return paused jobs, so the torrent goes. */
  lemma PausedJobLosesTorrent()
    ensures var s3 := Do(Do(Do(InitShared, SubmitOp(0, 1, 7, Ok), Cfg), PauseOp(0), Cfg), SubmitOp(1, 2, 7, Ok), Cfg);
            var s4 := Do(s3, CancelOp(1), Cfg);
            Good(s3) && 0 in s4.jobs && s4.jobs[0] == Job(1, 7, Paused) && 7 !in s4.client
  {
    PausedBesideActive();
    CancelBesidePaused();
  }

  /** User 1 submits, cancels, submits twice more, and resumes the cancelled
      job: three active jobs of two, the first without a torrent. */
  lemma ResumeExceedsQuota()
    ensures var s := Do(Do(Do(Do(InitShared, SubmitOp(0, 1, 7, Ok), Cfg), CancelOp(0), Cfg),
                           SubmitOp(1, 1, 8, Ok), Cfg), SubmitOp(2, 1, 9, Ok), Cfg);
            QuotaKept(s, Cfg) && !QuotaKept(Do(s, ResumeOp(0), Cfg), Cfg)
  {
    FirstSubmit(InitShared, 0, 1);
    var s1 := JobsOnly(map[0 := Job(1, 7, Downloading)]);
    assert Do(InitShared, SubmitOp(0, 1, 7, Ok), Cfg) == s1;
    var s2 := Shared(map[], map[], 1, map[0 := Job(1, 7, Canceled)], multiset{}, map[]);
    assert UpdateStatus(s1, 0, Canceled) == JobsOnly(map[0 := Job(1, 7, Canceled)]);
    assert Do(s1, CancelOp(0), Cfg) == s2;
    var s3 := Shared(map[], map[8 := 1], 2, s2.jobs[1 := Job(1, 8, Downloading)], multiset{}, map[]);
    NextSubmit(s2, 1, 8, {});
    assert Do(s2, SubmitOp(1, 1, 8, Ok), Cfg) == s3;
    var s4 := Shared(map[], map[8 := 1, 9 := 2], 3, s3.jobs[2 := Job(1, 9, Downloading)], multiset{}, map[]);
    NextSubmit(s3, 2, 9, {1});
    assert Do(s3, SubmitOp(2, 1, 9, Ok), Cfg) == s4;
    TwoActiveOfTwo(s4);
  }

  /** User 1, with the given active jobs, submits one more. */
  lemma NextSubmit(s: Shared, j: JobId, h: InfoHash, active: set<JobId>)
    requires s.pending == map[] && ActiveOf(s.jobs, 1) == active && |active| < 2
    requires forall k :: k in s.jobs ==> s.jobs[k].infoHash != h
    ensures Do(s, SubmitOp(j, 1, h, Ok), Cfg) == AddTorrent(s, h).(jobs := s.jobs[j := Job(1, h, Downloading)])
  {
    assert Sum([1]) == 1 + Sum([]);
  }

  lemma TwoActiveOfTwo(s: Shared)
    requires s.jobs == map[0 := Job(1, 7, Canceled), 1 := Job(1, 8, Downloading), 2 := Job(1, 9, Downloading)]
    ensures QuotaKept(s, Cfg) && !QuotaKept(Do(s, ResumeOp(0), Cfg), Cfg)
  {
    assert ActiveOf(s.jobs, 1) == {1, 2};
    forall u | u != 1 ensures ActiveOf(s.jobs, u) == {} {}
    OpQuota(s, ResumeOp(0), Cfg);
  }
}
