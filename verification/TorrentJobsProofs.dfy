/** Which service operations keep every active job's torrent registered. */
module TorrentJobsProofs {
  import opened Wrappers
  import opened TorrentState
  import opened TorrentJobs
  import opened TorrentHandlesProofs

  ghost predicate JobsRegistered(s: Shared) {
    forall j :: j in s.jobs && IsActive(s.jobs[j].status) ==> s.jobs[j].infoHash in s.client
  }

  /** Every active job and every live magnet entry has its torrent. */
  ghost predicate Good(s: Shared) {
    JobsRegistered(s) && HandlesCurrent(s)
  }

  predicate PausedJobOn(jobs: map<JobId, Job>, h: InfoHash) {
    exists j | j in jobs :: jobs[j].status == Paused && jobs[j].infoHash == h
  }

  // ---- The two places where the code drops a torrent ---------------------------

  /** Before dropUnusedTorrent: what it does not look at must not matter. */
  predicate DropSafe(s: Shared, h: InfoHash) {
    ListedJobOn(s.jobs, h) || LiveMagnetOn(s.pending, h) || !PausedJobOn(s.jobs, h)
  }

  /** Before releaseTorrent of job j, no longer active itself. */
  predicate ReleaseSafe(s: Shared, j: JobId, h: InfoHash) {
    OtherListedJobOn(s.jobs, j, h) || (!PausedJobOn(s.jobs, h) && !LiveMagnetOn(s.pending, h))
  }

  lemma DropGood(s: Shared, h: InfoHash)
    requires Good(s)
    ensures Good(DropUnused(s, h)) <==> DropSafe(s, h)
  {
  }

  lemma ReleaseGood(s: Shared, j: JobId, h: InfoHash)
    requires Good(s) && (j in s.jobs ==> !IsActive(s.jobs[j].status))
    ensures Good(Release(s, j, h)) <==> ReleaseSafe(s, j, h)
  {
  }

  // ---- Operation by operation ---------------------------------------------------

  predicate EntryDropSafe(s: Shared, e: Entry) {
    e.Magnet? ==> DropSafe(s, e.infoHash)
  }

  predicate FinishSafe(s: Shared, h: InfoHash, req: Request) {
    SelectionFits(req) || DropSafe(s, h)
  }

  predicate RegisterSafe(s: Shared, h: InfoHash, req: Request) {
    req.answer == Ready ==> FinishSafe(AddTorrent(s, h), h, req)
  }

  predicate SubmitEntrySafe(s: Shared, e: Entry, u: UserId, req: Request, cfg: Config) {
    if !MaySubmit(s, u, e.infoHash, req, cfg) then EntryDropSafe(s, e)
    else if e.Upload? then RegisterSafe(s, e.infoHash, req)
    else if req.answer == WaitCanceled then DropSafe(s, e.infoHash)
    else FinishSafe(s, e.infoHash, req)
  }

  /** Pause and Resume do not look at the old status or the client. */
  predicate StatusSafe(s: Shared, j: JobId, status: Status) {
    j in s.jobs && !IndexRefuses(s.jobs, j, status) ==> s.jobs[j].infoHash in s.client
  }

  predicate SyncEnds(s: Shared, j: JobId, complete: bool, imported: nat, cfg: Config) {
    && j in s.jobs && IsListed(s.jobs[j].status) && s.jobs[j].infoHash in s.client && complete
    && !IndexRefuses(s.jobs, j, Importing)
    && (imported == 0 || !cfg.seedAfterComplete)
  }

  predicate ActiveJobOn(jobs: map<JobId, Job>, h: InfoHash) {
    exists j | j in jobs :: IsActive(jobs[j].status) && jobs[j].infoHash == h
  }

  /** A delete that fails after its release keeps the row, active as it was. */
  predicate DeleteSafe(s: Shared, j: JobId, kept: bool)
    requires j in s.jobs
  {
    var h := s.jobs[j].infoHash;
    if kept then OtherListedJobOn(s.jobs, j, h) || (!ActiveJobOn(s.jobs, h) && !LiveMagnetOn(s.pending, h))
    else ReleaseSafe(s.(jobs := s.jobs - {j}), j, h)
  }

  /** What a caller would have to check before an operation. */
  predicate Safe(s: Shared, op: Op, cfg: Config) {
    match op
    case DropOp(h) => DropSafe(s, h)
    case GetFileOp(id, u, now) =>
      var (s1, r) := Lookup(s, now, id, u, Peek);
      r.ExpiredEntry? ==> EntryDropSafe(s1, r.entry)
    case SubmitFileOp(id, u, now, j, req) =>
      var (s1, r) := Lookup(s, now, id, u, Submit);
      && (r.ExpiredEntry? ==> EntryDropSafe(s1, r.entry))
      && (r.Found? ==> SubmitEntrySafe(s1, r.entry, u, req, cfg))
    case DiscardOp(id, u, now) =>
      var (s1, r) := Lookup(s, now, id, u, Discard);
      (r.ExpiredEntry? || r.Found?) ==> EntryDropSafe(s1, r.entry)
    case TimeOutOp(id) => id in s.pending && s.pending[id].Magnet?
        ==> DropSafe(MarkTimedOut(s, id), s.pending[id].infoHash)
    case ExpireOp(id) => id in s.pending ==> EntryDropSafe(DeletePending(s, id), s.pending[id])
    case SubmitOp(j, u, h, req) => MaySubmit(s, u, h, req, cfg) ==> RegisterSafe(s, h, req)
    case PauseOp(j) => StatusSafe(s, j, Paused)
    case ResumeOp(j) => StatusSafe(s, j, Downloading)
    case CancelOp(j) => j in s.jobs ==> ReleaseSafe(UpdateStatus(s, j, Canceled), j, s.jobs[j].infoHash)
    case DeleteOp(j, kept) => j in s.jobs ==> DeleteSafe(s, j, kept)
    case SyncOp(j, complete, imported) =>
      SyncEnds(s, j, complete, imported, cfg) ==> ReleaseSafe(UpdateStatus(s, j, Done), j, s.jobs[j].infoHash)
    case _ => true
  }

  lemma AddTorrentGood(s: Shared, h: InfoHash)
    requires Good(s)
    ensures Good(AddTorrent(s, h)) && h in AddTorrent(s, h).client
  {
  }

  lemma FinishGood(s: Shared, j: JobId, u: UserId, h: InfoHash, req: Request)
    requires Good(s) && h in s.client && j !in s.jobs
    ensures Good(FinishSubmit(s, j, u, h, req)) <==> FinishSafe(s, h, req)
  {
  }

  lemma LookupGood(s: Shared, now: int, id: Handle, u: UserId, mode: LookupMode)
    requires Good(s)
    ensures Good(Lookup(s, now, id, u, mode).0)
    ensures var (s1, r) := Lookup(s, now, id, u, mode);
            r.Found? && r.entry.Magnet? && mode == Submit ==> r.entry.infoHash in s1.client
    ensures Lookup(s, now, id, u, mode).0.jobs == s.jobs
  {
  }

  lemma SubmitFileGood(s: Shared, now: int, id: Handle, u: UserId, j: JobId, req: Request, cfg: Config)
    requires Good(s) && j !in s.jobs
    ensures Good(SubmitTorrentFile(s, now, id, u, j, req, cfg)) <==> Safe(s, SubmitFileOp(id, u, now, j, req), cfg)
  {
    LookupGood(s, now, id, u, Submit);
    var (s1, r) := Lookup(s, now, id, u, Submit);
    if r.ExpiredEntry? {
      DropGood(s1, r.entry.infoHash);
    } else if r.Found? {
      SubmitEntryGood(s1, r.entry, j, u, req, cfg);
    }
  }

  lemma SubmitEntryGood(s: Shared, e: Entry, j: JobId, u: UserId, req: Request, cfg: Config)
    requires Good(s) && j !in s.jobs && (e.Magnet? ==> e.infoHash in s.client)
    ensures Good(SubmitEntry(s, e, j, u, req, cfg)) <==> SubmitEntrySafe(s, e, u, req, cfg)
  {
    DropGood(s, e.infoHash);
    if e.Upload? {
      RegisterGood(s, j, u, e.infoHash, req);
    } else {
      FinishGood(s, j, u, e.infoHash, req);
    }
  }

  lemma RegisterGood(s: Shared, j: JobId, u: UserId, h: InfoHash, req: Request)
    requires Good(s) && j !in s.jobs
    ensures Good(RegisterAndFinish(s, j, u, h, req)) <==> RegisterSafe(s, h, req)
  {
    AddTorrentGood(s, h);
    FinishGood(AddTorrent(s, h), j, u, h, req);
  }

  lemma StatusGood(s: Shared, j: JobId, status: Status)
    requires Good(s)
    ensures !IsActive(status) ==> Good(UpdateStatus(s, j, status))
    ensures IsActive(status) ==> (Good(UpdateStatus(s, j, status)) <==> StatusSafe(s, j, status))
  {
    var s' := UpdateStatus(s, j, status);
    if j in s.jobs && IsActive(status) && !IndexRefuses(s.jobs, j, status) {
      assert j in s'.jobs && IsActive(s'.jobs[j].status);
    }
  }

  lemma DeleteGood(s: Shared, j: JobId)
    requires Good(s) && j in s.jobs
    ensures Good(DeleteJob(s, j, false)) <==> DeleteSafe(s, j, false)
  {
    var h := s.jobs[j].infoHash;
    var gone := s.(jobs := s.jobs - {j});
    assert OtherListedJobOn(gone.jobs, j, h) <==> OtherListedJobOn(s.jobs, j, h) by {
      if OtherListedJobOn(s.jobs, j, h) {
        var k :| k in s.jobs && k != j && IsListed(s.jobs[k].status) && s.jobs[k].infoHash == h;
        assert k in gone.jobs && gone.jobs[k] == s.jobs[k];
      }
    }
    ReleaseGood(gone, j, h);
    assert DeleteJob(s, j, false) == Release(gone, j, h);
  }

  lemma KeptDeleteGood(s: Shared, j: JobId)
    requires Good(s) && j in s.jobs
    ensures Good(DeleteJob(s, j, true)) <==> DeleteSafe(s, j, true)
  {
    var h := s.jobs[j].infoHash;
    if !OtherListedJobOn(s.jobs, j, h) {
      DropKeepsHandles(s, h);
      if ActiveJobOn(s.jobs, h) {
        var k :| k in s.jobs && IsActive(s.jobs[k].status) && s.jobs[k].infoHash == h;
        assert k in Release(s, j, h).jobs && h !in Release(s, j, h).client;
      }
    }
  }

  lemma SyncGood(s: Shared, j: JobId, complete: bool, imported: nat, cfg: Config)
    requires Good(s)
    ensures Good(SyncRow(s, j, complete, imported, cfg)) <==> Safe(s, SyncOp(j, complete, imported), cfg)
  {
    if j in s.jobs && IsListed(s.jobs[j].status) && s.jobs[j].infoHash in s.client && complete {
      var h := s.jobs[j].infoHash;
      var s1 := UpdateStatus(s, j, Importing);
      StatusGood(s, j, Importing);
      if !IndexRefuses(s.jobs, j, Importing) {
        StatusGood(s1, j, Seeding);
        ReleaseSame(s, s1, j, Failed);
        ReleaseSame(s, s1, j, Done);
      }
    }
  }

  /** Whatever final status the job got, releasing it is safe or not alike. */
  lemma ReleaseSame(s: Shared, s1: Shared, j: JobId, status: Status)
    requires Good(s1) && j in s.jobs && !IsActive(status)
    requires s1 == UpdateStatus(s, j, Importing)
    ensures var h := s.jobs[j].infoHash;
            Good(Release(UpdateStatus(s1, j, status), j, h)) <==> ReleaseSafe(UpdateStatus(s, j, Done), j, h)
  {
    var h := s.jobs[j].infoHash;
    var a, b := UpdateStatus(s1, j, status), UpdateStatus(s, j, Done);
    StatusGood(s1, j, status);
    ReleaseGood(a, j, h);
    ReleaseSafeAlike(a, b, j, h);
  }

  /** ReleaseSafe looks at the released job only to see that it is not paused. */
  lemma ReleaseSafeAlike(a: Shared, b: Shared, j: JobId, h: InfoHash)
    requires a.pending == b.pending && j in a.jobs && a.jobs[j].status != Paused
    requires j in b.jobs && b.jobs[j].status != Paused && b.jobs == a.jobs[j := b.jobs[j]]
    ensures ReleaseSafe(a, j, h) <==> ReleaseSafe(b, j, h)
  {
    assert forall k :: k in a.jobs && k != j ==> a.jobs[k] == b.jobs[k];
  }

  lemma MagnetOpGood(s: Shared, op: Op, cfg: Config)
    requires Good(s) && Legal(s, op)
             && (op.AddUploadOp? || op.AddMagnetOp? || op.PublishOp? || op.TimeOutOp? || op.ExpireOp?)
    ensures Good(Do(s, op, cfg)) <==> Safe(s, op, cfg)
  {
    match op
    case AddUploadOp(id, u, h, name, files, now, order) =>
      SweepKeepsHandles(s, order);
      DeleteAllFacts(s, order);
      AddKeepsHandles(DeleteAll(s, order), id, u, h, name, files, now);
    case AddMagnetOp(id, u, h, name, now, order, _) =>
      SweepKeepsHandles(s, order);
      DeleteAllFacts(s, order);
      AddKeepsHandles(DeleteAll(s, order), id, u, h, name, [], now);
    case TimeOutOp(id) =>
      if id in s.pending && s.pending[id].Magnet? { DropGood(MarkTimedOut(s, id), s.pending[id].infoHash); }
    case ExpireOp(id) =>
      if id in s.pending { DropGood(DeletePending(s, id), s.pending[id].infoHash); }
    case PublishOp(id, name, files) =>
  }

  lemma HandleOpGood(s: Shared, op: Op, cfg: Config)
    requires Good(s) && Legal(s, op)
             && (op.DropOp? || op.GetFileOp? || op.SubmitFileOp? || op.DiscardOp? || op.SubmitOp?)
    ensures Good(Do(s, op, cfg)) <==> Safe(s, op, cfg)
  {
    match op
    case DropOp(h) => DropGood(s, h);
    case GetFileOp(id, u, now) =>
      LookupGood(s, now, id, u, Peek);
      var (s1, r) := Lookup(s, now, id, u, Peek);
      if r.ExpiredEntry? { DropGood(s1, r.entry.infoHash); }
    case SubmitFileOp(id, u, now, j, req) => SubmitFileGood(s, now, id, u, j, req, cfg);
    case DiscardOp(id, u, now) =>
      LookupGood(s, now, id, u, Discard);
      var (s1, r) := Lookup(s, now, id, u, Discard);
      if r.ExpiredEntry? || r.Found? { DropGood(s1, r.entry.infoHash); }
    case SubmitOp(j, u, h, req) =>
      RegisterGood(s, j, u, h, req);
  }

  /** Every operation keeps jobs and live magnets registered exactly when its
      precondition, checkable before the call, holds. */
  lemma OpGood(s: Shared, op: Op, cfg: Config)
    requires Good(s) && Legal(s, op)
    ensures Good(Do(s, op, cfg)) <==> Safe(s, op, cfg)
  {
    match op
    case PauseOp(j) => StatusGood(s, j, Paused);
    case ResumeOp(j) => StatusGood(s, j, Downloading);
    case CancelOp(j) =>
      if j in s.jobs {
        StatusGood(s, j, Canceled);
        ReleaseGood(UpdateStatus(s, j, Canceled), j, s.jobs[j].infoHash);
      }
    case DeleteOp(j, kept) =>
      if j in s.jobs && kept {
        KeptDeleteGood(s, j);
      } else if j in s.jobs {
        DeleteGood(s, j);
      }
    case SyncOp(j, complete, imported) => SyncGood(s, j, complete, imported, cfg);
    case _ =>
      if op.AddUploadOp? || op.AddMagnetOp? || op.PublishOp? || op.TimeOutOp? || op.ExpireOp? {
        MagnetOpGood(s, op, cfg);
      } else {
        HandleOpGood(s, op, cfg);
      }
  }
}
