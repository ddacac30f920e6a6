/**
 The job lifecycle, one service operation at a time: submit, sync with import,
 pause, resume, cancel, delete, and the handle operations beside them.
 dropUnusedTorrent counts as an operation of its own.
 */
module TorrentJobs {
  import opened Wrappers
  import opened TorrentState

  datatype Config = Config(maxConcurrentDownloads: int, seedAfterComplete: bool)

  /** How registering with the client went: the torrent with its info, an error,
      or a request canceled while waiting for the info. */
  datatype ClientAnswer = Ready | Refused | WaitCanceled

  /** What one submission brings: the lengths of the selected files (None when
      the selection was refused), the caller's limits, the number of files
      already in the caller's temp folder, and the client's answer. */
  datatype Request = Request(selected: Option<seq<nat>>, maxSongSizeBytes: int, maxTotalUploadBytes: int,
                             pendingTracks: nat, maxPendingTracks: int, folderOk: bool, answer: ClientAnswer)

  function Sum(xs: seq<nat>): nat {
    if xs == [] then 0 else xs[0] + Sum(xs[1..])
  }

  predicate SizesOk(lengths: seq<nat>, maxSong: int, maxTotal: int) {
    (forall i :: 0 <= i < |lengths| ==> lengths[i] <= maxSong) && Sum(lengths) <= maxTotal
  }

  function ActiveOf(jobs: map<JobId, Job>, u: UserId): set<JobId> {
    set j | j in jobs && jobs[j].userId == u && IsActive(jobs[j].status)
  }

  /** checkSubmitQuota */
  predicate QuotaFree(s: Shared, u: UserId, req: Request, cfg: Config) {
    req.pendingTracks < req.maxPendingTracks
    && (cfg.maxConcurrentDownloads <= 0 || |ActiveOf(s.jobs, u)| < cfg.maxConcurrentDownloads)
  }

  predicate SelectionFits(req: Request) {
    req.selected.Some? && SizesOk(req.selected.value, req.maxSongSizeBytes, req.maxTotalUploadBytes)
  }

  /** From the registered torrent to the row: selection, size limits, insert. */
  function FinishSubmit(s: Shared, j: JobId, u: UserId, h: InfoHash, req: Request): Shared {
    if SelectionFits(req)
    then s.(jobs := s.jobs[j := Job(u, h, Downloading)])
    else DropUnused(s, h)
  }

  predicate MaySubmit(s: Shared, u: UserId, h: InfoHash, req: Request, cfg: Config) {
    req.folderOk && !ActiveJobOf(s.jobs, u, h) && QuotaFree(s, u, req, cfg)
  }

  /** From AddTorrent on; a canceled request leaves the torrent registered. */
  function RegisterAndFinish(s: Shared, j: JobId, u: UserId, h: InfoHash, req: Request): Shared {
    match req.answer
    case Refused => s
    case WaitCanceled => AddTorrent(s, h)
    case Ready => FinishSubmit(AddTorrent(s, h), j, u, h, req)
  }

  /** SubmitTorrent */
  function SubmitTorrent(s: Shared, j: JobId, u: UserId, h: InfoHash, req: Request, cfg: Config): Shared {
    if MaySubmit(s, u, h, req, cfg) then RegisterAndFinish(s, j, u, h, req) else s
  }

  function DropPending(s: Shared, e: Entry): Shared {
    if e.Magnet? then DropUnused(s, e.infoHash) else s
  }

  /** SubmitTorrentFile after its handle was consumed. */
  function SubmitEntry(s: Shared, e: Entry, j: JobId, u: UserId, req: Request, cfg: Config): Shared {
    if !MaySubmit(s, u, e.infoHash, req, cfg) then DropPending(s, e)
    else if e.Upload? then RegisterAndFinish(s, j, u, e.infoHash, req)
    else if req.answer == WaitCanceled then DropPending(s, e)
    else FinishSubmit(s, j, u, e.infoHash, req)
  }

  function SubmitTorrentFile(s: Shared, now: int, id: Handle, u: UserId, j: JobId, req: Request, cfg: Config): Shared {
    var (s1, r) := Lookup(s, now, id, u, Submit);
    match r
    case Found(e) => SubmitEntry(s1, e, j, u, req, cfg)
    case ExpiredEntry(e) => DropPending(s1, e)
    case _ => s1
  }

  function DiscardTorrentFile(s: Shared, now: int, id: Handle, u: UserId): Shared {
    var (s1, r) := Lookup(s, now, id, u, Discard);
    match r
    case Found(e) => DropPending(s1, e)
    case ExpiredEntry(e) => DropPending(s1, e)
    case _ => s1
  }

  function GetTorrentFile(s: Shared, now: int, id: Handle, u: UserId): Shared {
    var (s1, r) := Lookup(s, now, id, u, Peek);
    if r.ExpiredEntry? then DropPending(s1, r.entry) else s1
  }

  function TimeOutMagnet(s: Shared, id: Handle): Shared {
    if id !in s.pending || s.pending[id].Upload? then s
    else DropUnused(MarkTimedOut(s, id), s.pending[id].infoHash)
  }

  function ExpirePendingMagnet(s: Shared, id: Handle): Shared {
    if id !in s.pending then s else DropPending(DeletePending(s, id), s.pending[id])
  }

  /** AddTorrentMagnet up to its drops: an active job answers at once. */
  function AddTorrentMagnet(s: Shared, id: Handle, u: UserId, h: InfoHash, name: string, now: int, order: seq<Handle>,
                            clientFails: bool): Shared {
    if ActiveJobOf(s.jobs, u, h) then s
    else if clientFails then DeleteAll(s, order)
    else AddMagnet(DeleteAll(s, order), id, u, h, name, now)
  }

  // ---- Jobs -------------------------------------------------------------------

  /** Another active row of the same user and info hash: the unique index
      refuses to make this row active too. */
  predicate IndexRefuses(jobs: map<JobId, Job>, j: JobId, status: Status)
    requires j in jobs
  {
    IsActive(status) &&
    exists k | k in jobs ::
      k != j && IsActive(jobs[k].status) && jobs[k].userId == jobs[j].userId && jobs[k].infoHash == jobs[j].infoHash
  }

  function UpdateStatus(s: Shared, j: JobId, status: Status): Shared {
    if j !in s.jobs || IndexRefuses(s.jobs, j, status) then s
    else s.(jobs := s.jobs[j := s.jobs[j].(status := status)])
  }

  /** releaseTorrent */
  function Release(s: Shared, j: JobId, h: InfoHash): Shared {
    if OtherListedJobOn(s.jobs, j, h) then s else DropTorrent(s, h)
  }

  function CancelJob(s: Shared, j: JobId): Shared {
    if j !in s.jobs then s else Release(UpdateStatus(s, j, Canceled), j, s.jobs[j].infoHash)
  }

  /** kept: deleting the imported files or the row failed after the release. */
  function DeleteJob(s: Shared, j: JobId, kept: bool): Shared {
    if j !in s.jobs then s
    else
      var s1 := Release(s, j, s.jobs[j].infoHash);
      if kept then s1 else s1.(jobs := s1.jobs - {j})
  }

  /** importCompletedTorrent on a job that syncRow marked importing, and the
      failure branch of syncRow. */
  function ImportCompleted(s: Shared, j: JobId, imported: nat, cfg: Config): Shared
    requires j in s.jobs
  {
    var h := s.jobs[j].infoHash;
    if h !in s.client then UpdateStatus(s, j, Failed)
    else if imported == 0 then Release(UpdateStatus(s, j, Failed), j, h)
    else if cfg.seedAfterComplete then UpdateStatus(s, j, Seeding)
    else Release(UpdateStatus(s, j, Done), j, h)
  }

  /** syncRow: only the rows ListActive names, and only those still registered. */
  function SyncRow(s: Shared, j: JobId, complete: bool, imported: nat, cfg: Config): Shared {
    if j !in s.jobs || !IsListed(s.jobs[j].status) || s.jobs[j].infoHash !in s.client || !complete then s
    else if IndexRefuses(s.jobs, j, Importing) then s
    else ImportCompleted(UpdateStatus(s, j, Importing), j, imported, cfg)
  }

  // ---- Operations ---------------------------------------------------------------

  datatype Op =
    | AddUploadOp(id: Handle, u: UserId, h: InfoHash, name: string, files: seq<string>, now: int, order: seq<Handle>)
    | AddMagnetOp(id: Handle, u: UserId, h: InfoHash, name: string, now: int, order: seq<Handle>, clientFails: bool)
    | DropOp(h: InfoHash)
    | GetFileOp(id: Handle, u: UserId, now: int)
    | SubmitFileOp(id: Handle, u: UserId, now: int, j: JobId, req: Request)
    | DiscardOp(id: Handle, u: UserId, now: int)
    | PublishOp(id: Handle, name: string, files: seq<string>)
    | TimeOutOp(id: Handle)
    | ExpireOp(id: Handle)
    | SubmitOp(j: JobId, u: UserId, h: InfoHash, req: Request)
    | PauseOp(j: JobId)
    | ResumeOp(j: JobId)
    | CancelOp(j: JobId)
    | DeleteOp(j: JobId, kept: bool)
    | SyncOp(j: JobId, complete: bool, imported: nat)

  /** New rows get a new id; new handles are new. */
  predicate Legal(s: Shared, op: Op) {
    && ((op.SubmitFileOp? || op.SubmitOp?) ==> op.j !in s.jobs)
    && ((op.AddUploadOp? || op.AddMagnetOp?) ==> op.id !in s.pending)
  }

  function Do(s: Shared, op: Op, cfg: Config): Shared {
    match op
    case AddUploadOp(id, u, h, name, files, now, order) => AddUpload(DeleteAll(s, order), id, u, h, name, files, now)
    case AddMagnetOp(id, u, h, name, now, order, clientFails) =>
      AddTorrentMagnet(s, id, u, h, name, now, order, clientFails)
    case DropOp(h) => DropUnused(s, h)
    case GetFileOp(id, u, now) => GetTorrentFile(s, now, id, u)
    case SubmitFileOp(id, u, now, j, req) => SubmitTorrentFile(s, now, id, u, j, req, cfg)
    case DiscardOp(id, u, now) => DiscardTorrentFile(s, now, id, u)
    case PublishOp(id, name, files) => PublishInfo(s, id, name, files)
    case TimeOutOp(id) => TimeOutMagnet(s, id)
    case ExpireOp(id) => ExpirePendingMagnet(s, id)
    case SubmitOp(j, u, h, req) => SubmitTorrent(s, j, u, h, req, cfg)
    case PauseOp(j) => UpdateStatus(s, j, Paused)
    case ResumeOp(j) => UpdateStatus(s, j, Downloading)
    case CancelOp(j) => CancelJob(s, j)
    case DeleteOp(j, kept) => DeleteJob(s, j, kept)
    case SyncOp(j, complete, imported) => SyncRow(s, j, complete, imported, cfg)
  }
}
