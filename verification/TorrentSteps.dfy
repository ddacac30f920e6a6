/**
 The whole operations are runs of the interleaved machine: what an operation
 does uninterrupted, its sections do one after the other. So TorrentJobs and
 TorrentHandles describe one service.
 */
module TorrentSteps {
  import opened Wrappers
  import opened TorrentState
  import opened TorrentHandles
  import Jobs = TorrentJobs

  /** The actions are taken one after the other. */
  ghost predicate Leads(s: State, actions: seq<Action>, s': State)
    decreases |actions|
  {
    if actions == [] then s' == s
    else Enabled(s, actions[0]) && Leads(Apply(s, actions[0]), actions[1..], s')
  }

  lemma First(s: State, a: Action, actions: seq<Action>, s': State)
    requires Enabled(s, a) && Leads(Apply(s, a), actions, s')
    ensures Leads(s, [a] + actions, s')
  {
    assert ([a] + actions)[1..] == actions;
  }

  lemma One(s: State, a: Action)
    requires Enabled(s, a)
    ensures Leads(s, [a], Apply(s, a))
  {
    assert [a][1..] == [];
  }

  lemma Two(s: State, a: Action, b: Action)
    requires Enabled(s, a) && Enabled(Apply(s, a), b)
    ensures Leads(s, [a, b], Apply(Apply(s, a), b))
  {
    One(Apply(s, a), b);
    First(s, a, [b], Apply(Apply(s, a), b));
    assert [a] + [b] == [a, b];
  }

  // ---- dropUnusedTorrent ------------------------------------------------------------

  predicate AboutToDrop(s: State, t: ThreadId, h: InfoHash) {
    t in s.threads && s.threads[t].Dropping? && s.threads[t].todo != [] && s.threads[t].todo[0] == h
  }

  lemma DropRuns(s: State, t: ThreadId, h: InfoHash) returns (actions: seq<Action>, s': State)
    requires AboutToDrop(s, t, h)
    ensures Leads(s, actions, s') && s'.sh == DropUnused(s.sh, h)
  {
    var read := OnSubmit(DropRead(t));
    if ListedJobOn(s.sh.jobs, h) {
      actions, s' := [read], Apply(s, read);
      One(s, read);
    } else {
      var locked := OnSubmit(DropLocked(t));
      actions, s' := [read, locked], Apply(Apply(s, read), locked);
      Two(s, read, locked);
    }
  }

  /** One action, then a drop. */
  lemma ThenDrop(s: State, a: Action, t: ThreadId, h: InfoHash) returns (actions: seq<Action>, s': State)
    requires Enabled(s, a) && AboutToDrop(Apply(s, a), t, h)
    ensures Leads(s, actions, s') && s'.sh == DropUnused(Apply(s, a).sh, h)
  {
    var rest;
    rest, s' := DropRuns(Apply(s, a), t, h);
    actions := [a] + rest;
    First(s, a, rest, s');
  }

  // ---- Handles ----------------------------------------------------------------------

  lemma GetFileRuns(s: State, t: ThreadId, id: Handle, u: UserId) returns (actions: seq<Action>, s': State)
    requires Fresh(s, t)
    ensures Leads(s, actions, s') && s'.sh == Jobs.GetTorrentFile(s.sh, s.now, id, u)
  {
    actions, s' := LookUpRuns(s, t, id, u, Peek);
  }

  lemma DiscardRuns(s: State, t: ThreadId, id: Handle, u: UserId) returns (actions: seq<Action>, s': State)
    requires Fresh(s, t)
    ensures Leads(s, actions, s') && s'.sh == Jobs.DiscardTorrentFile(s.sh, s.now, id, u)
  {
    actions, s' := LookUpRuns(s, t, id, u, Discard);
  }

  /** The locked section and the drop of the entry it took out for good. */
  lemma LookUpRuns(s: State, t: ThreadId, id: Handle, u: UserId, mode: LookupMode)
    returns (actions: seq<Action>, s': State)
    requires Fresh(s, t)
    ensures var (sh1, r) := Lookup(s.sh, s.now, id, u, mode);
            (r.Found? && mode == Submit) ||
            (Leads(s, actions, s') && s'.sh == if r.ExpiredEntry? || (r.Found? && mode == Discard)
                                               then Jobs.DropPending(sh1, r.entry) else sh1)
  {
    var a := OnHandle(LookUp(t, id, u, mode));
    var r := Lookup(s.sh, s.now, id, u, mode).1;
    if (r.ExpiredEntry? || (r.Found? && mode == Discard)) && r.entry.Magnet? {
      actions, s' := ThenDrop(s, a, t, r.entry.infoHash);
    } else {
      actions, s' := [a], Apply(s, a);
      One(s, a);
    }
  }

  lemma TimeOutRuns(s: State, t: ThreadId, id: Handle) returns (actions: seq<Action>, s': State)
    requires MagnetEnabled(s, TimeOut(t, id)) && (id in s.sh.pending ==> s.sh.pending[id].Magnet?)
    ensures Leads(s, actions, s') && s'.sh == Jobs.TimeOutMagnet(s.sh, id)
  {
    var a := OnMagnet(TimeOut(t, id));
    if id in s.sh.pending {
      actions, s' := ThenDrop(s, a, t, s.sh.pending[id].infoHash);
    } else {
      actions, s' := [a], Apply(s, a);
      One(s, a);
    }
  }

  /** The fired timer itself is the machine's own record. */
  lemma ExpireRuns(s: State, t: ThreadId, id: Handle) returns (actions: seq<Action>, s': State)
    requires MagnetEnabled(s, Expire(t, id)) && (id in s.sh.pending ==> s.sh.pending[id].Magnet?)
    ensures Leads(s, actions, s')
    ensures s'.sh == Jobs.ExpirePendingMagnet(s.sh, id).(timers := s.sh.timers[id := Stopped])
  {
    var a := OnMagnet(Expire(t, id));
    if id in s.sh.pending {
      actions, s' := ThenDrop(s, a, t, s.sh.pending[id].infoHash);
    } else {
      actions, s' := [a], Apply(s, a);
      One(s, a);
    }
  }

  // ---- Submissions ----------------------------------------------------------------------

  predicate Checked(s: State, t: ThreadId, u: UserId, h: InfoHash, fromMagnet: bool) {
    t in s.threads && s.threads[t] == Registered(u, h, fromMagnet)
  }

  /** From the registered torrent to the row, or to the drop. */
  lemma FinishRuns(s: State, t: ThreadId, j: JobId, u: UserId, h: InfoHash, fromMagnet: bool, req: Jobs.Request)
    returns (actions: seq<Action>, s': State)
    requires Checked(s, t, u, h, fromMagnet) && j !in s.sh.jobs && !ActiveJobOf(s.sh.jobs, u, h)
    ensures Leads(s, actions, s') && s'.sh == Jobs.FinishSubmit(s.sh, j, u, h, req)
  {
    if Jobs.SelectionFits(req) {
      var commit, start := OnSubmit(SubmitCommit(t, j)), OnJob(SetStatus(j, Downloading));
      actions, s' := [commit, start], Apply(Apply(s, commit), start);
      Two(s, commit, start);
      assert s'.sh.jobs == s.sh.jobs[j := Job(u, h, Downloading)];
    } else {
      actions, s' := ThenDrop(s, OnSubmit(SubmitFails(t)), t, h);
    }
  }

  /** A submission that passed its checks, of a torrent the client has yet to get. */
  lemma RegisterRuns(s: State, t: ThreadId, j: JobId, u: UserId, h: InfoHash, req: Jobs.Request)
    returns (actions: seq<Action>, s': State)
    requires t in s.threads && s.threads[t] == Submitting(u, h, false)
    requires j !in s.sh.jobs && !ActiveJobOf(s.sh.jobs, u, h)
    ensures Leads(s, actions, s') && s'.sh == Jobs.RegisterAndFinish(s.sh, j, u, h, req)
  {
    var a := OnSubmit(SubmitRegister(t, req.answer == Jobs.Refused));
    var s1 := Apply(s, a);
    match req.answer
    case Refused =>
      actions, s' := [a], s1;
      One(s, a);
    case WaitCanceled =>
      var b := OnSubmit(SubmitCanceled(t));
      actions, s' := [a, b], Apply(s1, b);
      Two(s, a, b);
    case Ready =>
      var rest;
      rest, s' := FinishRuns(s1, t, j, u, h, false, req);
      actions := [a] + rest;
      First(s, a, rest, s');
  }

  lemma SubmitRuns(s: State, t: ThreadId, j: JobId, u: UserId, h: InfoHash, req: Jobs.Request, cfg: Jobs.Config)
    returns (actions: seq<Action>, s': State)
    requires Fresh(s, t) && j !in s.sh.jobs
    ensures Leads(s, actions, s') && s'.sh == Jobs.SubmitTorrent(s.sh, j, u, h, req, cfg)
  {
    var a := OnSubmit(StartSubmitTorrent(t, u, h));
    var s1 := Apply(s, a);
    if Jobs.MaySubmit(s.sh, u, h, req, cfg) {
      var rest;
      rest, s' := RegisterRuns(s1, t, j, u, h, req);
      actions := [a] + rest;
      First(s, a, rest, s');
    } else {
      var b := OnSubmit(SubmitReject(t));
      actions, s' := [a, b], Apply(s1, b);
      Two(s, a, b);
    }
  }

  /** A consumed handle on its way to a job. */
  lemma EntryRuns(s: State, t: ThreadId, e: Entry, j: JobId, u: UserId, req: Jobs.Request, cfg: Jobs.Config)
    returns (actions: seq<Action>, s': State)
    requires t in s.threads && s.threads[t] == Submitting(u, e.infoHash, e.Magnet?) && j !in s.sh.jobs
    ensures Leads(s, actions, s') && s'.sh == Jobs.SubmitEntry(s.sh, e, j, u, req, cfg)
  {
    if !Jobs.MaySubmit(s.sh, u, e.infoHash, req, cfg) {
      var a := OnSubmit(SubmitReject(t));
      if e.Magnet? {
        actions, s' := ThenDrop(s, a, t, e.infoHash);
      } else {
        actions, s' := [a], Apply(s, a);
        One(s, a);
      }
    } else if e.Upload? {
      actions, s' := RegisterRuns(s, t, j, u, e.infoHash, req);
    } else {
      actions, s' := MagnetRuns(s, t, e, j, u, req);
    }
  }

  lemma MagnetRuns(s: State, t: ThreadId, e: Entry, j: JobId, u: UserId, req: Jobs.Request)
    returns (actions: seq<Action>, s': State)
    requires t in s.threads && s.threads[t] == Submitting(u, e.infoHash, true) && e.Magnet?
    requires j !in s.sh.jobs && !ActiveJobOf(s.sh.jobs, u, e.infoHash)
    ensures Leads(s, actions, s')
    ensures s'.sh == if req.answer == Jobs.WaitCanceled then Jobs.DropPending(s.sh, e)
                     else Jobs.FinishSubmit(s.sh, j, u, e.infoHash, req)
  {
    var a := OnSubmit(SubmitRegister(t, false));
    var rest;
    if req.answer == Jobs.WaitCanceled {
      rest, s' := ThenDrop(Apply(s, a), OnSubmit(SubmitCanceled(t)), t, e.infoHash);
    } else {
      rest, s' := FinishRuns(Apply(s, a), t, j, u, e.infoHash, true, req);
    }
    actions := [a] + rest;
    First(s, a, rest, s');
  }

  lemma SubmitFileRuns(s: State, t: ThreadId, id: Handle, u: UserId, j: JobId, req: Jobs.Request, cfg: Jobs.Config)
    returns (actions: seq<Action>, s': State)
    requires Fresh(s, t) && j !in s.sh.jobs
    ensures Leads(s, actions, s') && s'.sh == Jobs.SubmitTorrentFile(s.sh, s.now, id, u, j, req, cfg)
  {
    LookupAnswers(s.sh, s.now, id, u, Submit);
    var r := Lookup(s.sh, s.now, id, u, Submit).1;
    if r.Found? {
      var a := OnHandle(LookUp(t, id, u, Submit));
      var rest;
      rest, s' := EntryRuns(Apply(s, a), t, r.entry, j, u, req, cfg);
      actions := [a] + rest;
      First(s, a, rest, s');
    } else {
      actions, s' := LookUpRuns(s, t, id, u, Submit);
    }
  }

  // ---- Jobs -----------------------------------------------------------------------------

  lemma ReleaseRuns(s: State, t: ThreadId, j: JobId, h: InfoHash) returns (actions: seq<Action>, s': State)
    requires t in s.threads && s.threads[t] == Releasing(j, h)
    ensures Leads(s, actions, s') && s'.sh == Jobs.Release(s.sh, j, h)
  {
    var read := OnJob(ReleaseRead(t));
    if OtherListedJobOn(s.sh.jobs, j, h) {
      actions, s' := [read], Apply(s, read);
      One(s, read);
    } else {
      var drop := OnJob(ReleaseDrop(t));
      actions, s' := [read, drop], Apply(Apply(s, read), drop);
      Two(s, read, drop);
    }
  }

  /** A job that ends, and the release of its torrent. */
  lemma EndRuns(s: State, t: ThreadId, j: JobId, status: Status) returns (actions: seq<Action>, s': State)
    requires Fresh(s, t) && j in s.sh.jobs && (status == Done || status == Failed || status == Canceled)
    ensures Leads(s, actions, s')
    ensures s'.sh == Jobs.Release(Jobs.UpdateStatus(s.sh, j, status), j, s.sh.jobs[j].infoHash)
  {
    var a := OnJob(EndJob(t, j, status));
    var rest;
    rest, s' := ReleaseRuns(Apply(s, a), t, j, s.sh.jobs[j].infoHash);
    actions := [a] + rest;
    First(s, a, rest, s');
  }

  lemma CancelRuns(s: State, t: ThreadId, j: JobId) returns (actions: seq<Action>, s': State)
    requires Fresh(s, t)
    ensures Leads(s, actions, s') && s'.sh == Jobs.CancelJob(s.sh, j)
  {
    if j in s.sh.jobs {
      actions, s' := EndRuns(s, t, j, Canceled);
    } else {
      actions, s' := [], s;
    }
  }

  lemma DeleteRuns(s: State, t: ThreadId, j: JobId, kept: bool) returns (actions: seq<Action>, s': State)
    requires Fresh(s, t) && j in s.sh.jobs
    ensures Leads(s, actions, s') && s'.sh == Jobs.DeleteJob(s.sh, j, kept)
  {
    var h := s.sh.jobs[j].infoHash;
    var start, read := OnJob(StartDelete(t, j)), OnJob(DeleteRead(t));
    var last := OnJob(if kept then RowKept(t) else RemoveRow(t));
    var s1 := Apply(s, start);
    var s2 := Apply(s1, read);
    if OtherListedJobOn(s.sh.jobs, j, h) {
      s' := Apply(s2, last);
      Two(s1, read, last);
      actions := [start] + [read, last];
      First(s, start, [read, last], s');
    } else {
      var drop := OnJob(DeleteDrop(t));
      s' := Apply(Apply(s2, drop), last);
      Two(s2, drop, last);
      First(s1, read, [drop, last], s');
      actions := [start] + ([read] + [drop, last]);
      First(s, start, [read] + [drop, last], s');
    }
  }

  lemma StatusRuns(s: State, j: JobId, status: Status) returns (actions: seq<Action>, s': State)
    requires IsActive(status) || status == Seeding
    ensures Leads(s, actions, s') && s'.sh == Jobs.UpdateStatus(s.sh, j, status) && s'.threads == s.threads
  {
    if j !in s.sh.jobs || Jobs.IndexRefuses(s.sh.jobs, j, status) {
      actions, s' := [], s;
    } else {
      var a := OnJob(SetStatus(j, status));
      actions, s' := [a], Apply(s, a);
      One(s, a);
    }
  }

  lemma ImportRuns(s: State, t: ThreadId, j: JobId, imported: nat, cfg: Jobs.Config)
    returns (actions: seq<Action>, s': State)
    requires Fresh(s, t) && j in s.sh.jobs && s.sh.jobs[j].infoHash in s.sh.client
    ensures Leads(s, actions, s') && s'.sh == Jobs.ImportCompleted(s.sh, j, imported, cfg)
  {
    if imported == 0 {
      actions, s' := EndRuns(s, t, j, Failed);
    } else if cfg.seedAfterComplete {
      actions, s' := StatusRuns(s, j, Seeding);
    } else {
      actions, s' := EndRuns(s, t, j, Done);
    }
  }

  lemma SyncRuns(s: State, t: ThreadId, j: JobId, complete: bool, imported: nat, cfg: Jobs.Config)
    returns (actions: seq<Action>, s': State)
    requires Fresh(s, t)
    ensures Leads(s, actions, s') && s'.sh == Jobs.SyncRow(s.sh, j, complete, imported, cfg)
  {
    if j !in s.sh.jobs || !IsListed(s.sh.jobs[j].status) || s.sh.jobs[j].infoHash !in s.sh.client || !complete
       || Jobs.IndexRefuses(s.sh.jobs, j, Importing) {
      actions, s' := [], s;
    } else {
      var a := OnJob(SetStatus(j, Importing));
      var rest;
      rest, s' := ImportRuns(Apply(s, a), t, j, imported, cfg);
      actions := [a] + rest;
      First(s, a, rest, s');
    }
  }

  // ---- All operations --------------------------------------------------------------------

  /** The operation can start here, now, in thread t. A drop is not among them:
      it goes on in the thread that removed an entry. */
  ghost predicate CanStart(s: State, t: ThreadId, op: Jobs.Op) {
    && Fresh(s, t) && Jobs.Legal(s.sh, op)
    && match op
       case AddUploadOp(id, _, _, _, _, now, order) =>
         now == s.now && id !in s.issued && SweepOrder(s.sh.pending, now, order)
       case AddMagnetOp(id, _, _, _, now, order, _) =>
         now == s.now && id !in s.issued && SweepOrder(s.sh.pending, now, order)
       case DropOp(_) => false
       case GetFileOp(_, _, now) => now == s.now
       case SubmitFileOp(_, _, now, _, _) => now == s.now
       case DiscardOp(_, _, now) => now == s.now
       case PublishOp(id, name, files) => MagnetEnabled(s, Publish(id, name, files))
       case TimeOutOp(id) => MagnetEnabled(s, TimeOut(t, id)) && (id in s.sh.pending ==> s.sh.pending[id].Magnet?)
       case ExpireOp(id) => MagnetEnabled(s, Expire(t, id)) && (id in s.sh.pending ==> s.sh.pending[id].Magnet?)
       case _ => true
  }

  lemma AddRuns(s: State, t: ThreadId, op: Jobs.Op, cfg: Jobs.Config) returns (actions: seq<Action>, s': State)
    requires CanStart(s, t, op) && (op.AddUploadOp? || op.AddMagnetOp?)
    ensures Leads(s, actions, s') && s'.sh == Jobs.Do(s.sh, op, cfg)
  {
    if op.AddMagnetOp? && ActiveJobOf(s.sh.jobs, op.u, op.h) {
      actions, s' := [], s;
    } else {
      var a := OnHandle(if op.AddUploadOp? then UploadFile(t, op.id, op.u, op.h, op.name, op.files, op.order)
                        else RegisterMagnet(t, op.id, op.u, op.h, op.name, op.order, op.clientFails));
      actions, s' := [a], Apply(s, a);
      One(s, a);
    }
  }

  lemma JobRuns(s: State, t: ThreadId, op: Jobs.Op, cfg: Jobs.Config) returns (actions: seq<Action>, s': State)
    requires CanStart(s, t, op) && (op.PauseOp? || op.ResumeOp? || op.CancelOp? || op.DeleteOp? || op.SyncOp?)
    ensures Leads(s, actions, s') && s'.sh == Jobs.Do(s.sh, op, cfg)
  {
    match op
    case PauseOp(j) => actions, s' := StatusRuns(s, j, Paused);
    case ResumeOp(j) => actions, s' := StatusRuns(s, j, Downloading);
    case CancelOp(j) => actions, s' := CancelRuns(s, t, j);
    case SyncOp(j, complete, imported) => actions, s' := SyncRuns(s, t, j, complete, imported, cfg);
    case DeleteOp(j, kept) =>
      if j in s.sh.jobs {
        actions, s' := DeleteRuns(s, t, j, kept);
      } else {
        actions, s' := [], s;
      }
  }

  lemma HandleRuns(s: State, t: ThreadId, op: Jobs.Op, cfg: Jobs.Config) returns (actions: seq<Action>, s': State)
    requires CanStart(s, t, op)
    requires op.GetFileOp? || op.SubmitFileOp? || op.DiscardOp? || op.PublishOp? || op.TimeOutOp? || op.SubmitOp?
    ensures Leads(s, actions, s') && s'.sh == Jobs.Do(s.sh, op, cfg)
  {
    match op
    case GetFileOp(id, u, _) => actions, s' := GetFileRuns(s, t, id, u);
    case SubmitFileOp(id, u, _, j, req) => actions, s' := SubmitFileRuns(s, t, id, u, j, req, cfg);
    case DiscardOp(id, u, _) => actions, s' := DiscardRuns(s, t, id, u);
    case PublishOp(id, name, files) =>
      var a := OnMagnet(Publish(id, name, files));
      actions, s' := [a], Apply(s, a);
      One(s, a);
    case TimeOutOp(id) => actions, s' := TimeOutRuns(s, t, id);
    case SubmitOp(j, u, h, req) => actions, s' := SubmitRuns(s, t, j, u, h, req, cfg);
  }

  /** Every whole operation is a run of the machine from any of its states;
      the machine only records besides that a timer is over once it fired. */
  lemma OperationRuns(s: State, t: ThreadId, op: Jobs.Op, cfg: Jobs.Config)
    returns (actions: seq<Action>, s': State)
    requires CanStart(s, t, op)
    ensures Leads(s, actions, s')
    ensures s'.sh == if op.ExpireOp? then Jobs.Do(s.sh, op, cfg).(timers := s.sh.timers[op.id := Stopped])
                     else Jobs.Do(s.sh, op, cfg)
  {
    if op.ExpireOp? {
      actions, s' := ExpireRuns(s, t, op.id);
    } else if op.AddUploadOp? || op.AddMagnetOp? {
      actions, s' := AddRuns(s, t, op, cfg);
    } else if op.PauseOp? || op.ResumeOp? || op.CancelOp? || op.DeleteOp? || op.SyncOp? {
      actions, s' := JobRuns(s, t, op, cfg);
    } else {
      actions, s' := HandleRuns(s, t, op, cfg);
    }
  }
}
