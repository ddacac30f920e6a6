/** What every interleaving of TorrentHandles keeps. */
module TorrentHandlesProofs {
  import opened Wrappers
  import opened TorrentState
  import opened TorrentHandles

  // ---- A live entry's torrent is the registered one -------------------------

  ghost predicate HandlesCurrent(sh: Shared) {
    forall id :: id in sh.pending && Live(sh.pending[id]) ==>
      && sh.pending[id].infoHash in sh.client
      && sh.client[sh.pending[id].infoHash] == sh.pending[id].tor
  }

  /** releaseTorrent is about to drop a torrent that a live magnet entry holds:
      it asks for other jobs only, never for pending magnets. */
  ghost predicate BlindDrop(s: State, a: Action)
    requires Enabled(s, a)
  {
    a.OnJob? && (a.job.ReleaseDrop? || a.job.DeleteDrop?) && LiveMagnetOn(s.sh.pending, s.threads[a.job.t].hash)
  }

  lemma SweepKeepsHandles(s: Shared, order: seq<Handle>)
    requires HandlesCurrent(s)
    ensures HandlesCurrent(DeleteAll(s, order))
  {
    DeleteAllFacts(s, order);
  }

  lemma AddKeepsHandles(s: Shared, id: Handle, u: UserId, h: InfoHash, name: string, files: seq<string>, now: int)
    requires HandlesCurrent(s)
    ensures HandlesCurrent(AddUpload(s, id, u, h, name, files, now))
    ensures HandlesCurrent(AddMagnet(s, id, u, h, name, now))
  {
  }

  lemma LookupKeepsHandles(s: Shared, now: int, id: Handle, u: UserId, mode: LookupMode)
    requires HandlesCurrent(s)
    ensures HandlesCurrent(Lookup(s, now, id, u, mode).0)
  {
  }

  lemma HandleStepKeeps(s: State, a: HandleAction)
    requires HandlesCurrent(s.sh) && HandleEnabled(s, a)
    ensures HandlesCurrent(ApplyHandle(s, a).sh)
  {
    match a
    case UploadFile(_, id, u, h, name, files, order) =>
      SweepKeepsHandles(s.sh, order);
      AddKeepsHandles(DeleteAll(s.sh, order), id, u, h, name, files, s.now);
    case RegisterMagnet(_, id, u, h, name, order, _) =>
      SweepKeepsHandles(s.sh, order);
      AddKeepsHandles(DeleteAll(s.sh, order), id, u, h, name, [], s.now);
    case LookUp(_, id, u, mode) => LookupKeepsHandles(s.sh, s.now, id, u, mode);
  }

  lemma MagnetStepKeeps(s: State, a: MagnetAction)
    requires HandlesCurrent(s.sh) && MagnetEnabled(s, a)
    ensures HandlesCurrent(ApplyMagnet(s, a).sh)
  {
  }

  lemma SubmitStepKeeps(s: State, a: SubmitAction)
    requires HandlesCurrent(s.sh) && SubmitEnabled(s, a)
    ensures HandlesCurrent(ApplySubmit(s, a).sh)
  {
  }

  lemma JobStepKeeps(s: State, a: JobAction)
    requires HandlesCurrent(s.sh) && JobEnabled(s, a)
    ensures HandlesCurrent(ApplyJob(s, a).sh) <==> !BlindDrop(s, OnJob(a))
  {
  }

  lemma DropKeepsHandles(s: Shared, h: InfoHash)
    requires HandlesCurrent(s)
    ensures HandlesCurrent(DropTorrent(s, h)) <==> !LiveMagnetOn(s.pending, h)
  {
    if LiveMagnetOn(s.pending, h) {
      var id :| id in s.pending && Live(s.pending[id]) && s.pending[id].infoHash == h;
      assert id in DropTorrent(s, h).pending && h !in DropTorrent(s, h).client;
    }
  }

  /** Exactly the blind drops of releaseTorrent break the correspondence. */
  lemma StepHandlesCurrent(s: State, a: Action)
    requires HandlesCurrent(s.sh) && Enabled(s, a)
    ensures HandlesCurrent(Apply(s, a).sh) <==> !BlindDrop(s, a)
  {
    match a
    case Tick(_) =>
    case OnHandle(x) => HandleStepKeeps(s, x);
    case OnMagnet(x) => MagnetStepKeeps(s, x);
    case OnSubmit(x) => SubmitStepKeeps(s, x);
    case OnJob(x) => JobStepKeeps(s, x);
  }

  lemma {:induction false} SightedRunHandlesCurrent(states: seq<State>, actions: seq<Action>, n: nat)
    requires Run(states, actions) && n < |states|
    requires forall i :: 0 <= i < n ==> Enabled(states[i], actions[i]) && !BlindDrop(states[i], actions[i])
    ensures HandlesCurrent(states[n].sh)
  {
    if n > 0 {
      SightedRunHandlesCurrent(states, actions, n - 1);
      StepHandlesCurrent(states[n - 1], actions[n - 1]);
      assert states[n - 1 + 1] == Apply(states[n - 1], actions[n - 1]);
    }
  }

  lemma CurrentStepSighted(states: seq<State>, actions: seq<Action>, n: nat)
    requires Run(states, actions) && n < |actions|
    requires HandlesCurrent(states[n].sh) && HandlesCurrent(states[n + 1].sh)
    ensures Enabled(states[n], actions[n]) && !BlindDrop(states[n], actions[n])
  {
  }

  /** In every run, the torrent a live magnet entry stores is at every moment
      the one the client has for its info hash, exactly when the run makes no
      blind drop. */
  lemma RunHandlesCurrent(states: seq<State>, actions: seq<Action>)
    requires Run(states, actions)
    ensures (forall n :: 0 <= n < |states| ==> HandlesCurrent(states[n].sh))
       <==> (forall n :: 0 <= n < |actions| ==> Enabled(states[n], actions[n]) && !BlindDrop(states[n], actions[n]))
  {
    if forall n :: 0 <= n < |actions| ==> Enabled(states[n], actions[n]) && !BlindDrop(states[n], actions[n]) {
      forall n | 0 <= n < |states| ensures HandlesCurrent(states[n].sh) {
        SightedRunHandlesCurrent(states, actions, n);
      }
    } else if forall n :: 0 <= n < |states| ==> HandlesCurrent(states[n].sh) {
      forall n | 0 <= n < |actions| ensures Enabled(states[n], actions[n]) && !BlindDrop(states[n], actions[n]) {
        CurrentStepSighted(states, actions, n);
      }
    }
  }

  // ---- Lifecycle of a handle -------------------------------------------------

  /** Bookkeeping of one handle; the magnet handles are those with a resolver. */
  ghost predicate HandleOk(s: State, id: Handle) {
    var p := s.sh.pending;
    && (id in p ==> id in s.issued)
    && (id in s.resolvers ==> id in s.issued)
    && (id in s.sh.timers <==> id in s.resolvers)
    && (id in p ==> (p[id].Magnet? <==> id in s.resolvers))
    // `done` is open exactly while the handle is in the map, and closed once after
    && s.sh.closes[id] == (if id in s.resolvers && id !in p then 1 else 0)
    // one submit, one discard or one timeout report, and only when it left the map
    && s.events[Consumed(id)] + s.events[TimeoutReported(id)] <= (if id in s.issued && id !in p then 1 else 0)
    // the resolver acts once: publishes, or times out
    && (id in p && p[id].Magnet? && s.resolvers[id] != Exited ==> p[id].files == None && !p[id].timedOut)
    && (id in p && p[id].Magnet? ==> p[id].files == None || !p[id].timedOut)
    // the expiry timer of an entry in the map was not stopped
    && (id in p && p[id].Magnet? ==> s.sh.timers[id] != Stopped)
  }

  ghost predicate Lifecycle(s: State) {
    forall id :: HandleOk(s, id)
  }

  lemma SweepHandleOk(s: State, order: seq<Handle>, id: Handle)
    requires HandleOk(s, id)
    ensures HandleOk(s.(sh := DeleteAll(s.sh, order)), id)
  {
    DeleteAllFacts(s.sh, order);
    DeleteAllCloses(s.sh, order, id);
  }

  lemma UploadStepOk(s: State, t: ThreadId, i: Handle, u: UserId, h: InfoHash, name: string, files: seq<string>,
                     order: seq<Handle>, id: Handle)
    requires HandleOk(s, id) && HandleEnabled(s, UploadFile(t, i, u, h, name, files, order))
    ensures HandleOk(ApplyHandle(s, UploadFile(t, i, u, h, name, files, order)), id)
  {
    SweepHandleOk(s, order, id);
  }

  lemma MagnetAddedOk(s: State, t: ThreadId, i: Handle, u: UserId, h: InfoHash, name: string, order: seq<Handle>,
                      fails: bool, id: Handle)
    requires HandleOk(s, id) && HandleEnabled(s, RegisterMagnet(t, i, u, h, name, order, fails))
    ensures HandleOk(ApplyHandle(s, RegisterMagnet(t, i, u, h, name, order, fails)), id)
  {
    SweepHandleOk(s, order, id);
  }

  /** What a lookup leaves: nothing changed, or exactly this entry removed. */
  lemma LookupRemoves(s: Shared, now: int, id: Handle, u: UserId, mode: LookupMode)
    ensures var (s1, r) := Lookup(s, now, id, u, mode);
            s1 == if r.ExpiredEntry? || r.MetadataTimeout? || (r.Found? && mode != Peek)
                  then DeletePending(s, id) else s
    ensures Lookup(s, now, id, u, mode).1 != NotFound ==> id in s.pending
  {
  }

  lemma DeletePendingOk(s: State, i: Handle, id: Handle)
    requires HandleOk(s, id)
    ensures HandleOk(s.(sh := DeletePending(s.sh, i)), id)
    ensures i == id ==> i !in DeletePending(s.sh, i).pending
  {
  }

  lemma LookUpOk(s: State, t: ThreadId, i: Handle, u: UserId, mode: LookupMode, id: Handle)
    requires HandleOk(s, i) && HandleOk(s, id) && HandleEnabled(s, LookUp(t, i, u, mode))
    ensures HandleOk(ApplyHandle(s, LookUp(t, i, u, mode)), id)
  {
    LookupRemoves(s.sh, s.now, i, u, mode);
    DeletePendingOk(s, i, id);
    var r := Lookup(s.sh, s.now, i, u, mode).1;
    if r.MetadataTimeout? || (r.Found? && mode != Peek) {
      assert i in s.sh.pending;
    }
  }

  lemma HandleStepOk(s: State, a: HandleAction, id: Handle)
    requires Lifecycle(s) && HandleEnabled(s, a)
    ensures HandleOk(ApplyHandle(s, a), id)
  {
    assert HandleOk(s, id);
    match a
    case UploadFile(t, i, u, h, name, files, order) => UploadStepOk(s, t, i, u, h, name, files, order, id);
    case RegisterMagnet(t, i, u, h, name, order, fails) => MagnetAddedOk(s, t, i, u, h, name, order, fails, id);
    case LookUp(t, i, u, mode) => assert HandleOk(s, i); LookUpOk(s, t, i, u, mode, id);
  }

  lemma MagnetStepOk(s: State, a: MagnetAction, id: Handle)
    requires HandleOk(s, id) && MagnetEnabled(s, a)
    ensures HandleOk(ApplyMagnet(s, a), id)
  {
  }

  lemma SubmitStepOk(s: State, a: SubmitAction, id: Handle)
    requires HandleOk(s, id) && SubmitEnabled(s, a)
    ensures HandleOk(ApplySubmit(s, a), id)
  {
  }

  lemma JobStepOk(s: State, a: JobAction, id: Handle)
    requires HandleOk(s, id) && JobEnabled(s, a)
    ensures HandleOk(ApplyJob(s, a), id)
  {
  }

  lemma StepHandleOk(s: State, a: Action, id: Handle)
    requires Lifecycle(s) && Enabled(s, a)
    ensures HandleOk(Apply(s, a), id)
  {
    assert HandleOk(s, id);
    match a
    case Tick(_) =>
    case OnHandle(x) => HandleStepOk(s, x, id);
    case OnMagnet(x) => MagnetStepOk(s, x, id);
    case OnSubmit(x) => SubmitStepOk(s, x, id);
    case OnJob(x) => JobStepOk(s, x, id);
  }

  lemma StepLifecycle(s: State, a: Action)
    requires Lifecycle(s) && Enabled(s, a)
    ensures Lifecycle(Apply(s, a))
  {
    forall id ensures HandleOk(Apply(s, a), id) {
      StepHandleOk(s, a, id);
    }
  }

  lemma {:induction false} RunLifecycle(states: seq<State>, actions: seq<Action>, n: nat)
    requires Run(states, actions) && n < |states|
    ensures Lifecycle(states[n])
  {
    if n > 0 {
      RunLifecycle(states, actions, n - 1);
      StepLifecycle(states[n - 1], actions[n - 1]);
      assert states[n - 1 + 1] == Apply(states[n - 1], actions[n - 1]);
    }
  }

  /** A handle that left the map never returns, whatever follows. */
  lemma {:induction false} RemovedStaysRemoved(states: seq<State>, actions: seq<Action>, m: nat, n: nat, id: Handle)
    requires Run(states, actions) && m <= n < |states|
    requires id in states[m].issued && id !in states[m].sh.pending
    ensures id in states[n].issued && id !in states[n].sh.pending
  {
    if m < n {
      RemovedStaysRemoved(states, actions, m, n - 1, id);
      StepNeverRevives(states[n - 1], actions[n - 1], id);
      assert states[n - 1 + 1] == Apply(states[n - 1], actions[n - 1]);
    }
  }

  lemma HandleNeverRevives(s: State, a: HandleAction, id: Handle)
    requires HandleEnabled(s, a) && id in s.issued && id !in s.sh.pending
    ensures id in ApplyHandle(s, a).issued && id !in ApplyHandle(s, a).sh.pending
  {
    match a
    case UploadFile(_, _, _, _, _, _, order) => DeleteAllFacts(s.sh, order);
    case RegisterMagnet(_, _, _, _, _, order, _) => DeleteAllFacts(s.sh, order);
    case LookUp(_, i, u, mode) => LookupRemoves(s.sh, s.now, i, u, mode);
  }

  lemma MagnetNeverRevives(s: State, a: MagnetAction, id: Handle)
    requires MagnetEnabled(s, a) && id in s.issued && id !in s.sh.pending
    ensures id in ApplyMagnet(s, a).issued && id !in ApplyMagnet(s, a).sh.pending
  {
  }

  lemma StepNeverRevives(s: State, a: Action, id: Handle)
    requires Enabled(s, a) && id in s.issued && id !in s.sh.pending
    ensures id in Apply(s, a).issued && id !in Apply(s, a).sh.pending
  {
    match a
    case Tick(_) =>
    case OnHandle(x) => HandleNeverRevives(s, x, id);
    case OnMagnet(x) => MagnetNeverRevives(s, x, id);
    case OnSubmit(x) =>
    case OnJob(x) =>
  }

  /** Submitting a magnet whose metadata has not arrived changes nothing. */
  lemma SubmitUnresolvedChangesNothing(s: State, t: ThreadId, id: Handle)
    requires Fresh(s, t) && id in s.sh.pending && s.sh.pending[id].Magnet? && s.sh.pending[id].files == None
    requires !s.sh.pending[id].timedOut && !Expired(s.sh.pending[id], s.now)
    ensures ApplyHandle(s, LookUp(t, id, s.sh.pending[id].userId, Submit)) == s
  {
  }
}
