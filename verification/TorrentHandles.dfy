/**
 Every interleaving of the goroutines that work on pending torrent uploads.

 A thread is a request (or a background callback) that is between two critical
 sections; a resolver is the goroutine of one magnet; timers live in the shared
 state. One action is one critical section or one unlocked storage read.
 */
module TorrentHandles {
  import opened Wrappers
  import opened TorrentState

  type ThreadId = nat

  datatype Thread =
    | Dropping(todo: seq<InfoHash>)      // about to run dropUnusedTorrent on todo[0]
    | DropChecked(todo: seq<InfoHash>)   // ... ListActive named no job on todo[0]
    | Submitting(user: UserId, hash: InfoHash, fromMagnet: bool)  // handle consumed, checks running
    | Registered(user: UserId, hash: InfoHash, fromMagnet: bool)  // torrent obtained, row not yet inserted
    | Releasing(job: JobId, hash: InfoHash)       // job ended, about to run releaseTorrent
    | ReleaseReady(hash: InfoHash)                // ... no other listed job on the hash
    | DeleteStarted(job: JobId, hash: InfoHash)   // DeleteJob, about to run releaseTorrent
    | DeleteReady(job: JobId, hash: InfoHash)     // ... no other listed job on the hash
    | DeleteRow(job: JobId)                       // ... release over, row still there

  datatype Resolver = Waiting | Publishing | TimingOut | Exited

  datatype Event = Consumed(id: Handle) | TimeoutReported(id: Handle)

  datatype State = State(
    now: int,
    sh: Shared,
    threads: map<ThreadId, Thread>,
    resolvers: map<Handle, Resolver>,
    issued: set<Handle>,
    events: multiset<Event>)

  /** Requests that look at the cache of pending uploads. */
  datatype HandleAction =
    | UploadFile(t: ThreadId, id: Handle, u: UserId, h: InfoHash, name: string, files: seq<string>, order: seq<Handle>)
    | RegisterMagnet(t: ThreadId, id: Handle, u: UserId, h: InfoHash, name: string, order: seq<Handle>,
                     clientFails: bool)
    | LookUp(t: ThreadId, id: Handle, u: UserId, mode: LookupMode)

  /** A magnet's resolver goroutine and its expiry timer. */
  datatype MagnetAction =
    | GotInfo(id: Handle)
    | MetadataTimer(id: Handle)
    | ResolverSeesDone(id: Handle)
    | Publish(id: Handle, name: string, files: seq<string>)
    | TimeOut(t: ThreadId, id: Handle)
    | ExpiryTimer(id: Handle)
    | Expire(t: ThreadId, id: Handle)

  /** dropUnusedTorrent, and a submission between its critical sections. */
  datatype SubmitAction =
    | DropRead(t: ThreadId)
    | DropReadFails(t: ThreadId)
    | DropLocked(t: ThreadId)
    | StartSubmitTorrent(t: ThreadId, u: UserId, h: InfoHash)
    | SubmitReject(t: ThreadId)
    | SubmitRegister(t: ThreadId, clientFails: bool)
    | SubmitCanceled(t: ThreadId)
    | SubmitFails(t: ThreadId)
    | SubmitCommit(t: ThreadId, j: JobId)

  /** Jobs that change status, end and are deleted. */
  datatype JobAction =
    | SetStatus(j: JobId, status: Status)
    | EndJob(t: ThreadId, j: JobId, status: Status)
    | ReleaseRead(t: ThreadId)
    | ReleaseDrop(t: ThreadId)
    | StartDelete(t: ThreadId, j: JobId)
    | DeleteRead(t: ThreadId)
    | DeleteDrop(t: ThreadId)
    | RemoveRow(t: ThreadId)
    | FailJob(j: JobId)                  // syncRow after a failed import: no release
    | ReleaseReadFails(t: ThreadId)      // ListActive failed in releaseTorrent
    | RowKept(t: ThreadId)               // DeleteJob failed after its release

  datatype Action =
    | Tick(seconds: nat)
    | OnHandle(handle: HandleAction)
    | OnMagnet(magnet: MagnetAction)
    | OnSubmit(submit: SubmitAction)
    | OnJob(job: JobAction)

  ghost predicate Init(s: State) {
    s == State(s.now, InitShared, map[], map[], {}, multiset{})
  }

  predicate Fresh(s: State, t: ThreadId) {
    t !in s.threads
  }

  ghost predicate HandleEnabled(s: State, a: HandleAction) {
    match a
    case UploadFile(t, id, _, _, _, _, order) =>
      Fresh(s, t) && id !in s.issued && SweepOrder(s.sh.pending, s.now, order)
    case RegisterMagnet(t, id, _, _, _, order, _) =>
      Fresh(s, t) && id !in s.issued && SweepOrder(s.sh.pending, s.now, order)
    case LookUp(t, _, _, _) => Fresh(s, t)
  }

  ghost predicate MagnetEnabled(s: State, a: MagnetAction) {
    match a
    case GotInfo(id) => id in s.resolvers && s.resolvers[id] == Waiting
    case MetadataTimer(id) => id in s.resolvers && s.resolvers[id] == Waiting
    case ResolverSeesDone(id) => id in s.resolvers && s.resolvers[id] == Waiting && s.sh.closes[id] > 0
    case Publish(id, _, _) => id in s.resolvers && s.resolvers[id] == Publishing
    case TimeOut(t, id) => Fresh(s, t) && id in s.resolvers && s.resolvers[id] == TimingOut
    case ExpiryTimer(id) =>
      && id in s.sh.timers && s.sh.timers[id] == Armed
      && (id in s.sh.pending ==> s.now >= s.sh.pending[id].expiresAt)
    case Expire(t, id) => Fresh(s, t) && id in s.sh.timers && s.sh.timers[id] == Fired
  }

  ghost predicate SubmitEnabled(s: State, a: SubmitAction) {
    match a
    case DropRead(t) => t in s.threads && s.threads[t].Dropping? && s.threads[t].todo != []
    case DropReadFails(t) => t in s.threads && s.threads[t].Dropping? && s.threads[t].todo != []
    case DropLocked(t) => t in s.threads && s.threads[t].DropChecked? && s.threads[t].todo != []
    case StartSubmitTorrent(t, _, _) => Fresh(s, t)
    case SubmitReject(t) => t in s.threads && s.threads[t].Submitting?
    case SubmitRegister(t, fails) =>
      t in s.threads && s.threads[t].Submitting? && (fails ==> !s.threads[t].fromMagnet)
    case SubmitCanceled(t) => t in s.threads && s.threads[t].Registered?
    case SubmitFails(t) => t in s.threads && s.threads[t].Registered?
    case SubmitCommit(t, j) =>  // the unique index refuses a second active row
      && t in s.threads && s.threads[t].Registered? && j !in s.sh.jobs
      && !ActiveJobOf(s.sh.jobs, s.threads[t].user, s.threads[t].hash)
  }

  ghost predicate JobEnabled(s: State, a: JobAction) {
    match a
    case SetStatus(j, status) => j in s.sh.jobs && (IsActive(status) || status == Seeding)
    case EndJob(t, j, status) =>
      Fresh(s, t) && j in s.sh.jobs && (status == Done || status == Failed || status == Canceled)
    case ReleaseRead(t) => t in s.threads && s.threads[t].Releasing?
    case ReleaseDrop(t) => t in s.threads && s.threads[t].ReleaseReady?
    case StartDelete(t, j) => Fresh(s, t) && j in s.sh.jobs
    case DeleteRead(t) => t in s.threads && s.threads[t].DeleteStarted?
    case DeleteDrop(t) => t in s.threads && s.threads[t].DeleteReady?
    case RemoveRow(t) => t in s.threads && s.threads[t].DeleteRow?
    case FailJob(j) => j in s.sh.jobs
    case ReleaseReadFails(t) => t in s.threads && (s.threads[t].Releasing? || s.threads[t].DeleteStarted?)
    case RowKept(t) => t in s.threads && s.threads[t].DeleteRow?
  }

  ghost predicate Enabled(s: State, a: Action) {
    match a
    case Tick(_) => true
    case OnHandle(x) => HandleEnabled(s, x)
    case OnMagnet(x) => MagnetEnabled(s, x)
    case OnSubmit(x) => SubmitEnabled(s, x)
    case OnJob(x) => JobEnabled(s, x)
  }

  function GoOn(s: State, t: ThreadId, th: Thread): State {
    s.(threads := s.threads[t := th])
  }

  function Finish(s: State, t: ThreadId): State {
    s.(threads := s.threads - {t})
  }

  ghost function ApplyHandle(s: State, a: HandleAction): State
    requires HandleEnabled(s, a)
  {
    match a
    case UploadFile(t, id, u, h, name, files, order) =>
      var swept := DeleteAll(s.sh, order);
      GoOn(s, t, Dropping(HashesOf(s.sh.pending, order)))
        .(sh := AddUpload(swept, id, u, h, name, files, s.now), issued := s.issued + {id})
    case RegisterMagnet(t, id, u, h, name, order, clientFails) =>
      var swept := DeleteAll(s.sh, order);
      var s1 := GoOn(s, t, Dropping(HashesOf(s.sh.pending, order)));
      if clientFails then s1.(sh := swept)
      else s1.(sh := AddMagnet(swept, id, u, h, name, s.now),
               issued := s.issued + {id}, resolvers := s.resolvers[id := Waiting])
    case LookUp(t, id, u, mode) =>
      var (sh1, r) := Lookup(s.sh, s.now, id, u, mode);
      var s1 := s.(sh := sh1);
      match r {
        case Found(e) =>
          if mode == Peek then s1
          else if mode == Discard then GoOn(s1, t, Dropping(HashOf(e))).(events := s.events + multiset{Consumed(id)})
          else GoOn(s1, t, Submitting(u, e.infoHash, e.Magnet?)).(events := s.events + multiset{Consumed(id)})
        case ExpiredEntry(e) => GoOn(s1, t, Dropping(HashOf(e)))
        case MetadataTimeout => s1.(events := s.events + multiset{TimeoutReported(id)})
        case _ => s1
      }
  }

  ghost function ApplyMagnet(s: State, a: MagnetAction): State
    requires MagnetEnabled(s, a)
  {
    match a
    case GotInfo(id) => s.(resolvers := s.resolvers[id := Publishing])
    case MetadataTimer(id) => s.(resolvers := s.resolvers[id := TimingOut])
    case ResolverSeesDone(id) => s.(resolvers := s.resolvers[id := Exited])
    case Publish(id, name, files) =>
      s.(sh := PublishInfo(s.sh, id, name, files), resolvers := s.resolvers[id := Exited])
    case TimeOut(t, id) =>
      var s1 := s.(sh := MarkTimedOut(s.sh, id), resolvers := s.resolvers[id := Exited]);
      if id in s.sh.pending then GoOn(s1, t, Dropping([s.sh.pending[id].infoHash])) else s1
    case ExpiryTimer(id) => s.(sh := s.sh.(timers := s.sh.timers[id := Fired]))
    case Expire(t, id) =>
      var sh1 := DeletePending(s.sh, id);
      var s1 := s.(sh := sh1.(timers := sh1.timers[id := Stopped]));
      if id in s.sh.pending then GoOn(s1, t, Dropping(HashOf(s.sh.pending[id]))) else s1
  }

  ghost function ApplySubmit(s: State, a: SubmitAction): State
    requires SubmitEnabled(s, a)
  {
    match a
    case DropRead(t) =>
      var todo := s.threads[t].todo;
      if ListedJobOn(s.sh.jobs, todo[0]) then GoOn(s, t, Dropping(todo[1..])) else GoOn(s, t, DropChecked(todo))
    case DropReadFails(t) => GoOn(s, t, Dropping(s.threads[t].todo[1..]))
    case DropLocked(t) =>
      var todo := s.threads[t].todo;
      GoOn(s, t, Dropping(todo[1..])).(sh := DropUnlessHeld(s.sh, todo[0]))
    case StartSubmitTorrent(t, u, h) => GoOn(s, t, Submitting(u, h, false))
    case SubmitReject(t) =>
      if s.threads[t].fromMagnet then GoOn(s, t, Dropping([s.threads[t].hash])) else Finish(s, t)
    case SubmitRegister(t, clientFails) =>
      var th := s.threads[t];
      if th.fromMagnet then GoOn(s, t, Registered(th.user, th.hash, true))
      else if clientFails then Finish(s, t)
      else GoOn(s, t, Registered(th.user, th.hash, false)).(sh := AddTorrent(s.sh, th.hash))
    case SubmitCanceled(t) =>
      if s.threads[t].fromMagnet then GoOn(s, t, Dropping([s.threads[t].hash])) else Finish(s, t)
    case SubmitFails(t) => GoOn(s, t, Dropping([s.threads[t].hash]))
    case SubmitCommit(t, j) =>
      Finish(s, t).(sh := s.sh.(jobs := s.sh.jobs[j := Job(s.threads[t].user, s.threads[t].hash, Queued)]))
  }

  ghost function ApplyJob(s: State, a: JobAction): State
    requires JobEnabled(s, a)
  {
    match a
    case SetStatus(j, status) =>
      s.(sh := s.sh.(jobs := s.sh.jobs[j := s.sh.jobs[j].(status := status)]))
    case EndJob(t, j, status) =>
      GoOn(s, t, Releasing(j, s.sh.jobs[j].infoHash))
        .(sh := s.sh.(jobs := s.sh.jobs[j := s.sh.jobs[j].(status := status)]))
    case ReleaseRead(t) =>
      var Releasing(j, h) := s.threads[t];
      if OtherListedJobOn(s.sh.jobs, j, h) then Finish(s, t) else GoOn(s, t, ReleaseReady(h))
    case ReleaseDrop(t) => Finish(s, t).(sh := DropTorrent(s.sh, s.threads[t].hash))
    case StartDelete(t, j) => GoOn(s, t, DeleteStarted(j, s.sh.jobs[j].infoHash))
    case DeleteRead(t) =>
      var DeleteStarted(j, h) := s.threads[t];
      if OtherListedJobOn(s.sh.jobs, j, h) then GoOn(s, t, DeleteRow(j)) else GoOn(s, t, DeleteReady(j, h))
    case DeleteDrop(t) =>
      GoOn(s, t, DeleteRow(s.threads[t].job)).(sh := DropTorrent(s.sh, s.threads[t].hash))
    case RemoveRow(t) => Finish(s, t).(sh := s.sh.(jobs := s.sh.jobs - {s.threads[t].job}))
    case FailJob(j) =>
      s.(sh := s.sh.(jobs := s.sh.jobs[j := s.sh.jobs[j].(status := Failed)]))
    case ReleaseReadFails(t) =>
      if s.threads[t].Releasing? then Finish(s, t) else GoOn(s, t, DeleteRow(s.threads[t].job))
    case RowKept(t) => Finish(s, t)
  }

  ghost function Apply(s: State, a: Action): State
    requires Enabled(s, a)
  {
    match a
    case Tick(seconds) => s.(now := s.now + seconds)
    case OnHandle(x) => ApplyHandle(s, x)
    case OnMagnet(x) => ApplyMagnet(s, x)
    case OnSubmit(x) => ApplySubmit(s, x)
    case OnJob(x) => ApplyJob(s, x)
  }

  /** A run: each state follows from the one before by the action at its index. */
  ghost predicate Run(states: seq<State>, actions: seq<Action>) {
    && |states| == |actions| + 1
    && Init(states[0])
    && forall i {:trigger actions[i]} :: 0 <= i < |actions| ==>
         Enabled(states[i], actions[i]) && states[i + 1] == Apply(states[i], actions[i])
  }
}
