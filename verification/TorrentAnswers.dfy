/**
 What callers are told about a handle, over every run: only the user who
 registered a handle can use it up, the entry cached under it is the registered
 one, and its file list is the one the resolver published.
 */
module TorrentAnswers {
  import opened Wrappers
  import opened TorrentState
  import opened TorrentHandles
  import opened TorrentHandlesProofs

  /** The action that put e under id, at time at. */
  predicate Registers(a: Action, at: int, id: Handle, e: Entry) {
    && a.OnHandle?
    && match a.handle
       case UploadFile(_, i, u, h, name, files, _) => i == id && e == Upload(u, h, name, Some(files), at + 900)
       case RegisterMagnet(_, i, u, h, _, _, clientFails) =>
         && i == id && !clientFails && e.Magnet?
         && e.userId == u && e.infoHash == h && e.expiresAt == at + 900
       case LookUp(_, _, _, _) => false
  }

  predicate Publishes(a: Action, id: Handle, name: string, files: seq<string>) {
    a == OnMagnet(Publish(id, name, files))
  }

  predicate TimesOut(a: Action, id: Handle) {
    a.OnMagnet? && a.magnet.TimeOut? && a.magnet.id == id
  }

  // ---- One step -----------------------------------------------------------------------

  /** What a step may do to a cached entry that it leaves in the cache. */
  predicate EntryStep(e: Entry, e': Entry, a: Action, id: Handle) {
    || e' == e
    || (e.Magnet? && TimesOut(a, id) && e' == e.(timedOut := true))
    || (e.Magnet? && a.OnMagnet? && a.magnet.Publish? && a.magnet.id == id
        && e' == e.(name := a.magnet.name, files := Some(a.magnet.files)))
  }

  /** An entry as its registration leaves it. */
  predicate Untouched(e: Entry) {
    e.Magnet? ==> e.files == None && !e.timedOut
  }

  /** A cached handle is an issued one, with a resolver exactly if it is a magnet. */
  ghost predicate Tracked(s: State, id: Handle) {
    id in s.sh.pending ==> id in s.issued && (s.sh.pending[id].Magnet? <==> id in s.resolvers)
  }

  lemma HandleEntryStep(s: State, a: HandleAction, id: Handle)
    requires Tracked(s, id) && HandleEnabled(s, a) && id in ApplyHandle(s, a).sh.pending
    ensures id in s.sh.pending ==> ApplyHandle(s, a).sh.pending[id] == s.sh.pending[id]
    ensures id !in s.sh.pending ==>
              var e' := ApplyHandle(s, a).sh.pending[id]; Registers(OnHandle(a), s.now, id, e') && Untouched(e')
  {
    match a
    case UploadFile(_, _, _, _, _, _, order) => DeleteAllFacts(s.sh, order);
    case RegisterMagnet(_, _, _, _, _, order, _) => DeleteAllFacts(s.sh, order);
    case LookUp(_, i, u, mode) => LookupAnswers(s.sh, s.now, i, u, mode);
  }

  lemma MagnetEntryStep(s: State, a: MagnetAction, id: Handle)
    requires Tracked(s, id) && MagnetEnabled(s, a) && id in ApplyMagnet(s, a).sh.pending
    ensures id in s.sh.pending && EntryStep(s.sh.pending[id], ApplyMagnet(s, a).sh.pending[id], OnMagnet(a), id)
  {
  }

  lemma SubmitKeepsEntries(s: State, a: SubmitAction)
    requires SubmitEnabled(s, a)
    ensures ApplySubmit(s, a).sh.pending == s.sh.pending && ApplySubmit(s, a).events == s.events
            && ApplySubmit(s, a).issued == s.issued && ApplySubmit(s, a).resolvers == s.resolvers
  {
  }

  lemma JobKeepsEntries(s: State, a: JobAction)
    requires JobEnabled(s, a)
    ensures ApplyJob(s, a).sh.pending == s.sh.pending && ApplyJob(s, a).events == s.events
            && ApplyJob(s, a).issued == s.issued && ApplyJob(s, a).resolvers == s.resolvers
  {
  }

  /** An entry is what its registration made it, but for the resolver's one change. */
  lemma StepEntry(s: State, a: Action, id: Handle)
    requires Tracked(s, id) && Enabled(s, a) && id in Apply(s, a).sh.pending
    ensures var e' := Apply(s, a).sh.pending[id];
            if id in s.sh.pending then EntryStep(s.sh.pending[id], e', a, id)
            else Registers(a, s.now, id, e') && Untouched(e')
  {
    match a
    case OnHandle(x) => HandleEntryStep(s, x, id);
    case OnMagnet(x) => MagnetEntryStep(s, x, id);
    case OnSubmit(x) => SubmitKeepsEntries(s, x);
    case OnJob(x) => JobKeepsEntries(s, x);
    case Tick(_) =>
  }

  lemma TrackedAt(states: seq<State>, actions: seq<Action>, n: nat, id: Handle)
    requires Run(states, actions) && n < |states|
    ensures Tracked(states[n], id)
  {
    RunLifecycle(states, actions, n);
    assert HandleOk(states[n], id);
  }

  /** The handle is used up, or its timeout reported. */
  ghost predicate Answers(s: State, s': State, id: Handle) {
    s'.events[Consumed(id)] != s.events[Consumed(id)] || s'.events[TimeoutReported(id)] != s.events[TimeoutReported(id)]
  }

  /** The owner asks in time for what a lookup of this mode may use up. */
  predicate Uses(s: State, a: Action, id: Handle) {
    && a.OnHandle? && a.handle.LookUp? && a.handle.id == id
    && Mine(s.sh.pending, id, a.handle.u, s.now)
    && (|| TimedOut(s.sh.pending[id])
        || (a.handle.mode == Submit && Resolved(s.sh.pending[id]))
        || a.handle.mode == Discard)
  }

  lemma LookUpAnswers(s: State, t: ThreadId, i: Handle, u: UserId, mode: LookupMode, id: Handle)
    requires Fresh(s, t)
    ensures Answers(s, ApplyHandle(s, LookUp(t, i, u, mode)), id) <==> Uses(s, OnHandle(LookUp(t, i, u, mode)), id)
    ensures Uses(s, OnHandle(LookUp(t, i, u, mode)), id) ==> id !in ApplyHandle(s, LookUp(t, i, u, mode)).sh.pending
  {
    LookupAnswers(s.sh, s.now, i, u, mode);
    var r := Lookup(s.sh, s.now, i, u, mode).1;
    var used := if r.Found? then Consumed(i) else TimeoutReported(i);
    assert ApplyHandle(s, LookUp(t, i, u, mode)).events
        == s.events + if r == MetadataTimeout || (r.Found? && mode != Peek) then multiset{used} else multiset{};
  }

  lemma MagnetKeepsEvents(s: State, a: MagnetAction)
    requires MagnetEnabled(s, a)
    ensures ApplyMagnet(s, a).events == s.events
  {
  }

  /** A handle is used up, or its timeout reported, exactly by a lookup of the
      entry's own user before it expired. */
  lemma StepAnswers(s: State, a: Action, id: Handle)
    requires Enabled(s, a)
    ensures Answers(s, Apply(s, a), id) <==> Uses(s, a, id)
    ensures Uses(s, a, id) ==> id !in Apply(s, a).sh.pending
  {
    match a
    case OnHandle(x) => if x.LookUp? { LookUpAnswers(s, x.t, x.id, x.u, x.mode, id); }
    case OnMagnet(x) => MagnetKeepsEvents(s, x);
    case OnSubmit(x) => SubmitKeepsEntries(s, x);
    case OnJob(x) => JobKeepsEntries(s, x);
    case Tick(_) =>
  }

  // ---- Whole runs ---------------------------------------------------------------------

  ghost predicate RegisteredBefore(states: seq<State>, actions: seq<Action>, n: nat, id: Handle, u: UserId, h: InfoHash,
                                   expiresAt: int)
    requires n <= |actions| < |states|
  {
    exists m: nat, e :: m < n && Registers(actions[m], states[m].now, id, e)
      && e.userId == u && e.infoHash == h && e.expiresAt == expiresAt
  }

  /** Whatever is cached was registered under this handle by this user, for
      this torrent, fifteen minutes before it expires. */
  lemma {:induction false} CachedWasRegistered(states: seq<State>, actions: seq<Action>, n: nat, id: Handle)
    requires Run(states, actions) && n < |states| && id in states[n].sh.pending
    ensures var e := states[n].sh.pending[id];
            RegisteredBefore(states, actions, n, id, e.userId, e.infoHash, e.expiresAt)
  {
    if n > 0 {
      var s, a := states[n - 1], actions[n - 1];
      TrackedAt(states, actions, n - 1, id);
      assert states[n - 1 + 1] == Apply(s, a);
      StepEntry(s, a, id);
      if id in s.sh.pending {
        CachedWasRegistered(states, actions, n - 1, id);
        var e := s.sh.pending[id];
        assert RegisteredBefore(states, actions, n - 1, id, e.userId, e.infoHash, e.expiresAt);
      }
    }
  }

  /** A handle is used up, or its timeout reported, only for the user who
      registered it and not after it expired. */
  lemma UsedByOwner(states: seq<State>, actions: seq<Action>, n: nat, id: Handle)
    requires Run(states, actions) && n < |actions|
    requires Answers(states[n], states[n + 1], id)
    ensures && actions[n].OnHandle? && actions[n].handle.LookUp? && actions[n].handle.id == id
            && id in states[n].sh.pending && id !in states[n + 1].sh.pending
            && states[n].now <= states[n].sh.pending[id].expiresAt
            && RegisteredBefore(states, actions, n, id, actions[n].handle.u, states[n].sh.pending[id].infoHash,
                                states[n].sh.pending[id].expiresAt)
  {
    assert states[n + 1] == Apply(states[n], actions[n]);
    StepAnswers(states[n], actions[n], id);
    CachedWasRegistered(states, actions, n, id);
  }

  ghost predicate PublishedBefore(actions: seq<Action>, n: nat, id: Handle, name: string, files: seq<string>)
    requires n <= |actions|
  {
    exists m: nat :: m < n && Publishes(actions[m], id, name, files)
  }

  ghost predicate TimedOutBefore(actions: seq<Action>, n: nat, id: Handle)
    requires n <= |actions|
  {
    exists m: nat :: m < n && TimesOut(actions[m], id)
  }

  /** A magnet shows files only after they were published with its name, and is
      timed out only after its resolver timed out. */
  lemma {:induction false} ShownWasPublished(states: seq<State>, actions: seq<Action>, n: nat, id: Handle)
    requires Run(states, actions) && n < |states| && id in states[n].sh.pending && states[n].sh.pending[id].Magnet?
    ensures var e := states[n].sh.pending[id];
            && (e.files.Some? ==> PublishedBefore(actions, n, id, e.name, e.files.value))
            && (e.timedOut ==> TimedOutBefore(actions, n, id))
  {
    if n > 0 {
      var s, a := states[n - 1], actions[n - 1];
      TrackedAt(states, actions, n - 1, id);
      assert states[n - 1 + 1] == Apply(s, a);
      StepEntry(s, a, id);
      if id in s.sh.pending {
        ShownWasPublished(states, actions, n - 1, id);
        var e, e' := s.sh.pending[id], states[n].sh.pending[id];
        if e.files.Some? {
          assert PublishedBefore(actions, n - 1, id, e.name, e.files.value);
        }
        if a.OnMagnet? && a.magnet.Publish? && a.magnet.id == id
           && e' == e.(name := a.magnet.name, files := Some(a.magnet.files)) {
          assert Publishes(actions[n - 1], id, e'.name, e'.files.value);
        }
      }
    }
  }

  /** Metadata was published and the resolver is gone. */
  ghost predicate Shows(s: State, id: Handle, name: string, files: seq<string>) {
    && id in s.issued && id in s.resolvers && s.resolvers[id] == Exited
    && (id in s.sh.pending ==>
          && s.sh.pending[id].name == name && s.sh.pending[id].files == Some(files)
          && s.sh.pending[id].Magnet? && !s.sh.pending[id].timedOut)
  }

  lemma PublishShows(s: State, id: Handle, name: string, files: seq<string>)
    requires HandleOk(s, id) && MagnetEnabled(s, Publish(id, name, files))
    ensures Shows(ApplyMagnet(s, Publish(id, name, files)), id, name, files)
  {
  }

  lemma HandleKeepsShown(s: State, a: HandleAction, id: Handle, name: string, files: seq<string>)
    requires Tracked(s, id) && HandleEnabled(s, a) && Shows(s, id, name, files)
    ensures Shows(ApplyHandle(s, a), id, name, files)
  {
    if id in ApplyHandle(s, a).sh.pending {
      HandleEntryStep(s, a, id);
    }
  }

  lemma MagnetKeepsShown(s: State, a: MagnetAction, id: Handle, name: string, files: seq<string>)
    requires MagnetEnabled(s, a) && Shows(s, id, name, files)
    ensures Shows(ApplyMagnet(s, a), id, name, files)
  {
  }

  lemma StepKeepsShown(s: State, a: Action, id: Handle, name: string, files: seq<string>)
    requires Tracked(s, id) && Enabled(s, a) && Shows(s, id, name, files)
    ensures Shows(Apply(s, a), id, name, files)
  {
    match a
    case OnHandle(x) => HandleKeepsShown(s, x, id, name, files);
    case OnMagnet(x) => MagnetKeepsShown(s, x, id, name, files);
    case OnSubmit(x) => SubmitKeepsEntries(s, x);
    case OnJob(x) => JobKeepsEntries(s, x);
    case Tick(_) =>
  }

  /** Once a magnet's metadata is published, its entry keeps that name and file
      list for as long as it is cached. */
  lemma {:induction false} PublishedStays(states: seq<State>, actions: seq<Action>, m: nat, n: nat, id: Handle,
                                          name: string, files: seq<string>)
    requires Run(states, actions) && m < n < |states| && Publishes(actions[m], id, name, files)
    ensures Shows(states[n], id, name, files)
  {
    assert states[n - 1 + 1] == Apply(states[n - 1], actions[n - 1]);
    if m < n - 1 {
      TrackedAt(states, actions, n - 1, id);
      PublishedStays(states, actions, m, n - 1, id, name, files);
      StepKeepsShown(states[n - 1], actions[n - 1], id, name, files);
    } else {
      RunLifecycle(states, actions, m);
      assert HandleOk(states[m], id);
      PublishShows(states[m], id, name, files);
    }
  }

  /** Until it expires, the owner who looks up a published magnet is shown the
      published name and files; submitting it consumes that entry. */
  lemma PublishedIsFound(states: seq<State>, actions: seq<Action>, m: nat, n: nat, id: Handle, name: string,
                         files: seq<string>, mode: LookupMode)
    requires Run(states, actions) && m < n < |states|
    requires Publishes(actions[m], id, name, files) && id in states[n].sh.pending
    requires states[n].now <= states[n].sh.pending[id].expiresAt
    ensures var r := Lookup(states[n].sh, states[n].now, id, states[n].sh.pending[id].userId, mode).1;
            r.Found? && r.entry == states[n].sh.pending[id] && r.entry.name == name && r.entry.files == Some(files)
  {
    PublishedStays(states, actions, m, n, id, name, files);
    LookupAnswers(states[n].sh, states[n].now, id, states[n].sh.pending[id].userId, mode);
  }
}
