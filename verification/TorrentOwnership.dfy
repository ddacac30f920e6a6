/** Orphaned torrents: exactly which steps leave the client one that nobody owns. */
module TorrentOwnership {
  import opened Wrappers
  import opened TorrentState
  import opened TorrentHandles
  import opened TorrentHandlesProofs

  datatype Owner = ByJob(j: JobId) | ByMagnet(id: Handle) | ByThread(t: ThreadId)

  /** The thread will still drop the torrent, or hand it to a job. */
  predicate Claims(th: Thread, h: InfoHash) {
    match th
    case Dropping(todo) => h in todo
    case DropChecked(todo) => h in todo
    case Submitting(_, hash, fromMagnet) => fromMagnet && hash == h
    case Registered(_, hash, _) => hash == h
    case Releasing(_, hash) => hash == h
    case ReleaseReady(hash) => hash == h
    case _ => false
  }

  predicate JobOwns(job: Job, h: InfoHash) {
    job.infoHash == h && (IsActive(job.status) || job.status == Seeding)
  }

  predicate Owns(s: State, o: Owner, h: InfoHash) {
    match o
    case ByJob(j) => j in s.sh.jobs && JobOwns(s.sh.jobs[j], h)
    case ByMagnet(id) => id in s.sh.pending && Live(s.sh.pending[id]) && s.sh.pending[id].infoHash == h
    case ByThread(t) => t in s.threads && Claims(s.threads[t], h)
  }

  ghost predicate NoOrphans(s: State) {
    forall h :: h in s.sh.client ==> exists o :: Owns(s, o, h)
  }

  // ---- The steps that give a torrent up ------------------------------------------------

  /** The owner that a step removes without dropping the torrent or handing it
      on: a drop whose row scan fails, a .torrent submission canceled while
      registered, a release whose row scan fails, a job failed without release,
      and the row of a deleted job that still owns. */
  function GivenUp(s: State, a: Action): Option<(Owner, InfoHash)> {
    match a
    case OnSubmit(DropReadFails(t)) =>
      if t in s.threads && s.threads[t].Dropping? && s.threads[t].todo != []
          && s.threads[t].todo[0] !in s.threads[t].todo[1..]
      then Some((ByThread(t), s.threads[t].todo[0])) else None
    case OnSubmit(SubmitCanceled(t)) =>
      if t in s.threads && s.threads[t].Registered? && !s.threads[t].fromMagnet
      then Some((ByThread(t), s.threads[t].hash)) else None
    case OnJob(ReleaseReadFails(t)) =>
      if t in s.threads && s.threads[t].Releasing? then Some((ByThread(t), s.threads[t].hash)) else None
    case OnJob(FailJob(j)) => if j in s.sh.jobs then Some((ByJob(j), s.sh.jobs[j].infoHash)) else None
    case OnJob(RemoveRow(t)) =>
      if t in s.threads && s.threads[t].DeleteRow? && s.threads[t].job in s.sh.jobs
      then Some((ByJob(s.threads[t].job), s.sh.jobs[s.threads[t].job].infoHash)) else None
    case _ => None
  }

  ghost predicate SoleOwner(s: State, o: Owner, h: InfoHash) {
    h in s.sh.client && Owns(s, o, h) && forall o' :: Owns(s, o', h) ==> o' == o
  }

  /** The step gives up a registered torrent that nobody else owns. */
  ghost predicate TakesLast(s: State, a: Action) {
    GivenUp(s, a).Some? && SoleOwner(s, GivenUp(s, a).value.0, GivenUp(s, a).value.1)
  }

  // ---- One owner before a step, one after ------------------------------------------------

  lemma UploadKeepsOwner(s: State, a: HandleAction, o: Owner, h: InfoHash) returns (o': Owner)
    requires HandleEnabled(s, a) && !a.LookUp? && s.sh.pending.Keys <= s.issued
    requires h in s.sh.client ==> Owns(s, o, h)
    requires h in ApplyHandle(s, a).sh.client
    ensures Owns(ApplyHandle(s, a), o', h)
  {
    DeleteAllFacts(s.sh, a.order);
    o' := if h !in s.sh.client then ByMagnet(a.id)
          else if o.ByMagnet? && o.id in a.order then ByThread(a.t)
          else o;
  }

  lemma LookUpKeepsOwner(s: State, a: HandleAction, o: Owner, h: InfoHash) returns (o': Owner)
    requires HandleEnabled(s, a) && a.LookUp?
    requires Owns(s, o, h)
    ensures Owns(ApplyHandle(s, a), o', h)
  {
    LookupRemoves(s.sh, s.now, a.id, a.u, a.mode);
    o' := o;
    if o == ByMagnet(a.id) && Lookup(s.sh, s.now, a.id, a.u, a.mode).0 != s.sh {
      LookUpHandsOver(s, a, h);
      o' := ByThread(a.t);
    } else {
      LookUpLeavesOthers(s, a, o, h);
    }
  }

  lemma LookUpHandsOver(s: State, a: HandleAction, h: InfoHash)
    requires HandleEnabled(s, a) && a.LookUp?
    requires Owns(s, ByMagnet(a.id), h) && Lookup(s.sh, s.now, a.id, a.u, a.mode).0 != s.sh
    ensures Owns(ApplyHandle(s, a), ByThread(a.t), h)
  {
  }

  lemma LookUpLeavesOthers(s: State, a: HandleAction, o: Owner, h: InfoHash)
    requires HandleEnabled(s, a) && a.LookUp?
    requires Owns(s, o, h) && (o == ByMagnet(a.id) ==> Lookup(s.sh, s.now, a.id, a.u, a.mode).0 == s.sh)
    ensures Owns(ApplyHandle(s, a), o, h)
  {
    LookupRemoves(s.sh, s.now, a.id, a.u, a.mode);
    var s' := ApplyHandle(s, a);
    assert s'.sh == Lookup(s.sh, s.now, a.id, a.u, a.mode).0;
  }

  lemma MagnetKeepsOwner(s: State, a: MagnetAction, o: Owner, h: InfoHash) returns (o': Owner)
    requires MagnetEnabled(s, a)
    requires Owns(s, o, h)
    ensures Owns(ApplyMagnet(s, a), o', h)
  {
    o' := if (a.TimeOut? || a.Expire?) && o == ByMagnet(a.id) then ByThread(a.t) else o;
  }

  lemma DropKeepsOwner(s: State, a: SubmitAction, o: Owner, h: InfoHash) returns (o': Owner)
    requires (a.DropRead? || a.DropLocked?) && SubmitEnabled(s, a)
    requires Owns(s, o, h)
    requires h in ApplySubmit(s, a).sh.client
    ensures Owns(ApplySubmit(s, a), o', h)
  {
    o' := o;
    if h == s.threads[a.t].todo[0] {
      if a.DropRead? {
        if ListedJobOn(s.sh.jobs, h) {
          var j :| j in s.sh.jobs && IsListed(s.sh.jobs[j].status) && s.sh.jobs[j].infoHash == h;
          o' := ByJob(j);
        }
      } else {
        var id :| id in s.sh.pending && Live(s.sh.pending[id]) && s.sh.pending[id].infoHash == h;
        o' := ByMagnet(id);
      }
    }
  }

  lemma SubmitKeepsOwner(s: State, a: SubmitAction, o: Owner, h: InfoHash) returns (o': Owner)
    requires SubmitEnabled(s, a) && !a.DropRead? && !a.DropLocked?
    requires h in s.sh.client ==> Owns(s, o, h) && GivenUp(s, OnSubmit(a)) != Some((o, h))
    requires h in ApplySubmit(s, a).sh.client
    ensures Owns(ApplySubmit(s, a), o', h)
  {
    o' := if h !in s.sh.client then ByThread(a.t)
          else if o == ByThread(a.t) && a.SubmitCommit? then ByJob(a.j)
          else o;
  }

  lemma JobKeepsOwner(s: State, a: JobAction, o: Owner, h: InfoHash) returns (o': Owner)
    requires JobEnabled(s, a) && !a.ReleaseRead?
    requires Owns(s, o, h) && GivenUp(s, OnJob(a)) != Some((o, h))
    requires h in ApplyJob(s, a).sh.client
    ensures Owns(ApplyJob(s, a), o', h)
  {
    o' := if a.EndJob? && o == ByJob(a.j) then ByThread(a.t) else o;
  }

  lemma ReleaseReadKeepsOwner(s: State, t: ThreadId, o: Owner, h: InfoHash) returns (o': Owner)
    requires JobEnabled(s, ReleaseRead(t)) && Owns(s, o, h)
    ensures Owns(ApplyJob(s, ReleaseRead(t)), o', h)
  {
    o' := o;
    if o == ByThread(t) && OtherListedJobOn(s.sh.jobs, s.threads[t].job, h) {
      var j :| j in s.sh.jobs && IsListed(s.sh.jobs[j].status) && s.sh.jobs[j].infoHash == h;
      assert IsListed(s.sh.jobs[j].status);
      o' := ByJob(j);
    }
  }

  lemma HandleKeepsOwner(s: State, a: HandleAction, o: Owner, h: InfoHash) returns (o': Owner)
    requires HandleEnabled(s, a) && s.sh.pending.Keys <= s.issued
    requires h in s.sh.client ==> Owns(s, o, h)
    requires h in ApplyHandle(s, a).sh.client
    ensures Owns(ApplyHandle(s, a), o', h)
  {
    if a.LookUp? {
      LookupRemoves(s.sh, s.now, a.id, a.u, a.mode);
      o' := LookUpKeepsOwner(s, a, o, h);
    } else {
      o' := UploadKeepsOwner(s, a, o, h);
    }
  }

  lemma KeepsOwner(s: State, a: Action, o: Owner, h: InfoHash) returns (o': Owner)
    requires Enabled(s, a) && s.sh.pending.Keys <= s.issued
    requires h in s.sh.client ==> Owns(s, o, h) && GivenUp(s, a) != Some((o, h))
    requires h in Apply(s, a).sh.client
    ensures Owns(Apply(s, a), o', h)
  {
    o' := o;
    match a
    case Tick(_) =>
    case OnHandle(x) => o' := HandleKeepsOwner(s, x, o, h);
    case OnMagnet(x) => o' := MagnetKeepsOwner(s, x, o, h);
    case OnSubmit(x) => o' := SubmitStepKeepsOwner(s, x, o, h);
    case OnJob(x) => o' := JobStepKeepsOwner(s, x, o, h);
  }

  lemma SubmitStepKeepsOwner(s: State, x: SubmitAction, o: Owner, h: InfoHash) returns (o': Owner)
    requires SubmitEnabled(s, x)
    requires h in s.sh.client ==> Owns(s, o, h) && GivenUp(s, OnSubmit(x)) != Some((o, h))
    requires h in ApplySubmit(s, x).sh.client
    ensures Owns(ApplySubmit(s, x), o', h)
  {
    if x.DropRead? || x.DropLocked? {
      o' := DropKeepsOwner(s, x, o, h);
    } else {
      o' := SubmitKeepsOwner(s, x, o, h);
    }
  }

  lemma JobStepKeepsOwner(s: State, x: JobAction, o: Owner, h: InfoHash) returns (o': Owner)
    requires JobEnabled(s, x)
    requires h in s.sh.client ==> Owns(s, o, h) && GivenUp(s, OnJob(x)) != Some((o, h))
    requires h in ApplyJob(s, x).sh.client
    ensures Owns(ApplyJob(s, x), o', h)
  {
    if x.ReleaseRead? {
      o' := ReleaseReadKeepsOwner(s, x.t, o, h);
    } else {
      o' := JobKeepsOwner(s, x, o, h);
    }
  }

  /** An owner that the step does not give up, for a hash that keeps its torrent. */
  lemma SparedOwner(s: State, a: Action, h: InfoHash) returns (o: Owner)
    requires NoOrphans(s) && Enabled(s, a) && !TakesLast(s, a)
    ensures h in s.sh.client ==> Owns(s, o, h) && GivenUp(s, a) != Some((o, h))
  {
    o := ByJob(0);
    if h in s.sh.client {
      o :| Owns(s, o, h);
      if GivenUp(s, a) == Some((o, h)) {
        o :| Owns(s, o, h) && o != GivenUp(s, a).value.0;
      }
    }
  }

  /** What was given up is registered still, and no new owner appeared. */
  lemma GivenUpIsLost(s: State, a: Action)
    requires Enabled(s, a) && TakesLast(s, a)
    ensures !NoOrphans(Apply(s, a))
  {
    var (o, h) := GivenUp(s, a).value;
    var s' := Apply(s, a);
    assert s'.sh.client == s.sh.client;
    forall o' ensures !Owns(s', o', h) {
      assert Owns(s, o', h) ==> o' == o;
    }
  }

  /** Every step of every goroutine leaves each registered torrent an owner,
      except exactly those that give up the last one. */
  lemma StepNoOrphans(s: State, a: Action)
    requires NoOrphans(s) && Lifecycle(s) && Enabled(s, a)
    ensures NoOrphans(Apply(s, a)) <==> !TakesLast(s, a)
  {
    if TakesLast(s, a) {
      GivenUpIsLost(s, a);
    } else {
      assert s.sh.pending.Keys <= s.issued by {
        forall id | id in s.sh.pending ensures id in s.issued { assert HandleOk(s, id); }
      }
      forall h | h in Apply(s, a).sh.client ensures exists o :: Owns(Apply(s, a), o, h) {
        var o := SparedOwner(s, a, h);
        var o' := KeepsOwner(s, a, o, h);
      }
    }
  }

  // ---- Runs ----------------------------------------------------------------------------------

  ghost predicate NeverTakesLast(states: seq<State>, actions: seq<Action>)
    requires |states| == |actions| + 1
  {
    forall i :: 0 <= i < |actions| ==> !TakesLast(states[i], actions[i])
  }

  lemma {:induction false} CarefulRunOwned(states: seq<State>, actions: seq<Action>, n: nat)
    requires Run(states, actions) && n < |states| && NeverTakesLast(states, actions)
    ensures NoOrphans(states[n])
  {
    if n > 0 {
      CarefulRunOwned(states, actions, n - 1);
      RunLifecycle(states, actions, n - 1);
      StepNoOrphans(states[n - 1], actions[n - 1]);
      assert states[n - 1 + 1] == Apply(states[n - 1], actions[n - 1]);
    }
  }

  lemma OwnedStepSpares(states: seq<State>, actions: seq<Action>, n: nat)
    requires Run(states, actions) && n < |actions| && NoOrphans(states[n]) && NoOrphans(states[n + 1])
    ensures !TakesLast(states[n], actions[n])
  {
    RunLifecycle(states, actions, n);
    StepNoOrphans(states[n], actions[n]);
  }

  /** In every run, every registered torrent has an owner at every moment
      exactly when no step gives up a last one. */
  lemma RunOwned(states: seq<State>, actions: seq<Action>)
    requires Run(states, actions)
    ensures (forall n :: 0 <= n < |states| ==> NoOrphans(states[n])) <==> NeverTakesLast(states, actions)
  {
    if NeverTakesLast(states, actions) {
      forall n | 0 <= n < |states| ensures NoOrphans(states[n]) {
        CarefulRunOwned(states, actions, n);
      }
    } else if forall n :: 0 <= n < |states| ==> NoOrphans(states[n]) {
      forall n | 0 <= n < |actions| ensures !TakesLast(states[n], actions[n]) {
        OwnedStepSpares(states, actions, n);
      }
    }
  }

  /** Nothing is in flight: no thread will still drop or use a torrent. */
  predicate Quiet(s: State) {
    forall t :: t in s.threads ==> s.threads[t] == Dropping([])
  }

  ghost predicate HeldByJobOrMagnet(sh: Shared, h: InfoHash) {
    LiveMagnetOn(sh.pending, h) || exists j :: j in sh.jobs && JobOwns(sh.jobs[j], h)
  }

  /** When such a run has come to rest, the registered torrents are owned by
      jobs and live magnets alone. */
  lemma QuietRunOwned(states: seq<State>, actions: seq<Action>, h: InfoHash)
    requires Run(states, actions) && NeverTakesLast(states, actions)
    requires Quiet(states[|actions|]) && h in states[|actions|].sh.client
    ensures HeldByJobOrMagnet(states[|actions|].sh, h)
  {
    var s := states[|actions|];
    CarefulRunOwned(states, actions, |actions|);
    var o :| Owns(s, o, h);
    if o.ByThread? {
      assert false;
    }
  }
}
