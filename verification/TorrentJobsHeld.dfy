/** Active jobs and their torrents under interleaving: exactly which steps strand a job. */
module TorrentJobsHeld {
  import opened Wrappers
  import opened TorrentState
  import opened TorrentHandles
  import opened TorrentHandlesProofs

  /** A DeleteJob is past its drop, and only the row is left to remove. */
  ghost predicate Dying(s: State, j: JobId) {
    exists t :: t in s.threads && s.threads[t] == DeleteRow(j)
  }

  ghost predicate NeedsTorrent(s: State, j: JobId) {
    j in s.sh.jobs && IsActive(s.sh.jobs[j].status) && !Dying(s, j)
  }

  /** Every active job that is not being deleted has its torrent registered. */
  ghost predicate JobsHeld(s: State) {
    forall j :: NeedsTorrent(s, j) ==> s.sh.jobs[j].infoHash in s.sh.client
  }

  ghost predicate NeededBy(s: State, j: JobId, h: InfoHash) {
    NeedsTorrent(s, j) && s.sh.jobs[j].infoHash == h
  }

  /** Some job, other than `but`, needs the torrent of h. */
  ghost predicate Needed(s: State, h: InfoHash, but: Option<JobId>) {
    exists j: JobId :: NeededBy(s, j, h) && (but.None? || but.value != j)
  }

  /** The steps that take a job's torrent or make a job need one that is not
      there: the three drops, none of which sees every job; a row inserted, or a
      status set, after the torrent went; a failed delete whose drop went through. */
  ghost predicate Strands(s: State, a: Action)
    requires Enabled(s, a)
  {
    match a
    case OnSubmit(DropLocked(t)) =>
      !LiveMagnetOn(s.sh.pending, s.threads[t].todo[0]) && Needed(s, s.threads[t].todo[0], None)
    case OnSubmit(SubmitCommit(t, j)) => s.threads[t].hash !in s.sh.client && !Dying(s, j)
    case OnJob(SetStatus(j, status)) => IsActive(status) && s.sh.jobs[j].infoHash !in s.sh.client && !Dying(s, j)
    case OnJob(ReleaseDrop(t)) => Needed(s, s.threads[t].hash, None)
    case OnJob(DeleteDrop(t)) => Needed(s, s.threads[t].hash, Some(s.threads[t].job))
    case OnJob(RowKept(t)) =>
      var j := s.threads[t].job;
      && j in s.sh.jobs && IsActive(s.sh.jobs[j].status) && s.sh.jobs[j].infoHash !in s.sh.client
      && forall u :: u in s.threads && u != t ==> s.threads[u] != DeleteRow(j)
    case _ => false
  }

  // ---- Steps ------------------------------------------------------------------------------

  /** The deletes in progress are those that were. */
  lemma SameDying(s: State, s': State, j: JobId)
    requires forall t :: t in s.threads && s.threads[t].DeleteRow? ==> t in s'.threads && s'.threads[t] == s.threads[t]
    requires forall t :: t in s'.threads && s'.threads[t].DeleteRow? ==> t in s.threads && s'.threads[t] == s.threads[t]
    ensures Dying(s', j) <==> Dying(s, j)
  {
    if Dying(s, j) {
      var t :| t in s.threads && s.threads[t] == DeleteRow(j);
      assert t in s'.threads && s'.threads[t] == DeleteRow(j);
    }
    if Dying(s', j) {
      var t :| t in s'.threads && s'.threads[t] == DeleteRow(j);
      assert t in s.threads && s.threads[t] == DeleteRow(j);
    }
  }

  lemma DyingStays(s: State, s': State, j: JobId)
    requires forall t :: t in s.threads && s.threads[t] == DeleteRow(j) ==>
               t in s'.threads && s'.threads[t] == s.threads[t]
    ensures Dying(s, j) ==> Dying(s', j)
  {
    if Dying(s, j) {
      var t :| t in s.threads && s.threads[t] == DeleteRow(j);
      assert t in s'.threads && s'.threads[t] == DeleteRow(j);
    }
  }

  /** Nothing is taken from a job: the torrents and the deletes only grow. */
  lemma GrowingKeeps(s: State, s': State)
    requires JobsHeld(s) && s'.sh.jobs == s.sh.jobs && s.sh.client.Keys <= s'.sh.client.Keys
    requires forall t :: t in s.threads && s.threads[t].DeleteRow? ==> t in s'.threads && s'.threads[t] == s.threads[t]
    ensures JobsHeld(s')
  {
    forall j ensures Dying(s, j) ==> Dying(s', j) {
      DyingStays(s, s', j);
    }
    forall j | NeedsTorrent(s', j) ensures s'.sh.jobs[j].infoHash in s'.sh.client {
      assert NeedsTorrent(s, j);
    }
  }

  /** A drop of h, which may leave the job of `but` to its delete. */
  lemma DropStrands(s: State, s': State, h: InfoHash, but: Option<JobId>)
    requires JobsHeld(s) && s'.sh.jobs == s.sh.jobs && s'.sh.client == s.sh.client - {h}
    requires forall j: JobId :: Dying(s', j) <==> Dying(s, j) || (but.Some? && but.value == j)
    ensures JobsHeld(s') <==> !Needed(s, h, but)
  {
    if Needed(s, h, but) {
      var j: JobId :| NeededBy(s, j, h) && (but.None? || but.value != j);
      assert NeedsTorrent(s', j) && s'.sh.jobs[j].infoHash !in s'.sh.client;
    } else {
      forall j | NeedsTorrent(s', j) ensures s'.sh.jobs[j].infoHash in s'.sh.client {
        assert NeedsTorrent(s, j);
        assert !NeededBy(s, j, h);
      }
    }
  }

  /** One row changes, and the deletes stay. */
  lemma RowStrands(s: State, s': State, j: JobId)
    requires JobsHeld(s) && s'.sh.client == s.sh.client && j in s'.sh.jobs
             && s'.sh.jobs == s.sh.jobs[j := s'.sh.jobs[j]]
    requires forall k :: Dying(s', k) <==> Dying(s, k)
    ensures JobsHeld(s') <==> (NeedsTorrent(s', j) ==> s'.sh.jobs[j].infoHash in s.sh.client)
  {
    if NeedsTorrent(s', j) ==> s'.sh.jobs[j].infoHash in s.sh.client {
      forall k | NeedsTorrent(s', k) ensures s'.sh.jobs[k].infoHash in s'.sh.client {
        assert k != j ==> NeedsTorrent(s, k);
      }
    }
  }

  lemma HandleStepHeld(s: State, a: HandleAction)
    requires JobsHeld(s) && HandleEnabled(s, a)
    ensures JobsHeld(ApplyHandle(s, a))
  {
    HandleStepKeepsJobs(s, a);
    GrowingKeeps(s, ApplyHandle(s, a));
  }

  lemma HandleStepKeepsJobs(s: State, a: HandleAction)
    requires HandleEnabled(s, a)
    ensures var s' := ApplyHandle(s, a);
            && s'.sh.jobs == s.sh.jobs && s.sh.client.Keys <= s'.sh.client.Keys
            && forall t :: t in s.threads ==> t in s'.threads && s'.threads[t] == s.threads[t]
  {
    if a.LookUp? {
      LookupRemoves(s.sh, s.now, a.id, a.u, a.mode);
    } else {
      DeleteAllFacts(s.sh, a.order);
    }
  }

  lemma MagnetStepHeld(s: State, a: MagnetAction)
    requires JobsHeld(s) && MagnetEnabled(s, a)
    ensures JobsHeld(ApplyMagnet(s, a))
  {
    GrowingKeeps(s, ApplyMagnet(s, a));
  }

  lemma SubmitStepHeld(s: State, a: SubmitAction)
    requires JobsHeld(s) && SubmitEnabled(s, a)
    ensures JobsHeld(ApplySubmit(s, a)) <==> !Strands(s, OnSubmit(a))
  {
    var s' := ApplySubmit(s, a);
    match a
    case DropLocked(t) =>
      forall j ensures Dying(s', j) <==> Dying(s, j) { SameDying(s, s', j); }
      if LiveMagnetOn(s.sh.pending, s.threads[t].todo[0]) {
        GrowingKeeps(s, s');
      } else {
        DropStrands(s, s', s.threads[t].todo[0], None);
      }
    case SubmitCommit(t, j) =>
      forall k ensures Dying(s', k) <==> Dying(s, k) { SameDying(s, s', k); }
      RowStrands(s, s', j);
    case _ => GrowingKeeps(s, s');
  }

  lemma DeleteDropDying(s: State, t: ThreadId, j: JobId)
    requires JobEnabled(s, DeleteDrop(t))
    ensures Dying(ApplyJob(s, DeleteDrop(t)), j) <==> Dying(s, j) || j == s.threads[t].job
  {
    var s' := ApplyJob(s, DeleteDrop(t));
    assert t in s'.threads && s'.threads[t] == DeleteRow(s.threads[t].job);
    if Dying(s, j) {
      var u :| u in s.threads && s.threads[u] == DeleteRow(j);
      assert u in s'.threads && s'.threads[u] == DeleteRow(j);
    }
    if Dying(s', j) && j != s.threads[t].job {
      var u :| u in s'.threads && s'.threads[u] == DeleteRow(j);
      assert u in s.threads && s.threads[u] == DeleteRow(j);
    }
  }

  lemma RowKeptHeld(s: State, t: ThreadId)
    requires JobsHeld(s) && JobEnabled(s, RowKept(t))
    ensures JobsHeld(ApplyJob(s, RowKept(t))) <==> !Strands(s, OnJob(RowKept(t)))
  {
    var s' := ApplyJob(s, RowKept(t));
    var j := s.threads[t].job;
    if Strands(s, OnJob(RowKept(t))) {
      assert NeedsTorrent(s', j);
    } else {
      forall k | k != j ensures Dying(s, k) ==> Dying(s', k) {
        DyingStays(s, s', k);
      }
      forall u | u in s.threads && u != t && s.threads[u] == DeleteRow(j) ensures Dying(s', j) {
        assert u in s'.threads && s'.threads[u] == DeleteRow(j);
      }
      forall k | NeedsTorrent(s', k) ensures s'.sh.jobs[k].infoHash in s'.sh.client {
        assert k != j ==> NeedsTorrent(s, k);
      }
    }
  }

  lemma RemoveRowHeld(s: State, t: ThreadId)
    requires JobsHeld(s) && JobEnabled(s, RemoveRow(t))
    ensures JobsHeld(ApplyJob(s, RemoveRow(t)))
  {
    var s' := ApplyJob(s, RemoveRow(t));
    forall k | k != s.threads[t].job ensures Dying(s, k) ==> Dying(s', k) {
      DyingStays(s, s', k);
    }
    forall k | NeedsTorrent(s', k) ensures s'.sh.jobs[k].infoHash in s'.sh.client {
      assert NeedsTorrent(s, k);
    }
  }

  lemma StatusStepHeld(s: State, a: JobAction)
    requires JobsHeld(s) && JobEnabled(s, a) && (a.SetStatus? || a.EndJob? || a.FailJob?)
    ensures JobsHeld(ApplyJob(s, a)) <==> !Strands(s, OnJob(a))
  {
    var s' := ApplyJob(s, a);
    forall k ensures Dying(s', k) <==> Dying(s, k) { SameDying(s, s', k); }
    RowStrands(s, s', a.j);
  }

  lemma DropStepHeld(s: State, a: JobAction)
    requires JobsHeld(s) && JobEnabled(s, a) && (a.ReleaseDrop? || a.DeleteDrop?)
    ensures JobsHeld(ApplyJob(s, a)) <==> !Strands(s, OnJob(a))
  {
    var s' := ApplyJob(s, a);
    if a.ReleaseDrop? {
      forall j ensures Dying(s', j) <==> Dying(s, j) { SameDying(s, s', j); }
      DropStrands(s, s', s.threads[a.t].hash, None);
    } else {
      forall j ensures Dying(s', j) <==> Dying(s, j) || j == s.threads[a.t].job { DeleteDropDying(s, a.t, j); }
      DropStrands(s, s', s.threads[a.t].hash, Some(s.threads[a.t].job));
    }
  }

  lemma JobStepHeld(s: State, a: JobAction)
    requires JobsHeld(s) && JobEnabled(s, a)
    ensures JobsHeld(ApplyJob(s, a)) <==> !Strands(s, OnJob(a))
  {
    if a.SetStatus? || a.EndJob? || a.FailJob? {
      StatusStepHeld(s, a);
    } else if a.ReleaseDrop? || a.DeleteDrop? {
      DropStepHeld(s, a);
    } else if a.RowKept? {
      RowKeptHeld(s, a.t);
    } else if a.RemoveRow? {
      RemoveRowHeld(s, a.t);
    } else {
      GrowingKeeps(s, ApplyJob(s, a));
    }
  }

  /** Every step of every goroutine keeps the torrents of all active jobs,
      except exactly those that strand one. */
  lemma StepJobsHeld(s: State, a: Action)
    requires JobsHeld(s) && Enabled(s, a)
    ensures JobsHeld(Apply(s, a)) <==> !Strands(s, a)
  {
    match a
    case Tick(_) => GrowingKeeps(s, Apply(s, a));
    case OnHandle(x) => HandleStepHeld(s, x);
    case OnMagnet(x) => MagnetStepHeld(s, x);
    case OnSubmit(x) => SubmitStepHeld(s, x);
    case OnJob(x) => JobStepHeld(s, x);
  }

  // ---- Runs -----------------------------------------------------------------------------------

  ghost predicate NeverStrands(states: seq<State>, actions: seq<Action>)
    requires |states| == |actions| + 1
  {
    forall i :: 0 <= i < |actions| ==> Enabled(states[i], actions[i]) && !Strands(states[i], actions[i])
  }

  lemma {:induction false} CarefulRunHeld(states: seq<State>, actions: seq<Action>, n: nat)
    requires Run(states, actions) && n < |states| && NeverStrands(states, actions)
    ensures JobsHeld(states[n])
  {
    if n > 0 {
      CarefulRunHeld(states, actions, n - 1);
      StepJobsHeld(states[n - 1], actions[n - 1]);
      assert states[n - 1 + 1] == Apply(states[n - 1], actions[n - 1]);
    }
  }

  lemma HeldStepSpares(states: seq<State>, actions: seq<Action>, n: nat)
    requires Run(states, actions) && n < |actions| && JobsHeld(states[n]) && JobsHeld(states[n + 1])
    ensures Enabled(states[n], actions[n]) && !Strands(states[n], actions[n])
  {
    StepJobsHeld(states[n], actions[n]);
  }

  /** In every run, every active job that is not being deleted has its torrent
      registered at every moment exactly when no step strands one. */
  lemma RunJobsHeld(states: seq<State>, actions: seq<Action>)
    requires Run(states, actions)
    ensures (forall n :: 0 <= n < |states| ==> JobsHeld(states[n])) <==> NeverStrands(states, actions)
  {
    if NeverStrands(states, actions) {
      forall n | 0 <= n < |states| ensures JobsHeld(states[n]) {
        CarefulRunHeld(states, actions, n);
      }
    } else if forall n :: 0 <= n < |states| ==> JobsHeld(states[n]) {
      forall n | 0 <= n < |actions| ensures Enabled(states[n], actions[n]) && !Strands(states[n], actions[n]) {
        HeldStepSpares(states, actions, n);
      }
    }
  }
}
