/**
 Interleavings in which the code does less than its comments say. Each main
 lemma exhibits a whole run from the empty state.
 */
module TorrentRaces {
  import opened Wrappers
  import opened TorrentState
  import opened TorrentHandles
  import opened TorrentHandlesProofs
  import opened TorrentJobsHeld
  import opened TorrentOwnership

  ghost predicate Step(s: State, a: Action, s': State) {
    Enabled(s, a) && s' == Apply(s, a)
  }

  ghost predicate RunTo(s: State) {
    exists states, actions :: Run(states, actions) && states[|actions|] == s
  }

  lemma Extend(s: State, a: Action, s': State)
    requires RunTo(s) && Step(s, a, s')
    ensures RunTo(s')
  {
    var states, actions :| Run(states, actions) && states[|actions|] == s;
    ExtendRun(states, actions, a, s');
    assert (states + [s'])[|actions + [a]|] == s';
  }

  lemma ExtendRun(states: seq<State>, actions: seq<Action>, a: Action, s': State)
    requires Run(states, actions) && Step(states[|actions|], a, s')
    ensures Run(states + [s'], actions + [a])
  {
  }

  const Start := State(0, InitShared, map[], map[], {}, multiset{})

  lemma StartRun()
    ensures RunTo(Start)
  {
    assert Run([Start], []) && [Start][0] == Start;
  }

  const Client := map[7 := 0]  // one torrent, on info hash 7

  /** A state in which two users' submissions of one torrent both hold it. */
  function WithJobs(jobs: map<JobId, Job>, threads: map<ThreadId, Thread>): State {
    State(0, Shared(map[], Client, 1, jobs, multiset{}, map[]), threads, map[], {}, multiset{})
  }

  lemma TwoSubmissions()
    ensures RunTo(WithJobs(map[], map[0 := Registered(1, 7, false), 1 := Registered(2, 7, false)]))
  {
    var s1 := Start.(threads := map[0 := Submitting(1, 7, false)]);
    var s2 := WithJobs(map[], map[0 := Registered(1, 7, false)]);
    var s3 := WithJobs(map[], map[0 := Registered(1, 7, false), 1 := Submitting(2, 7, false)]);
    var s4 := WithJobs(map[], map[0 := Registered(1, 7, false), 1 := Registered(2, 7, false)]);
    StartRun();
    Extend(Start, OnSubmit(StartSubmitTorrent(0, 1, 7)), s1);
    Extend(s1, OnSubmit(SubmitRegister(0, false)), s2);
    Extend(s2, OnSubmit(StartSubmitTorrent(1, 2, 7)), s3);
    Extend(s3, OnSubmit(SubmitRegister(1, false)), s4);
  }

  const Unregistered := State(0, Shared(map[], map[], 1, map[0 := Job(1, 7, Queued)], multiset{}, map[]),
                              map[1 := Dropping([])], map[], {}, multiset{})

  lemma DropOvertaken()
    ensures RunTo(WithJobs(map[0 := Job(1, 7, Queued)], map[1 := DropChecked([7])]))
  {
    var s0 := WithJobs(map[], map[0 := Registered(1, 7, false), 1 := Registered(2, 7, false)]);
    var s1 := WithJobs(map[], map[0 := Registered(1, 7, false), 1 := Dropping([7])]);
    var s2 := WithJobs(map[], map[0 := Registered(1, 7, false), 1 := DropChecked([7])]);
    TwoSubmissions();
    Extend(s0, OnSubmit(SubmitFails(1)), s1);
    Extend(s1, OnSubmit(DropRead(1)), s2);
    Extend(s2, OnSubmit(SubmitCommit(0, 0)), WithJobs(map[0 := Job(1, 7, Queued)], map[1 := DropChecked([7])]));
  }

  /** A drop that read the job list before another submission inserted its row
      takes the torrent of that job: it re-checks magnets under the lock, not jobs. */
  lemma DropTakesNewJobsTorrent()
    ensures RunTo(Unregistered) && ListedJobOn(Unregistered.sh.jobs, 7) && !JobsHeld(Unregistered)
  {
    var s := WithJobs(map[0 := Job(1, 7, Queued)], map[1 := DropChecked([7])]);
    DropOvertaken();
    assert [7][1..] == [];
    assert Apply(s, OnSubmit(DropLocked(1))).threads == map[1 := Dropping([])];
    assert Client - {7} == map[];
    Extend(s, OnSubmit(DropLocked(1)), Unregistered);
    assert 0 in Unregistered.sh.jobs && IsListed(Unregistered.sh.jobs[0].status);
    assert NeedsTorrent(Unregistered, 0);
  }

  lemma TwoJobs()
    ensures RunTo(WithJobs(Both, map[]))
  {
    var s0 := WithJobs(map[], map[0 := Registered(1, 7, false), 1 := Registered(2, 7, false)]);
    var s1 := WithJobs(map[0 := Job(1, 7, Queued)], map[1 := Registered(2, 7, false)]);
    TwoSubmissions();
    Extend(s0, OnSubmit(SubmitCommit(0, 0)), s1);
    Extend(s1, OnSubmit(SubmitCommit(1, 1)), WithJobs(Both, map[]));
  }

  const Both := map[0 := Job(1, 7, Queued), 1 := Job(2, 7, Queued)]

  lemma BothDeletesStarted()
    ensures RunTo(WithJobs(Both, map[0 := DeleteStarted(0, 7), 1 := DeleteStarted(1, 7)]))
  {
    var s1 := WithJobs(Both, map[0 := DeleteStarted(0, 7)]);
    TwoJobs();
    Extend(WithJobs(Both, map[]), OnJob(StartDelete(0, 0)), s1);
    Extend(s1, OnJob(StartDelete(1, 1)), WithJobs(Both, map[0 := DeleteStarted(0, 7), 1 := DeleteStarted(1, 7)]));
  }

  lemma FirstDeleteRead()
    ensures RunTo(WithJobs(Both, map[0 := DeleteRow(0), 1 := DeleteStarted(1, 7)]))
  {
    BothDeletesStarted();
    assert 1 in Both;
    Extend(WithJobs(Both, map[0 := DeleteStarted(0, 7), 1 := DeleteStarted(1, 7)]), OnJob(DeleteRead(0)),
           WithJobs(Both, map[0 := DeleteRow(0), 1 := DeleteStarted(1, 7)]));
  }

  lemma BothDeletesRead()
    ensures RunTo(WithJobs(Both, map[0 := DeleteRow(0), 1 := DeleteRow(1)]))
  {
    FirstDeleteRead();
    assert 0 in Both;
    Extend(WithJobs(Both, map[0 := DeleteRow(0), 1 := DeleteStarted(1, 7)]), OnJob(DeleteRead(1)),
           WithJobs(Both, map[0 := DeleteRow(0), 1 := DeleteRow(1)]));
  }

  lemma FirstRowRemoved()
    ensures RunTo(WithJobs(map[1 := Job(2, 7, Queued)], map[1 := DeleteRow(1)]))
  {
    var s0 := WithJobs(Both, map[0 := DeleteRow(0), 1 := DeleteRow(1)]);
    BothDeletesRead();
    assert Both - {0} == map[1 := Job(2, 7, Queued)];
    Extend(s0, OnJob(RemoveRow(0)), WithJobs(map[1 := Job(2, 7, Queued)], map[1 := DeleteRow(1)]));
  }

  /** Two overlapping DeleteJob calls each see the other's row and keep the
      torrent: it stays registered and nobody owns it. */
  lemma OverlappingDeletesOrphan()
    ensures RunTo(WithJobs(map[], map[])) && !NoOrphans(WithJobs(map[], map[]))
  {
    FirstRowRemoved();
    Extend(WithJobs(map[1 := Job(2, 7, Queued)], map[1 := DeleteRow(1)]), OnJob(RemoveRow(1)), WithJobs(map[], map[]));
    NobodyOwns(WithJobs(map[], map[]), 7);
  }

  /** User 1's job 0 was deleted up to its row; the torrent is gone. */
  const Dropped := State(0, Shared(map[], map[], 1, map[0 := Job(1, 7, Queued)], multiset{}, map[]),
                         map[0 := DeleteRow(0)], map[], {}, multiset{})

  /** User 2 registers the torrent anew beside that delete. */
  function Again(jobs: map<JobId, Job>, threads: map<ThreadId, Thread>): State {
    State(0, Shared(map[], map[7 := 1], 2, jobs, multiset{}, map[]), threads, map[], {}, multiset{})
  }

  lemma OneJob()
    ensures RunTo(WithJobs(map[0 := Job(1, 7, Queued)], map[]))
  {
    var s1 := Start.(threads := map[0 := Submitting(1, 7, false)]);
    var s2 := WithJobs(map[], map[0 := Registered(1, 7, false)]);
    StartRun();
    Extend(Start, OnSubmit(StartSubmitTorrent(0, 1, 7)), s1);
    Extend(s1, OnSubmit(SubmitRegister(0, false)), s2);
    Extend(s2, OnSubmit(SubmitCommit(0, 0)), WithJobs(map[0 := Job(1, 7, Queued)], map[]));
  }

  lemma DeletedUpToItsRow()
    ensures RunTo(Dropped)
  {
    var jobs := map[0 := Job(1, 7, Queued)];
    var s3 := WithJobs(jobs, map[]);
    var s4 := WithJobs(jobs, map[0 := DeleteStarted(0, 7)]);
    var s5 := WithJobs(jobs, map[0 := DeleteReady(0, 7)]);
    OneJob();
    Extend(s3, OnJob(StartDelete(0, 0)), s4);
    Extend(s4, OnJob(DeleteRead(0)), s5);
    assert Client - {7} == map[];
    Extend(s5, OnJob(DeleteDrop(0)), Dropped);
  }

  lemma SubmittedAgain()
    ensures RunTo(Again(map[0 := Job(1, 7, Queued)], map[0 := DeleteRow(0), 1 := Registered(2, 7, false)]))
  {
    var s1 := Dropped.(threads := map[0 := DeleteRow(0), 1 := Submitting(2, 7, false)]);
    DeletedUpToItsRow();
    Extend(Dropped, OnSubmit(StartSubmitTorrent(1, 2, 7)), s1);
    Extend(s1, OnSubmit(SubmitRegister(1, false)),
           Again(map[0 := Job(1, 7, Queued)], map[0 := DeleteRow(0), 1 := Registered(2, 7, false)]));
  }

  lemma RegisteredAgain()
    ensures RunTo(Again(map[0 := Job(1, 7, Queued)], map[0 := DeleteRow(0), 1 := Dropping([7])]))
  {
    var jobs := map[0 := Job(1, 7, Queued)];
    var s2 := Again(jobs, map[0 := DeleteRow(0), 1 := Registered(2, 7, false)]);
    SubmittedAgain();
    Extend(s2, OnSubmit(SubmitFails(1)), Again(jobs, map[0 := DeleteRow(0), 1 := Dropping([7])]));
  }

  /** One delete is enough: a refused submission registers the torrent anew
      between the delete's drop and its row, and leaves it to the dying row. */
  lemma DeleteBesideRefusedSubmission()
    ensures RunTo(Again(map[], map[1 := Dropping([])])) && !NoOrphans(Again(map[], map[1 := Dropping([])]))
  {
    var jobs := map[0 := Job(1, 7, Queued)];
    var s0 := Again(jobs, map[0 := DeleteRow(0), 1 := Dropping([7])]);
    var s1 := Again(jobs, map[0 := DeleteRow(0), 1 := Dropping([])]);
    var end := Again(map[], map[1 := Dropping([])]);
    RegisteredAgain();
    assert 0 in jobs && [7][1..] == [];
    Extend(s0, OnSubmit(DropRead(1)), s1);
    Extend(s1, OnJob(RemoveRow(0)), end);
    NobodyOwns(end, 7);
  }

  lemma NobodyOwns(s: State, h: InfoHash)
    requires s.sh.jobs == map[] && s.sh.pending == map[] && Quiet(s) && h in s.sh.client
    ensures !NoOrphans(s)
  {
  }

  function WithMagnet(client: map<InfoHash, Torrent>, jobs: map<JobId, Job>, threads: map<ThreadId, Thread>): State {
    State(0, Shared(map[0 := Magnet(3, 7, "m", None, PendingTorrentUploadTtl, 0, false)], client, 1, jobs, multiset{},
                    map[0 := Armed]),
          threads, map[0 := Waiting], {0}, multiset{})
  }

  lemma MagnetAdded()
    ensures RunTo(WithMagnet(Client, map[], map[0 := Dropping([])]))
  {
    StartRun();
    Extend(Start, OnHandle(RegisterMagnet(0, 0, 3, 7, "m", [], false)),
           WithMagnet(Client, map[], map[0 := Dropping([])]));
  }

  lemma MagnetBesideSubmission()
    ensures RunTo(WithMagnet(Client, map[], map[0 := Dropping([]), 1 := Registered(2, 7, false)]))
  {
    var s1 := WithMagnet(Client, map[], map[0 := Dropping([])]);
    var s2 := WithMagnet(Client, map[], map[0 := Dropping([]), 1 := Submitting(2, 7, false)]);
    MagnetAdded();
    Extend(s1, OnSubmit(StartSubmitTorrent(1, 2, 7)), s2);
    Extend(s2, OnSubmit(SubmitRegister(1, false)),
           WithMagnet(Client, map[], map[0 := Dropping([]), 1 := Registered(2, 7, false)]));
  }

  lemma MagnetAndJob()
    ensures RunTo(WithMagnet(Client, map[0 := Job(2, 7, Queued)], map[0 := Dropping([])]))
  {
    var s3 := WithMagnet(Client, map[], map[0 := Dropping([]), 1 := Registered(2, 7, false)]);
    MagnetBesideSubmission();
    Extend(s3, OnSubmit(SubmitCommit(1, 0)), WithMagnet(Client, map[0 := Job(2, 7, Queued)], map[0 := Dropping([])]));
  }

  const Taken := WithMagnet(map[], map[0 := Job(2, 7, Canceled)], map[0 := Dropping([])])

  lemma JobEnded()
    ensures RunTo(WithMagnet(Client, map[0 := Job(2, 7, Canceled)], map[0 := Dropping([]), 1 := ReleaseReady(7)]))
  {
    var s0 := WithMagnet(Client, map[0 := Job(2, 7, Queued)], map[0 := Dropping([])]);
    var s1 := WithMagnet(Client, map[0 := Job(2, 7, Canceled)], map[0 := Dropping([]), 1 := Releasing(0, 7)]);
    MagnetAndJob();
    Extend(s0, OnJob(EndJob(1, 0, Canceled)), s1);
    Extend(s1, OnJob(ReleaseRead(1)),
           WithMagnet(Client, map[0 := Job(2, 7, Canceled)], map[0 := Dropping([]), 1 := ReleaseReady(7)]));
  }

  /** Cancelling another user's job takes the torrent of a waiting magnet. */
  lemma CancelTakesMagnetsTorrent()
    ensures RunTo(Taken) && !HandlesCurrent(Taken.sh)
  {
    var s := WithMagnet(Client, map[0 := Job(2, 7, Canceled)], map[0 := Dropping([]), 1 := ReleaseReady(7)]);
    JobEnded();
    Extend(s, OnJob(ReleaseDrop(1)), Taken);
    assert 0 in Taken.sh.pending && Live(Taken.sh.pending[0]) && 7 !in Taken.sh.client;
  }
}
