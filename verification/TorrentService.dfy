/**
 The service as the source writes it: methods that work on the pendingUploads
 map, the client and the rows in place. Each method equals the operation of the
 same name in TorrentState or TorrentJobs, whose properties are proved there.
 */
module TorrentService {
  import opened Wrappers
  import opened TorrentState
  import Jobs = TorrentJobs
  import Runs = TorrentJobRuns

  /** The entries a sequence of handles stood for. */
  function EntriesOf(pending: map<Handle, Entry>, ids: seq<Handle>): (es: seq<Entry>)
    requires forall id :: id in ids ==> id in pending
    ensures |es| == |ids| && forall i :: 0 <= i < |ids| ==> es[i] == pending[ids[i]]
  {
    if ids == [] then [] else [pending[ids[0]]] + EntriesOf(pending, ids[1..])
  }

  /** dropPendingTorrents, one entry after the other. */
  function DropEntries(s: Shared, es: seq<Entry>): Shared
    decreases |es|
  {
    if es == [] then s else DropEntries(Jobs.DropPending(s, es[0]), es[1..])
  }

  lemma {:induction false} DeleteAllSnoc(s: Shared, ids: seq<Handle>, id: Handle)
    ensures DeleteAll(s, ids + [id]) == DeletePending(DeleteAll(s, ids), id)
    decreases |ids|
  {
    if ids != [] {
      assert (ids + [id])[1..] == ids[1..] + [id];
      DeleteAllSnoc(DeletePending(s, ids[0]), ids[1..], id);
    } else {
      assert DeleteAll(DeletePending(s, id), []) == DeletePending(s, id);
      assert (ids + [id])[1..] == [];
    }
  }

  /** The cache after a sweep and the insertion of id: everything else that is
      left had not expired and is as it was. */
  predicate CacheSwept(before: map<Handle, Entry>, after: map<Handle, Entry>, now: int, id: Handle) {
    && (forall k :: k in before && k != id ==> (k in after <==> now <= before[k].expiresAt))
    && (forall k :: k in after && k != id ==> k in before && after[k] == before[k])
  }

  lemma SweptCache(before: map<Handle, Entry>, after: map<Handle, Entry>, now: int, order: seq<Handle>, id: Handle)
    requires SweepOrder(before, now, order)
    requires forall k :: k != id ==> (k in after <==> k in before && k !in order)
    requires forall k :: k in after && k != id ==> k in before && after[k] == before[k]
    ensures CacheSwept(before, after, now, id)
  {
  }

  /** The torrent stayed in the client exactly if a listed job or a live magnet holds it. */
  predicate DroppedUnlessHeld(client: map<InfoHash, Torrent>, s: Shared, h: InfoHash) {
    && (s.client == client || s.client == client - {h})
    && (h in s.client <==> h in client && Held(s, h))
  }

  predicate Held(s: Shared, h: InfoHash) {
    || (exists j | j in s.jobs :: s.jobs[j].status in {Queued, Downloading, Importing} && s.jobs[j].infoHash == h)
    || (exists id | id in s.pending ::
          s.pending[id].Magnet? && !s.pending[id].timedOut && s.pending[id].infoHash == h)
  }

  lemma DropUnusedHeld(s: Shared, h: InfoHash)
    ensures DroppedUnlessHeld(s.client, DropUnused(s, h), h)
  {
    HeldIff(s, h);
    HeldIff(DropUnused(s, h), h);
  }

  lemma HeldIff(s: Shared, h: InfoHash)
    ensures Held(s, h) <==> ListedJobOn(s.jobs, h) || LiveMagnetOn(s.pending, h)
  {
    if ListedJobOn(s.jobs, h) {
      var j :| j in s.jobs && IsListed(s.jobs[j].status) && s.jobs[j].infoHash == h;
      StatusesAre(s.jobs[j].status);
    }
  }

  /** A submit takes the entry out unless it is not there for the caller or
      still waits for its metadata. */
  predicate SubmitRemoves(pending: map<Handle, Entry>, id: Handle, u: UserId, now: int) {
    id in pending && (now > pending[id].expiresAt
                      || (pending[id].userId == u && (TimedOut(pending[id]) || Resolved(pending[id]))))
  }

  /** The client after the release of job j's torrent h. */
  function AfterRelease(client: map<InfoHash, Torrent>, jobs: map<JobId, Job>, j: JobId, h: InfoHash)
    : map<InfoHash, Torrent>
  {
    if exists k | k in jobs :: k != j && jobs[k].status in {Queued, Downloading, Importing} && jobs[k].infoHash == h
    then client else client - {h}
  }

  /** Another job of the user on the torrent counts as active. */
  predicate ActiveElsewhere(jobs: map<JobId, Job>, j: JobId, u: UserId, h: InfoHash) {
    exists k | k in jobs ::
      k != j && jobs[k].status in {Queued, Downloading, Importing, Paused}
      && jobs[k].userId == u && jobs[k].infoHash == h
  }

  /** What an import leaves: failed if nothing was imported, otherwise seeding
      or done as configured; no other row changes; the torrent goes exactly if
      the job is over and no other listed job is on it. */
  predicate ImportOutcome(client: map<InfoHash, Torrent>, jobs: map<JobId, Job>, client': map<InfoHash, Torrent>,
                          jobs': map<JobId, Job>, j: JobId, imported: nat, cfg: Jobs.Config)
    requires j in jobs
  {
    var h := jobs[j].infoHash;
    && j in jobs' && jobs' == jobs[j := jobs[j].(status := jobs'[j].status)]
    && (jobs'[j].status == Failed <==> imported == 0)
    && (jobs'[j].status == Seeding <==> imported > 0 && cfg.seedAfterComplete)
    && (jobs'[j].status == Done <==> imported > 0 && !cfg.seedAfterComplete)
    && client' == if jobs'[j].status == Seeding then client else AfterRelease(client, jobs, j, h)
  }

  /** The same of the operation: every sync of a complete, registered row. */
  lemma SyncOutcome(s: Shared, j: JobId, imported: nat, cfg: Jobs.Config)
    requires j in s.jobs && IsListed(s.jobs[j].status) && s.jobs[j].infoHash in s.client
    requires !ActiveElsewhere(s.jobs, j, s.jobs[j].userId, s.jobs[j].infoHash)
    ensures var s' := Jobs.Do(s, Jobs.SyncOp(j, true, imported), cfg);
            ImportOutcome(s.client, s.jobs, s'.client, s'.jobs, j, imported, cfg)
  {
    RefusedIff(s.jobs, j, Importing);
    var s1 := Jobs.UpdateStatus(s, j, Importing);
    var s2 := Jobs.ImportCompleted(s1, j, imported, cfg);
    ImportedAs(s1, j, imported, cfg);
    OutcomeFrom(s.client, s.jobs, Importing, s2.client, s2.jobs, j, imported, cfg);
  }

  lemma RefusedIff(jobs: map<JobId, Job>, j: JobId, status: Status)
    requires j in jobs
    ensures Jobs.IndexRefuses(jobs, j, status)
       <==> status in {Queued, Downloading, Importing, Paused}
            && ActiveElsewhere(jobs, j, jobs[j].userId, jobs[j].infoHash)
  {
    StatusesAre(status);
    assert forall k :: k in jobs ==>
             (IsActive(jobs[k].status) <==> jobs[k].status in {Queued, Downloading, Importing, Paused});
  }

  /** A job's own status has no say in whether another one holds the torrent. */
  lemma ReleaseAfterUpdate(client: map<InfoHash, Torrent>, jobs: map<JobId, Job>, j: JobId, h: InfoHash,
                           status: Status)
    requires j in jobs
    ensures AfterRelease(client, jobs[j := jobs[j].(status := status)], j, h) == AfterRelease(client, jobs, j, h)
  {
    var jobs1 := jobs[j := jobs[j].(status := status)];
    assert forall k :: k in jobs && k != j ==> k in jobs1 && jobs1[k] == jobs[k];
    assert forall k :: k in jobs1 && k != j ==> k in jobs && jobs1[k] == jobs[k];
  }

  lemma ReleaseIs(s: Shared, j: JobId, h: InfoHash)
    ensures Jobs.Release(s, j, h) == s.(client := AfterRelease(s.client, s.jobs, j, h))
  {
    assert forall k :: k in s.jobs ==>
             (IsListed(s.jobs[k].status) <==> s.jobs[k].status in {Queued, Downloading, Importing});
  }

  lemma ImportedAs(s: Shared, j: JobId, imported: nat, cfg: Jobs.Config)
    requires j in s.jobs && s.jobs[j].infoHash in s.client
    ensures var s' := Jobs.ImportCompleted(s, j, imported, cfg);
            ImportOutcome(s.client, s.jobs, s'.client, s'.jobs, j, imported, cfg)
  {
    var h := s.jobs[j].infoHash;
    var last := if imported == 0 then Failed else if cfg.seedAfterComplete then Seeding else Done;
    var s1 := Jobs.UpdateStatus(s, j, last);
    assert s1.jobs == s.jobs[j := s.jobs[j].(status := last)];
    ReleaseAfterUpdate(s.client, s.jobs, j, h, last);
    ReleaseIs(s1, j, h);
  }

  lemma OutcomeFrom(client: map<InfoHash, Torrent>, jobs: map<JobId, Job>, marked: Status,
                    client': map<InfoHash, Torrent>, jobs': map<JobId, Job>, j: JobId, imported: nat, cfg: Jobs.Config)
    requires j in jobs
    requires ImportOutcome(client, jobs[j := jobs[j].(status := marked)], client', jobs', j, imported, cfg)
    ensures ImportOutcome(client, jobs, client', jobs', j, imported, cfg)
  {
    var jobs1 := jobs[j := jobs[j].(status := marked)];
    ReleaseAfterUpdate(client, jobs, j, jobs[j].infoHash, marked);
    assert jobs' == jobs1[j := jobs1[j].(status := jobs'[j].status)];
    assert jobs' == jobs[j := jobs[j].(status := jobs'[j].status)];
  }

  /** A sweep that has yet to visit todo and removed the handles of order. */
  ghost predicate SweptTo(before: map<Handle, Entry>, pending: map<Handle, Entry>, todo: set<Handle>, now: int,
                          order: seq<Handle>) {
    && todo <= pending.Keys
    && (forall id :: id in before <==> id in pending || id in order)
    && (forall id :: id in pending ==> id in before && pending[id] == before[id])
    && (forall id :: id in pending && id !in todo ==> !Expired(before[id], now))
    && (forall id :: id in order ==> id !in pending && id in before && Expired(before[id], now))
    && (forall i, k :: 0 <= i < k < |order| ==> order[i] != order[k])
  }

  lemma SweepRemoves(before: map<Handle, Entry>, pending: map<Handle, Entry>, todo: set<Handle>, now: int,
                     order: seq<Handle>, id: Handle)
    requires SweptTo(before, pending, todo, now, order) && id in todo && Expired(pending[id], now)
    ensures SweptTo(before, pending - {id}, todo - {id}, now, order + [id])
  {
    assert forall k :: k in order + [id] <==> k in order || k == id;
  }

  lemma SweepKeeps(before: map<Handle, Entry>, pending: map<Handle, Entry>, todo: set<Handle>, now: int,
                   order: seq<Handle>, id: Handle)
    requires SweptTo(before, pending, todo, now, order) && id in todo && !Expired(pending[id], now)
    ensures SweptTo(before, pending, todo - {id}, now, order)
  {
  }

  lemma SweepOver(before: map<Handle, Entry>, pending: map<Handle, Entry>, now: int, order: seq<Handle>)
    requires SweptTo(before, pending, {}, now, order)
    ensures SweepOrder(before, now, order)
  {
  }

  lemma EntriesOfSnoc(pending: map<Handle, Entry>, ids: seq<Handle>, id: Handle)
    requires (forall k :: k in ids ==> k in pending) && id in pending
    ensures EntriesOf(pending, ids + [id]) == EntriesOf(pending, ids) + [pending[id]]
  {
  }

  /** The user's active jobs among the rows seen. */
  ghost function ActiveAmong(jobs: map<JobId, Job>, userId: UserId, seen: set<JobId>): set<JobId>
    requires seen <= jobs.Keys
  {
    set j | j in seen && jobs[j].userId == userId && IsActive(jobs[j].status)
  }

  lemma OneMoreRow(jobs: map<JobId, Job>, userId: UserId, seen: set<JobId>, j: JobId)
    requires seen <= jobs.Keys && j in jobs && j !in seen
    ensures |ActiveAmong(jobs, userId, seen + {j})|
         == |ActiveAmong(jobs, userId, seen)| + if jobs[j].userId == userId && IsActive(jobs[j].status) then 1 else 0
  {
    var before, after := ActiveAmong(jobs, userId, seen), ActiveAmong(jobs, userId, seen + {j});
    if jobs[j].userId == userId && IsActive(jobs[j].status) {
      assert after == before + {j};
    } else {
      assert after == before;
    }
  }

  class TorrentService {
    var pendingUploads: map<Handle, Entry>
    var client: map<InfoHash, Torrent>
    var torrents: nat
    var jobs: map<JobId, Job>
    var timers: map<Handle, Timer>
    ghost var closes: multiset<Handle>
    const cfg: Jobs.Config

    constructor (cfg: Jobs.Config)
      ensures Abs() == InitShared && this.cfg == cfg
    {
      this.cfg := cfg;
      pendingUploads, client, torrents, jobs, timers, closes := map[], map[], 0, map[], map[], multiset{};
    }

    ghost function Abs(): Shared
      reads this
    {
      Shared(pendingUploads, client, torrents, jobs, closes, timers)
    }

    /** Go's close panics on a channel that is closed already. */
    ghost predicate ChannelsOpen()
      reads this
    {
      forall id :: id in pendingUploads && pendingUploads[id].Magnet? ==> closes[id] == 0
    }

    ghost method CloseDone(id: Handle)
      requires closes[id] == 0
      modifies `closes
      ensures closes == old(closes) + multiset{id}
    {
      closes := closes + multiset{id};
    }

    method DeletePendingLocked(id: Handle)
      requires ChannelsOpen()
      modifies this
      ensures Abs() == DeletePending(old(Abs()), id) && ChannelsOpen()
    {
      if id !in pendingUploads {
        return;
      }
      var pending := pendingUploads[id];
      pendingUploads := pendingUploads - {id};
      if pending.Magnet? {
        CloseDone(id);
        if id in timers && timers[id] == Armed {
          timers := timers[id := Stopped];
        }
      }
    }

    method SweepExpiredPendingUploadsLocked(now: int) returns (expired: seq<Entry>, ghost order: seq<Handle>)
      requires ChannelsOpen()
      modifies this
      ensures SweepOrder(old(pendingUploads), now, order)
      ensures Abs() == DeleteAll(old(Abs()), order) && ChannelsOpen()
      ensures expired == EntriesOf(old(pendingUploads), order)
    {
      expired, order := [], [];
      ghost var before := Abs();
      var todo := pendingUploads.Keys;
      while todo != {}
        invariant ChannelsOpen() && SweptTo(before.pending, pendingUploads, todo, now, order)
        invariant Abs() == DeleteAll(before, order)
        invariant expired == EntriesOf(before.pending, order)
        decreases |todo|
      {
        var id :| id in todo;
        var pending := pendingUploads[id];
        if now > pending.expiresAt {
          SweepRemoves(before.pending, pendingUploads, todo, now, order, id);
          DeleteAllSnoc(before, order, id);
          EntriesOfSnoc(before.pending, order, id);
          DeletePendingLocked(id);
          expired := expired + [pending];
          order := order + [id];
        } else {
          SweepKeeps(before.pending, pendingUploads, todo, now, order, id);
        }
        todo := todo - {id};
      }
      SweepOver(before.pending, pendingUploads, now, order);
    }

    /** dropUnusedTorrent: the row scan, then the locked re-check. */
    method DropUnusedTorrent(infoHash: InfoHash)
      modifies `client
      ensures Abs() == DropUnused(old(Abs()), infoHash)
      ensures DroppedUnlessHeld(old(client), Abs(), infoHash)
    {
      DropUnusedHeld(Abs(), infoHash);
      var rows := jobs.Keys;
      while rows != {}
        invariant rows <= jobs.Keys
        invariant forall j :: j in jobs && j !in rows ==> !(IsListed(jobs[j].status) && jobs[j].infoHash == infoHash)
        decreases |rows|
      {
        var j :| j in rows;
        rows := rows - {j};
        if IsListed(jobs[j].status) && jobs[j].infoHash == infoHash {
          return;
        }
      }
      DropUnlessLive(infoHash);
    }

    /** Its second half, under the lock. */
    method DropUnlessLive(infoHash: InfoHash)
      modifies `client
      ensures Abs() == DropUnlessHeld(old(Abs()), infoHash)
    {
      var entries := pendingUploads.Keys;
      while entries != {}
        invariant entries <= pendingUploads.Keys
        invariant forall id :: id in pendingUploads && id !in entries ==>
          !(Live(pendingUploads[id]) && pendingUploads[id].infoHash == infoHash)
        decreases |entries|
      {
        var id :| id in entries;
        entries := entries - {id};
        var pending := pendingUploads[id];
        if pending.Magnet? && !pending.timedOut && pending.infoHash == infoHash {
          return;
        }
      }
      if infoHash in client {
        client := client - {infoHash};
      }
    }

    method DropPendingTorrent(pending: Entry)
      modifies `client
      ensures Abs() == Jobs.DropPending(old(Abs()), pending)
      ensures pending.Upload? ==> client == old(client)
      ensures pending.Magnet? ==> DroppedUnlessHeld(old(client), Abs(), pending.infoHash)
    {
      if pending.Upload? {
        return;
      }
      DropUnusedTorrent(pending.infoHash);
    }

    method DropPendingTorrents(removed: seq<Entry>)
      modifies `client
      ensures Abs() == DropEntries(old(Abs()), removed)
    {
      ghost var before := Abs();
      for i := 0 to |removed|
        invariant DropEntries(Abs(), removed[i..]) == DropEntries(before, removed)
      {
        assert removed[i..][1..] == removed[i + 1..];
        DropPendingTorrent(removed[i]);
      }
    }

    /** lookupPendingUpload, including the drop after an expired entry. */
    method LookupPendingUpload(now: int, id: Handle, userId: UserId, mode: LookupMode) returns (r: LookupResult)
      requires ChannelsOpen()
      modifies this
      ensures var (s1, r1) := Lookup(old(Abs()), now, id, userId, mode);
              r == r1 && Abs() == (if r1.ExpiredEntry? then Jobs.DropPending(s1, r1.entry) else s1)
      ensures ChannelsOpen()
      ensures AnswerDue(old(pendingUploads), now, id, userId, mode, r)
      ensures pendingUploads == if Removes(r, mode) then old(pendingUploads) - {id} else old(pendingUploads)
      ensures jobs == old(jobs) && (!r.ExpiredEntry? ==> client == old(client))
      ensures r.Found? ==> && r.entry == old(pendingUploads)[id] && r.entry.userId == userId
                           && now <= r.entry.expiresAt
      // to anybody else the handle does not exist, and stays as it is
      ensures id in old(pendingUploads) && old(pendingUploads)[id].userId != userId
              && now <= old(pendingUploads)[id].expiresAt ==>
                r == NotFound && Abs() == old(Abs())
    {
      LookupAnswers(Abs(), now, id, userId, mode);
      if id !in pendingUploads {
        return NotFound;
      }
      var pending := pendingUploads[id];
      if now > pending.expiresAt {
        DeletePendingLocked(id);
        DropPendingTorrent(pending);
        return ExpiredEntry(pending);
      }
      if pending.userId != userId {
        return NotFound;
      }
      if pending.Magnet? && pending.timedOut {
        DeletePendingLocked(id);
        return if mode == Discard then Found(pending) else MetadataTimeout;
      }
      if mode == Submit && pending.Magnet? && pending.files == None {
        return MetadataPending;
      }
      if mode != Peek {
        DeletePendingLocked(id);
      }
      return Found(pending);
    }

    method UploadTorrentFile(now: int, id: Handle, userId: UserId, infoHash: InfoHash, name: string, files: seq<string>)
      returns (ghost order: seq<Handle>)
      requires ChannelsOpen()
      modifies this
      ensures SweepOrder(old(pendingUploads), now, order)
      ensures Abs() == DropEntries(AddUpload(DeleteAll(old(Abs()), order), id, userId, infoHash, name, files, now),
                                   EntriesOf(old(pendingUploads), order))
      ensures ChannelsOpen()
      ensures id in pendingUploads && pendingUploads[id] == Upload(userId, infoHash, name, Some(files), now + 900)
      ensures CacheSwept(old(pendingUploads), pendingUploads, now, id) && jobs == old(jobs)
    {
      ghost var before := Abs();
      var expired;
      expired, order := SweepExpiredPendingUploadsLocked(now);
      DeleteAllFacts(before, order);
      SweptCache(before.pending, pendingUploads, now, order, id);
      pendingUploads := pendingUploads[id := Upload(userId, infoHash, name, Some(files),
                                                    now + PendingTorrentUploadTtl)];
      DropPendingTorrents(expired);
    }

    method AddTorrent(infoHash: InfoHash) returns (tor: Torrent)
      modifies `client, `torrents
      ensures Abs() == TorrentState.AddTorrent(old(Abs()), infoHash)
      ensures infoHash in client && client[infoHash] == tor
    {
      if infoHash !in client {
        client := client[infoHash := torrents];
        torrents := torrents + 1;
      }
      tor := client[infoHash];
    }

    /** registerPendingMagnet, under the lock throughout. */
    method RegisterPendingMagnet(now: int, id: Handle, userId: UserId, infoHash: InfoHash, name: string,
                                 clientFails: bool)
      returns (ok: bool, expired: seq<Entry>, ghost order: seq<Handle>)
      requires ChannelsOpen() && closes[id] == 0 && id !in pendingUploads
      modifies this
      ensures SweepOrder(old(pendingUploads), now, order) && expired == EntriesOf(old(pendingUploads), order)
      ensures Abs() == (if clientFails then DeleteAll(old(Abs()), order)
                        else AddMagnet(DeleteAll(old(Abs()), order), id, userId, infoHash, name, now))
      ensures ChannelsOpen() && ok == !clientFails
      ensures ok ==> && id in pendingUploads && infoHash in client
                     && pendingUploads[id] == Magnet(userId, infoHash, name, None, now + 900, client[infoHash], false)
      ensures !ok ==> id !in pendingUploads && client == old(client)
      ensures CacheSwept(old(pendingUploads), pendingUploads, now, id) && jobs == old(jobs)
    {
      ghost var before := Abs();
      expired, order := SweepExpiredPendingUploadsLocked(now);
      DeleteAllCloses(before, order, id);
      DeleteAllFacts(before, order);
      SweptCache(before.pending, pendingUploads, now, order, id);
      if clientFails {
        return false, expired, order;
      }
      var tor := AddTorrent(infoHash);
      pendingUploads := pendingUploads[id := Magnet(userId, infoHash, name, None, now + PendingTorrentUploadTtl, tor,
                                                    false)];
      timers := timers[id := Armed];
      ok := true;
    }

    /** AddTorrentMagnet; found says that an active job answered at once. */
    method AddTorrentMagnet(now: int, id: Handle, userId: UserId, infoHash: InfoHash, name: string, clientFails: bool)
      returns (ok: bool, found: bool, ghost order: seq<Handle>)
      requires ChannelsOpen() && closes[id] == 0 && id !in pendingUploads
      modifies this
      ensures found == ActiveJobOf(old(jobs), userId, infoHash) && ok == (found || !clientFails)
      ensures found ==> order == [] && Abs() == old(Abs())
      ensures !found ==> SweepOrder(old(pendingUploads), now, order)
      ensures forall k :: k in order ==> k in old(pendingUploads)
      ensures Abs() == DropEntries(
                Jobs.AddTorrentMagnet(old(Abs()), id, userId, infoHash, name, now, order, clientFails),
                EntriesOf(old(pendingUploads), order))
      ensures ChannelsOpen() && jobs == old(jobs)
      ensures ok && !found ==> && id in pendingUploads
                               && pendingUploads[id].Magnet? && pendingUploads[id].userId == userId
                               && pendingUploads[id].infoHash == infoHash && pendingUploads[id].files == None
                               && pendingUploads[id].expiresAt == now + 900 && !pendingUploads[id].timedOut
      ensures !found ==> CacheSwept(old(pendingUploads), pendingUploads, now, id)
    {
      order := [];
      found := HasActiveJob(userId, infoHash);
      if found {
        return true, true, [];
      }
      var expired;
      ok, expired, order := RegisterPendingMagnet(now, id, userId, infoHash, name, clientFails);
      DropPendingTorrents(expired);
    }

    method PublishMagnetInfo(id: Handle, name: string, files: seq<string>)
      modifies `pendingUploads
      ensures Abs() == PublishInfo(old(Abs()), id, name, files)
      ensures id in old(pendingUploads) ==>
                var was := old(pendingUploads)[id];
                pendingUploads == old(pendingUploads)[id := was.(files := Some(files), name := name)]
      ensures old(ChannelsOpen()) ==> ChannelsOpen()
    {
      if id !in pendingUploads {
        return;
      }
      pendingUploads := pendingUploads[id := pendingUploads[id].(files := Some(files), name := name)];
    }

    method TimeOutMagnet(id: Handle)
      modifies this
      ensures Abs() == Jobs.TimeOutMagnet(old(Abs()), id)
      ensures id in old(pendingUploads) && old(pendingUploads)[id].Magnet? ==>
                && pendingUploads == old(pendingUploads)[id := old(pendingUploads)[id].(timedOut := true)]
                && DroppedUnlessHeld(old(client), Abs(), old(pendingUploads)[id].infoHash)
      ensures old(ChannelsOpen()) ==> ChannelsOpen()
    {
      if id !in pendingUploads || pendingUploads[id].Upload? {
        return;
      }
      var pending := pendingUploads[id];
      pendingUploads := pendingUploads[id := pending.(timedOut := true)];
      DropUnusedTorrent(pending.infoHash);
    }

    method ExpirePendingMagnet(id: Handle)
      requires ChannelsOpen()
      modifies this
      ensures Abs() == Jobs.ExpirePendingMagnet(old(Abs()), id) && ChannelsOpen()
      ensures pendingUploads == old(pendingUploads) - {id}
      ensures id in old(pendingUploads) && old(pendingUploads)[id].Magnet? ==>
                DroppedUnlessHeld(old(client), Abs(), old(pendingUploads)[id].infoHash)
    {
      if id !in pendingUploads {
        return;
      }
      var pending := pendingUploads[id];
      DeletePendingLocked(id);
      DropPendingTorrent(pending);
    }

    method DiscardTorrentFile(now: int, id: Handle, userId: UserId) returns (ok: bool)
      requires ChannelsOpen()
      modifies this
      ensures Abs() == Jobs.DiscardTorrentFile(old(Abs()), now, id, userId) && ChannelsOpen()
      ensures ok == Mine(old(pendingUploads), id, userId, now)
      ensures pendingUploads == if ok || (id in old(pendingUploads) && now > old(pendingUploads)[id].expiresAt)
                                then old(pendingUploads) - {id} else old(pendingUploads)
      ensures jobs == old(jobs)
      ensures ok && old(pendingUploads)[id].Magnet? ==>
                DroppedUnlessHeld(old(client), Abs(), old(pendingUploads)[id].infoHash)
      ensures id in old(pendingUploads) && old(pendingUploads)[id].userId != userId
              && now <= old(pendingUploads)[id].expiresAt ==>
                Abs() == old(Abs())
    {
      var r := LookupPendingUpload(now, id, userId, Discard);
      ok := r.Found?;
      if ok {
        DropPendingTorrent(r.entry);
      }
    }

    // ---- Submission ---------------------------------------------------------------

    method CheckSubmitQuota(userId: UserId, req: Jobs.Request) returns (ok: bool)
      ensures ok == Jobs.QuotaFree(Abs(), userId, req, cfg)
      ensures ok <==> && req.pendingTracks < req.maxPendingTracks
                      && (cfg.maxConcurrentDownloads > 0 ==>
                            |set j | j in jobs && jobs[j].userId == userId && IsActive(jobs[j].status)|
                              < cfg.maxConcurrentDownloads)
    {
      if req.pendingTracks >= req.maxPendingTracks {
        return false;
      }
      if cfg.maxConcurrentDownloads <= 0 {
        return true;
      }
      var active := 0;
      var rows := jobs.Keys;
      while rows != {}
        invariant rows <= jobs.Keys && active == |ActiveAmong(jobs, userId, jobs.Keys - rows)|
        decreases |rows|
      {
        var j :| j in rows;
        OneMoreRow(jobs, userId, jobs.Keys - rows, j);
        assert jobs.Keys - (rows - {j}) == jobs.Keys - rows + {j};
        rows := rows - {j};
        if jobs[j].userId == userId && IsActive(jobs[j].status) {
          active := active + 1;
        }
      }
      assert ActiveAmong(jobs, userId, jobs.Keys - rows) == Jobs.ActiveOf(jobs, userId);
      assert Jobs.ActiveOf(jobs, userId) == set j | j in jobs && jobs[j].userId == userId && IsActive(jobs[j].status);
      ok := active < cfg.maxConcurrentDownloads;
    }

    method HasActiveJob(userId: UserId, infoHash: InfoHash) returns (found: bool)
      ensures found == ActiveJobOf(jobs, userId, infoHash)
    {
      found := exists j | j in jobs ::
                 IsActive(jobs[j].status) && jobs[j].userId == userId && jobs[j].infoHash == infoHash;
    }

    /** finalizeTorrentSubmission, and the drop after a refused selection. */
    method FinalizeTorrentSubmission(j: JobId, userId: UserId, infoHash: InfoHash, req: Jobs.Request) returns (ok: bool)
      modifies `client, `jobs
      ensures Abs() == Jobs.FinishSubmit(old(Abs()), j, userId, infoHash, req)
      ensures ok <==> Jobs.SelectionFits(req)
      ensures ok <==> && req.selected.Some? && Jobs.Sum(req.selected.value) <= req.maxTotalUploadBytes
                      && forall i :: 0 <= i < |req.selected.value| ==> req.selected.value[i] <= req.maxSongSizeBytes
      ensures jobs == if ok then old(jobs)[j := Job(userId, infoHash, Downloading)] else old(jobs)
      ensures if ok then client == old(client) else DroppedUnlessHeld(old(client), Abs(), infoHash)
    {
      if req.selected.None? {
        DropUnusedTorrent(infoHash);
        return false;
      }
      var lengths := req.selected.value;
      var totalBytes := 0;
      for i := 0 to |lengths|
        invariant forall k :: 0 <= k < i ==> lengths[k] <= req.maxSongSizeBytes
        invariant totalBytes + Jobs.Sum(lengths[i..]) == Jobs.Sum(lengths)
      {
        if lengths[i] > req.maxSongSizeBytes {
          DropUnusedTorrent(infoHash);
          return false;
        }
        totalBytes := totalBytes + lengths[i];
        assert lengths[i..][1..] == lengths[i + 1..];
      }
      if totalBytes > req.maxTotalUploadBytes {
        DropUnusedTorrent(infoHash);
        return false;
      }
      jobs := jobs[j := Job(userId, infoHash, Queued)];
      jobs := jobs[j := jobs[j].(status := Downloading)];
      ok := true;
    }

    method SubmitTorrent(j: JobId, userId: UserId, infoHash: InfoHash, req: Jobs.Request) returns (ok: bool)
      modifies `client, `torrents, `jobs
      ensures Abs() == Jobs.SubmitTorrent(old(Abs()), j, userId, infoHash, req, cfg)
      ensures ok <==> (&& Jobs.MaySubmit(old(Abs()), userId, infoHash, req, cfg)
                       && req.answer == Jobs.Ready && Jobs.SelectionFits(req))
      ensures ok <==> && req.folderOk && !ActiveJobOf(old(jobs), userId, infoHash)
                      && Jobs.QuotaFree(old(Abs()), userId, req, cfg)
                      && req.answer == Jobs.Ready && Jobs.SelectionFits(req)
      ensures jobs == if ok then old(jobs)[j := Job(userId, infoHash, Downloading)] else old(jobs)
      ensures ok ==> infoHash in client
    {
      if !req.folderOk {
        return false;
      }
      var existing := HasActiveJob(userId, infoHash);
      if existing {
        return false;
      }
      var quotaOk := CheckSubmitQuota(userId, req);
      if !quotaOk {
        return false;
      }
      ok := RegisterAndFinish(j, userId, infoHash, req);
    }

    /** AddTorrent, the wait for the info dict, and the rest. */
    method RegisterAndFinish(j: JobId, userId: UserId, infoHash: InfoHash, req: Jobs.Request) returns (ok: bool)
      modifies `client, `torrents, `jobs
      ensures Abs() == Jobs.RegisterAndFinish(old(Abs()), j, userId, infoHash, req)
      ensures ok <==> req.answer == Jobs.Ready && Jobs.SelectionFits(req)
      ensures jobs == if ok then old(jobs)[j := Job(userId, infoHash, Downloading)] else old(jobs)
      ensures ok || req.answer == Jobs.WaitCanceled ==> infoHash in client
      ensures req.answer == Jobs.Refused ==> client == old(client)
      ensures !ok && req.answer == Jobs.Ready ==>
                (infoHash in client <==> Held(Abs(), infoHash))
    {
      if req.answer == Jobs.Refused {
        return false;
      }
      var tor := AddTorrent(infoHash);
      if req.answer == Jobs.WaitCanceled {
        return false;
      }
      ok := FinalizeTorrentSubmission(j, userId, infoHash, req);
    }

    method SubmitTorrentFile(now: int, id: Handle, userId: UserId, j: JobId, req: Jobs.Request) returns (ok: bool)
      requires ChannelsOpen()
      modifies this
      ensures Abs() == Jobs.SubmitTorrentFile(old(Abs()), now, id, userId, j, req, cfg) && ChannelsOpen()
      ensures var p := old(pendingUploads);
              && (ok <==> && Mine(p, id, userId, now) && Resolved(p[id])
                          && req.folderOk && !ActiveJobOf(old(jobs), userId, p[id].infoHash)
                          && Jobs.QuotaFree(old(Abs()), userId, req, cfg) && Jobs.SelectionFits(req)
                          && (if p[id].Upload? then req.answer == Jobs.Ready else req.answer != Jobs.WaitCanceled))
              && jobs == (if ok then old(jobs)[j := Job(userId, p[id].infoHash, Downloading)] else old(jobs))
              && pendingUploads == (if SubmitRemoves(p, id, userId, now) then p - {id} else p)
              && (id in p && p[id].userId != userId && now <= p[id].expiresAt ==> Abs() == old(Abs()))
              && (!ok && Mine(p, id, userId, now) && Resolved(p[id]) && p[id].Magnet? ==>
                    DroppedUnlessHeld(old(client), Abs(), p[id].infoHash))
    {
      var r := LookupPendingUpload(now, id, userId, Submit);
      if !r.Found? {
        return false;
      }
      var pending := r.entry;
      var allowed := req.folderOk;
      if allowed {
        var existing := HasActiveJob(userId, pending.infoHash);
        allowed := !existing;
      }
      if allowed {
        allowed := CheckSubmitQuota(userId, req);
      }
      if !allowed {
        DropPendingTorrent(pending);
        return false;
      }
      if pending.Upload? {
        ok := RegisterAndFinish(j, userId, pending.infoHash, req);
        return;
      }
      if req.answer == Jobs.WaitCanceled {
        DropPendingTorrent(pending);
        return false;
      }
      ok := FinalizeTorrentSubmission(j, userId, pending.infoHash, req);
    }

    // ---- Jobs -----------------------------------------------------------------------

    /** The row update; the unique index may refuse it. */
    method UpdateStatus(j: JobId, status: Status) returns (ok: bool)
      modifies `jobs
      ensures Abs() == Jobs.UpdateStatus(old(Abs()), j, status)
      ensures ok == (j in old(jobs) && !Jobs.IndexRefuses(old(jobs), j, status))
    {
      ok := j in jobs && !Jobs.IndexRefuses(jobs, j, status);
      if ok {
        jobs := jobs[j := jobs[j].(status := status)];
      }
    }

    method HasOtherActiveJobs(j: JobId, infoHash: InfoHash) returns (found: bool)
      ensures found == OtherListedJobOn(jobs, j, infoHash)
    {
      var rows := jobs.Keys;
      while rows != {}
        invariant rows <= jobs.Keys
        invariant forall k :: k in jobs && k !in rows ==>
                    !(k != j && IsListed(jobs[k].status) && jobs[k].infoHash == infoHash)
        decreases |rows|
      {
        var k :| k in rows;
        rows := rows - {k};
        if k != j && IsListed(jobs[k].status) && jobs[k].infoHash == infoHash {
          return true;
        }
      }
      found := false;
    }

    method ReleaseTorrent(j: JobId, infoHash: InfoHash)
      modifies `client
      ensures Abs() == Jobs.Release(old(Abs()), j, infoHash)
      ensures client == AfterRelease(old(client), jobs, j, infoHash)
    {
      ReleaseIs(Abs(), j, infoHash);
      var stillWanted := HasOtherActiveJobs(j, infoHash);
      if stillWanted {
        return;
      }
      if infoHash in client {
        client := client - {infoHash};
      }
    }

    method CancelJob(j: JobId) returns (ok: bool)
      modifies `client, `jobs
      ensures Abs() == Jobs.CancelJob(old(Abs()), j) && ok == (j in old(jobs))
      ensures ok ==> jobs == old(jobs)[j := old(jobs)[j].(status := Canceled)]
      ensures ok ==> client == AfterRelease(old(client), old(jobs), j, old(jobs)[j].infoHash)
    {
      if j !in jobs {
        return false;
      }
      ReleaseAfterUpdate(client, jobs, j, jobs[j].infoHash, Canceled);
      ok := UpdateStatus(j, Canceled);
      ReleaseTorrent(j, jobs[j].infoHash);
    }

    /** fails: deleteImportedFiles, or the deletion of the row, fails. */
    method DeleteJob(j: JobId, fails: bool) returns (ok: bool)
      modifies `client, `jobs
      ensures Abs() == Jobs.DeleteJob(old(Abs()), j, fails) && ok == (j in old(jobs) && !fails)
      ensures jobs == if ok then old(jobs) - {j} else old(jobs)
      ensures j in old(jobs) ==> client == AfterRelease(old(client), old(jobs), j, old(jobs)[j].infoHash)
    {
      if j !in jobs {
        return false;
      }
      ReleaseTorrent(j, jobs[j].infoHash);
      if fails {
        return false;
      }
      jobs := jobs - {j};
      ok := true;
    }

    method PauseJob(j: JobId) returns (ok: bool)
      modifies `jobs
      ensures Abs() == Jobs.UpdateStatus(old(Abs()), j, Paused)
      ensures ok == (j in old(jobs) && !Jobs.IndexRefuses(old(jobs), j, Paused))
      ensures jobs == if ok then old(jobs)[j := old(jobs)[j].(status := Paused)] else old(jobs)
    {
      ok := UpdateStatus(j, Paused);
    }

    method ResumeJob(j: JobId) returns (ok: bool)
      modifies `jobs
      ensures Abs() == Jobs.UpdateStatus(old(Abs()), j, Downloading)
      ensures ok == (j in old(jobs) && !Jobs.IndexRefuses(old(jobs), j, Downloading))
      ensures jobs == if ok then old(jobs)[j := old(jobs)[j].(status := Downloading)] else old(jobs)
    {
      ok := UpdateStatus(j, Downloading);
    }

    method ImportCompletedTorrent(j: JobId, imported: nat) returns (ok: bool)
      requires j in jobs
      modifies `client, `jobs
      ensures old(jobs[j].infoHash in client) ==> ok && Abs() == Jobs.ImportCompleted(old(Abs()), j, imported, cfg)
      ensures old(jobs[j].infoHash !in client) ==> !ok && Abs() == old(Abs())
      ensures ok ==> ImportOutcome(old(client), old(jobs), client, jobs, j, imported, cfg)
    {
      var infoHash := jobs[j].infoHash;
      if infoHash !in client {
        return false;
      }
      ImportedAs(Abs(), j, imported, cfg);
      if imported == 0 {
        var failed := UpdateStatus(j, Failed);
        ReleaseTorrent(j, infoHash);
        return true;
      }
      if cfg.seedAfterComplete {
        var seeding := UpdateStatus(j, Seeding);
        return true;
      }
      var done := UpdateStatus(j, Done);
      ReleaseTorrent(j, infoHash);
      ok := true;
    }

    /** syncRow; complete is isComplete of the summed file progress. */
    method SyncRow(j: JobId, complete: bool, imported: nat)
      requires j in jobs && IsListed(jobs[j].status)
      modifies `client, `jobs
      ensures Abs() == Jobs.SyncRow(old(Abs()), j, complete, imported, cfg)
      ensures var before := old(jobs);
              if before[j].infoHash in old(client) && complete
                 && !ActiveElsewhere(before, j, before[j].userId, before[j].infoHash)
              then ImportOutcome(old(client), before, client, jobs, j, imported, cfg)
              else Abs() == old(Abs())
    {
      if jobs[j].infoHash !in client || !complete {
        return;
      }
      RefusedIff(jobs, j, Importing);
      ghost var before := Abs();
      var marked := UpdateStatus(j, Importing);
      if !marked {
        return;
      }
      // syncRow marks the row failed when the import reports the torrent as
      // not registered, which the check above has ruled out.
      var importOk := ImportCompletedTorrent(j, imported);
      OutcomeFrom(before.client, before.jobs, Importing, client, jobs, j, imported, cfg);
      assert importOk;
    }
  }

  // ---- The methods as operations ---------------------------------------------------------

  /** The drop operations for the magnets among removed entries. */
  function DropsOf(es: seq<Entry>): seq<Jobs.Op>
    decreases |es|
  {
    if es == [] then []
    else
      var last := es[|es| - 1];
      DropsOf(es[..|es| - 1]) + if last.Magnet? then [Jobs.DropOp(last.infoHash)] else []
  }

  lemma {:induction false} DropEntriesSnoc(s: Shared, es: seq<Entry>, e: Entry)
    ensures DropEntries(s, es + [e]) == Jobs.DropPending(DropEntries(s, es), e)
    decreases |es|
  {
    if es == [] {
      assert DropEntries(Jobs.DropPending(s, e), []) == Jobs.DropPending(s, e);
      assert ([e])[1..] == [] && es + [e] == [e];
    } else {
      assert (es + [e])[1..] == es[1..] + [e];
      DropEntriesSnoc(Jobs.DropPending(s, es[0]), es[1..], e);
    }
  }

  lemma {:induction false} DropsAreOps(s: Shared, ops: seq<Jobs.Op>, es: seq<Entry>, cfg: Jobs.Config)
    ensures Runs.DoAll(s, ops + DropsOf(es), cfg) == DropEntries(Runs.DoAll(s, ops, cfg), es)
    decreases |es|
  {
    if es == [] {
      assert ops + DropsOf(es) == ops;
    } else {
      var init, last := es[..|es| - 1], es[|es| - 1];
      DropsAreOps(s, ops, init, cfg);
      DropEntriesSnoc(Runs.DoAll(s, ops, cfg), init, last);
      assert es == init + [last];
      LastDropIsOp(s, ops + DropsOf(init), last, cfg);
      assert ops + DropsOf(es) == ops + DropsOf(init) + if last.Magnet? then [Jobs.DropOp(last.infoHash)] else [];
    }
  }

  lemma LastDropIsOp(s: Shared, ops: seq<Jobs.Op>, e: Entry, cfg: Jobs.Config)
    ensures Runs.DoAll(s, ops + if e.Magnet? then [Jobs.DropOp(e.infoHash)] else [], cfg)
         == Jobs.DropPending(Runs.DoAll(s, ops, cfg), e)
  {
    if e.Magnet? {
      assert (ops + [Jobs.DropOp(e.infoHash)])[..|ops|] == ops;
    } else {
      assert ops + [] == ops;
    }
  }

  lemma OneOp(s: Shared, op: Jobs.Op, cfg: Jobs.Config)
    ensures Runs.DoAll(s, [op], cfg) == Jobs.Do(s, op, cfg)
  {
    assert Runs.DoAll(s, [op][..0], cfg) == s;
  }

  /** UploadTorrentFile has the effect of its operation and its drops, so the
      results on histories of operations are results on it. */
  lemma UploadIsOps(s: Shared, now: int, id: Handle, u: UserId, h: InfoHash, name: string, files: seq<string>,
                    order: seq<Handle>, cfg: Jobs.Config)
    requires SweepOrder(s.pending, now, order)
    ensures var es := EntriesOf(s.pending, order);
            Runs.DoAll(s, [Jobs.AddUploadOp(id, u, h, name, files, now, order)] + DropsOf(es), cfg)
              == DropEntries(AddUpload(DeleteAll(s, order), id, u, h, name, files, now), es)
  {
    var op := Jobs.AddUploadOp(id, u, h, name, files, now, order);
    OneOp(s, op, cfg);
    DropsAreOps(s, [op], EntriesOf(s.pending, order), cfg);
  }

  /** The same for AddTorrentMagnet. */
  lemma MagnetIsOps(s: Shared, now: int, id: Handle, u: UserId, h: InfoHash, name: string, order: seq<Handle>,
                    clientFails: bool, cfg: Jobs.Config)
    requires SweepOrder(s.pending, now, order)
    ensures var es := EntriesOf(s.pending, order);
            Runs.DoAll(s, [Jobs.AddMagnetOp(id, u, h, name, now, order, clientFails)] + DropsOf(es), cfg)
              == DropEntries(Jobs.AddTorrentMagnet(s, id, u, h, name, now, order, clientFails), es)
  {
    var op := Jobs.AddMagnetOp(id, u, h, name, now, order, clientFails);
    OneOp(s, op, cfg);
    DropsAreOps(s, [op], EntriesOf(s.pending, order), cfg);
  }
}
