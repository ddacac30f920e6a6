/**
 The state shared by every request handler, resolver goroutine and timer that
 works on pending torrent uploads, and the critical sections over it: the
 `pendingUploads` map, the bittorrent client (one torrent per info hash), the
 torrent_downloads rows, the `done` channels and the expiry timers.

 Each function below is one section of the source that runs without
 interruption. TorrentHandles.dfy interleaves these sections;
 TorrentService.dfy implements them imperatively.
 */
module TorrentState {
  import opened Wrappers

  type UserId = int
  type Handle = nat      // an opaque upload handle (a uuid)
  type InfoHash = nat
  type JobId = nat
  type Torrent = nat     // identity of one torrent object ever made by the client

  const PendingTorrentUploadTtl := 900  // seconds

  /** A cached upload. Only a magnet holds a torrent in the client; its file
      list is None until the info dict arrives. Exactly the magnet entries have
      a `done` channel and an expiry timer, both named by the entry's handle. */
  datatype Entry =
    | Upload(userId: UserId, infoHash: InfoHash, name: string,
             files: Option<seq<string>>, expiresAt: int)
    | Magnet(userId: UserId, infoHash: InfoHash, name: string,
             files: Option<seq<string>>, expiresAt: int, tor: Torrent, timedOut: bool)

  datatype Timer = Armed | Fired | Stopped

  datatype Status = Queued | Downloading | Importing | Seeding | Done | Failed | Canceled | Paused

  datatype Job = Job(userId: UserId, infoHash: InfoHash, status: Status)

  /** The statuses of domain.ActiveTorrentDownloadStatuses and of the unique index. */
  predicate IsActive(status: Status) {
    status == Queued || status == Downloading || status == Importing || status == Paused
  }

  /** The statuses the ListActive query returns: a paused job is not among them. */
  predicate IsListed(status: Status) {
    status == Queued || status == Downloading || status == Importing
  }

  lemma StatusesAre(status: Status)
    ensures IsActive(status) <==> status in {Queued, Downloading, Importing, Paused}
    ensures IsListed(status) <==> status in {Queued, Downloading, Importing}
  {
  }

  datatype Shared = Shared(
    pending: map<Handle, Entry>,
    client: map<InfoHash, Torrent>,
    torrents: nat,                  // torrent objects made so far
    jobs: map<JobId, Job>,
    closes: multiset<Handle>,       // how often each `done` channel was closed
    timers: map<Handle, Timer>)

  const InitShared := Shared(map[], map[], 0, map[], multiset{}, map[])

  /** A live magnet entry: it needs its torrent. */
  predicate Live(e: Entry) {
    e.Magnet? && !e.timedOut
  }

  predicate LiveMagnetOn(pending: map<Handle, Entry>, h: InfoHash) {
    exists id | id in pending :: Live(pending[id]) && pending[id].infoHash == h
  }

  /** ListActive names a job on this info hash. */
  predicate ListedJobOn(jobs: map<JobId, Job>, h: InfoHash) {
    exists j | j in jobs :: IsListed(jobs[j].status) && jobs[j].infoHash == h
  }

  predicate OtherListedJobOn(jobs: map<JobId, Job>, self: JobId, h: InfoHash) {
    exists j | j in jobs :: j != self && IsListed(jobs[j].status) && jobs[j].infoHash == h
  }

  predicate ActiveJobOf(jobs: map<JobId, Job>, u: UserId, h: InfoHash) {
    exists j | j in jobs :: IsActive(jobs[j].status) && jobs[j].userId == u && jobs[j].infoHash == h
  }

  predicate Expired(e: Entry, now: int) {
    now > e.expiresAt
  }

  /** deletePendingLocked */
  function DeletePending(s: Shared, id: Handle): Shared {
    if id !in s.pending then s
    else if s.pending[id].Upload? then s.(pending := s.pending - {id})
    else s.(pending := s.pending - {id},
            closes := s.closes + multiset{id},
            timers := StopTimer(s.timers, id))
  }

  function StopTimer(timers: map<Handle, Timer>, id: Handle): map<Handle, Timer> {
    if id in timers && timers[id] == Armed then timers[id := Stopped] else timers
  }

  function DeleteAll(s: Shared, ids: seq<Handle>): Shared
    decreases |ids|
  {
    if ids == [] then s else DeleteAll(DeletePending(s, ids[0]), ids[1..])
  }

  /** The order a sweep happens to visit the expired entries in: each once. */
  ghost predicate SweepOrder(pending: map<Handle, Entry>, now: int, order: seq<Handle>) {
    && (forall id :: id in order <==> id in pending && Expired(pending[id], now))
    && (forall i, k :: 0 <= i < k < |order| ==> order[i] != order[k])
  }

  /** The info hashes whose torrents removed entries leave to be dropped. A
      .torrent entry holds nothing in the client. */
  function HashesOf(pending: map<Handle, Entry>, ids: seq<Handle>): (hs: seq<InfoHash>)
    requires forall id :: id in ids ==> id in pending
    ensures forall h :: h in hs <==> exists id :: id in ids && pending[id].Magnet? && pending[id].infoHash == h
  {
    if ids == [] then []
    else if pending[ids[0]].Magnet? then [pending[ids[0]].infoHash] + HashesOf(pending, ids[1..])
    else HashesOf(pending, ids[1..])
  }

  function HashOf(e: Entry): seq<InfoHash> {
    if e.Magnet? then [e.infoHash] else []
  }

  /** AddTorrent and AddTorrentSpec: one torrent per info hash, shared. */
  function AddTorrent(s: Shared, h: InfoHash): Shared {
    if h in s.client then s
    else s.(client := s.client[h := s.torrents], torrents := s.torrents + 1)
  }

  function DropTorrent(s: Shared, h: InfoHash): Shared {
    s.(client := s.client - {h})
  }

  /** The locked half of dropUnusedTorrent. */
  function DropUnlessHeld(s: Shared, h: InfoHash): Shared {
    if LiveMagnetOn(s.pending, h) then s else DropTorrent(s, h)
  }

  /** dropUnusedTorrent run without interruption. */
  function DropUnused(s: Shared, h: InfoHash): Shared {
    if ListedJobOn(s.jobs, h) then s else DropUnlessHeld(s, h)
  }

  function AddUpload(s: Shared, id: Handle, u: UserId, h: InfoHash, name: string,
                     files: seq<string>, now: int): Shared {
    s.(pending := s.pending[id := Upload(u, h, name, Some(files), now + PendingTorrentUploadTtl)])
  }

  /** The tail of registerPendingMagnet, after its sweep. */
  function AddMagnet(s: Shared, id: Handle, u: UserId, h: InfoHash, name: string, now: int): Shared {
    var added := AddTorrent(s, h);
    var entry := Magnet(u, h, name, None, now + PendingTorrentUploadTtl, added.client[h], false);
    added.(pending := added.pending[id := entry],
           timers := added.timers[id := Armed])
  }

  function PublishInfo(s: Shared, id: Handle, name: string, files: seq<string>): Shared {
    if id !in s.pending then s
    else s.(pending := s.pending[id := s.pending[id].(files := Some(files), name := name)])
  }

  function MarkTimedOut(s: Shared, id: Handle): Shared {
    if id !in s.pending || s.pending[id].Upload? then s
    else s.(pending := s.pending[id := s.pending[id].(timedOut := true)])
  }

  datatype LookupMode = Peek | Submit | Discard

  datatype LookupResult = Found(entry: Entry) | ExpiredEntry(entry: Entry)
                        | NotFound | MetadataTimeout | MetadataPending

  /** The locked section of lookupPendingUpload, branch by branch. An expired
      entry answers "not found", but the caller still has its torrent to drop. */
  function Lookup(s: Shared, now: int, id: Handle, u: UserId, mode: LookupMode): (Shared, LookupResult) {
    if id !in s.pending then (s, NotFound)
    else
      var e := s.pending[id];
      if Expired(e, now) then (DeletePending(s, id), ExpiredEntry(e))
      else if e.userId != u then (s, NotFound)
      else if e.Magnet? && e.timedOut then
        (DeletePending(s, id), if mode == Discard then Found(e) else MetadataTimeout)
      else if mode == Submit && e.Magnet? && e.files == None then (s, MetadataPending)
      else (if mode == Peek then s else DeletePending(s, id), Found(e))
  }

  // ---- What a lookup answers --------------------------------------------------------

  /** A cached entry of this user that has not expired. */
  predicate Mine(pending: map<Handle, Entry>, id: Handle, u: UserId, now: int) {
    id in pending && pending[id].userId == u && now <= pending[id].expiresAt
  }

  predicate TimedOut(e: Entry) {
    e.Magnet? && e.timedOut
  }

  /** Its file list is there to select from. */
  predicate Resolved(e: Entry) {
    !TimedOut(e) && (e.Upload? || e.files.Some?)
  }

  /** Each answer, exactly when it is due: to anybody but the owner of a cached
      entry a handle does not exist. */
  predicate AnswerDue(pending: map<Handle, Entry>, now: int, id: Handle, u: UserId, mode: LookupMode, r: LookupResult) {
    && (r == NotFound <==> id !in pending || (now <= pending[id].expiresAt && pending[id].userId != u))
    && (r.ExpiredEntry? <==> id in pending && now > pending[id].expiresAt)
    && (r == MetadataTimeout <==> Mine(pending, id, u, now) && TimedOut(pending[id]) && mode != Discard)
    && (r == MetadataPending <==>
          Mine(pending, id, u, now) && mode == Submit && !TimedOut(pending[id]) && !Resolved(pending[id]))
    && (r.Found? <==>
          && Mine(pending, id, u, now)
          && (mode == Discard || (!TimedOut(pending[id]) && (mode == Submit ==> Resolved(pending[id])))))
    && (r.Found? || r.ExpiredEntry? ==> id in pending && r.entry == pending[id])
  }

  /** The answers that take the entry out of the cache. */
  predicate Removes(r: LookupResult, mode: LookupMode) {
    r.ExpiredEntry? || r == MetadataTimeout || (r.Found? && mode != Peek)
  }

  lemma AnswerIsDue(s: Shared, now: int, id: Handle, u: UserId, mode: LookupMode)
    ensures AnswerDue(s.pending, now, id, u, mode, Lookup(s, now, id, u, mode).1)
  {
  }

  lemma LookupLeaves(s: Shared, now: int, id: Handle, u: UserId, mode: LookupMode)
    ensures var (s1, r) := Lookup(s, now, id, u, mode);
            s1 == if Removes(r, mode) then DeletePending(s, id) else s
  {
  }

  lemma DeletePendingLeaves(s: Shared, id: Handle)
    ensures var s1 := DeletePending(s, id);
            s1.pending == s.pending - {id} && s1.client == s.client && s1.jobs == s.jobs && s1.torrents == s.torrents
  {
  }

  lemma LookupAnswers(s: Shared, now: int, id: Handle, u: UserId, mode: LookupMode)
    ensures var (s1, r) := Lookup(s, now, id, u, mode);
            && AnswerDue(s.pending, now, id, u, mode, r)
            && s1.pending == (if Removes(r, mode) then s.pending - {id} else s.pending)
            && (!Removes(r, mode) ==> s1 == s)
            && s1.client == s.client && s1.jobs == s.jobs && s1.torrents == s.torrents
  {
    AnswerIsDue(s, now, id, u, mode);
    LookupLeaves(s, now, id, u, mode);
    DeletePendingLeaves(s, id);
  }

  lemma {:induction false} DeleteAllFacts(s: Shared, ids: seq<Handle>)
    ensures var r := DeleteAll(s, ids);
            && (forall id :: id in r.pending <==> id in s.pending && id !in ids)
            && (forall id :: id in r.pending ==> r.pending[id] == s.pending[id])
            && r.client == s.client && r.torrents == s.torrents && r.jobs == s.jobs
    decreases |ids|
  {
    if ids != [] {
      DeleteAllFacts(DeletePending(s, ids[0]), ids[1..]);
      assert forall id :: id in ids <==> id == ids[0] || id in ids[1..];
    }
  }

  /** Deleting a batch closes the channel and stops the timer of exactly the
      magnets in it that were still cached, each once, whatever repeats. */
  lemma {:induction false} DeleteAllCloses(s: Shared, ids: seq<Handle>, id: Handle)
    ensures var r := DeleteAll(s, ids);
            var hit := id in ids && id in s.pending && s.pending[id].Magnet?;
            && r.closes[id] == s.closes[id] + (if hit then 1 else 0)
            && (id in r.timers <==> id in s.timers)
            && (id in s.timers ==> r.timers[id] == if hit && s.timers[id] == Armed then Stopped else s.timers[id])
    decreases |ids|
  {
    if ids != [] {
      DeleteAllCloses(DeletePending(s, ids[0]), ids[1..], id);
      assert id in ids <==> id == ids[0] || id in ids[1..];
    }
  }
}
