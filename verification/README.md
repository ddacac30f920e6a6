# Zpotify: a verified model

This project models the stateful core of the Zpotify backend in Dafny and proves
what the code keeps, and where it keeps less than its comments say. It is checked
with `dafny verify dfyconfig.toml`.

## What is modelled

**Pending torrent uploads** (`TorrentState`, `TorrentHandles`, `TorrentHandlesProofs`,
`TorrentAnswers`, `TorrentOwnership`, `TorrentJobsHeld`, `TorrentRaces`, `TorrentSteps`, `TorrentService`). Uploaded .torrent files and
magnets wait in `pendingUploads` under opaque handles. A magnet owns a torrent in a
client that keeps one torrent per info hash for all users. Requests, resolver
goroutines, TTL timers, sweeps, submissions and ending jobs interleave at every
mutex section and every unlocked storage read. A torrent has an identity, so that
"the torrent in the entry" and "the torrent registered for its info hash" can differ.
`TorrentService` is the same code as a class that works in place on the map, the
client and the rows; its methods equal the sections that the machine interleaves, and
their contracts say besides, in terms of the fields, who is answered what and which rows,
entries and torrents change. `TorrentSteps` shows that every whole operation is a run of
the machine.

**Torrent jobs** (`TorrentJobs`, `TorrentJobsProofs`, `TorrentJobRuns`). Submit, sync
with import, pause, resume, cancel and delete as whole operations. For each main
claim the exact condition is proved under which the code meets it, over every
history.

**The streaming file cache** (`FileCache`). One uploader, any number of range readers,
every interleaving of locked sections, source reads and pipe writes.

**Audio containers** (`M4a`, `M4aParser`, `Adts`, `Flac`, with `AudioReader`, `Bytes`,
`Duration`). The box walk of ISO/IEC 14496-12 (sections 4.2 and 8.2.2), ADTS frames of
ISO/IEC 13818-7 (section 6.2) and FLAC metadata of RFC 9639 (sections 8.1 and 8.2), as
loops over a counting reader, with printers and print-then-parse. The arithmetic is
Go's: int64 that wraps, division that truncates.

**Signed OAuth state and search-result ids** (`Base64Url`, `Strings`, `OauthState`,
`SearchResultId`). The unpadded base64url codec of RFC 4648 (sections 3.2 and 5) is
written out, with the leniency of Go's decoder.

**The upload pipeline** (`Uploads`, `UploadsProofs`, `UploadPipeline`). Staging, size
limit, dedup by hash, naming and quota over two stores: the disk and `files_meta`.

**The job-update broadcaster** (`JobUpdates`, `Broadcaster`). One-slot channels, sends
one channel at a time under the lock, receives that take no lock.

**Storages and their provider registry** (`StorageConfigs`, `StorageRegistry`,
`StorageRegistryProofs`, `StorageDefaults`, `StorageHistories`, `StorageService`). The registry's cache and
the storages table under concurrent administrators, step by step, and the service
as a class with one caller at a time.

**File selection** (`Selection`). Which files of a torrent are marked, and when a job
is complete.

## Where the code does less than it says

- `ActiveTorrentDownloadStatuses` and the unique index count a paused job as active,
  but the `ListActive` query does not return it
  (internal/storage/pg/queries/torrent_downloads/torrent_downloads.sql:33-38). So a
  paused job does not hold its torrent: `TorrentJobRuns.PausedJobLosesTorrent` is a
  history in which another user's cancel drops it. `TorrentJobRuns.RunGood` gives the
  exact condition.
- `releaseTorrent` asks for other jobs only, never for pending magnets:
  `TorrentRaces.CancelTakesMagnetsTorrent`, and `TorrentHandlesProofs.StepHandlesCurrent`
  for the exact condition.
- `dropUnusedTorrent` re-checks magnets under the lock, but not jobs:
  `TorrentRaces.DropTakesNewJobsTorrent`. `TorrentJobsHeld.StepJobsHeld` lists every step
  that leaves an active job without its torrent; a `DeleteJob` that fails after its
  release is one.
- A `DeleteJob` reads the other jobs before its own row goes, and others still see that
  row. Two overlapping deletes, or one delete beside a refused submission, leave a
  torrent that nobody owns: `TorrentRaces.OverlappingDeletesOrphan`,
  `TorrentRaces.DeleteBesideRefusedSubmission`. `TorrentOwnership.StepNoOrphans` lists
  every step that gives up a last owner; a failing row scan, a request canceled while
  its .torrent is registered, and a failed import are the others.
- `PauseJob` and `ResumeJob` look neither at the old status nor at the quota:
  `TorrentJobRuns.ResumeExceedsQuota`, `TorrentJobRuns.RunQuota`.
- Jobs of two users on one torrent share its file priorities, and the last selection
  wins, also for the import of the first job: `Selection.LastSelectionWins`. A rejected
  selection has changed them too.
- A content stream that fails, or a failing `files_meta` insert, leaves a file without
  a row: `UploadsProofs.SaveAgrees`.
- A FLAC STREAMINFO block shorter than the bytes the parser indexes panics:
  `Flac.PanicsIffShort`. An mvhd whose 64-bit size exceeds what `make` accepts panics:
  `M4a.MvhdPanicsIff`. From 2^63 + 16 on the payload length of a 64-bit box is negative
  (`M4a.NegativeIff`), and a box other than mvhd is then skipped as if it were empty
  (`M4a.NegativeBoxSkipsNothing`).
- `Get` of the registry can cache the provider of an old row after the row was
  updated and invalidated: `StorageDefaults.LateBuildStaysStale`, and by
  `StorageHistories.StaleHasHistory` in no other way. `Delete` can remove a
  storage that became the default since its check: `StorageDefaults.DeleteTakesDefault`.
- An update of the default Google Drive storage leaves the default unconnected exactly
  if it changes the client id: `StorageDefaults.NewClientDisconnectsDefault`;
  `StorageHistories.RunDefaultConnected` gives the condition over every interleaving.
- The comment in `Publish` says that a subscriber whose channel is full gets the next
  update instead; it gets the older one that fills the channel
  (`JobUpdates.WaitingIsNext`).
- `WatchJobs` handles the closing of its own subscription channel. That cannot happen:
  only its own deferred `Unsubscribe` closes it, and a second close would panic
  (`JobUpdates.StepInv`).

## Model

| member | source | states |
|---|---|---|
| TorrentState.DeleteAllCloses | internal/service/v1/torrent_files.go:283-302 | deleting any batch of handles closes `done` and stops the timer of exactly the cached magnets in it, each once, whatever repeats |
| TorrentState.LookupAnswers | internal/service/v1/torrent_files.go:235-281 | each of the five answers arises exactly when it is due: "not found" to anybody but the owner of a cached, unexpired entry; and exactly the consuming answers remove the entry |
| TorrentHandlesProofs.LookupRemoves | internal/service/v1/torrent_files.go:235-281 | a lookup changes nothing, or removes exactly the entry it consumed, found expired or reported as timed out |
| TorrentHandlesProofs.StepHandlesCurrent | internal/service/v1/torrent_files.go:340-377 | every step of every goroutine keeps "a live magnet's torrent is the registered one", except exactly a release of a job while a live magnet holds the info hash |
| TorrentHandlesProofs.RunHandlesCurrent | internal/service/v1/torrent_files.go:466-508 | over every interleaving: a live entry's torrent is at all times the one registered for its info hash iff no job release drops under a live magnet |
| TorrentHandlesProofs.RunLifecycle | internal/service/v1/torrent_files.go:283-302 | over every interleaving: `done` is open exactly while the id is cached and is closed once; at most one of submit, discard and timeout report per handle, and only once it left the cache; never both published and timed out |
| TorrentHandlesProofs.RemovedStaysRemoved | internal/service/v1/torrent_files.go:288-302 | an id that left the cache never returns, whatever follows |
| TorrentHandlesProofs.SubmitUnresolvedChangesNothing | internal/service/v1/torrent_files.go:262-274 | submitting a magnet whose metadata is still pending leaves the whole state as it was |
| TorrentAnswers.StepAnswers | internal/service/v1/torrent_files.go:235-281 | a step uses a handle up, or reports its timeout, iff it is a lookup by the entry's own user, before it expired, of a timed-out entry, a discard, or a submit of a resolved one |
| TorrentAnswers.CachedWasRegistered | internal/service/v1/torrent_files.go:95-109 | over every interleaving: what is cached under a handle was registered under it by its user, for its torrent, fifteen minutes before it expires |
| TorrentAnswers.UsedByOwner | internal/service/v1/torrent_files.go:257-281 | over every interleaving: a handle is consumed, or its timeout reported, only for the user who registered it, and in time |
| TorrentAnswers.ShownWasPublished | internal/service/v1/torrent_files.go:510-559 | over every interleaving: a magnet shows files only if they were published with its name, and is timed out only if its resolver timed out |
| TorrentAnswers.PublishedStays | internal/service/v1/torrent_files.go:527-541 | over every interleaving: once published, a magnet keeps that name and file list, untimed-out, for as long as it is cached |
| TorrentAnswers.PublishedIsFound | internal/service/v1/torrent_files.go:235-281 | so its owner, until it expires, is answered with the published name and files in every mode |
| TorrentOwnership.StepNoOrphans | internal/service/v1/torrent_files.go:323-377 | every step of every goroutine leaves each registered torrent a job, a live magnet or a thread that will drop or use it, except exactly those that give up a registered torrent nobody else owns |
| TorrentOwnership.RunOwned | internal/service/v1/torrent_files.go:340-377 | over every interleaving, storage failures, cancellations and overlapping deletes included: no torrent is ever orphaned iff no step gives up a last owner |
| TorrentOwnership.QuietRunOwned | internal/service/v1/torrent_files.go:579-596 | once such a run has come to rest, every registered torrent belongs to a job that is not over or to a live magnet |
| TorrentJobsHeld.StepJobsHeld | internal/service/v1/torrent_files.go:351-377 | every step keeps the torrent of every active job that is not being deleted, except exactly a drop or release the job is not seen by, a row or status set after the torrent went, and a delete failing after its release |
| TorrentJobsHeld.RunJobsHeld | internal/service/v1/torrent_service.go:751-800 | over every interleaving: all those jobs have their torrents at all times iff no such step happens |
| TorrentRaces.DropTakesNewJobsTorrent | internal/service/v1/torrent_files.go:346-377 | a run from the empty state in which a drop takes the torrent of a job inserted after the drop read the job list; exact condition in TorrentJobsHeld.StepJobsHeld |
| TorrentRaces.OverlappingDeletesOrphan | internal/service/v1/torrent_service.go:441-465 | a run in which two overlapping deletes leave a torrent that nobody owns; exact condition in TorrentOwnership.StepNoOrphans |
| TorrentRaces.DeleteBesideRefusedSubmission | internal/service/v1/torrent_service.go:441-465 | a run in which one delete beside a refused submission does |
| TorrentRaces.CancelTakesMagnetsTorrent | internal/service/v1/torrent_service.go:751-780 | a run in which cancelling a job takes the torrent of a waiting magnet |
| TorrentSteps.OperationRuns | internal/service/v1/torrent_service.go:101-465 | every whole service operation, refusals, client errors, cancellations and failing deletes included, is a run of the machine's steps from any of its states, to the same shared state |
| TorrentService.TorrentService.DeletePendingLocked | internal/service/v1/torrent_files.go:288-302 | in place: the entry leaves the map, its channel is closed and its timer stopped; every cached magnet's channel stays open |
| TorrentService.TorrentService.SweepExpiredPendingUploadsLocked | internal/service/v1/torrent_files.go:309-321 | removes exactly the expired entries, each once, in some order, and returns them |
| TorrentService.TorrentService.DropUnusedTorrent | internal/service/v1/torrent_files.go:346-377 | drops the torrent unless a queued, downloading or importing job or a live magnet is on the info hash |
| TorrentService.TorrentService.DropPendingTorrents | internal/service/v1/torrent_files.go:325-338 | drops for every removed magnet, in order, and for no .torrent upload |
| TorrentService.TorrentService.LookupPendingUpload | internal/service/v1/torrent_files.go:235-281 | to anybody but the owner a cached, unexpired entry is not found and nothing changes; found is the caller's own unexpired entry; each answer exactly when due; exactly the consuming answers remove the entry; an expired one's torrent is dropped if unused |
| TorrentService.TorrentService.UploadTorrentFile | internal/service/v1/torrent_files.go:66-118 | caches the caller's upload for 900 seconds, keeps exactly the unexpired entries as they were, then drops what the sweep removed |
| TorrentService.TorrentService.RegisterPendingMagnet | internal/service/v1/torrent_files.go:471-508 | keeps exactly the unexpired entries, and unless the client fails caches the caller's magnet for 900 seconds with the client's torrent; the swept entries are returned in both cases |
| TorrentService.TorrentService.AddTorrentMagnet | internal/service/v1/torrent_files.go:415-464 | an active job of the caller answers at once and nothing changes; otherwise registers and then drops what the sweep removed, a failing client included |
| TorrentService.UploadIsOps | internal/service/v1/torrent_files.go:104-109 | an upload has the effect of its operation and its drop operations, so the results over histories of operations hold of it |
| TorrentService.MagnetIsOps | internal/service/v1/torrent_files.go:455-459 | the same for adding a magnet |
| TorrentService.TorrentService.PublishMagnetInfo | internal/service/v1/torrent_files.go:527-541 | fills in name and files of a cached entry, and of no other |
| TorrentService.TorrentService.TimeOutMagnet | internal/service/v1/torrent_files.go:543-559 | marks a cached magnet timed out, then drops its torrent unless a queued, downloading or importing job or another live magnet is on it |
| TorrentService.TorrentService.ExpirePendingMagnet | internal/service/v1/torrent_files.go:564-577 | removes a cached entry and drops its torrent unless it is held; a removed one changes nothing |
| TorrentService.TorrentService.DiscardTorrentFile | internal/service/v1/torrent_files.go:582-596 | succeeds exactly on the caller's own unexpired entry, whatever its state; removes it and drops its torrent unless it is held; a stranger's attempt changes nothing |
| TorrentService.TorrentService.SubmitTorrentFile | internal/service/v1/torrent_files.go:148-225 | adds the caller's downloading job exactly for an own, unexpired, resolved entry that passes folder, duplicate, quota and size checks and the client; consumes the handle exactly as due; a refused magnet is dropped unless held; a stranger's attempt changes nothing |
| TorrentService.TorrentService.SubmitTorrent | internal/service/v1/torrent_service.go:101-180 | succeeds exactly if folder, duplicate, quota, client and size checks pass, and then only the new downloading row is added; otherwise the rows are as before and the torrent stays registered only if it is held or the wait was canceled |
| TorrentService.TorrentService.FinalizeTorrentSubmission | internal/service/v1/torrent_service.go:186-242 | a row exactly if no selected file exceeds the song limit and the sum fits the total limit; otherwise the torrent is dropped if unused |
| TorrentService.TorrentService.CheckSubmitQuota | internal/service/v1/torrent_service.go:248-280 | refuses exactly when the pending tracks are full, or a positive limit is reached by the user's active jobs |
| TorrentService.TorrentService.HasOtherActiveJobs | internal/service/v1/torrent_service.go:784-800 | true exactly if ListActive names another job on the info hash |
| TorrentService.TorrentService.ReleaseTorrent | internal/service/v1/torrent_service.go:751-780 | drops the torrent exactly if no other listed job needs it |
| TorrentService.TorrentService.CancelJob | internal/service/v1/torrent_service.go:366-385 | the row is canceled and no other changes; the torrent leaves the client exactly if no other queued, downloading or importing job is on it |
| TorrentService.TorrentService.DeleteJob | internal/service/v1/torrent_service.go:441-465 | the torrent is released exactly as for a cancel, then the row alone goes; a failure in between keeps the row |
| TorrentService.TorrentService.PauseJob | internal/service/v1/torrent_service.go:389-411 | sets the status of this row alone, whatever the old one, unless the unique index refuses |
| TorrentService.TorrentService.ResumeJob | internal/service/v1/torrent_service.go:415-437 | the same for a resumed job |
| TorrentService.TorrentService.ImportCompletedTorrent | internal/service/v1/torrent_service.go:560-638 | the row ends failed iff nothing was imported, seeding iff something was and seeding is configured, done iff something was and it is not; no other row changes; the torrent leaves the client iff the job is over and no other listed job is on it |
| TorrentService.TorrentService.SyncRow | internal/background/torrent_sync/task.go:124-184 | an incomplete or unregistered row, or one the index keeps from importing, is left alone with everything else; any other gets the outcome of its import as above |
| TorrentService.SyncOutcome | internal/background/torrent_sync/task.go:124-184 | the same outcome of the operation, so it holds in every history |
| TorrentJobsProofs.DropGood | internal/service/v1/torrent_files.go:346-377 | a drop keeps every active job and live magnet registered iff a listed job or live magnet stops it or no paused job is on the hash |
| TorrentJobsProofs.ReleaseGood | internal/service/v1/torrent_service.go:751-800 | a release does iff another listed job stops it or neither a paused job nor a live magnet is on the hash |
| TorrentJobsProofs.OpGood | internal/service/v1/torrent_service.go:101-465 | every service operation, client errors, cancellations and failing deletes included, keeps active jobs and live magnets registered iff its condition, checkable before the call, holds |
| TorrentJobRuns.RunGood | internal/service/v1/torrent_service.go:747-800 | over every history: all active jobs and live magnets are registered all the time iff every operation was safe when it ran |
| TorrentJobRuns.OpQuota | internal/service/v1/torrent_service.go:248-280 | every operation keeps every user within MaxConcurrentDownloads iff it is not a pause or resume reviving an ended job without a free slot |
| TorrentJobRuns.RunQuota | internal/service/v1/torrent_service.go:248-280 | over every history: nobody ever exceeds the limit iff no such pause or resume happened |
| TorrentJobRuns.OpOneActiveJob | migrations/20260914010000_torrent_downloads_dedup_index_include_paused.sql:6-9 | no operation gives a user two active jobs on one info hash |
| TorrentJobRuns.PausedJobLosesTorrent | internal/storage/pg/queries/torrent_downloads/torrent_downloads.sql:33-38 | a history of four operations after which a paused, active job has no torrent |
| TorrentJobRuns.ResumeExceedsQuota | internal/service/v1/torrent_service.go:415-437 | from the empty state, four operations and a resume that gives a user three active jobs of two |
| FileCache.ReaderGetsPrefix | internal/storage/files_cache/file.go:44-99 | in every run, for any short reads and any other readers, a reader's output is at all times a prefix of its range of the source |
| FileCache.DrainedReaderGotAll | internal/storage/files_cache/file.go:65-95 | a reader that stopped by itself received its whole range, cut to what the source delivered |
| FileCache.GetDelivers | internal/storage/files_cache/file.go:44-99 | in every run a Get that stopped by itself delivered exactly the bytes from the start to the end it was called with, -1 meaning the last byte, as far as the source delivered them |
| FileCache.BufferedStays | internal/storage/files_cache/file.go:126-141 | a byte once buffered is never changed |
| FileCache.TakeChunkProgress | internal/storage/files_cache/file.go:65-88 | after the upload no reader waits, a chunk lies inside the buffer, and the distance to the end shrinks with every chunk |
| FileCache.File.Upload | internal/storage/files_cache/file.go:101-142 | buffers exactly what the reads delivered, stops at the declared size, an error or the end and not before, overruns by less than one read |
| FileCache.File.NextChunk | internal/storage/files_cache/file.go:66-88 | waits exactly while nothing new is there and the upload runs; otherwise stops or yields the next non-empty slice |
| FileCache.File.GetFinished | internal/storage/files_cache/file.go:44-99 | on a finished upload the loop returns exactly the bytes asked for, -1 meaning the last one |
| AudioReader.CountingReader.ReadFull | internal/audio_parsers/mp3.go:82-91 | the count grows by exactly the bytes handed out, up to the limit |
| Duration.DurationExactIff | internal/audio_parsers/m4a.go:184 | count * 10^9 / rate in wrapping int64 is the exact floor iff the count is at most 9223372036, for every rate |
| M4aParser.ReadM4ABoxHeader | internal/audio_parsers/m4a.go:194-230 | consumes exactly the header it decodes, in compact or 64-bit form, or reports the end or a bad size |
| M4aParser.SkipM4ABoxPayload | internal/audio_parsers/m4a.go:234-249 | skips exactly the payload, everything for the sentinel, nothing for other negative lengths |
| M4aParser.FindM4AMvhdInMoov | internal/audio_parsers/m4a.go:95-135 | the loop over a moov's bytes equals the box walk and ends, with the bytes left as measure |
| M4aParser.FindM4AMvhdDuration | internal/audio_parsers/m4a.go:61-91 | the same for the top-level loop |
| M4aParser.ParseM4A | internal/audio_parsers/m4a.go:30-57 | on every stream: the result of the box walk, and on success the size is the stream's length by the reader's own count |
| M4a.SentinelOnlyFromSizeZero | internal/audio_parsers/m4a.go:194-230 | over all 2^64 largesizes the length -1 arises from size 0 only |
| M4a.PrintParse | internal/audio_parsers/m4a.go:30-135 | any ftyp, boxes other than moov, a moov whose first mvhd is given, any tail, each box in either form: parses to that mvhd's duration and the full length |
| M4a.NegativeIff | internal/audio_parsers/m4a.go:206-221 | a 64-bit size gives a negative payload length iff it is at least 2^63 + 16, and never the sentinel |
| M4a.NegativeBoxSkipsNothing | internal/audio_parsers/m4a.go:234-249 | a 64-bit box is skipped without consuming a byte iff it is empty or its length negative |
| M4a.MvhdPanicsIff | internal/audio_parsers/m4a.go:120-131 | a stream whose first mvhd declares a 64-bit size crashes the parser iff the size exceeds what make accepts, whatever follows |
| M4a.PrintParseOpenMoov | internal/audio_parsers/m4a.go:95-135 | the same for a last moov of size 0 |
| M4a.Mvhd0Exact | internal/audio_parsers/m4a.go:139-185 | a version 0 duration never overflows |
| M4a.Mvhd1ExactIff | internal/audio_parsers/m4a.go:164-185 | a version 1 duration is exact iff at most 9223372036 units |
| M4a.Mvhd0FailsIff | internal/audio_parsers/m4a.go:139-185 | a version 0 mvhd is refused iff its timescale is zero or its duration is the 32-bit unknown |
| M4a.Mvhd1FailsIff | internal/audio_parsers/m4a.go:139-185 | a version 1 mvhd is refused iff its timescale is zero or its duration is the 64-bit unknown |
| M4a.OtherFirstBoxFails | internal/audio_parsers/m4a.go:33-43 | a stream whose first box is any other than ftyp is refused |
| M4a.NoMoovFails | internal/audio_parsers/m4a.go:61-91 | boxes other than moov, then an end, a cut header or a bad size: refused |
| M4a.NoMvhdFails | internal/audio_parsers/m4a.go:95-135 | the same inside the moov, before any mvhd |
| M4a.CutBoxFails | internal/audio_parsers/m4a.go:234-249 | a box cut short by the end of the stream before any moov: refused |
| Adts.ParseAAC | internal/audio_parsers/aac.go:17-95 | on every stream: the frame walk's result, with termination, and on success the stream's length |
| Adts.PrintParse | internal/audio_parsers/aac.go:26-95 | every non-empty sequence of well-formed frames, with or without CRC, 1 to 4 blocks: full size, and the duration of all samples at the first frame's rate, exact iff at most 9223372036 samples |
| Adts.RatesAre | internal/audio_parsers/aac.go:11-14 | the rate table by its structure: the first three rates, the last, and each other half the one three places before |
| Adts.CutParse | internal/audio_parsers/aac.go:26-95 | a stream that ends inside a frame parses, to its full size; the cut frame's blocks count iff its header, CRC included, is complete |
| Adts.BadFrameFails | internal/audio_parsers/aac.go:26-85 | after any frames, a lost sync word, a reserved rate or a length below the header's own fails the parse |
| Flac.ParseFLAC | internal/audio_parsers/flac.go:11-82 | on every stream: the metadata walk's result, with termination, and on success the stream's length |
| Flac.PrintParse | internal/audio_parsers/flac.go:24-82 | any metadata blocks ahead of a packed STREAMINFO: both bit fields come back, full size, exact iff at most 9223372036 samples |
| Flac.StreamInfoDecides | internal/audio_parsers/flac.go:24-82 | the first STREAMINFO block alone decides, whatever surrounds it |
| Flac.PanicsIffShort | internal/audio_parsers/flac.go:50-78 | the parser crashes iff STREAMINFO is shorter than what it indexes |
| Flac.DeadEndFails | internal/audio_parsers/flac.go:24-48 | after any metadata blocks, an end inside a header or block, or a last block of another type, fails the parse |
| Flac.ZeroRateFails | internal/audio_parsers/flac.go:50-78 | a STREAMINFO with a zero rate fails the parse |
| Base64Url.DecodeEncode | internal/service/v1/storage_oauth_state.go:27-28 | every byte string survives encoding and decoding |
| Base64Url.EncodeDecodeIff | internal/service/v1/storage_oauth_state.go:39-47 | an accepted text is the encoding of what it decodes to iff it has no newline and zero unused bits |
| Base64Url.EncodeAt | internal/service/v1/storage_oauth_state.go:27-28 | each digit printed is the sextet's letter in the alphabet of section 5 of RFC 4648 |
| Base64Url.GroupAt | internal/service/v1/storage_oauth_state.go:27-28 | three octets and their four sextets are one 24-bit number, high bits first |
| Base64Url.LastGroup | internal/service/v1/storage_oauth_state.go:27-28 | one or two octets left over become two or three sextets, zero-filled on the right |
| Strings.CutAt | internal/service/v1/storage_oauth_state.go:34 | Cut finds the first separator |
| Strings.ParseFormatInt | internal/service/v1/storage_oauth_state.go:25 | every int64 survives FormatInt and ParseInt |
| Strings.FormatIsDecimal | internal/service/v1/storage_oauth_state.go:25 | a number is printed in base ten without leading zeros |
| OauthState.SignVerify | internal/service/v1/storage_oauth_state.go:23-74 | for every uuid and all times: what was signed at t verifies at t' to that uuid iff t' <= t + 600 seconds |
| OauthState.AcceptedCarriesMac | internal/service/v1/storage_oauth_state.go:33-74 | any accepted text carries the MAC of its own payload, which names the uuid and an expiry not yet passed |
| OauthState.OtherKey | internal/service/v1/storage_oauth_state.go:49-53 | under another key a signed state is accepted iff both keys give its payload one MAC and it has not expired |
| OauthState.SwappedPayload | internal/service/v1/storage_oauth_state.go:49-53 | a payload under another payload's signature is accepted iff their MACs collide |
| SearchResultId.IdRoundTrip | internal/service/v1/torrent_search_result_id.go:31-118 | over every release: the id parses back to the magnet, to the magnet built from the info hash, or to path and query, and is refused iff that path is no download path |
| SearchResultId.IdNoneIff | internal/service/v1/torrent_search_result_id.go:31-56 | no id is made iff the release has no magnet, link or hash, or the link that would be used does not parse |
| SearchResultId.MagnetReadsBack | internal/service/v1/torrent_search_result_id.go:75-77 | the magnet of an info hash reads back as a btih topic of the lower-cased hash and the escaped title as display name |
| SearchResultId.BaseStripped | internal/service/v1/torrent_search_result_id.go:58-62 | the base path goes from the front of a path, whatever slashes end the setting; a path not below it stays |
| SearchResultId.PathAndQueryReads | internal/service/v1/torrent_search_result_id.go:64-70 | what is sent on is the path below the base, and behind a '?' the remaining pairs in order, if any |
| SearchResultId.DownloadPathIff | internal/service/v1/torrent_search_result_id.go:22-24 | a download path is '/', a decimal number and "/download" |
| SearchResultId.QueryKeepsPath | internal/service/v1/torrent_search_result_id.go:111-115 | the path that is checked is that of the link below the base, whatever query is printed |
| SearchResultId.DownloadLinkAccepted | internal/service/v1/torrent_search_result_id.go:52-118 | every /<digits>/download link below the base, with any query, comes back as its path and query without the api key |
| SearchResultId.SplitEncoded | internal/service/v1/torrent_search_result_id.go:64-70 | a printed query reads back pair by pair |
| SearchResultId.QueryHasNoApiKey | internal/service/v1/torrent_search_result_id.go:64-70 | no pair of the printed query has the api key's name |
| Uploads.FindByHash | internal/service/v1/upload_pipeline.go:106-114 | a row of that user and hash if there is one, none exactly if there is none |
| UploadsProofs.ResolveFree | internal/service/v1/upload_pipeline.go:179-207 | a resolved path has no row, lies in the upload's directory, and is not the staging file's |
| UploadsProofs.ResolveFails | internal/service/v1/upload_pipeline.go:194-207 | resolution fails iff the plain name and every suffixed name are taken |
| UploadsProofs.CandidatesDistinct | internal/service/v1/upload_pipeline.go:166-205 | the candidate names are pairwise distinct: 61 for a 64-character hash |
| UploadsProofs.CandidatesAre | internal/service/v1/upload_pipeline.go:166-205 | the candidates are the name itself and the name with at least five characters of the hash |
| UploadsProofs.SuffixedPrinted | internal/service/v1/upload_pipeline.go:190-195 | the hash prefix goes, behind a hyphen, between base and extension of any printed name |
| UploadsProofs.ExtIs | internal/service/v1/upload_pipeline.go:190-191 | the extension is the part from the last dot of the last path component on, and empty iff that has no dot |
| UploadsProofs.CoverPrinted | internal/service/v1/file_service.go:113-117 | a printed name is a cover iff its extension is one of five, in any case |
| UploadsProofs.ResolveFailsOnlyWhenFull | internal/service/v1/upload_pipeline.go:179-207 | so failing needs at least that many rows in the directory |
| UploadsProofs.SaveAgrees | internal/service/v1/upload_pipeline.go:55-164 | an upload keeps files and rows in exact agreement iff neither the stream breaks off before the limit cuts it nor the insert fails |
| UploadsProofs.SaveOutcome | internal/service/v1/upload_pipeline.go:55-164 | an upload is stored iff its stream ends within the limit, a cover is an image, no storage call that is reached fails, and the user has the content already or some candidate name is free and the total fits; and each error arises exactly when it is due |
| UploadsProofs.SaveRows | internal/service/v1/upload_pipeline.go:106-163 | new content gives one new row with its path, size, hash, user and cover flag, enqueued for parsing iff it is no cover; a duplicate answers an existing row of that user and hash; nothing else changes a row |
| UploadsProofs.SaveName | internal/service/v1/upload_pipeline.go:179-207 | new content gets the shortest candidate name that is free |
| UploadsProofs.SaveStores | internal/service/v1/upload_pipeline.go:55-164 | an accepted upload is complete and within the limit, its path holds exactly its bytes under a row of the user, no other file changed |
| UploadsProofs.RefusedLeavesNothing | internal/service/v1/upload_pipeline.go:76-140 | a refused upload that leaks nothing, and a duplicate, leave both stores as they were |
| UploadsProofs.KnownContentReused | internal/service/v1/upload_pipeline.go:106-114 | content the user has is never stored again, whatever its name |
| UploadsProofs.SecondUploadReused | internal/service/v1/upload_pipeline.go:51-54 | a second upload of the same content gives the first one's id and path and changes nothing |
| UploadsProofs.SaveTotals | internal/service/v1/upload_pipeline.go:134-142 | an upload adds its own size to its own user's total, up to the cap, or nothing |
| UploadsProofs.DeleteAgrees | internal/service/v1/file_service.go:332-366 | a delete succeeds iff the file is the user's own and unattached, takes away just that file, and keeps the agreement |
| UploadsProofs.DeleteUndoesSave | internal/service/v1/file_service.go:332-366 | deleting what an upload just created restores both stores |
| UploadsProofs.RunAgrees | internal/service/v1/upload_pipeline.go:55-164 | over every history of uploads and deletes: files and rows agree all the time iff nothing leaked |
| UploadsProofs.RunTotals | internal/service/v1/upload_pipeline.go:134-142 | over every history, whatever fails, no user's total exceeds the cap |
| UploadPipeline.Pipeline.ResolveTargetPath | internal/service/v1/upload_pipeline.go:179-207 | the probing loop finds the first free candidate, or none |
| UploadPipeline.Pipeline.Save | internal/service/v1/upload_pipeline.go:55-164 | stage by stage in place: accepted exactly when due, with the error of the stage that refuses, the new row, job and shortest free name as above; both stores are those of the pipeline function, faults included |
| UploadPipeline.Pipeline.DeleteUploadedFile | internal/service/v1/file_service.go:332-366 | only the user's own unattached row of that id goes, and its file; every other answer changes nothing |
| JobUpdates.StepInv | internal/background/torrent_sync/broadcaster.go:26-73 | a step keeps the broadcaster sound without a panic iff it is not a second Unsubscribe or one under another user |
| JobUpdates.RunInv | internal/background/torrent_sync/broadcaster.go:26-73 | over every run with one Unsubscribe per channel by its own user: no send or close panics, no buffer exceeds one job, no empty user set is kept, each subscriber gets an in-order subsequence of its user's jobs since it subscribed |
| JobUpdates.UnskippedIsComplete | internal/background/torrent_sync/broadcaster.go:65-72 | an open channel got or holds every such job, in order, iff no send found it full |
| JobUpdates.StepAccepts | internal/background/torrent_sync/broadcaster.go:65-72 | what a channel received and holds changes iff a job is sent while its slot is empty, and grows by that job; only a receive takes out, and takes what waited |
| JobUpdates.AcceptedStays | internal/background/torrent_sync/broadcaster.go:65-72 | over every run, what a channel accepted is never lost or reordered |
| JobUpdates.WaitingIsNext | internal/background/torrent_sync/broadcaster.go:65-72 | over every run, the job that waits in a slot is the next one received, whatever is published meanwhile |
| Broadcaster.PublishAnyOrder | internal/background/torrent_sync/broadcaster.go:56-73 | whatever order the set is iterated in, the sends of a Publish have one effect |
| Broadcaster.Broadcaster.Subscribe | internal/background/torrent_sync/broadcaster.go:26-37 | a new open channel joins its user's set |
| Broadcaster.Broadcaster.Unsubscribe | internal/background/torrent_sync/broadcaster.go:41-52 | the channel leaves its set, an empty set goes, the channel is closed |
| Broadcaster.Broadcaster.Publish | internal/background/torrent_sync/broadcaster.go:56-73 | an empty slot of the user's open channels takes the job, a full one keeps the job it has, no other channel changes |
| StorageConfigs.EditRedacted | internal/service/v1/storage_service.go:459-580 | for every valid stored config of every kind, merging its redacted form gives it back |
| StorageConfigs.ValidIff | internal/service/v1/storage_service.go:484-530 | a config is valid, and of which kind, field by field |
| StorageConfigs.MergeEdits | internal/service/v1/storage_service.go:532-580 | for every kind: an edit is accepted iff its own fields and kept secrets suffice, and then every non-secret field is the incoming one, each secret the incoming one or, if left empty, the stored one (for Google Drive of the same client only), and the refresh token stays iff the client id does |
| StorageConfigs.MergeValid | internal/service/v1/storage_service.go:532-580 | a successful merge is valid and of the same kind |
| StorageConfigs.RedactShowsNoSecret | internal/service/v1/storage_service.go:459-482 | two configs look the same redacted iff they differ in secrets only |
| StorageConfigs.EditKeepsConnection | internal/service/v1/storage_service.go:560-572 | an edited Google Drive storage is connected iff it was and its client id stays |
| StorageRegistryProofs.StepKinds | internal/service/v1/storage_service.go:84-211 | every step keeps each row's kind that of its valid config, and the local row in place |
| StorageRegistryProofs.RunKinds | internal/storage/file_storage_providers/registry.go:113-138 | over every interleaving construct never rejects a reachable row |
| StorageRegistryProofs.StepCoherent | internal/storage/file_storage_providers/registry.go:45-111 | a step keeps every cached provider current, or about to be invalidated, iff it does not insert a provider that is neither |
| StorageRegistryProofs.RunCoherent | internal/storage/file_storage_providers/registry.go:45-111 | over every interleaving: the cache is right all the time iff no such insert happens |
| StorageHistories.ThreadOrigin | internal/storage/file_storage_providers/registry.go:45-111 | every operation in progress was opened by one earlier step and stands as its checks left it |
| StorageHistories.UnsafeInsertIsLate | internal/storage/file_storage_providers/registry.go:88-111 | every insert that spoils the cache belongs to a Get whose row was changed by another operation, and invalidated by it, strictly between the read and the insert |
| StorageHistories.StaleHasHistory | internal/storage/file_storage_providers/registry.go:45-111 | whenever the cache is wrong, such a late build came before |
| StorageDefaults.StepOneDefault | internal/storage/pg/storages.go:108-120 | a step keeps exactly one default iff it is neither a SetDefault of a storage deleted since its check nor a Delete of one made default since |
| StorageDefaults.RunOneDefault | internal/service/v1/storage_service.go:175-246 | over every interleaving: exactly one default all the time iff no such step happened |
| StorageDefaults.SerialRun | internal/service/v1/storage_service.go:84-246 | operations one at a time: cache right, one default, always |
| StorageHistories.WriteSeenFromStart | internal/service/v1/storage_service.go:125-246 | the configuration a write carries is without a connection iff the write was opened by an Update naming another client than the row then had, or meeting it without a refresh token |
| StorageHistories.RunDefaultConnected | internal/service/v1/storage_service.go:125-246 | over every interleaving: the default is connected all the time iff no such write, and no SetDefault of a storage disconnected since its check, happens |
| StorageDefaults.NewClientDisconnectsDefault | internal/service/v1/storage_service.go:125-173 | an accepted Update with nothing in between leaves the default connected iff it does not give a default Google Drive storage a new client id |
| StorageDefaults.DeleteTakesDefault | internal/service/v1/storage_service.go:175-211 | a delete and a SetDefault that leave no default |
| StorageDefaults.LateBuildStaysStale | internal/storage/file_storage_providers/registry.go:88-111 | an update during a build leaves the old provider cached, with nothing in flight to remove it |
| StorageService.PerformSound | internal/service/v1/storage_service.go:84-339 | every whole operation keeps kinds, cache and default sound |
| StorageService.StorageService.Get | internal/storage/file_storage_providers/registry.go:45-67 | answers with the provider of the current row's kind and configuration, for every row and no other id, cached or not |
| StorageService.StorageService.Default | internal/storage/file_storage_providers/registry.go:69-81 | resolves the one default storage, and always finds a provider |
| StorageService.StorageService.Create | internal/service/v1/storage_service.go:84-123 | succeeds exactly for a new non-empty name and one valid part; adds that row, not default and without a refresh token, and changes nothing else; sound before and after |
| StorageService.StorageService.Update | internal/service/v1/storage_service.go:125-173 | succeeds exactly for a non-local row, a name free of other rows and an acceptable edit; then the row has that name and the edited config field by field, its kind and default flag, no other row changes, its provider leaves the cache; sound before and after |
| StorageService.StorageService.Delete | internal/service/v1/storage_service.go:175-211 | succeeds exactly for a non-local, non-default row without files; exactly that row and its cached provider go |
| StorageService.StorageService.SetDefault | internal/service/v1/storage_service.go:213-246 | succeeds exactly for a row that is connected; then it alone is the default and nothing else changes |
| StorageService.StorageService.CompleteGoogleDriveAuth | internal/service/v1/storage_service.go:298-339 | succeeds exactly for a Google Drive row and a non-empty token; only the row's refresh token changes, and its provider leaves the cache |
| Selection.Torrent.ApplySelectedPriority | internal/service/v1/torrent_client.go:124-159 | marks exactly the chosen supported files; succeeds iff the selection is non-empty and names only supported files of the torrent |
| Selection.Torrent.SelectedFilesOf | internal/service/v1/torrent_client.go:167-178 | the marked files, in order |
| Selection.MarkedChosen | internal/service/v1/torrent_client.go:161-178 | after a selection the marked files are exactly its result |
| Selection.ChosenInOrder | internal/service/v1/torrent_client.go:124-159 | the chosen files come in the torrent's order, each once |
| Selection.SelectedExactly | internal/service/v1/torrent_client.go:124-159 | an accepted selection downloads exactly the paths asked for |
| Selection.LastSelectionWins | internal/service/v1/torrent_client.go:133-145 | after two selections on one torrent the second alone counts, and the first job's files stay marked iff the second covers them |
| Selection.SumFileProgress | internal/background/torrent_sync/task.go:188-195 | both sums |
| Selection.CompleteIff | internal/background/torrent_sync/task.go:200-206 | the summed test holds iff there is something to download and every file is there in full |

## Left out

- TorrentService.TorrentService.UploadTorrentFile: the caller's permission checks and the parsing of the .torrent bytes are not part of the model.
- TorrentService.TorrentService.SubmitTorrent: permission checks and parsing as above; announce lists and trackers are not modelled; the length sums are unbounded integers; a row that is inserted also gets its progress and status.
- TorrentService.TorrentService.CheckSubmitQuota: the pending files are counted by the caller, and listing them or the rows does not fail.
- TorrentService.TorrentService.ReleaseTorrent: does not remove scratch directories.
- TorrentService.TorrentService.DeleteJob: the imported files' rows and garbage jobs are not modelled, only that deleting them may fail.
- TorrentService.TorrentService.PauseJob: does not model the torrent's data-download switch, which all jobs on the torrent share.
- TorrentService.TorrentService.ResumeJob: the same.
- TorrentService.TorrentService.ImportCompletedTorrent: the number of imported files is an input; importing one file is the upload pipeline's part.
- TorrentService.TorrentService.SyncRow: whole sync passes only; progress rows and the published updates are not modelled, and an import fails only for a torrent that is not registered.
- TorrentJobsProofs.OpGood: whole operations without storage failures other than those of a delete; the step machine has the others.
- TorrentJobRuns.RunQuota: whole operations; the quota under concurrent submissions is not claimed, since the code checks and inserts in separate steps.
- Looking a torrent up in the client and dropping it count as one step.
- FileCache.File.GetFinished: Get while the upload still runs is covered by the machine in `FileCache`, not by a method that blocks.
- FileCache.File.Upload: a second Upload on one File, and File.Stream, are not modelled; source errors other than the end look like the end.
- OauthState.SignVerify: HMAC-SHA256 is an arbitrary function of the payload, uuid printing and parsing an abstract pair, and expiries stay within int64.
- SearchResultId.IdRoundTrip: URL parsing and query escaping are abstract functions; the download-path pattern is written out.
- UploadsProofs.SaveAgrees: moves and deletions of files do not fail, an upload's directory can always be created, and names are single path components; hashing is an arbitrary function, injective where said so.
- UploadPipeline.Pipeline.Save: runs one at a time; two uploads of one user at once can pass the dedup and cap checks together.
- UploadsProofs.RunTotals: the cap is that of the uploads in the run, as int, without int64 overflow.
- `StorageRegistry` keeps configurations as they are; JSON and AES-GCM are an exact codec, and names are already trimmed.
- StorageService.PerformSound: administrator and secrets-key checks, which only refuse, are not modelled; nor is the probing of a storage.
- StorageService.StorageService.CompleteGoogleDriveAuth: the state is verified in `OauthState`, and the redirect address and the exchange are not modelled; the token is an input.
- M4aParser.FindM4AMvhdInMoov: what `make` accepts is a constant, the address space of a 64-bit Go process; running out of memory below it is not modelled.
- M4aParser.ParseM4A: the stream's reader does not fail.
- The mp3 parser and the ristretto song cache rest on libraries that are not part of this model.
- SQL beyond the cited queries, gRPC, HTTP, Telegram, the UI, configuration and logging are not part of this model.
- Playlists, albums, feeds and search add only easy members.
