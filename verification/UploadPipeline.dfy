/** The upload pipeline as the service runs it, stage by stage on its stores. */
module UploadPipeline {
  import opened Bytes
  import opened Wrappers
  import opened Uploads
  import Proofs = UploadsProofs

  class Pipeline {
    var disk: map<Path, seq<byte>>
    var rows: seq<Row>
    var nextId: int
    var parseJobs: seq<(int, Path)>
    const env: Env

    constructor (env: Env)
      ensures Abs() == Stores(map[], [], 1, []) && this.env == env
    {
      disk, rows, nextId, parseJobs := map[], [], 1, [];
      this.env := env;
    }

    ghost function Abs(): Stores
      reads this
    {
      Stores(disk, rows, nextId, parseJobs)
    }

    // ---- The local storage provider -------------------------------------------------

    method SaveToTempFolder(path: Path, req: Request) returns (ok: bool)
      modifies `disk
      ensures disk == old(disk)[path := Staged(req)] && ok == !ReadBreaks(req)
    {
      var limit := req.maxSong + 1;
      var written: seq<byte> := [];
      // io.Copy through io.LimitReader, one byte at a time
      while |written| < limit && |written| < |req.content|
        invariant |written| <= |req.content| && written == req.content[..|written|]
        invariant |written| <= limit || written == []
        decreases |req.content| - |written|
      {
        written := written + [req.content[|written|]];
      }
      assert |written| == |req.content| ==> written == req.content;
      disk := disk[path := written];
      ok := |written| >= limit || !req.breaksOff;
    }

    method Move(from: Path, to: Path)
      requires from in disk
      modifies `disk
      ensures disk == old(disk)[to := old(disk[from])] - {from}
    {
      disk := disk[to := disk[from]];
      disk := disk - {from};
    }

    method DeleteTempFile(path: Path)
      modifies `disk
      ensures disk == old(disk) - {path}
    {
      disk := disk - {path};
    }

    // ---- The pipeline ------------------------------------------------------------------

    method ResolveTargetPath(req: Request, hash: string) returns (r: Option<Path>)
      ensures r == Resolve(rows, req, hash)
    {
      if !Taken(rows, Plain(req)) {
        return Some(Plain(req));
      }
      var prefixLen := MinPrefix;
      while prefixLen <= |hash|
        invariant MinPrefix <= prefixLen
        invariant FirstFree(rows, req, hash, MinPrefix) == FirstFree(rows, req, hash, prefixLen)
        decreases |hash| - prefixLen
      {
        if !Taken(rows, Suffixed(req, hash, prefixLen)) {
          return Some(Suffixed(req, hash, prefixLen));
        }
        prefixLen := prefixLen + 1;
      }
      r := None;
    }

    method Save(req: Request, staging: Path, fault: Fault) returns (r: Outcome)
      modifies this
      ensures (Abs(), r) == Uploads.Save(old(Abs()), req, staging, fault, env)
      // which answer, what became of the rows and jobs, and which name was taken
      ensures Proofs.OutcomeDue(old(rows), req, fault, env, r)
      ensures Proofs.RowsAfter(old(Abs()), Abs(), r, req, env)
      ensures r.Stored? && !Proofs.Known(old(rows), req, env) ==> Proofs.BestName(old(rows), req, env, r.path)
    {
      ghost var before := Abs();
      Proofs.SaveOutcome(before, req, staging, fault, env);
      Proofs.SaveRows(before, req, staging, fault, env);
      Proofs.SaveName(before, req, staging, fault, env);
      var complete := SaveToTempFolder(staging, req);
      if !complete {
        return Refused(ReadFailed);
      }
      var bytes := disk[staging];
      if |bytes| > req.maxSong {
        DeleteTempFile(staging);
        DropStaged(before.disk, staging, bytes);
        return Refused(SongTooLarge);
      }
      if IsCover(req.name) && !env.validImage(ToLower(Ext(req.name)), bytes) {
        DeleteTempFile(staging);
        DropStaged(before.disk, staging, bytes);
        return Refused(NotAnImage);
      }
      if fault == HashLookup {
        DeleteTempFile(staging);
        DropStaged(before.disk, staging, bytes);
        return Refused(StorageFailed);
      }
      var existing := FindByHash(rows, env.hash(bytes), req.userId);
      if existing.Some? {
        DeleteTempFile(staging);
        DropStaged(before.disk, staging, bytes);
        return Stored(existing.value.id, existing.value.path);
      }
      r := Place(req, staging, fault, bytes, before);
    }

    /** store from the dedup decision on: the content is new to the user. */
    method Place(req: Request, staging: Path, fault: Fault, bytes: seq<byte>, ghost before: Stores) returns (r: Outcome)
      requires Abs() == before.(disk := before.disk[staging := bytes])
      requires bytes == Staged(req)
      modifies this
      ensures (Abs(), r) == Settle(before, req, staging, fault, env,
                                   DecidePlace(before.rows, req, fault, env.hash(bytes)))
    {
      if fault == PathProbe {
        DeleteTempFile(staging);
        DropStaged(before.disk, staging, bytes);
        return Refused(StorageFailed);
      }
      var target := ResolveTargetPath(req, env.hash(bytes));
      if target.None? {
        DeleteTempFile(staging);
        DropStaged(before.disk, staging, bytes);
        return Refused(PathsExhausted);
      }
      var path := target.value;
      Move(staging, path);
      assert disk == before.disk[path := bytes] - {staging};
      if fault == TotalLookup {
        DeleteTempFile(path);
        return Refused(StorageFailed);
      }
      if Total(rows, req.userId) + |bytes| > req.maxTotal {
        DeleteTempFile(path);
        return Refused(TotalTooLarge);
      }
      if fault == InsertRow {
        return Refused(StorageFailed);
      }
      r := Insert(req, path, bytes);
    }

    method Insert(req: Request, path: Path, bytes: seq<byte>) returns (r: Outcome)
      modifies `rows, `nextId, `parseJobs
      ensures rows == old(rows) + [Row(old(nextId), path, |bytes|, env.hash(bytes), req.userId, IsCover(req.name))]
      ensures nextId == old(nextId) + 1 && r == Stored(old(nextId), path)
      ensures parseJobs == if IsCover(req.name) then old(parseJobs) else old(parseJobs) + [(old(nextId), path)]
    {
      var id := nextId;
      rows := rows + [Row(id, path, |bytes|, env.hash(bytes), req.userId, IsCover(req.name))];
      nextId := nextId + 1;
      if !IsCover(req.name) {
        parseJobs := parseJobs + [(id, path)];
      }
      r := Stored(id, path);
    }

    static lemma DropStaged(disk: map<Path, seq<byte>>, staging: Path, bytes: seq<byte>)
      ensures disk[staging := bytes] - {staging} == disk - {staging}
    {
    }

    method DeleteUploadedFile(userId: int, id: int, attached: bool) returns (r: Option<Error>)
      modifies this
      ensures (Abs(), r) == Delete(old(Abs()), userId, id, attached)
      ensures r == Some(NotFound) <==> forall i :: 0 <= i < |old(rows)| ==> old(rows)[i].id != id
      ensures r.Some? ==> Abs() == old(Abs())
      ensures r.None? ==> && !attached && Proofs.Owns(old(rows), userId, id)
                          && exists i :: 0 <= i < |old(rows)| && old(rows)[i].id == id && old(rows)[i].userId == userId
                               && rows == old(rows)[..i] + old(rows)[i + 1..] && disk == old(disk) - {old(rows)[i].path}
    {
      var found := Find(rows, id);
      if found.None? {
        return Some(NotFound);
      }
      var file := rows[found.value];
      if file.userId != userId {
        return Some(PermissionDenied);
      }
      if attached {
        return Some(AlreadyUsed);
      }
      rows := rows[..found.value] + rows[found.value + 1..];
      DeleteTempFile(file.path);
      r := None;
    }
  }
}
