/**
 The upload pipeline over its two stores: the bytes on disk and the files_meta
 rows. Paths are the three parts of tmp/<user>/<folder>/<name>.
 */
module Uploads {
  import opened Bytes
  import opened Wrappers

  datatype Path = Path(userId: int, folder: string, name: string)
  datatype Row = Row(id: int, path: Path, size: int, hash: string, userId: int, verified: bool)
  datatype Stores = Stores(disk: map<Path, seq<byte>>, rows: seq<Row>, nextId: int, parseJobs: seq<(int, Path)>)

  /** SHA-256 in hex, and verifyImage of an extension and a file's bytes. */
  datatype Env = Env(hash: seq<byte> -> string, validImage: (string, seq<byte>) -> bool)

  /** content is what the reader delivers; breaksOff says that it then fails
      rather than end. */
  datatype Request = Request(userId: int, name: string, folder: string, content: seq<byte>, breaksOff: bool,
                             maxSong: int, maxTotal: int)

  /** The one storage call that fails, if any. */
  datatype Fault = NoFault | HashLookup | PathProbe | TotalLookup | InsertRow

  datatype Error = ReadFailed | SongTooLarge | NotAnImage | StorageFailed | PathsExhausted | TotalTooLarge
                 | NotFound | PermissionDenied | AlreadyUsed

  datatype Outcome = Stored(id: int, path: Path) | Refused(error: Error)

  // ---- Names ------------------------------------------------------------------

  /** path.Ext */
  function Ext(name: string): (e: string)
    ensures |e| <= |name| && name[|name| - |e|..] == e
    decreases |name|
  {
    if name == "" || name[|name| - 1] == '/' then ""
    else if name[|name| - 1] == '.' then "."
    else
      var e := Ext(name[..|name| - 1]);
      if e == "" then "" else e + [name[|name| - 1]]
  }

  /** strings.TrimSuffix(name, path.Ext(name)) */
  function Base(name: string): (b: string)
    ensures b + Ext(name) == name
  {
    name[..|name| - |Ext(name)|]
  }

  function ToLower(s: string): string {
    seq(|s|, i requires 0 <= i < |s| => if 'A' <= s[i] <= 'Z' then s[i] - 'A' + 'a' else s[i])
  }

  predicate IsCover(name: string) {
    ToLower(Ext(name)) in {".jpg", ".jpeg", ".png", ".webp", ".gif"}
  }

  const MinPrefix := 5

  function Plain(req: Request): Path {
    Path(req.userId, req.folder, req.name)
  }

  function Suffixed(req: Request, hash: string, prefixLen: nat): Path
    requires prefixLen <= |hash|
  {
    Path(req.userId, req.folder, Base(req.name) + "-" + hash[..prefixLen] + Ext(req.name))
  }

  // ---- Queries on files_meta ---------------------------------------------------

  predicate Taken(rows: seq<Row>, p: Path) {
    exists i :: 0 <= i < |rows| && rows[i].path == p
  }

  function FindByHash(rows: seq<Row>, hash: string, userId: int): (r: Option<Row>)
    ensures r.Some? ==> r.value in rows && r.value.hash == hash && r.value.userId == userId
    ensures r.None? <==> forall i :: 0 <= i < |rows| ==> !(rows[i].hash == hash && rows[i].userId == userId)
  {
    if rows == [] then None
    else if rows[0].hash == hash && rows[0].userId == userId then Some(rows[0])
    else FindByHash(rows[1..], hash, userId)
  }

  function Find(rows: seq<Row>, id: int): (r: Option<nat>)
    ensures r.Some? ==> r.value < |rows| && rows[r.value].id == id
    ensures r.None? <==> forall i :: 0 <= i < |rows| ==> rows[i].id != id
  {
    if rows == [] then None
    else if rows[0].id == id then Some(0)
    else match Find(rows[1..], id) case None => None case Some(i) => Some(i + 1)
  }

  function Total(rows: seq<Row>, userId: int): int {
    if rows == [] then 0 else (if rows[0].userId == userId then rows[0].size else 0) + Total(rows[1..], userId)
  }

  // ---- resolveTargetPath ---------------------------------------------------------

  function FirstFree(rows: seq<Row>, req: Request, hash: string, prefixLen: nat): Option<Path>
    decreases |hash| - prefixLen
  {
    if prefixLen > |hash| then None
    else if !Taken(rows, Suffixed(req, hash, prefixLen)) then Some(Suffixed(req, hash, prefixLen))
    else FirstFree(rows, req, hash, prefixLen + 1)
  }

  function Resolve(rows: seq<Row>, req: Request, hash: string): Option<Path> {
    if !Taken(rows, Plain(req)) then Some(Plain(req)) else FirstFree(rows, req, hash, MinPrefix)
  }

  // ---- store and deleteUploadedFile -------------------------------------------------

  /** io.LimitReader cuts the stream one byte past the limit. */
  function Staged(req: Request): seq<byte> {
    if |req.content| <= req.maxSong then req.content
    else if req.maxSong < 0 then []
    else req.content[..req.maxSong + 1]
  }

  /** The reader's failure shows only if the limit does not cut the stream first. */
  predicate ReadBreaks(req: Request) {
    req.breaksOff && |req.content| <= req.maxSong
  }

  predicate ImageRejected(req: Request, env: Env) {
    IsCover(req.name) && !env.validImage(ToLower(Ext(req.name)), Staged(req))
  }

  /** What store decides once its input is staged: insert at a path, reuse a
      row, refuse, or refuse after the move to a path. */
  datatype Decision = Keep(path: Path) | Reuse(row: Row) | Reject(error: Error) | TakeBack(path: Path, error: Error)

  function Decide(rows: seq<Row>, req: Request, fault: Fault, env: Env): Decision {
    var bytes := Staged(req);
    var hash := env.hash(bytes);
    if |bytes| > req.maxSong then Reject(SongTooLarge)
    else if ImageRejected(req, env) then Reject(NotAnImage)
    else if fault == HashLookup then Reject(StorageFailed)
    else
      match FindByHash(rows, hash, req.userId)
      case Some(row) => Reuse(row)
      case None => DecidePlace(rows, req, fault, hash)
  }

  /** The same for content that is new to the user. */
  function DecidePlace(rows: seq<Row>, req: Request, fault: Fault, hash: string): (d: Decision)
    ensures d.Keep? ==> Resolve(rows, req, hash) == Some(d.path)
    ensures d.Keep? ==> Total(rows, req.userId) + |Staged(req)| <= req.maxTotal
    ensures d.TakeBack? ==> Resolve(rows, req, hash) == Some(d.path)
    ensures !d.Reuse?
  {
    if fault == PathProbe then Reject(StorageFailed)
    else
      match Resolve(rows, req, hash)
      case None => Reject(PathsExhausted)
      case Some(path) =>
        if fault == TotalLookup then TakeBack(path, StorageFailed)
        else if Total(rows, req.userId) + |Staged(req)| > req.maxTotal then TakeBack(path, TotalTooLarge)
        else Keep(path)
  }

  function Save(s: Stores, req: Request, staging: Path, fault: Fault, env: Env): (Stores, Outcome) {
    var bytes := Staged(req);
    if ReadBreaks(req) then (s.(disk := s.disk[staging := bytes]), Refused(ReadFailed))
    else Settle(s, req, staging, fault, env, Decide(s.rows, req, fault, env))
  }

  function Settle(s: Stores, req: Request, staging: Path, fault: Fault, env: Env, d: Decision): (Stores, Outcome) {
    var bytes := Staged(req);
    match d
    case Reject(error) => (s.(disk := s.disk - {staging}), Refused(error))
    case Reuse(row) => (s.(disk := s.disk - {staging}), Stored(row.id, row.path))
    case TakeBack(path, error) => (s.(disk := s.disk[path := bytes] - {staging} - {path}), Refused(error))
    case Keep(path) =>
      var moved := s.disk[path := bytes] - {staging};
      if fault == InsertRow then (s.(disk := moved), Refused(StorageFailed))
      else
        var row := Row(s.nextId, path, |bytes|, env.hash(bytes), req.userId, IsCover(req.name));
        var jobs := if IsCover(req.name) then s.parseJobs else s.parseJobs + [(s.nextId, path)];
        (Stores(moved, s.rows + [row], s.nextId + 1, jobs), Stored(s.nextId, path))
  }

  /** attached: a song uses the file. */
  function Delete(s: Stores, userId: int, id: int, attached: bool): (Stores, Option<Error>) {
    match Find(s.rows, id)
    case None => (s, Some(NotFound))
    case Some(i) =>
      if s.rows[i].userId != userId then (s, Some(PermissionDenied))
      else if attached then (s, Some(AlreadyUsed))
      else (s.(rows := s.rows[..i] + s.rows[i + 1..], disk := s.disk - {s.rows[i].path}), None)
  }
}
