/**
 The storages table and the provider registry in front of it, under concurrent
 administrators and readers: a step is one query, or one section under the
 registry's lock, of an operation in progress.
 */
module StorageRegistry {
  import opened Wrappers
  import opened StorageConfigs

  type Id = nat
  type ThreadId = nat

  const LocalId: Id := 1

  datatype Row = Row(name: string, kind: Kind, config: Config, isDefault: bool)

  /** A provider is determined by the configuration it was built from. */
  datatype Provider =
    | LocalFiles
    | S3Provider(s3: S3Config)
    | WebdavProvider(webdav: WebdavConfig)
    | DriveProvider(drive: DriveConfig)

  /** An operation between two of its steps. */
  datatype Thread =
    | Writing(id: Id, name: string, config: Config) // Update or CompleteGoogleDriveAuth, its checks done
    | Deleting(id: Id)                              // Delete, its checks done
    | Defaulting(id: Id)                            // SetDefault, its check done
    | Invalidating(id: Id)                          // the row is changed, the cache not yet
    | Building(id: Id, provider: Provider)          // Get, its provider built from the row it read

  datatype Sys = Sys(rows: map<Id, Row>, cache: map<Id, Provider>, threads: map<ThreadId, Thread>)

  const InitSys := Sys(map[LocalId := Row("local", Local, NoConfig, true)], map[], map[])

  datatype Action =
    | Create(id: Id, name: string, config: Config)
    | BeginUpdate(t: ThreadId, id: Id, name: string, config: Config)
    | BeginAuth(t: ThreadId, id: Id, token: string)
    | Write(t: ThreadId)
    | BeginDelete(t: ThreadId, id: Id, files: nat)
    | Remove(t: ThreadId, files: nat)
    | BeginSetDefault(t: ThreadId, id: Id)
    | MakeDefault(t: ThreadId)
    | Invalidate(t: ThreadId)
    | ReadRow(t: ThreadId, id: Id)
    | Insert(t: ThreadId)
    | GiveUp(t: ThreadId)                           // a query or a constructor failed

  function Construct(kind: Kind, c: Config): Option<Provider> {
    match kind
    case S3 => if c.s3.Some? then Some(S3Provider(c.s3.value)) else None
    case Webdav => if c.webdav.Some? then Some(WebdavProvider(c.webdav.value)) else None
    case GoogleDrive => if c.drive.Some? then Some(DriveProvider(c.drive.value)) else None
    case Local => None
  }

  /** A random uuid that nothing mentions yet. */
  predicate FreshId(s: Sys, id: Id) {
    id !in s.rows && id !in s.cache && forall t :: t in s.threads ==> s.threads[t].id != id
  }

  predicate Enabled(s: Sys, a: Action) {
    match a
    case Create(id, name, config) => FreshId(s, id)
    case BeginUpdate(t, _, _, _) => t !in s.threads
    case BeginAuth(t, _, _) => t !in s.threads
    case BeginDelete(t, _, _) => t !in s.threads
    case BeginSetDefault(t, _) => t !in s.threads
    case ReadRow(t, id) => t !in s.threads && id != LocalId
    case Write(t) => t in s.threads && s.threads[t].Writing?
    case Remove(t, _) => t in s.threads && s.threads[t].Deleting?
    case MakeDefault(t) => t in s.threads && s.threads[t].Defaulting?
    case Invalidate(t) => t in s.threads && s.threads[t].Invalidating?
    case Insert(t) => t in s.threads && s.threads[t].Building?
    case GiveUp(t) => t in s.threads && !s.threads[t].Invalidating?
  }

  /** The unique index on names. */
  predicate NameTaken(rows: map<Id, Row>, id: Id, name: string) {
    exists k :: k in rows && k != id && rows[k].name == name
  }

  // ---- The checks that open an operation ---------------------------------------------

  function WithoutToken(c: Config): Config {
    if c.drive.Some? then c.(drive := Some(c.drive.value.(refreshToken := ""))) else c
  }

  function CreateRow(rows: map<Id, Row>, id: Id, name: string, config: Config): map<Id, Row> {
    match Validate(WithoutToken(config))
    case None => rows
    case Some(kind) =>
      if name == "" || NameTaken(rows, id, name) then rows else rows[id := Row(name, kind, WithoutToken(config), false)]
  }

  function CheckUpdate(rows: map<Id, Row>, id: Id, name: string, config: Config): Option<Thread> {
    if id !in rows || rows[id].kind == Local || name == "" then None
    else
      match Merge(rows[id].kind, rows[id].config, config)
      case None => None
      case Some(merged) => Some(Writing(id, name, merged))
  }

  function CheckAuth(rows: map<Id, Row>, id: Id, token: string): Option<Thread> {
    if id !in rows || rows[id].kind != GoogleDrive || rows[id].config.drive.None? || token == "" then None
    else Some(Writing(id, rows[id].name, NoConfig.(drive := Some(rows[id].config.drive.value.(refreshToken := token)))))
  }

  function CheckDelete(rows: map<Id, Row>, id: Id, files: nat): Option<Thread> {
    if id !in rows || rows[id].kind == Local || rows[id].isDefault || files > 0 then None else Some(Deleting(id))
  }

  function CheckSetDefault(rows: map<Id, Row>, id: Id): Option<Thread> {
    if id !in rows || !Connected(rows[id].kind, rows[id].config) then None else Some(Defaulting(id))
  }

  function CheckGet(rows: map<Id, Row>, id: Id): Option<Thread> {
    if id !in rows then None
    else match Construct(rows[id].kind, rows[id].config) case None => None case Some(p) => Some(Building(id, p))
  }

  // ---- Steps ----------------------------------------------------------------------------

  function Start(s: Sys, t: ThreadId, checked: Option<Thread>): Sys {
    if checked.None? then s else s.(threads := s.threads[t := checked.value])
  }

  function WriteRow(rows: map<Id, Row>, id: Id, name: string, config: Config): map<Id, Row> {
    if id in rows then rows[id := rows[id].(name := name, config := config)] else rows
  }

  /** ClearDefaultStorage and SetDefaultStorageById, in one transaction. */
  function SwitchDefault(rows: map<Id, Row>, id: Id): map<Id, Row> {
    map k | k in rows :: rows[k].(isDefault := k == id)
  }

  /** An UPDATE hits the name index only if its row still exists. */
  predicate WriteRefused(rows: map<Id, Row>, id: Id, name: string) {
    id in rows && NameTaken(rows, id, name)
  }

  function Apply(s: Sys, a: Action): Sys
    requires Enabled(s, a)
  {
    match a
    case Create(id, name, config) => s.(rows := CreateRow(s.rows, id, name, config))
    case BeginUpdate(t, id, name, config) => Start(s, t, CheckUpdate(s.rows, id, name, config))
    case BeginAuth(t, id, token) => Start(s, t, CheckAuth(s.rows, id, token))
    case BeginDelete(t, id, files) => Start(s, t, CheckDelete(s.rows, id, files))
    case BeginSetDefault(t, id) => Start(s, t, CheckSetDefault(s.rows, id))
    case ReadRow(t, id) => Start(s, t, CheckGet(s.rows, id))
    case Write(t) =>
      var w := s.threads[t];
      if WriteRefused(s.rows, w.id, w.name) then s.(threads := s.threads - {t})
      else s.(rows := WriteRow(s.rows, w.id, w.name, w.config), threads := s.threads[t := Invalidating(w.id)])
    case Remove(t, files) =>
      if files > 0 then s.(threads := s.threads - {t})
      else s.(rows := s.rows - {s.threads[t].id}, threads := s.threads[t := Invalidating(s.threads[t].id)])
    case MakeDefault(t) => s.(rows := SwitchDefault(s.rows, s.threads[t].id), threads := s.threads - {t})
    case Invalidate(t) => s.(cache := s.cache - {s.threads[t].id}, threads := s.threads - {t})
    case Insert(t) =>
      var b := s.threads[t];
      s.(cache := if b.id in s.cache then s.cache else s.cache[b.id := b.provider], threads := s.threads - {t})
    case GiveUp(t) => s.(threads := s.threads - {t})
  }

  // ---- Whole operations --------------------------------------------------------------------

  function StepsLeft(t: Thread): nat {
    if t.Writing? || t.Deleting? then 2 else 1
  }

  function NextStep(t: ThreadId, thread: Thread): Action {
    match thread
    case Writing(_, _, _) => Write(t)
    case Deleting(_) => Remove(t, 0)
    case Defaulting(_) => MakeDefault(t)
    case Invalidating(_) => Invalidate(t)
    case Building(_, _) => Insert(t)
  }

  /** Thread t runs to its end with nothing in between. */
  function Finish(s: Sys, t: ThreadId): Sys
    decreases if t in s.threads then StepsLeft(s.threads[t]) else 0
  {
    if t !in s.threads then s else Finish(Apply(s, NextStep(t, s.threads[t])), t)
  }

  function Perform(s: Sys, a: Action): Sys
    requires Enabled(s, a)
  {
    Finish(Apply(s, a), 0)
  }

  ghost predicate Run(states: seq<Sys>, actions: seq<Action>) {
    && |states| == |actions| + 1 && states[0] == InitSys
    && forall i :: 0 <= i < |actions| ==>
         Enabled(states[i], actions[i]) && states[i + 1] == Apply(states[i], actions[i])
  }
}
