/** The storage service and its registry as objects with one caller at a time. */
module StorageService {
  import opened Wrappers
  import opened StorageConfigs
  import opened StorageRegistry
  import opened StorageRegistryProofs
  import opened StorageDefaults

  /** What a Get that never caches would answer. */
  function Answer(rows: map<Id, Row>, id: Id): Option<Provider> {
    if id == LocalId then Some(LocalFiles)
    else if id !in rows then None
    else Construct(rows[id].kind, rows[id].config)
  }

  ghost predicate Sound(s: Sys) {
    s.threads == map[] && KindsOk(s) && Coherent(s) && OneDefault(s.rows)
  }

  lemma {:induction false} FinishSound(s: Sys, t: ThreadId)
    requires KindsOk(s) && Coherent(s) && OneDefault(s.rows) && Alone(s)
    requires forall u :: u in s.threads ==> u == t
    ensures Sound(Finish(s, t))
    decreases if t in s.threads then StepsLeft(s.threads[t]) else 0
  {
    if t in s.threads {
      var a := NextStep(t, s.threads[t]);
      StepSound(s, a);
      FinishSound(Apply(s, a), t);
    } else {
      assert s.threads == map[];
    }
  }

  lemma StepSound(s: Sys, a: Action)
    requires KindsOk(s) && Coherent(s) && OneDefault(s.rows) && Alone(s) && Enabled(s, a) && Serial(s, a)
    ensures var s' := Apply(s, a);
            KindsOk(s') && Coherent(s') && OneDefault(s'.rows) && Alone(s')
  {
    SerialStep(s, a);
    StepKinds(s, a);
    StepCoherent(s, a);
    StepOneDefault(s, a);
  }

  predicate Opens(a: Action) {
    a.Create? || ((a.BeginUpdate? || a.BeginAuth? || a.BeginDelete? || a.BeginSetDefault? || a.ReadRow?) && a.t == 0)
  }

  /** Every whole operation keeps kinds, cache and default sound. */
  lemma PerformSound(s: Sys, a: Action)
    requires Sound(s) && Enabled(s, a) && Opens(a)
    ensures Sound(Perform(s, a))
  {
    StepSound(s, a);
    FinishSound(Apply(s, a), 0);
  }

  /** The provider is the one of this row's kind, for its configuration. */
  predicate Serves(row: Row, p: Provider) {
    match row.kind
    case Local => p == LocalFiles
    case S3 => p.S3Provider? && row.config.s3 == Some(p.s3)
    case Webdav => p.WebdavProvider? && row.config.webdav == Some(p.webdav)
    case GoogleDrive => p.DriveProvider? && row.config.drive == Some(p.drive)
  }

  lemma AnswerServes(rows: map<Id, Row>, id: Id)
    requires RowsOk(rows) && id in rows
    ensures Answer(rows, id).Some? && Serves(rows[id], Answer(rows, id).value)
  {
    assert RowOk(id, rows[id]);
    ValidIff(rows[id].config, rows[id].kind);
  }

  /** A new storage needs one part, with its required fields. */
  predicate Creatable(c: Config) {
    || (HasOnly(c, S3) && c.s3.value.endpoint != "" && c.s3.value.bucket != "" && c.s3.value.accessKeyId != ""
        && c.s3.value.secretAccessKey != "")
    || (HasOnly(c, Webdav) && c.webdav.value.url != "")
    || (HasOnly(c, GoogleDrive) && c.drive.value.clientId != "" && c.drive.value.clientSecret != "")
  }

  /** The row of a new storage: not the default, and not connected to Drive. */
  predicate CreatedFrom(row: Row, name: string, config: Config) {
    && row.name == name && !row.isDefault && HasOnly(config, row.kind)
    && row.config.s3 == config.s3 && row.config.webdav == config.webdav
    && (config.drive.Some? ==> row.config.drive == Some(config.drive.value.(refreshToken := "")))
    && (config.drive.None? ==> row.config.drive == None)
  }

  lemma CreateIff(config: Config)
    ensures Validate(WithoutToken(config)).Some? <==> Creatable(config)
    ensures Creatable(config) ==> HasOnly(config, Validate(WithoutToken(config)).value)
  {
    ValidIff(WithoutToken(config), S3);
    ValidIff(WithoutToken(config), Webdav);
    ValidIff(WithoutToken(config), GoogleDrive);
    ValidIff(WithoutToken(config), Local);
  }

  class StorageService {
    var rows: map<Id, Row>
    var cache: map<Id, Provider>

    ghost function Abs(): Sys
      reads this
    {
      Sys(rows, cache, map[])
    }

    ghost predicate Valid()
      reads this
    {
      Sound(Abs())
    }

    constructor ()
      ensures Abs() == InitSys && Valid()
    {
      rows := map[LocalId := Row("local", Local, NoConfig, true)];
      cache := map[];
      new;
      InitOneDefault();
    }

    // ---- Registry ---------------------------------------------------------------------

    method Get(id: Id) returns (r: Option<Provider>)
      requires Valid()
      modifies `cache
      ensures Valid() && r == Answer(rows, id)
      ensures cache == if id != LocalId && r.Some? then old(cache)[id := r.value] else old(cache)
      ensures r.Some? <==> id in rows
      ensures r.Some? ==> Serves(rows[id], r.value)
    {
      if id in rows {
        AnswerServes(rows, id);
      }
      if id == LocalId {
        return Some(LocalFiles);
      }
      if id in cache {
        r := Some(cache[id]);
        assert Current(rows, id, cache[id]);
        assert cache[id := cache[id]] == cache;
        return;
      }
      if id !in rows {
        return None;
      }
      r := Construct(rows[id].kind, rows[id].config);
      if r.Some? {
        ghost var before := Abs();
        cache := cache[id := r.value];
        CachedSound(before, id, r.value);
      }
    }

    method Default() returns (id: Id, r: Option<Provider>)
      requires Valid()
      modifies `cache
      ensures Valid() && IsTheDefault(rows, id) && r == Answer(rows, id) && r.Some?
      ensures id in rows && rows[id].isDefault && Serves(rows[id], r.value)
    {
      ghost var d :| IsTheDefault(rows, d);
      id :| id in rows && rows[id].isDefault;
      r := Get(id);
      if id != LocalId {
        ValidConstructs(id, rows[id]);
      }
    }

    method Invalidate(id: Id)
      modifies `cache
      ensures cache == old(cache) - {id}
    {
      cache := cache - {id};
    }

    // ---- Service ------------------------------------------------------------------------

    /** id is the uuid the database generates. */
    method Create(id: Id, name: string, config: Config) returns (ok: bool)
      requires Valid() && FreshId(Abs(), id)
      modifies this
      ensures Valid() && Abs() == Perform(old(Abs()), Action.Create(id, name, config))
      ensures ok <==> id in rows
      ensures ok <==> name != "" && !NameTaken(old(rows), id, name) && Creatable(config)
      ensures if ok then id in rows && rows == old(rows)[id := rows[id]] && CreatedFrom(rows[id], name, config)
              else rows == old(rows)
      ensures cache == old(cache)
    {
      ghost var before := Abs();
      PerformSound(before, Action.Create(id, name, config));
      if name == "" {
        return false;
      }
      CreateIff(config);
      var cfg := config;
      if cfg.drive.Some? {
        cfg := cfg.(drive := Some(cfg.drive.value.(refreshToken := "")));
      }
      var kind := Validate(cfg);
      if kind.None? || NameTakenNow(id, name) {
        return false;
      }
      rows := rows[id := Row(name, kind.value, cfg, false)];
      ok := true;
    }

    predicate NameTakenNow(id: Id, name: string)
      reads this
      ensures NameTakenNow(id, name) == NameTaken(rows, id, name)
    {
      exists k | k in rows :: k != id && rows[k].name == name
    }

    method Update(id: Id, name: string, config: Config) returns (ok: bool)
      requires Valid()
      modifies this
      ensures Valid() && Abs() == Perform(old(Abs()), BeginUpdate(0, id, name, config))
      ensures ok <==> CheckUpdate(old(rows), id, name, config).Some? && !NameTaken(old(rows), id, name)
      ensures ok <==> && id in old(rows) && old(rows)[id].kind != Local && name != ""
                      && Editable(old(rows)[id].kind, old(rows)[id].config, config)
                      && !NameTaken(old(rows), id, name)
      ensures ok ==> && id in rows && rows == old(rows)[id := old(rows)[id].(name := name, config := rows[id].config)]
                     && Edited(old(rows)[id].kind, old(rows)[id].config, config, rows[id].config)
                     && cache == old(cache) - {id}
      ensures !ok ==> rows == old(rows) && cache == old(cache)
    {
      PerformSound(Abs(), BeginUpdate(0, id, name, config));
      if id in rows {
        MergeEdits(rows[id].kind, rows[id].config, config);
      }
      if id !in rows || rows[id].kind == Local || name == "" {
        return false;
      }
      var merged := Merge(rows[id].kind, rows[id].config, config);
      if merged.None? {
        return false;
      }
      ok := Store(id, name, merged.value, BeginUpdate(0, id, name, config));
    }

    /** The row update and the invalidation that end both kinds of edit. */
    method Store(id: Id, name: string, config: Config, ghost begun: Action) returns (ok: bool)
      requires Enabled(Abs(), begun) && id in rows
      requires Apply(Abs(), begun) == Sys(rows, cache, map[0 := Writing(id, name, config)])
      modifies this
      ensures Abs() == Perform(old(Abs()), begun)
      ensures ok == !NameTaken(old(rows), id, name)
      ensures ok ==> && rows == old(rows)[id := old(rows)[id].(name := name, config := config)]
                     && cache == old(cache) - {id}
      ensures !ok ==> rows == old(rows) && cache == old(cache)
    {
      ghost var before := Sys(rows, cache, map[0 := Writing(id, name, config)]);
      FinishWrite(before, id, name, config);
      if NameTakenNow(id, name) {
        return false;
      }
      rows := rows[id := rows[id].(name := name, config := config)];
      Invalidate(id);
      ok := true;
    }

    method Delete(id: Id, files: nat) returns (ok: bool)
      requires Valid()
      modifies this
      ensures Valid() && Abs() == Perform(old(Abs()), BeginDelete(0, id, files))
      ensures ok <==> CheckDelete(old(rows), id, files).Some?
      ensures ok <==> id in old(rows) && old(rows)[id].kind != Local && !old(rows)[id].isDefault && files == 0
      ensures ok ==> rows == old(rows) - {id} && cache == old(cache) - {id}
      ensures !ok ==> rows == old(rows) && cache == old(cache)
    {
      ghost var before := Abs();
      PerformSound(before, BeginDelete(0, id, files));
      if id !in rows || rows[id].kind == Local || rows[id].isDefault || files > 0 {
        return false;
      }
      FinishDelete(Apply(before, BeginDelete(0, id, files)), id);
      rows := rows - {id};
      Invalidate(id);
      ok := true;
    }

    method SetDefault(id: Id) returns (ok: bool)
      requires Valid()
      modifies this
      ensures Valid() && Abs() == Perform(old(Abs()), BeginSetDefault(0, id))
      ensures ok <==> CheckSetDefault(old(rows), id).Some?
      ensures ok <==> && id in old(rows)
                      && (old(rows)[id].kind == GoogleDrive ==>
                            && old(rows)[id].config.drive.Some?
                            && old(rows)[id].config.drive.value.refreshToken != "")
      ensures ok ==> && rows.Keys == old(rows).Keys
                     && forall k :: k in rows ==> rows[k] == old(rows)[k].(isDefault := k == id)
      ensures cache == old(cache) && (!ok ==> rows == old(rows))
    {
      ghost var before := Abs();
      PerformSound(before, BeginSetDefault(0, id));
      if id !in rows || !Connected(rows[id].kind, rows[id].config) {
        return false;
      }
      PerformSetDefault(before, id);
      SwitchRows(id);
      ok := true;
    }

    /** The transaction of SetDefault. */
    method SwitchRows(id: Id)
      requires id in rows
      modifies `rows
      ensures rows == SwitchDefault(old(rows), id)
    {
      rows := map k | k in rows :: rows[k].(isDefault := false);
      rows := rows[id := rows[id].(isDefault := true)];
    }

    /** token is what the exchange returned. */
    method CompleteGoogleDriveAuth(id: Id, token: string) returns (ok: bool)
      requires Valid()
      modifies this
      ensures Valid() && Abs() == Perform(old(Abs()), BeginAuth(0, id, token))
      ensures ok <==> CheckAuth(old(rows), id, token).Some? && !NameTaken(old(rows), id, old(rows)[id].name)
      ensures ok <==> && id in old(rows) && old(rows)[id].kind == GoogleDrive && token != ""
                      && !NameTaken(old(rows), id, old(rows)[id].name)
      ensures ok ==> old(rows)[id].config.drive.Some?
      ensures ok ==> var was := old(rows)[id];
                     && id in rows && rows == old(rows)[id := rows[id]]
                     && rows[id] == was.(config := was.config.(drive := rows[id].config.drive))
                     && rows[id].config.drive == Some(was.config.drive.value.(refreshToken := token))
                     && cache == old(cache) - {id}
      ensures !ok ==> rows == old(rows) && cache == old(cache)
    {
      if id in rows {
        assert RowOk(id, rows[id]);
        ValidIff(rows[id].config, rows[id].kind);
      }
      PerformSound(Abs(), BeginAuth(0, id, token));
      if id !in rows || rows[id].kind != GoogleDrive || rows[id].config.drive.None? || token == "" {
        return false;
      }
      var drive := rows[id].config.drive.value.(refreshToken := token);
      ok := Store(id, rows[id].name, NoConfig.(drive := Some(drive)), BeginAuth(0, id, token));
    }
  }

  // ---- The ends of the operations -------------------------------------------------------

  lemma CachedSound(s: Sys, id: Id, p: Provider)
    requires Sound(s) && Current(s.rows, id, p)
    ensures Sound(s.(cache := s.cache[id := p]))
  {
  }

  lemma FinishWrite(s: Sys, id: Id, name: string, config: Config)
    requires s.threads == map[0 := Writing(id, name, config)] && id in s.rows
    ensures Finish(s, 0) == if NameTaken(s.rows, id, name) then s.(threads := map[])
                            else Sys(WriteRow(s.rows, id, name, config), s.cache - {id}, map[])
  {
    assert s.threads - {0} == map[];
    if !NameTaken(s.rows, id, name) {
      var s' := Apply(s, Write(0));
      assert s'.threads - {0} == map[];
      assert Finish(s', 0) == Finish(Apply(s', Invalidate(0)), 0);
    }
  }

  lemma FinishDelete(s: Sys, id: Id)
    requires s.threads == map[0 := Deleting(id)]
    ensures Finish(s, 0) == Sys(s.rows - {id}, s.cache - {id}, map[])
  {
    var s' := Apply(s, Remove(0, 0));
    assert s'.threads - {0} == map[];
    assert Finish(s', 0) == Finish(Apply(s', Invalidate(0)), 0);
  }

  lemma PerformSetDefault(s: Sys, id: Id)
    requires s.threads == map[] && id in s.rows && Connected(s.rows[id].kind, s.rows[id].config)
    ensures Perform(s, BeginSetDefault(0, id)) == s.(rows := SwitchDefault(s.rows, id))
  {
    FinishSwitch(Apply(s, BeginSetDefault(0, id)), id);
  }

  lemma FinishSwitch(s: Sys, id: Id)
    requires s.threads == map[0 := Defaulting(id)]
    ensures Finish(s, 0) == s.(rows := SwitchDefault(s.rows, id), threads := map[])
  {
  }
}
