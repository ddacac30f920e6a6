/** The default storage under interleaving, and operations one at a time. */
module StorageDefaults {
  import opened Wrappers
  import opened StorageConfigs
  import opened StorageRegistry
  import opened StorageRegistryProofs

  // ---- Exactly one default ---------------------------------------------------------------

  ghost predicate IsTheDefault(rows: map<Id, Row>, d: Id) {
    d in rows && rows[d].isDefault && forall k :: k in rows && rows[k].isDefault ==> k == d
  }

  ghost predicate OneDefault(rows: map<Id, Row>) {
    exists d :: IsTheDefault(rows, d)
  }

  /** The two steps that can leave no default: SetDefault when its storage was
      deleted since the check, Delete when it became the default since. */
  predicate DefaultSafe(s: Sys, a: Action)
    requires Enabled(s, a)
  {
    && (a.MakeDefault? ==> s.threads[a.t].id in s.rows)
    && (a.Remove? && a.files == 0 && s.threads[a.t].id in s.rows ==> !s.rows[s.threads[a.t].id].isDefault)
  }

  lemma SameDefaults(rows: map<Id, Row>, rows': map<Id, Row>)
    requires OneDefault(rows)
    requires forall k :: k in rows && rows[k].isDefault ==> k in rows' && rows'[k].isDefault
    requires forall k :: k in rows' && rows'[k].isDefault ==> k in rows && rows[k].isDefault
    ensures OneDefault(rows')
  {
    var d :| IsTheDefault(rows, d);
    assert IsTheDefault(rows', d);
  }

  lemma NoDefault(rows: map<Id, Row>)
    requires forall k :: k in rows ==> !rows[k].isDefault
    ensures !OneDefault(rows)
  {
  }

  lemma SwitchOneDefault(rows: map<Id, Row>, id: Id)
    ensures OneDefault(SwitchDefault(rows, id)) <==> id in rows
  {
    var rows' := SwitchDefault(rows, id);
    if id in rows {
      assert IsTheDefault(rows', id);
    } else {
      NoDefault(rows');
    }
  }

  lemma RemoveOneDefault(rows: map<Id, Row>, id: Id)
    requires OneDefault(rows)
    ensures OneDefault(rows - {id}) <==> !(id in rows && rows[id].isDefault)
  {
    if id in rows && rows[id].isDefault {
      var d :| IsTheDefault(rows, d);
      NoDefault(rows - {id});
    } else {
      SameDefaults(rows, rows - {id});
    }
  }

  /** A step keeps exactly one default unless it is one of those two. */
  lemma StepOneDefault(s: Sys, a: Action)
    requires OneDefault(s.rows) && Enabled(s, a)
    ensures OneDefault(Apply(s, a).rows) <==> DefaultSafe(s, a)
  {
    match a
    case MakeDefault(t) => SwitchOneDefault(s.rows, s.threads[t].id);
    case Remove(t, files) =>
      if files == 0 { RemoveOneDefault(s.rows, s.threads[t].id); }
    case _ => SameDefaults(s.rows, Apply(s, a).rows);
  }

  lemma InitOneDefault()
    ensures OneDefault(InitSys.rows)
  {
    assert IsTheDefault(InitSys.rows, LocalId);
  }

  lemma SafeStepOneDefault(states: seq<Sys>, actions: seq<Action>, n: nat)
    requires Run(states, actions) && n < |actions| && OneDefault(states[n].rows)
    requires Enabled(states[n], actions[n]) && DefaultSafe(states[n], actions[n])
    ensures OneDefault(states[n + 1].rows)
  {
    StepOneDefault(states[n], actions[n]);
  }

  lemma {:induction false} SafeRunOneDefault(states: seq<Sys>, actions: seq<Action>, n: nat)
    requires Run(states, actions) && n <= |actions|
    requires forall i :: 0 <= i < n ==> Enabled(states[i], actions[i]) && DefaultSafe(states[i], actions[i])
    ensures OneDefault(states[n].rows)
  {
    if n == 0 {
      InitOneDefault();
    } else {
      SafeRunOneDefault(states, actions, n - 1);
      SafeStepOneDefault(states, actions, n - 1);
    }
  }

  lemma OneDefaultStepSafe(states: seq<Sys>, actions: seq<Action>, n: nat)
    requires Run(states, actions) && n < |actions| && OneDefault(states[n].rows) && OneDefault(states[n + 1].rows)
    ensures DefaultSafe(states[n], actions[n])
  {
  }

  /** In every interleaving, exactly one storage is the default all the time
      exactly when no SetDefault and no Delete acted on an outdated check. */
  lemma RunOneDefault(states: seq<Sys>, actions: seq<Action>)
    requires Run(states, actions)
    ensures (forall n :: 0 <= n < |states| ==> OneDefault(states[n].rows))
       <==> (forall n :: 0 <= n < |actions| ==> Enabled(states[n], actions[n]) && DefaultSafe(states[n], actions[n]))
  {
    if forall n :: 0 <= n < |actions| ==> Enabled(states[n], actions[n]) && DefaultSafe(states[n], actions[n]) {
      forall n | 0 <= n < |states| ensures OneDefault(states[n].rows) {
        SafeRunOneDefault(states, actions, n);
      }
    } else if forall n :: 0 <= n < |states| ==> OneDefault(states[n].rows) {
      forall n | 0 <= n < |actions| ensures Enabled(states[n], actions[n]) && DefaultSafe(states[n], actions[n]) {
        OneDefaultStepSafe(states, actions, n);
      }
    }
  }

  // ---- One operation at a time ---------------------------------------------------------------

  /** What an operation checked still holds when nothing else runs. */
  predicate CheckHolds(rows: map<Id, Row>, t: Thread) {
    match t
    case Writing(id, name, config) => id in rows
    case Deleting(id) => id in rows && !rows[id].isDefault
    case Defaulting(id) => id in rows && Connected(rows[id].kind, rows[id].config)
    case Building(id, p) => Current(rows, id, p)
    case Invalidating(_) => true
  }

  ghost predicate Alone(s: Sys) {
    && (forall t, u :: t in s.threads && u in s.threads ==> t == u)
    && (forall t :: t in s.threads ==> CheckHolds(s.rows, s.threads[t]))
  }

  /** Operations start only when no other is in progress. */
  predicate Serial(s: Sys, a: Action) {
    (a.Create? || a.BeginUpdate? || a.BeginAuth? || a.BeginDelete? || a.BeginSetDefault? || a.ReadRow?) ==>
      s.threads == map[]
  }

  lemma SerialStep(s: Sys, a: Action)
    requires Alone(s) && Enabled(s, a) && Serial(s, a)
    ensures Alone(Apply(s, a)) && DefaultSafe(s, a) && CacheSafe(s, a)
  {
  }

  lemma SerialNext(states: seq<Sys>, actions: seq<Action>, n: nat)
    requires Run(states, actions) && n < |actions| && Serial(states[n], actions[n])
    requires Alone(states[n]) && Coherent(states[n]) && OneDefault(states[n].rows)
    ensures Alone(states[n + 1]) && Coherent(states[n + 1]) && OneDefault(states[n + 1].rows)
  {
    SerialStep(states[n], actions[n]);
    StepCoherent(states[n], actions[n]);
    StepOneDefault(states[n], actions[n]);
  }

  /** One operation at a time: the cache is always right, and there is always
      exactly one default. */
  lemma {:induction false} SerialRun(states: seq<Sys>, actions: seq<Action>, n: nat)
    requires Run(states, actions) && n <= |actions|
    requires forall i :: 0 <= i < |actions| ==> Serial(states[i], actions[i])
    ensures Alone(states[n]) && Coherent(states[n]) && OneDefault(states[n].rows)
  {
    if n == 0 {
      InitOneDefault();
    } else {
      SerialRun(states, actions, n - 1);
      SerialNext(states, actions, n - 1);
    }
  }

  // ---- A connected default -----------------------------------------------------------------------

  ghost predicate DefaultConnected(rows: map<Id, Row>) {
    forall id :: id in rows && rows[id].isDefault ==> Connected(rows[id].kind, rows[id].config)
  }

  /** SetDefault asks for a connected storage; an Update of the default asks
      for nothing, and a changed client id comes with no refresh token. */
  predicate ConnectionSafe(s: Sys, a: Action)
    requires Enabled(s, a)
  {
    && (a.MakeDefault? ==>
          var id := s.threads[a.t].id;
          id in s.rows ==> Connected(s.rows[id].kind, s.rows[id].config))
    && (a.Write? ==>
          var w := s.threads[a.t];
          (w.id in s.rows && s.rows[w.id].isDefault && !NameTaken(s.rows, w.id, w.name)) ==>
            Connected(s.rows[w.id].kind, w.config))
  }

  /** A step leaves the default storage connected unless it disconnects it. */
  lemma StepDefaultConnected(s: Sys, a: Action)
    requires DefaultConnected(s.rows) && Enabled(s, a)
    ensures DefaultConnected(Apply(s, a).rows) <==> ConnectionSafe(s, a)
  {
    var rows' := Apply(s, a).rows;
    match a
    case MakeDefault(t) =>
      var id := s.threads[t].id;
      if id in s.rows { assert rows'[id].isDefault; }
    case Write(t) => WriteConnected(s, t);
    case _ =>
      forall id | id in rows' && rows'[id].isDefault ensures Connected(rows'[id].kind, rows'[id].config) {
        assert id in s.rows && s.rows[id] == rows'[id];
      }
  }

  lemma WriteConnected(s: Sys, t: ThreadId)
    requires DefaultConnected(s.rows) && Enabled(s, Write(t))
    ensures DefaultConnected(Apply(s, Write(t)).rows) <==> ConnectionSafe(s, Write(t))
  {
    var w := s.threads[t];
    var rows' := Apply(s, Write(t)).rows;
    if w.id in s.rows && !NameTaken(s.rows, w.id, w.name) {
      assert rows'[w.id].isDefault == s.rows[w.id].isDefault;
    }
  }

  /** An edit of a Google Drive row that will be without a connection: another
      client id, or no refresh token to begin with. */
  predicate EditDisconnects(row: Row, config: Config) {
    && row.kind == GoogleDrive && row.config.drive.Some? && config.drive.Some?
    && (config.drive.value.clientId != row.config.drive.value.clientId || row.config.drive.value.refreshToken == "")
  }

  lemma EditedConnected(rows: map<Id, Row>, id: Id, name: string, config: Config)
    requires RowsOk(rows) && CheckUpdate(rows, id, name, config).Some?
    ensures Connected(rows[id].kind, CheckUpdate(rows, id, name, config).value.config)
            <==> !EditDisconnects(rows[id], config)
  {
    assert RowOk(id, rows[id]);
    if rows[id].kind == GoogleDrive {
      EditKeepsConnection(rows[id].config, config);
    }
  }

  /** Even with nothing else running, an accepted Update leaves the default
      connected exactly unless it gives the default Google Drive storage a new
      client id. */
  lemma NewClientDisconnectsDefault(s: Sys, t: ThreadId, id: Id, name: string, config: Config)
    requires KindsOk(s) && DefaultConnected(s.rows) && t !in s.threads
    requires CheckUpdate(s.rows, id, name, config).Some? && !NameTaken(s.rows, id, name)
    ensures var s' := Apply(Apply(s, BeginUpdate(t, id, name, config)), Write(t));
            var row := s.rows[id];
            DefaultConnected(s'.rows) <==>
              !(row.isDefault && row.kind == GoogleDrive && row.config.drive.Some? && config.drive.Some?
                && config.drive.value.clientId != row.config.drive.value.clientId)
  {
    EditedConnected(s.rows, id, name, config);
    var s1 := Apply(s, BeginUpdate(t, id, name, config));
    StepDefaultConnected(s1, Write(t));
  }

  // ---- Two races ---------------------------------------------------------------------------------------

  /** Delete passes its checks, SetDefault makes the storage the default, Delete
      goes on: no default is left. */
  lemma DeleteTakesDefault(s: Sys, id: Id)
    requires s.threads == map[] && KindsOk(s) && OneDefault(s.rows) && id in s.rows && id != LocalId
    requires !s.rows[id].isDefault && Connected(s.rows[id].kind, s.rows[id].config)
    ensures var s1 := Apply(Apply(s, BeginDelete(0, id, 0)), BeginSetDefault(1, id));
            var s2 := Apply(s1, MakeDefault(1));
            OneDefault(s2.rows) && !OneDefault(Apply(s2, Remove(0, 0)).rows)
  {
    assert RowOk(id, s.rows[id]);
    var s1 := Apply(Apply(s, BeginDelete(0, id, 0)), BeginSetDefault(1, id));
    assert s1.rows == s.rows && s1.threads[0] == Deleting(id) && s1.threads[1] == Defaulting(id);
    SwitchOneDefault(s.rows, id);
    var s2 := Apply(s1, MakeDefault(1));
    RemoveOneDefault(s2.rows, id);
  }

  /** A Get reads the row, an Update writes and invalidates, the Get goes on. */
  function LateBuild(id: Id, name: string, config: Config): seq<Action> {
    [ReadRow(0, id), BeginUpdate(1, id, name, config), Write(1), Invalidate(1), Insert(0)]
  }

  function Play(s: Sys, actions: seq<Action>): Option<Sys>
    decreases |actions|
  {
    if actions == [] then Some(s)
    else if Enabled(s, actions[0]) then Play(Apply(s, actions[0]), actions[1..])
    else None
  }

  lemma LateBuildOpens(s: Sys, id: Id, name: string, config: Config)
    requires s.threads == map[] && KindsOk(s) && id in s.rows && id != LocalId
    requires name != "" && Merge(s.rows[id].kind, s.rows[id].config, config).Some?
    ensures var row := s.rows[id];
            Construct(row.kind, row.config).Some? && Enabled(s, ReadRow(0, id)) &&
            var s1 := Apply(s, ReadRow(0, id));
            Enabled(s1, BeginUpdate(1, id, name, config)) &&
            Apply(s1, BeginUpdate(1, id, name, config))
              == s.(threads := map[0 := Building(id, Construct(row.kind, row.config).value),
                                   1 := Writing(id, name, Merge(row.kind, row.config, config).value)])
  {
  }

  lemma LateBuildCloses(s: Sys, id: Id, name: string, merged: Config, p: Provider)
    requires s.threads == map[0 := Building(id, p), 1 := Writing(id, name, merged)]
    requires id in s.rows && id !in s.cache && !NameTaken(s.rows, id, name)
    ensures Enabled(s, Write(1)) && Enabled(Apply(s, Write(1)), Invalidate(1)) &&
            var s2 := Apply(Apply(s, Write(1)), Invalidate(1));
            && Enabled(s2, Insert(0))
            && Apply(s2, Insert(0)) == Sys(WriteRow(s.rows, id, name, merged), s.cache[id := p], map[])
  {
  }

  lemma PlayStep(s: Sys, a: Action, rest: seq<Action>)
    requires Enabled(s, a)
    ensures Play(s, [a] + rest) == Play(Apply(s, a), rest)
  {
  }

  lemma PlayTwo(s: Sys, a: Action, b: Action, rest: seq<Action>)
    requires Enabled(s, a) && Enabled(Apply(s, a), b)
    ensures Play(s, [a, b] + rest) == Play(Apply(Apply(s, a), b), rest)
  {
  }

  /** The provider of the old row ends up cached, with nothing in flight that
      would remove it. */
  lemma LateBuildStaysStale(s: Sys, id: Id, name: string, config: Config)
    requires s.threads == map[] && KindsOk(s) && id in s.rows && id != LocalId && id !in s.cache
    requires name != "" && !NameTaken(s.rows, id, name) && Merge(s.rows[id].kind, s.rows[id].config, config).Some?
    requires Merge(s.rows[id].kind, s.rows[id].config, config).value != s.rows[id].config
    ensures var r := Play(s, LateBuild(id, name, config));
            r.Some? && r.value.threads == map[] && !Coherent(r.value)
  {
    var row := s.rows[id];
    var merged := Merge(row.kind, row.config, config).value;
    LateBuildOpens(s, id, name, config);
    var p := Construct(row.kind, row.config).value;
    var s1 := s.(threads := map[0 := Building(id, p), 1 := Writing(id, name, merged)]);
    LateBuildCloses(s1, id, name, merged, p);
    PlayTwo(s, ReadRow(0, id), BeginUpdate(1, id, name, config), [Write(1), Invalidate(1), Insert(0)]);
    PlayTwo(s1, Write(1), Invalidate(1), [Insert(0)]);
    PlayStep(Apply(Apply(s1, Write(1)), Invalidate(1)), Insert(0), []);
    assert LateBuild(id, name, config)
           == [ReadRow(0, id), BeginUpdate(1, id, name, config)] + [Write(1), Invalidate(1), Insert(0)];
    assert [Write(1), Invalidate(1), Insert(0)] == [Write(1), Invalidate(1)] + [Insert(0)]
           && [Insert(0)] + [] == [Insert(0)];
    assert RowOk(id, row);
    MergeValid(row.kind, row.config, config);
    DifferentProviders(row.kind, row.config, merged);
    var end := Sys(WriteRow(s.rows, id, name, merged), s.cache[id := p], map[]);
    assert id in end.cache && !Current(end.rows, id, end.cache[id]);
  }

  /** Valid configurations of one kind that differ build different providers. */
  lemma DifferentProviders(kind: Kind, a: Config, b: Config)
    requires Validate(a) == Some(kind) && Validate(b) == Some(kind) && a != b
    ensures Construct(kind, a) != Construct(kind, b)
  {
  }
}
