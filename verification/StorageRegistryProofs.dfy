/** What every interleaving of storage administration keeps, and exactly which
    steps can spoil the cache or the default. */
module StorageRegistryProofs {
  import opened Wrappers
  import opened StorageConfigs
  import opened StorageRegistry

  // ---- Kinds ------------------------------------------------------------------------

  predicate RowOk(id: Id, row: Row) {
    && (id == LocalId <==> row.kind == Local)
    && (row.kind != Local ==> Validate(row.config) == Some(row.kind))
  }

  ghost predicate RowsOk(rows: map<Id, Row>) {
    LocalId in rows && forall id :: id in rows ==> RowOk(id, rows[id])
  }

  /** What a write in progress carries still fits its row. */
  predicate ThreadOk(rows: map<Id, Row>, t: Thread) {
    match t
    case Writing(id, name, config) => id in rows ==> id != LocalId && Validate(config) == Some(rows[id].kind)
    case Deleting(id) => id != LocalId
    case _ => true
  }

  ghost predicate KindsOk(s: Sys) {
    RowsOk(s.rows) && forall t :: t in s.threads ==> ThreadOk(s.rows, s.threads[t])
  }

  lemma StartKeepsKinds(s: Sys, t: ThreadId, checked: Option<Thread>)
    requires KindsOk(s) && (checked.Some? ==> ThreadOk(s.rows, checked.value))
    ensures KindsOk(Start(s, t, checked))
  {
  }

  lemma CheckUpdateOk(rows: map<Id, Row>, id: Id, name: string, config: Config)
    requires RowsOk(rows)
    ensures CheckUpdate(rows, id, name, config).Some? ==> ThreadOk(rows, CheckUpdate(rows, id, name, config).value)
  {
  }

  lemma CheckAuthOk(rows: map<Id, Row>, id: Id, token: string)
    requires RowsOk(rows)
    ensures CheckAuth(rows, id, token).Some? ==> ThreadOk(rows, CheckAuth(rows, id, token).value)
  {
  }

  lemma CreateKeepsKinds(s: Sys, id: Id, name: string, config: Config)
    requires KindsOk(s) && Enabled(s, Create(id, name, config))
    ensures KindsOk(Apply(s, Create(id, name, config)))
  {
  }

  lemma WriteKeepsKinds(s: Sys, t: ThreadId)
    requires KindsOk(s) && Enabled(s, Write(t))
    ensures KindsOk(Apply(s, Write(t)))
  {
  }

  lemma RowsChangeKeepsKinds(s: Sys, s': Sys)
    requires KindsOk(s) && LocalId in s'.rows
    requires forall k :: k in s'.rows ==>
               k in s.rows && s'.rows[k].kind == s.rows[k].kind && s'.rows[k].config == s.rows[k].config
    requires forall t :: t in s'.threads ==>
               s'.threads[t].Invalidating? || (t in s.threads && s'.threads[t] == s.threads[t])
    ensures KindsOk(s')
  {
  }

  /** Every step keeps every row's kind that of its valid configuration. */
  lemma StepKinds(s: Sys, a: Action)
    requires KindsOk(s) && Enabled(s, a)
    ensures KindsOk(Apply(s, a))
  {
    match a
    case Create(id, name, config) => CreateKeepsKinds(s, id, name, config);
    case BeginUpdate(t, id, name, config) =>
      CheckUpdateOk(s.rows, id, name, config);
      StartKeepsKinds(s, t, CheckUpdate(s.rows, id, name, config));
    case BeginAuth(t, id, token) =>
      CheckAuthOk(s.rows, id, token);
      StartKeepsKinds(s, t, CheckAuth(s.rows, id, token));
    case Write(t) => WriteKeepsKinds(s, t);
    case BeginDelete(t, id, files) =>
      assert id in s.rows ==> RowOk(id, s.rows[id]);
      StartKeepsKinds(s, t, CheckDelete(s.rows, id, files));
    case BeginSetDefault(t, id) => StartKeepsKinds(s, t, CheckSetDefault(s.rows, id));
    case ReadRow(t, id) => StartKeepsKinds(s, t, CheckGet(s.rows, id));
    case Remove(t, files) =>
      assert ThreadOk(s.rows, s.threads[t]);
      RowsChangeKeepsKinds(s, Apply(s, a));
    case _ => RowsChangeKeepsKinds(s, Apply(s, a));
  }

  /** In every interleaving the local row stays, and no reachable row makes
      construct refuse: its kind's configuration is there and valid. */
  lemma {:induction false} RunKinds(states: seq<Sys>, actions: seq<Action>, n: nat)
    requires Run(states, actions) && n <= |actions|
    ensures KindsOk(states[n])
    ensures forall id :: id in states[n].rows && id != LocalId ==>
              Construct(states[n].rows[id].kind, states[n].rows[id].config).Some?
  {
    if n > 0 {
      RunKinds(states, actions, n - 1);
      StepKinds(states[n - 1], actions[n - 1]);
      assert states[n - 1 + 1] == Apply(states[n - 1], actions[n - 1]);
    }
    forall id | id in states[n].rows && id != LocalId
      ensures Construct(states[n].rows[id].kind, states[n].rows[id].config).Some?
    {
      ValidConstructs(id, states[n].rows[id]);
    }
  }

  lemma ValidConstructs(id: Id, row: Row)
    requires RowOk(id, row) && id != LocalId
    ensures Construct(row.kind, row.config).Some?
  {
  }

  // ---- The cache ----------------------------------------------------------------------

  predicate Current(rows: map<Id, Row>, id: Id, p: Provider) {
    id in rows && Construct(rows[id].kind, rows[id].config) == Some(p)
  }

  ghost predicate Awaiting(s: Sys, id: Id) {
    exists t :: t in s.threads && s.threads[t] == Invalidating(id)
  }

  /** A cached provider is what the current row builds, unless an invalidation
      of it is on its way. */
  ghost predicate Coherent(s: Sys) {
    forall id :: id in s.cache ==> Current(s.rows, id, s.cache[id]) || Awaiting(s, id)
  }

  /** The one step that can spoil the cache: a build finishing after the row it
      read was changed and invalidated. */
  ghost predicate CacheSafe(s: Sys, a: Action)
    requires Enabled(s, a)
  {
    a.Insert? ==>
      var b := s.threads[a.t];
      b.id in s.cache || Awaiting(s, b.id) || Current(s.rows, b.id, b.provider)
  }

  lemma StillAwaiting(s: Sys, s': Sys, id: Id)
    requires Awaiting(s, id)
    requires forall t :: t in s.threads && s.threads[t] == Invalidating(id) ==>
               t in s'.threads && s'.threads[t] == s.threads[t]
    ensures Awaiting(s', id)
  {
  }

  /** Rows, cache and the pending invalidations as before, for one id. */
  lemma IdStaysCoherent(s: Sys, s': Sys, id: Id)
    requires Coherent(s) && id in s'.cache && id in s.cache && s'.cache[id] == s.cache[id]
    requires id in s.rows ==>
               id in s'.rows && s'.rows[id].kind == s.rows[id].kind && s'.rows[id].config == s.rows[id].config
    requires forall t :: t in s.threads && s.threads[t] == Invalidating(id) ==>
               t in s'.threads && s'.threads[t] == s.threads[t]
    ensures Current(s'.rows, id, s'.cache[id]) || Awaiting(s', id)
  {
  }

  lemma ChangedRowCoherent(s: Sys, t: ThreadId, s': Sys)
    requires Coherent(s) && t in s.threads && !s.threads[t].Invalidating?
    requires s'.cache == s.cache && s'.threads == s.threads[t := Invalidating(s.threads[t].id)]
    requires forall k :: k in s.rows && k != s.threads[t].id ==> k in s'.rows && s'.rows[k] == s.rows[k]
    ensures Coherent(s')
  {
    forall id | id in s'.cache ensures Current(s'.rows, id, s'.cache[id]) || Awaiting(s', id) {
      if id == s.threads[t].id {
        assert s'.threads[t] == Invalidating(id);
      } else {
        IdStaysCoherent(s, s', id);
      }
    }
  }

  lemma InvalidateCoherent(s: Sys, t: ThreadId)
    requires Coherent(s) && Enabled(s, Invalidate(t))
    ensures Coherent(Apply(s, Invalidate(t)))
  {
    var s' := Apply(s, Invalidate(t));
    forall id | id in s'.cache ensures Current(s'.rows, id, s'.cache[id]) || Awaiting(s', id) {
      IdStaysCoherent(s, s', id);
    }
  }

  lemma InsertCoherent(s: Sys, t: ThreadId)
    requires Coherent(s) && Enabled(s, Insert(t))
    ensures Coherent(Apply(s, Insert(t))) <==> CacheSafe(s, Insert(t))
  {
    var s' := Apply(s, Insert(t));
    var b := s.threads[t];
    forall id | id in s.cache ensures Current(s'.rows, id, s'.cache[id]) || Awaiting(s', id) {
      IdStaysCoherent(s, s', id);
    }
    if Awaiting(s, b.id) {
      StillAwaiting(s, s', b.id);
    }
    if Awaiting(s', b.id) {
      StillAwaiting(s', s, b.id);
    }
  }

  /** The remaining steps touch neither the cache nor a configuration. */
  lemma OtherCoherent(s: Sys, s': Sys)
    requires Coherent(s) && s'.cache == s.cache
    requires forall id :: id in s.cache && id in s.rows ==>
               id in s'.rows && s'.rows[id].kind == s.rows[id].kind && s'.rows[id].config == s.rows[id].config
    requires forall t :: t in s.threads && s.threads[t].Invalidating? ==>
               t in s'.threads && s'.threads[t] == s.threads[t]
    ensures Coherent(s')
  {
  }

  lemma WriteCoherent(s: Sys, t: ThreadId)
    requires Coherent(s) && Enabled(s, Write(t))
    ensures Coherent(Apply(s, Write(t)))
  {
    if WriteRefused(s.rows, s.threads[t].id, s.threads[t].name) {
      OtherCoherent(s, Apply(s, Write(t)));
    } else {
      ChangedRowCoherent(s, t, Apply(s, Write(t)));
    }
  }

  lemma RemoveCoherent(s: Sys, t: ThreadId, files: nat)
    requires Coherent(s) && Enabled(s, Remove(t, files))
    ensures Coherent(Apply(s, Remove(t, files)))
  {
    if files > 0 {
      OtherCoherent(s, Apply(s, Remove(t, files)));
    } else {
      ChangedRowCoherent(s, t, Apply(s, Remove(t, files)));
    }
  }

  /** A step keeps the cache coherent exactly when it is not a late build. */
  lemma StepCoherent(s: Sys, a: Action)
    requires Coherent(s) && Enabled(s, a)
    ensures Coherent(Apply(s, a)) <==> CacheSafe(s, a)
  {
    match a
    case Insert(t) => InsertCoherent(s, t);
    case Invalidate(t) => InvalidateCoherent(s, t);
    case Write(t) => WriteCoherent(s, t);
    case Remove(t, files) => RemoveCoherent(s, t, files);
    case _ => OtherCoherent(s, Apply(s, a));
  }

  lemma {:induction false} SafeRunCoherent(states: seq<Sys>, actions: seq<Action>, n: nat)
    requires Run(states, actions) && n <= |actions|
    requires forall i :: 0 <= i < n ==> Enabled(states[i], actions[i]) && CacheSafe(states[i], actions[i])
    ensures Coherent(states[n])
  {
    if n > 0 {
      SafeRunCoherent(states, actions, n - 1);
      StepCoherent(states[n - 1], actions[n - 1]);
      assert states[n - 1 + 1] == Apply(states[n - 1], actions[n - 1]);
    }
  }

  lemma CoherentStepSafe(states: seq<Sys>, actions: seq<Action>, n: nat)
    requires Run(states, actions) && n < |actions| && Coherent(states[n]) && Coherent(states[n + 1])
    ensures CacheSafe(states[n], actions[n])
  {
    StepCoherent(states[n], actions[n]);
  }

  /** In every interleaving, a cached Get always answers what a build from the
      current row would, exactly when no build was late. */
  lemma RunCoherent(states: seq<Sys>, actions: seq<Action>)
    requires Run(states, actions)
    ensures (forall n :: 0 <= n < |states| ==> Coherent(states[n]))
       <==> (forall n :: 0 <= n < |actions| ==> Enabled(states[n], actions[n]) && CacheSafe(states[n], actions[n]))
  {
    if forall n :: 0 <= n < |actions| ==> Enabled(states[n], actions[n]) && CacheSafe(states[n], actions[n]) {
      forall n | 0 <= n < |states| ensures Coherent(states[n]) {
        SafeRunCoherent(states, actions, n);
      }
    } else if forall n :: 0 <= n < |states| ==> Coherent(states[n]) {
      forall n | 0 <= n < |actions| ensures Enabled(states[n], actions[n]) && CacheSafe(states[n], actions[n]) {
        CoherentStepSafe(states, actions, n);
      }
    }
  }
}
