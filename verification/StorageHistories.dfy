/** Runs of the storages machine told by their history: which earlier steps
    stand behind a stale provider and behind a default without a connection. */
module StorageHistories {
  import opened Wrappers
  import opened StorageConfigs
  import opened StorageRegistry
  import opened StorageRegistryProofs
  import opened StorageDefaults

  // ---- Where an operation in progress comes from -----------------------------------------

  predicate Begins(a: Action) {
    a.BeginUpdate? || a.BeginAuth? || a.BeginDelete? || a.BeginSetDefault? || a.ReadRow?
  }

  /** The operation that a first step opens on these rows, if its checks pass. */
  function Checked(rows: map<Id, Row>, a: Action): Option<Thread> {
    match a
    case BeginUpdate(_, id, name, config) => CheckUpdate(rows, id, name, config)
    case BeginAuth(_, id, token) => CheckAuth(rows, id, token)
    case BeginDelete(_, id, files) => CheckDelete(rows, id, files)
    case BeginSetDefault(_, id) => CheckSetDefault(rows, id)
    case ReadRow(_, id) => CheckGet(rows, id)
    case _ => None
  }

  /** At n, thread t is where the first step at m left it. */
  ghost predicate OpenedAt(states: seq<Sys>, actions: seq<Action>, m: nat, n: nat, t: ThreadId)
    requires |states| == |actions| + 1
  {
    && m < n <= |actions| && Begins(actions[m]) && actions[m].t == t
    && t in states[n].threads && Checked(states[m].rows, actions[m]) == Some(states[n].threads[t])
    && forall k :: m < k <= n ==> t in states[k].threads && states[k].threads[t] == states[n].threads[t]
  }

  /** One step leaves a thread as it was, opens it, or moves it on. */
  lemma ThreadStep(s: Sys, a: Action, t: ThreadId)
    requires Enabled(s, a) && t in Apply(s, a).threads && !Apply(s, a).threads[t].Invalidating?
    ensures var th := Apply(s, a).threads[t];
            || (t in s.threads && s.threads[t] == th)
            || (Begins(a) && a.t == t && Checked(s.rows, a) == Some(th))
  {
  }

  /** Every operation in progress was opened by one earlier step, and stands
      since then as that step's checks left it. */
  lemma {:induction false} ThreadOrigin(states: seq<Sys>, actions: seq<Action>, n: nat, t: ThreadId) returns (m: nat)
    requires Run(states, actions) && n <= |actions| && t in states[n].threads && !states[n].threads[t].Invalidating?
    ensures OpenedAt(states, actions, m, n, t)
  {
    m := 0;
    if n > 0 {
      assert states[n - 1 + 1] == Apply(states[n - 1], actions[n - 1]);
      ThreadStep(states[n - 1], actions[n - 1], t);
      if t in states[n - 1].threads && states[n - 1].threads[t] == states[n].threads[t] {
        m := ThreadOrigin(states, actions, n - 1, t);
      } else {
        m := n - 1;
      }
    }
  }

  // ---- A stale provider ------------------------------------------------------------------

  /** The only steps after which a row no longer builds p are those that write
      or remove it, and each leaves its invalidation to come. */
  lemma LosingStep(s: Sys, a: Action, id: Id, p: Provider)
    requires Enabled(s, a) && Current(s.rows, id, p) && !Current(Apply(s, a).rows, id, p)
    ensures (a.Write? || a.Remove?) && s.threads[a.t].id == id
    ensures a.t in Apply(s, a).threads && Apply(s, a).threads[a.t] == Invalidating(id)
  {
  }

  lemma {:induction false} RowChange(states: seq<Sys>, m: nat, n: nat, id: Id, p: Provider) returns (i: nat)
    requires m < n < |states| && Current(states[m].rows, id, p) && !Current(states[n].rows, id, p)
    ensures m <= i < n && Current(states[i].rows, id, p) && !Current(states[i + 1].rows, id, p)
  {
    if Current(states[n - 1].rows, id, p) {
      i := n - 1;
    } else {
      i := RowChange(states, m, n - 1, id, p);
    }
  }

  predicate Invalidates(s: Sys, u: ThreadId, id: Id) {
    u in s.threads && s.threads[u] == Invalidating(id)
  }

  lemma InvalidatingStays(s: Sys, a: Action, u: ThreadId, id: Id)
    requires Enabled(s, a) && Invalidates(s, u, id) && a != Invalidate(u)
    ensures Invalidates(Apply(s, a), u, id)
  {
  }

  lemma {:induction false} InvalidatedBetween(states: seq<Sys>, actions: seq<Action>, i: nat, n: nat, u: ThreadId,
                                              id: Id)
    returns (k: nat)
    requires Run(states, actions) && i < n <= |actions|
    requires Invalidates(states[i], u, id) && !Invalidates(states[n], u, id)
    ensures i <= k < n && actions[k] == Invalidate(u) && Invalidates(states[k], u, id)
  {
    if Invalidates(states[n - 1], u, id) {
      k := n - 1;
      if actions[k] != Invalidate(u) {
        InvalidatingStays(states[k], actions[k], u, id);
      }
    } else {
      k := InvalidatedBetween(states, actions, i, n - 1, u, id);
    }
  }

  /** The Get that inserts at n read its row at m; at i another operation
      changed that row, and at k it invalidated the cache: all of it between. */
  ghost predicate LateInsert(states: seq<Sys>, actions: seq<Action>, m: nat, i: nat, k: nat, n: nat, u: ThreadId)
    requires |states| == |actions| + 1
  {
    && m < i < k < n < |actions| && actions[n].Insert?
    && OpenedAt(states, actions, m, n, actions[n].t) && actions[m].ReadRow?
    && (actions[i].Write? || actions[i].Remove?) && actions[i].t == u
    && u in states[i].threads && states[i].threads[u].id == actions[m].id
    && states[n].threads[actions[n].t].Building?
    && Current(states[i].rows, actions[m].id, states[n].threads[actions[n].t].provider)
    && !Current(states[i + 1].rows, actions[m].id, states[n].threads[actions[n].t].provider)
    && actions[k] == Invalidate(u) && Invalidates(states[k], u, actions[m].id)
  }

  /** Every insert that spoils the cache is a late build. */
  lemma UnsafeInsertIsLate(states: seq<Sys>, actions: seq<Action>, n: nat) returns (m: nat, i: nat, k: nat, u: ThreadId)
    requires Run(states, actions) && n < |actions| && Enabled(states[n], actions[n])
             && !CacheSafe(states[n], actions[n])
    ensures LateInsert(states, actions, m, i, k, n, u)
  {
    var t := actions[n].t;
    var b := states[n].threads[t];
    m := ThreadOrigin(states, actions, n, t);
    assert states[m + 1] == Apply(states[m], actions[m]);
    i := RowChange(states, m + 1, n, b.id, b.provider);
    assert states[i + 1] == Apply(states[i], actions[i]);
    LosingStep(states[i], actions[i], b.id, b.provider);
    u := actions[i].t;
    NotAwaited(states[n], u, b.id);
    k := InvalidatedBetween(states, actions, i + 1, n, u, b.id);
  }

  lemma NotAwaited(s: Sys, u: ThreadId, id: Id)
    requires !Awaiting(s, id)
    ensures !Invalidates(s, u, id)
  {
  }

  /** Whenever a cached provider is wrong with no invalidation under way, some
      earlier Get was a late build. */
  lemma StaleHasHistory(states: seq<Sys>, actions: seq<Action>, q: nat)
    requires Run(states, actions) && q < |states| && !Coherent(states[q])
    ensures exists m: nat, i: nat, k: nat, n: nat, u: ThreadId :: n < q && LateInsert(states, actions, m, i, k, n, u)
  {
    if forall n :: 0 <= n < q ==> Enabled(states[n], actions[n]) && CacheSafe(states[n], actions[n]) {
      SafeRunCoherent(states, actions, q);
    }
    var n: nat :| n < q && Enabled(states[n], actions[n]) && !CacheSafe(states[n], actions[n]);
    var m, i, k, u := UnsafeInsertIsLate(states, actions, n);
  }

  // ---- A default without a connection ------------------------------------------------------

  /** The write at n was opened by an Update of a Google Drive row that named
      another client than that row, or met it without a refresh token. */
  ghost predicate OpenedByDisconnecting(states: seq<Sys>, actions: seq<Action>, m: nat, n: nat, t: ThreadId)
    requires |states| == |actions| + 1
  {
    && OpenedAt(states, actions, m, n, t) && actions[m].BeginUpdate?
    && actions[m].id in states[m].rows && EditDisconnects(states[m].rows[actions[m].id], actions[m].config)
  }

  /** What disconnects the default: SetDefault of a storage disconnected since
      its check, or such an Update written to the default storage. */
  ghost predicate Disconnects(states: seq<Sys>, actions: seq<Action>, n: nat)
    requires |states| == |actions| + 1 && n < |actions| && Enabled(states[n], actions[n])
  {
    var s := states[n];
    match actions[n]
    case MakeDefault(t) =>
      var id := s.threads[t].id;
      id in s.rows && !Connected(s.rows[id].kind, s.rows[id].config)
    case Write(t) =>
      var w := s.threads[t];
      && w.id in s.rows && s.rows[w.id].isDefault && !NameTaken(s.rows, w.id, w.name)
      && exists m :: OpenedByDisconnecting(states, actions, m, n, t)
    case _ => false
  }

  /** The configuration that a write carries, seen from the step that opened it. */
  lemma WriteSeenFromStart(states: seq<Sys>, actions: seq<Action>, m: nat, n: nat, t: ThreadId)
    requires Run(states, actions) && n <= |actions| && OpenedAt(states, actions, m, n, t)
    requires states[n].threads[t].Writing? && states[n].threads[t].id in states[n].rows
    ensures var w := states[n].threads[t];
            Connected(states[n].rows[w.id].kind, w.config) <==> !OpenedByDisconnecting(states, actions, m, n, t)
  {
    var w := states[n].threads[t];
    RunKinds(states, actions, m);
    RunKinds(states, actions, n);
    var rows := states[m].rows;
    assert RowOk(w.id, rows[w.id]) && ThreadOk(states[n].rows, w);
    match actions[m]
    case BeginUpdate(_, id, name, config) =>
      EditedConnected(rows, id, name, config);
      MergeValid(rows[id].kind, rows[id].config, config);
    case BeginAuth(_, id, token) =>
    case _ =>
  }

  lemma DisconnectsIff(states: seq<Sys>, actions: seq<Action>, n: nat)
    requires Run(states, actions) && n < |actions| && Enabled(states[n], actions[n])
    ensures Disconnects(states, actions, n) <==> !ConnectionSafe(states[n], actions[n])
  {
    if actions[n].Write? && states[n].threads[actions[n].t].id in states[n].rows {
      var t := actions[n].t;
      var m := ThreadOrigin(states, actions, n, t);
      WriteSeenFromStart(states, actions, m, n, t);
      if exists k :: OpenedByDisconnecting(states, actions, k, n, t) {
        var k :| OpenedByDisconnecting(states, actions, k, n, t);
        WriteSeenFromStart(states, actions, k, n, t);
      }
    }
  }

  ghost predicate NeverDisconnects(states: seq<Sys>, actions: seq<Action>)
    requires |states| == |actions| + 1
  {
    forall n :: 0 <= n < |actions| ==> Enabled(states[n], actions[n]) && !Disconnects(states, actions, n)
  }

  lemma {:induction false} CarefulRunConnected(states: seq<Sys>, actions: seq<Action>, n: nat)
    requires Run(states, actions) && n <= |actions| && NeverDisconnects(states, actions)
    ensures DefaultConnected(states[n].rows)
  {
    if n > 0 {
      CarefulRunConnected(states, actions, n - 1);
      DisconnectsIff(states, actions, n - 1);
      StepDefaultConnected(states[n - 1], actions[n - 1]);
      assert states[n - 1 + 1] == Apply(states[n - 1], actions[n - 1]);
    }
  }

  lemma ConnectedStepSafe(states: seq<Sys>, actions: seq<Action>, n: nat)
    requires Run(states, actions) && n < |actions| && DefaultConnected(states[n].rows)
             && DefaultConnected(states[n + 1].rows)
    ensures Enabled(states[n], actions[n]) && !Disconnects(states, actions, n)
  {
    DisconnectsIff(states, actions, n);
    StepDefaultConnected(states[n], actions[n]);
  }

  /** In every interleaving, the default storage is connected all the time
      exactly when no step disconnects it. */
  lemma RunDefaultConnected(states: seq<Sys>, actions: seq<Action>)
    requires Run(states, actions)
    ensures (forall n :: 0 <= n < |states| ==> DefaultConnected(states[n].rows)) <==> NeverDisconnects(states, actions)
  {
    if NeverDisconnects(states, actions) {
      forall n | 0 <= n < |states| ensures DefaultConnected(states[n].rows) {
        CarefulRunConnected(states, actions, n);
      }
    } else if forall n :: 0 <= n < |states| ==> DefaultConnected(states[n].rows) {
      forall n | 0 <= n < |actions| ensures Enabled(states[n], actions[n]) && !Disconnects(states, actions, n) {
        ConnectedStepSafe(states, actions, n);
      }
    }
  }
}
