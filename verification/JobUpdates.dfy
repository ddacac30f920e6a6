/**
 The torrent-update broadcaster as a machine: its mutex sections, the sends of
 a Publish one channel at a time, and receives that take no lock.
 */
module JobUpdates {
  import opened Wrappers

  type ChanId = nat
  type UserId = int

  datatype Job = Job(userId: UserId, update: int)

  /** A one-slot channel. since, got and skipped are its history: the number of
      jobs published before it, the jobs received, the sends that found it full. */
  datatype Chan = Chan(userId: UserId, buffer: seq<Job>, closed: bool, since: nat, got: seq<Job>, skipped: nat)

  /** sending holds the channels a Publish in progress has yet to serve. */
  datatype Hub = Hub(subscribers: map<UserId, set<ChanId>>, chans: map<ChanId, Chan>, published: seq<Job>,
                     sending: Option<set<ChanId>>)

  const InitHub := Hub(map[], map[], [], None)

  datatype Action =
    | Subscribe(c: ChanId, u: UserId)
    | Unsubscribe(c: ChanId, u: UserId)
    | BeginPublish(job: Job)
    | Send(c: ChanId)
    | EndPublish
    | Receive(c: ChanId)

  predicate Enabled(s: Hub, a: Action) {
    match a
    case Subscribe(c, u) => s.sending.None? && c !in s.chans
    case Unsubscribe(c, u) => s.sending.None? && c in s.chans
    case BeginPublish(job) => s.sending.None?
    case Send(c) => s.sending.Some? && c in s.sending.value && c in s.chans && s.published != []
    case EndPublish => s.sending == Some({})
    case Receive(c) => c in s.chans && s.chans[c].buffer != []
  }

  /** Go panics on a send to, and on the closing of, a closed channel. */
  predicate Panics(s: Hub, a: Action)
    requires Enabled(s, a)
  {
    (a.Send? || a.Unsubscribe?) && s.chans[a.c].closed
  }

  function Subscribers(s: Hub, u: UserId): set<ChanId> {
    if u in s.subscribers then s.subscribers[u] else {}
  }

  /** The map after `delete(subs, ch)`, which drops a user's empty set. */
  function RemoveSubscriber(subscribers: map<UserId, set<ChanId>>, c: ChanId, u: UserId): map<UserId, set<ChanId>> {
    if u !in subscribers then subscribers
    else if subscribers[u] - {c} == {} then subscribers - {u}
    else subscribers[u := subscribers[u] - {c}]
  }

  /** The select with a default case. */
  function Offer(c: Chan, job: Job): Chan {
    if c.buffer == [] then c.(buffer := [job]) else c.(skipped := c.skipped + 1)
  }

  /** The channel after a receive. */
  function Taken(ch: Chan): Chan
    requires ch.buffer != []
  {
    ch.(got := ch.got + ch.buffer[..1], buffer := ch.buffer[1..])
  }

  function Apply(s: Hub, a: Action): Hub
    requires Enabled(s, a)
  {
    match a
    case Subscribe(c, u) =>
      s.(subscribers := s.subscribers[u := Subscribers(s, u) + {c}],
         chans := s.chans[c := Chan(u, [], false, |s.published|, [], 0)])
    case Unsubscribe(c, u) =>
      s.(subscribers := RemoveSubscriber(s.subscribers, c, u), chans := s.chans[c := s.chans[c].(closed := true)])
    case BeginPublish(job) => s.(published := s.published + [job], sending := Some(Subscribers(s, job.userId)))
    case Send(c) =>
      s.(chans := s.chans[c := Offer(s.chans[c], s.published[|s.published| - 1])],
         sending := Some(s.sending.value - {c}))
    case EndPublish => s.(sending := None)
    case Receive(c) => s.(chans := s.chans[c := Taken(s.chans[c])])
  }

  // ---- What a subscriber is due ---------------------------------------------------

  /** The jobs of one user in a stretch of the publication log. */
  function JobsOf(log: seq<Job>, u: UserId): seq<Job> {
    if log == [] then []
    else
      var last := log[|log| - 1];
      JobsOf(log[..|log| - 1], u) + if last.userId == u then [last] else []
  }

  /** a is b with some elements left out. */
  predicate Subsequence(a: seq<Job>, b: seq<Job>)
    decreases |b|
  {
    a == [] || (b != [] && ((a[|a| - 1] == b[|b| - 1] && Subsequence(a[..|a| - 1], b[..|b| - 1]))
                            || Subsequence(a, b[..|b| - 1])))
  }

  predicate Owed(s: Hub, c: ChanId) {
    s.sending.Some? && c in s.sending.value
  }

  /** The log that channel c has been served from. */
  function Log(s: Hub, c: ChanId): seq<Job> {
    if Owed(s, c) && s.published != [] then s.published[..|s.published| - 1] else s.published
  }

  // ---- The invariant -----------------------------------------------------------------

  /** The subscriber sets hold exactly the open channels, each under its user. */
  ghost predicate Registered(s: Hub) {
    && (forall u :: u in s.subscribers ==> s.subscribers[u] != {})
    && (forall u, c :: u in s.subscribers && c in s.subscribers[u] ==>
          c in s.chans && s.chans[c].userId == u && !s.chans[c].closed)
    && (forall c :: c in s.chans && !s.chans[c].closed ==> c in Subscribers(s, s.chans[c].userId))
  }

  predicate SendingOk(s: Hub) {
    s.sending.Some? ==> s.published != [] && s.sending.value <= Subscribers(s, s.published[|s.published| - 1].userId)
  }

  /** What a channel received and holds is, in order, part of what was published
      for its user since it subscribed; while it is open, the rest was skipped. */
  predicate Faithful(ch: Chan, log: seq<Job>) {
    && |ch.buffer| <= 1
    && ch.since <= |log|
    && Subsequence(ch.got + ch.buffer, JobsOf(log[ch.since..], ch.userId))
    && (!ch.closed ==> |ch.got| + |ch.buffer| + ch.skipped == |JobsOf(log[ch.since..], ch.userId)|)
  }

  ghost predicate AllFaithful(s: Hub) {
    forall c :: c in s.chans ==> Faithful(s.chans[c], Log(s, c))
  }

  ghost predicate Inv(s: Hub) {
    Registered(s) && SendingOk(s) && AllFaithful(s)
  }

  /** WatchJobs unsubscribes its own channel under its own user, and once. */
  predicate Proper(s: Hub, a: Action)
    requires Enabled(s, a)
  {
    a.Unsubscribe? ==> s.chans[a.c].userId == a.u && !s.chans[a.c].closed
  }

  lemma ProperNeverPanics(s: Hub, a: Action)
    requires Inv(s) && Enabled(s, a) && Proper(s, a)
    ensures !Panics(s, a)
  {
  }

  // ---- One channel ------------------------------------------------------------------------

  lemma JobsOfOneMore(log: seq<Job>, since: nat, job: Job, u: UserId)
    requires since <= |log|
    ensures JobsOf((log + [job])[since..], u) == JobsOf(log[since..], u) + if job.userId == u then [job] else []
  {
    assert (log + [job])[since..] == log[since..] + [job];
    assert (log[since..] + [job])[..|log| - since] == log[since..];
  }

  lemma SubsequenceSkip(a: seq<Job>, b: seq<Job>, x: Job)
    requires Subsequence(a, b)
    ensures Subsequence(a, b + [x])
  {
  }

  lemma SubsequenceTake(a: seq<Job>, b: seq<Job>, x: Job)
    requires Subsequence(a, b)
    ensures Subsequence(a + [x], b + [x])
  {
  }

  /** A publication that does not concern the channel. */
  lemma NotOffered(ch: Chan, log: seq<Job>, job: Job)
    requires Faithful(ch, log) && (ch.closed || job.userId != ch.userId)
    ensures Faithful(ch, log + [job])
  {
    JobsOfOneMore(log, ch.since, job, ch.userId);
    var due := JobsOf(log[ch.since..], ch.userId);
    assert due + [] == due;
    if job.userId == ch.userId {
      SubsequenceSkip(ch.got + ch.buffer, due, job);
    }
  }

  lemma Offered(ch: Chan, log: seq<Job>, job: Job)
    requires Faithful(ch, log) && job.userId == ch.userId
    ensures Faithful(Offer(ch, job), log + [job])
  {
    JobsOfOneMore(log, ch.since, job, ch.userId);
    var due := JobsOf(log[ch.since..], ch.userId);
    var ch' := Offer(ch, job);
    assert JobsOf((log + [job])[ch'.since..], ch'.userId) == due + [job];
    if ch.buffer == [] {
      assert ch.got + ch.buffer == ch.got;
      SubsequenceTake(ch.got, due, job);
      assert ch'.got + ch'.buffer == ch.got + [job];
    } else {
      SubsequenceSkip(ch.got + ch.buffer, due, job);
      assert ch'.got + ch'.buffer == ch.got + ch.buffer;
    }
  }

  lemma Received(ch: Chan, log: seq<Job>)
    requires Faithful(ch, log) && ch.buffer != []
    ensures Faithful(Taken(ch), log)
  {
    assert ch.got + ch.buffer[..1] + ch.buffer[1..] == ch.got + ch.buffer;
  }

  // ---- Steps ------------------------------------------------------------------------------

  lemma SubscribeKeepsRegistered(s: Hub, c: ChanId, u: UserId)
    requires Registered(s) && Enabled(s, Subscribe(c, u))
    ensures Registered(Apply(s, Subscribe(c, u)))
  {
  }

  lemma SubscribeKeepsInv(s: Hub, c: ChanId, u: UserId)
    requires Inv(s) && Enabled(s, Subscribe(c, u))
    ensures Inv(Apply(s, Subscribe(c, u)))
  {
    SubscribeKeepsRegistered(s, c, u);
    var s' := Apply(s, Subscribe(c, u));
    assert s'.published[|s'.published|..] == [];
    forall x | x in s'.chans ensures Faithful(s'.chans[x], Log(s', x)) {
      if x != c {
        assert Faithful(s.chans[x], Log(s, x));
      }
    }
  }

  lemma UnsubscribeKeepsRegistered(s: Hub, c: ChanId, u: UserId)
    requires Registered(s) && Enabled(s, Unsubscribe(c, u)) && Proper(s, Unsubscribe(c, u))
    ensures Registered(Apply(s, Unsubscribe(c, u)))
  {
  }

  lemma UnsubscribeKeepsInv(s: Hub, c: ChanId, u: UserId)
    requires Inv(s) && Enabled(s, Unsubscribe(c, u)) && Proper(s, Unsubscribe(c, u))
    ensures Inv(Apply(s, Unsubscribe(c, u)))
  {
    UnsubscribeKeepsRegistered(s, c, u);
    var s' := Apply(s, Unsubscribe(c, u));
    forall x | x in s'.chans ensures Faithful(s'.chans[x], Log(s', x)) {
      assert Faithful(s.chans[x], Log(s, x));
    }
  }

  lemma BeginKeepsInv(s: Hub, job: Job)
    requires Inv(s) && Enabled(s, BeginPublish(job))
    ensures Inv(Apply(s, BeginPublish(job)))
  {
    BeginKeepsFaithful(s, job);
    SameRegistered(s, Apply(s, BeginPublish(job)));
  }

  lemma BeginKeepsFaithful(s: Hub, job: Job)
    requires AllFaithful(s) && Enabled(s, BeginPublish(job))
    requires forall c :: c in s.chans && !s.chans[c].closed ==> c in Subscribers(s, s.chans[c].userId)
    ensures AllFaithful(Apply(s, BeginPublish(job)))
  {
    var s' := Apply(s, BeginPublish(job));
    forall c | c in s'.chans ensures Faithful(s'.chans[c], Log(s', c)) {
      BeginKeepsChan(s, job, c);
    }
  }

  lemma BeginKeepsChan(s: Hub, job: Job, c: ChanId)
    requires Enabled(s, BeginPublish(job)) && c in s.chans && Faithful(s.chans[c], Log(s, c))
    requires !s.chans[c].closed ==> c in Subscribers(s, s.chans[c].userId)
    ensures Faithful(s.chans[c], Log(Apply(s, BeginPublish(job)), c))
  {
    var s' := Apply(s, BeginPublish(job));
    if Owed(s', c) {
      assert Log(s', c) == s.published;
    } else {
      NotOffered(s.chans[c], s.published, job);
    }
  }

  lemma ServedInFull(s: Hub, c: ChanId)
    requires Enabled(s, Send(c)) && Faithful(s.chans[c], Log(s, c))
    requires s.published[|s.published| - 1].userId == s.chans[c].userId
    ensures Faithful(Offer(s.chans[c], s.published[|s.published| - 1]), s.published)
  {
    var job := s.published[|s.published| - 1];
    assert Log(s, c) + [job] == s.published;
    Offered(s.chans[c], Log(s, c), job);
  }

  lemma SendKeepsChan(s: Hub, c: ChanId, x: ChanId)
    requires Enabled(s, Send(c)) && x in s.chans && Faithful(s.chans[x], Log(s, x))
    requires s.published[|s.published| - 1].userId == s.chans[c].userId
    ensures Faithful(Apply(s, Send(c)).chans[x], Log(Apply(s, Send(c)), x))
  {
    var s' := Apply(s, Send(c));
    if x == c {
      ServedInFull(s, c);
      assert s'.chans[c] == Offer(s.chans[c], s.published[|s.published| - 1]) && Log(s', c) == s.published;
    } else {
      assert s'.chans[x] == s.chans[x] && Log(s', x) == Log(s, x);
    }
  }

  lemma SendKeepsInv(s: Hub, c: ChanId)
    requires Inv(s) && Enabled(s, Send(c))
    ensures Inv(Apply(s, Send(c)))
  {
    assert c in Subscribers(s, s.published[|s.published| - 1].userId);
    SendKeepsFaithful(s, c);
    KeepsRegistered(s, Apply(s, Send(c)), c);
  }

  lemma SendKeepsFaithful(s: Hub, c: ChanId)
    requires AllFaithful(s) && Enabled(s, Send(c)) && s.published[|s.published| - 1].userId == s.chans[c].userId
    ensures AllFaithful(Apply(s, Send(c)))
  {
    var s' := Apply(s, Send(c));
    forall x | x in s'.chans ensures Faithful(s'.chans[x], Log(s', x)) {
      SendKeepsChan(s, c, x);
    }
  }

  /** Registration depends on each channel's user and closing alone. */
  lemma KeepsRegistered(s: Hub, s': Hub, c: ChanId)
    requires Registered(s) && c in s.chans && s'.subscribers == s.subscribers
    requires c in s'.chans && s'.chans == s.chans[c := s'.chans[c]]
    requires s'.chans[c].userId == s.chans[c].userId && s'.chans[c].closed == s.chans[c].closed
    ensures Registered(s')
  {
  }

  lemma ReceiveKeepsInv(s: Hub, c: ChanId)
    requires Inv(s) && Enabled(s, Receive(c))
    ensures Inv(Apply(s, Receive(c)))
  {
    ReceiveKeepsFaithful(s, c);
    ReceiveKeepsRegistered(s, c);
  }

  lemma ReceiveKeepsRegistered(s: Hub, c: ChanId)
    requires Registered(s) && SendingOk(s) && Enabled(s, Receive(c))
    ensures Registered(Apply(s, Receive(c))) && SendingOk(Apply(s, Receive(c)))
  {
    var s' := Apply(s, Receive(c));
    assert s'.chans == s.chans[c := Taken(s.chans[c])];
    KeepsRegistered(s, s', c);
  }

  lemma ReceiveKeepsFaithful(s: Hub, c: ChanId)
    requires AllFaithful(s) && Enabled(s, Receive(c))
    ensures AllFaithful(Apply(s, Receive(c)))
  {
    var s' := Apply(s, Receive(c));
    forall x | x in s'.chans ensures Faithful(s'.chans[x], Log(s', x)) {
      ReceiveKeepsChan(s, c, x);
    }
  }

  lemma ReceiveKeepsChan(s: Hub, c: ChanId, x: ChanId)
    requires Enabled(s, Receive(c)) && x in s.chans && Faithful(s.chans[x], Log(s, x))
    ensures Faithful(Apply(s, Receive(c)).chans[x], Log(Apply(s, Receive(c)), x))
  {
    var s' := Apply(s, Receive(c));
    assert Log(s', x) == Log(s, x);
    if x == c {
      Received(s.chans[c], Log(s, c));
    } else {
      assert s'.chans[x] == s.chans[x];
    }
  }

  lemma EndKeepsInv(s: Hub)
    requires Inv(s) && Enabled(s, EndPublish)
    ensures Inv(Apply(s, EndPublish))
  {
    EndKeepsFaithful(s);
    SameRegistered(s, Apply(s, EndPublish));
  }

  lemma SameRegistered(s: Hub, s': Hub)
    requires Registered(s) && s'.subscribers == s.subscribers && s'.chans == s.chans
    ensures Registered(s')
  {
    assert forall u :: Subscribers(s', u) == Subscribers(s, u);
  }

  lemma EndKeepsFaithful(s: Hub)
    requires AllFaithful(s) && Enabled(s, EndPublish)
    ensures AllFaithful(Apply(s, EndPublish))
  {
    forall x | x in s.chans ensures Faithful(s.chans[x], Log(Apply(s, EndPublish), x)) {
      assert Faithful(s.chans[x], Log(s, x));
      NothingOwed(s, x);
    }
  }

  lemma NothingOwed(s: Hub, c: ChanId)
    requires Enabled(s, EndPublish)
    ensures Log(Apply(s, EndPublish), c) == Log(s, c)
  {
  }

  lemma ProperKeepsInv(s: Hub, a: Action)
    requires Inv(s) && Enabled(s, a) && Proper(s, a)
    ensures Inv(Apply(s, a))
  {
    match a
    case Subscribe(c, u) => SubscribeKeepsInv(s, c, u);
    case Unsubscribe(c, u) => UnsubscribeKeepsInv(s, c, u);
    case BeginPublish(job) => BeginKeepsInv(s, job);
    case Send(c) => SendKeepsInv(s, c);
    case EndPublish => EndKeepsInv(s);
    case Receive(c) => ReceiveKeepsInv(s, c);
  }

  /** A step keeps the broadcaster sound, without a panic, exactly when it is
      not a second Unsubscribe or one under another user. */
  lemma StepInv(s: Hub, a: Action)
    requires Inv(s) && Enabled(s, a)
    ensures (!Panics(s, a) && Inv(Apply(s, a))) <==> Proper(s, a)
  {
    if Proper(s, a) {
      ProperNeverPanics(s, a);
      ProperKeepsInv(s, a);
    } else if !Panics(s, a) {
      var u := s.chans[a.c].userId;
      var s' := Apply(s, a);
      assert a.c in Subscribers(s, u) && a.c in s'.subscribers[u] && s'.chans[a.c].closed;
    }
  }

  // ---- Runs -----------------------------------------------------------------------------------

  ghost predicate Run(states: seq<Hub>, actions: seq<Action>) {
    && |states| == |actions| + 1 && states[0] == InitHub
    && forall i :: 0 <= i < |actions| ==>
         Enabled(states[i], actions[i]) && states[i + 1] == Apply(states[i], actions[i])
  }

  /** In every run in which each channel is unsubscribed once, by its user, no
      send or close ever panics and the invariant always holds. */
  lemma {:induction false} RunInv(states: seq<Hub>, actions: seq<Action>, n: nat)
    requires Run(states, actions) && n <= |actions|
    requires forall i :: 0 <= i < |actions| ==> Enabled(states[i], actions[i]) && Proper(states[i], actions[i])
    ensures Inv(states[n]) && (n < |actions| ==> !Panics(states[n], actions[n]))
  {
    if n > 0 {
      RunInv(states, actions, n - 1);
      StepInv(states[n - 1], actions[n - 1]);
      assert states[n - 1 + 1] == Apply(states[n - 1], actions[n - 1]);
    }
    if n < |actions| {
      StepInv(states[n], actions[n]);
    }
  }

  // ---- What a channel accepted ------------------------------------------------------------

  /** The jobs a channel let in: received, or still waiting in its slot. */
  function Accepted(ch: Chan): seq<Job> {
    ch.got + ch.buffer
  }

  predicate IsPrefix(a: seq<Job>, b: seq<Job>) {
    |a| <= |b| && b[..|a|] == a
  }

  predicate OneSlot(s: Hub) {
    forall c :: c in s.chans ==> |s.chans[c].buffer| <= 1
  }

  /** A job gets into a channel exactly when it is sent while the slot is empty;
      only a receive takes out, and it takes what has waited. */
  lemma StepAccepts(s: Hub, a: Action, c: ChanId)
    requires OneSlot(s) && Enabled(s, a) && c in s.chans
    ensures c in Apply(s, a).chans && OneSlot(Apply(s, a))
    ensures var ch, ch' := s.chans[c], Apply(s, a).chans[c];
            && (Accepted(ch') != Accepted(ch) <==> a == Send(c) && ch.buffer == [])
            && (a == Send(c) && ch.buffer == [] ==>
                  Accepted(ch') == Accepted(ch) + [s.published[|s.published| - 1]] && ch'.got == ch.got)
            && (ch'.got != ch.got <==> a == Receive(c))
            && (a == Receive(c) ==> ch'.got == ch.got + [ch.buffer[0]] && ch'.buffer == [])
            && (ch'.skipped != ch.skipped <==> a == Send(c) && ch.buffer != [])
  {
    var ch, ch' := s.chans[c], Apply(s, a).chans[c];
    match a
    case Receive(x) => if x == c { assert ch.buffer == [ch.buffer[0]] && Accepted(ch') == Accepted(ch); }
    case Send(x) =>
      if x == c && ch.buffer == [] {
        assert Accepted(ch') == Accepted(ch) + [s.published[|s.published| - 1]];
        assert |Accepted(ch')| == |Accepted(ch)| + 1;
      }
    case _ =>
  }

  /** What a channel accepted is never lost: later on, it is still what the
      channel received and holds first, in the same order. */
  lemma {:induction false} AcceptedStays(states: seq<Hub>, actions: seq<Action>, m: nat, n: nat, c: ChanId)
    requires Run(states, actions) && m <= n <= |actions| && c in states[m].chans
    ensures OneSlot(states[n]) && c in states[n].chans
    ensures IsPrefix(Accepted(states[m].chans[c]), Accepted(states[n].chans[c]))
    ensures IsPrefix(states[m].chans[c].got, states[n].chans[c].got)
  {
    if m < n {
      AcceptedStays(states, actions, m, n - 1, c);
      StepAccepts(states[n - 1], actions[n - 1], c);
      assert states[n - 1 + 1] == Apply(states[n - 1], actions[n - 1]);
    } else {
      RunOneSlot(states, actions, n);
    }
  }

  lemma {:induction false} RunOneSlot(states: seq<Hub>, actions: seq<Action>, n: nat)
    requires Run(states, actions) && n <= |actions|
    ensures OneSlot(states[n])
  {
    if n > 0 {
      RunOneSlot(states, actions, n - 1);
      assert states[n - 1 + 1] == Apply(states[n - 1], actions[n - 1]);
    }
  }

  /** The job that waits in the slot is the next one received, whatever is
      published meanwhile. */
  lemma WaitingIsNext(states: seq<Hub>, actions: seq<Action>, m: nat, n: nat, c: ChanId)
    requires Run(states, actions) && m <= n <= |actions| && c in states[m].chans && states[m].chans[c].buffer != []
    ensures c in states[n].chans
    ensures var ch, ch' := states[m].chans[c], states[n].chans[c];
            && |ch'.got| >= |ch.got|
            && (if |ch'.got| == |ch.got| then ch'.buffer == ch.buffer else ch'.got[|ch.got|] == ch.buffer[0])
  {
    AcceptedStays(states, actions, m, n, c);
    RunOneSlot(states, actions, m);
    var ch, ch' := states[m].chans[c], states[n].chans[c];
    assert Accepted(ch)[|ch.got|] == ch.buffer[0] && Accepted(ch')[|ch.got|] == ch.buffer[0];
    if |ch'.got| == |ch.got| {
      assert ch'.buffer[0] == ch.buffer[0];
    }
  }

  /** An open channel that never was full when served got or holds every job of
      its user since it subscribed, in order. */
  lemma UnskippedIsComplete(s: Hub, c: ChanId)
    requires Inv(s) && s.sending.None? && c in s.chans && !s.chans[c].closed
    ensures var ch := s.chans[c];
            ch.got + ch.buffer == JobsOf(s.published[ch.since..], ch.userId) <==> ch.skipped == 0
  {
    var ch := s.chans[c];
    assert Faithful(ch, Log(s, c));
    if ch.skipped == 0 {
      FullSubsequence(ch.got + ch.buffer, JobsOf(s.published[ch.since..], ch.userId));
    }
  }

  lemma {:induction false} SubsequenceShorter(a: seq<Job>, b: seq<Job>)
    requires Subsequence(a, b)
    ensures |a| <= |b|
    decreases |b|
  {
    if a != [] {
      if a[|a| - 1] == b[|b| - 1] && Subsequence(a[..|a| - 1], b[..|b| - 1]) {
        SubsequenceShorter(a[..|a| - 1], b[..|b| - 1]);
      } else {
        SubsequenceShorter(a, b[..|b| - 1]);
      }
    }
  }

  lemma {:induction false} FullSubsequence(a: seq<Job>, b: seq<Job>)
    requires Subsequence(a, b) && |a| == |b|
    ensures a == b
    decreases |b|
  {
    if a != [] {
      if Subsequence(a, b[..|b| - 1]) {
        SubsequenceShorter(a, b[..|b| - 1]);
      } else {
        FullSubsequence(a[..|a| - 1], b[..|b| - 1]);
        assert a == a[..|a| - 1] + [a[|a| - 1]] && b == b[..|b| - 1] + [b[|b| - 1]];
      }
    }
  }
}
