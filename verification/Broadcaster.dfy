/** The Broadcaster object, its channels kept with it. The publication log and
    each channel's history are recorded for the proofs; Go keeps neither. */
module Broadcaster {
  import opened Wrappers
  import opened JobUpdates

  /** The channels after some of them were offered a job. */
  function Offers(chans: map<ChanId, Chan>, to: set<ChanId>, job: Job): map<ChanId, Chan> {
    map c | c in chans :: if c in to then Offer(chans[c], job) else chans[c]
  }

  /** A whole Publish in which no receive intervenes. */
  function Published(s: Hub, job: Job): Hub {
    s.(chans := Offers(s.chans, Subscribers(s, job.userId), job), published := s.published + [job])
  }

  class Broadcaster {
    var subscribers: map<UserId, set<ChanId>>
    var chans: map<ChanId, Chan>
    var published: seq<Job>

    constructor ()
      ensures Abs() == InitHub
    {
      subscribers, chans, published := map[], map[], [];
    }

    /** Between two calls no Publish is in progress. */
    ghost function Abs(): Hub
      reads this
    {
      Hub(subscribers, chans, published, None)
    }

    /** c is the channel that make returns. */
    method Subscribe(c: ChanId, userId: UserId)
      requires c !in chans
      modifies this
      ensures Abs() == Apply(old(Abs()), Action.Subscribe(c, userId))
      ensures c in chans && chans == old(chans)[c := chans[c]]
      ensures chans[c].userId == userId && chans[c].buffer == [] && chans[c].got == [] && !chans[c].closed
      ensures userId in subscribers && subscribers == old(subscribers)[userId := subscribers[userId]]
      ensures forall x :: x in subscribers[userId] <==>
                x == c || (userId in old(subscribers) && x in old(subscribers)[userId])
    {
      chans := chans[c := Chan(userId, [], false, |published|, [], 0)];
      if userId !in subscribers {
        subscribers := subscribers[userId := {}];
      }
      subscribers := subscribers[userId := subscribers[userId] + {c}];
    }

    method Unsubscribe(c: ChanId, userId: UserId)
      requires c in chans && !chans[c].closed
      modifies this
      ensures Abs() == Apply(old(Abs()), Action.Unsubscribe(c, userId))
      ensures chans == old(chans)[c := old(chans)[c].(closed := true)]
      ensures forall u :: u != userId ==>
                && (u in subscribers <==> u in old(subscribers))
                && (u in subscribers ==> subscribers[u] == old(subscribers)[u])
      ensures userId in subscribers <==> userId in old(subscribers) && old(subscribers)[userId] - {c} != {}
      ensures userId in subscribers ==> subscribers[userId] == old(subscribers)[userId] - {c}
    {
      if userId in subscribers {
        subscribers := subscribers[userId := subscribers[userId] - {c}];
        if subscribers[userId] == {} {
          subscribers := subscribers - {userId};
        }
      }
      chans := chans[c := chans[c].(closed := true)];
    }

    method Publish(job: Job)
      requires Registered(Abs())
      modifies this
      ensures Abs() == Published(old(Abs()), job)
      // an empty slot takes the job, a full one keeps what it has, and nobody
      // else's channel changes
      ensures subscribers == old(subscribers) && chans.Keys == old(chans).Keys
      ensures forall c :: c in chans ==>
                && chans[c].userId == old(chans)[c].userId && chans[c].closed == old(chans)[c].closed
                && chans[c].got == old(chans)[c].got
                && (old(chans)[c].buffer != [] ==> chans[c].buffer == old(chans)[c].buffer)
                && (old(chans)[c].buffer == [] ==>
                      chans[c].buffer == if old(chans)[c].userId == job.userId && !old(chans)[c].closed
                                         then [job] else [])
    {
      ghost var before := Abs();
      published := published + [job];
      if job.userId !in subscribers {
        assert chans == Offers(chans, {}, job);
        return;
      }
      var rest := subscribers[job.userId];
      assert chans == Offers(chans, {}, job);
      while rest != {}
        invariant subscribers == before.subscribers && published == before.published + [job]
        invariant rest <= subscribers[job.userId]
        invariant chans == Offers(before.chans, subscribers[job.userId] - rest, job)
        decreases |rest|
      {
        var c :| c in rest;
        assert c in before.subscribers[job.userId];
        assert !chans[c].closed;
        if |chans[c].buffer| == 0 {
          chans := chans[c := chans[c].(buffer := [job])];
        } else {
          chans := chans[c := chans[c].(skipped := chans[c].skipped + 1)];
        }
        rest := rest - {c};
      }
      assert subscribers[job.userId] - rest == Subscribers(before, job.userId);
    }

    /** One receive from a channel that holds something. */
    method Receive(c: ChanId) returns (job: Job)
      requires c in chans && chans[c].buffer != []
      modifies `chans
      ensures Abs() == Apply(old(Abs()), Action.Receive(c)) && job == old(chans[c].buffer[0])
      ensures var was := old(chans)[c];
              chans == old(chans)[c := was.(buffer := was.buffer[1..], got := was.got + [job])]
    {
      job := chans[c].buffer[0];
      assert chans[c].buffer[..1] == [job];
      chans := chans[c := Taken(chans[c])];
    }
  }

  // ---- Publish is its steps, in any order --------------------------------------------

  ghost predicate Enumerates(order: seq<ChanId>, to: set<ChanId>) {
    && (forall i :: 0 <= i < |order| ==> order[i] in to)
    && (forall i, j :: 0 <= i < j < |order| ==> order[i] != order[j])
    && (forall c :: c in to ==> c in order)
  }

  /** The sends of a Publish, in the order Go's map iteration happens to take. */
  function Sends(s: Hub, order: seq<ChanId>, n: nat): Option<Hub>
    requires n <= |order|
  {
    if n == 0 then Some(s)
    else
      match Sends(s, order, n - 1)
      case None => None
      case Some(s') => if Enabled(s', Send(order[n - 1])) then Some(Apply(s', Send(order[n - 1]))) else None
  }

  ghost function Sent(order: seq<ChanId>, n: nat): set<ChanId>
    requires n <= |order|
  {
    set i | 0 <= i < n :: order[i]
  }

  /** Publish after its first n sends. */
  ghost function Midway(s: Hub, job: Job, sent: set<ChanId>): Hub {
    Hub(s.subscribers, Offers(s.chans, sent, job), s.published + [job], Some(Subscribers(s, job.userId) - sent))
  }

  lemma OneSend(s: Hub, job: Job, sent: set<ChanId>, c: ChanId)
    requires Registered(s) && c in Subscribers(s, job.userId) && c !in sent
    ensures var m := Midway(s, job, sent);
            Enabled(m, Send(c)) && Apply(m, Send(c)) == Midway(s, job, sent + {c})
  {
    assert c in s.chans;
    var m := Midway(s, job, sent);
    assert m.published[|m.published| - 1] == job;
    assert Offers(s.chans, sent + {c}, job) == m.chans[c := Offer(m.chans[c], job)];
    assert Subscribers(s, job.userId) - (sent + {c}) == Subscribers(s, job.userId) - sent - {c};
  }

  lemma {:induction false} SendsOffer(s: Hub, job: Job, order: seq<ChanId>, n: nat)
    requires Registered(s) && s.sending.None? && n <= |order| && Enumerates(order, Subscribers(s, job.userId))
    ensures Sends(Apply(s, BeginPublish(job)), order, n) == Some(Midway(s, job, Sent(order, n)))
  {
    if n == 0 {
      assert Sent(order, 0) == {} && Offers(s.chans, {}, job) == s.chans;
      assert Subscribers(s, job.userId) - {} == Subscribers(s, job.userId);
    } else {
      SendsOffer(s, job, order, n - 1);
      OneSend(s, job, Sent(order, n - 1), order[n - 1]);
      assert Sent(order, n) == Sent(order, n - 1) + {order[n - 1]};
    }
  }

  /** However the map is iterated, Publish has the same effect. */
  lemma PublishAnyOrder(s: Hub, job: Job, order: seq<ChanId>)
    requires Registered(s) && s.sending.None? && Enumerates(order, Subscribers(s, job.userId))
    ensures var r := Sends(Apply(s, BeginPublish(job)), order, |order|);
            r.Some? && Enabled(r.value, EndPublish) && Apply(r.value, EndPublish) == Published(s, job)
  {
    SendsOffer(s, job, order, |order|);
    assert Sent(order, |order|) == Subscribers(s, job.userId);
    assert Subscribers(s, job.userId) - Sent(order, |order|) == {};
  }
}
