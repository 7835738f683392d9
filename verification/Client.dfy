/**
 The client's request bookkeeping as the code performs it, region by region. A method may
 be called in any state; in a reachable state of the protocol, and undisturbed, it does
 what a sequence of the protocol's actions does.
 */
module Clients {
  import opened Prelude
  import opened Responses
  import opened Registry
  import opened Futures
  import opened ClientActions
  import Protocol
  import Pubsub
  import BatchCorrectness

  const UNSENT: Error := YumError("Couldn't send request")

  /** The requests recorded under one timestamp key. */
  function Entry(ts: map<int, seq<Id>>, key: int): set<(int, Id)>
    requires key in ts
  {
    Pairs(key, ts[key])
  }

  function Pairs(key: int, vs: seq<Id>): set<(int, Id)> { set id | id in vs :: (key, id) }

  lemma PairIds(key: int, vs: seq<Id>)
    ensures forall id :: id in DueIds(Pairs(key, vs)) <==> id in vs
  {
    assert forall id :: id in vs ==> (key, id) in Pairs(key, vs);
  }

  lemma SweepOneMore(t: Table, key: int, vs: seq<Id>, i: nat)
    requires i < |vs|
    ensures var before := Swept(t, Pairs(key, vs[..i]));
            && Settle(before, vs[i], TimedOut) == Swept(t, Pairs(key, vs[..i + 1]))
            && (vs[i] in before.pending <==> vs[i] in t.pending && vs[i] !in vs[..i])
  {
    var done, last := Pairs(key, vs[..i]), {(key, vs[i])};
    assert Pairs(key, vs[..i + 1]) == done + last by {
      assert vs[..i + 1] == vs[..i] + [vs[i]];
    }
    SettleIsSwept(Swept(t, done), key, vs[i]);
    SweptTwice(t, done, last);
    PairIds(key, vs[..i]);
  }

  /** Of those, the ones that are due. */
  function DueEntry(ts: map<int, seq<Id>>, now: int, key: int): set<(int, Id)>
    requires key in ts
  {
    if now - key >= Protocol.TIMEOUT then Entry(ts, key) else {}
  }

  /** The due requests whose key is no longer to be visited. */
  function DueOutside(ts: map<int, seq<Id>>, now: int, keys: set<int>): set<(int, Id)> {
    set p | p in Protocol.Due(ts, now) && p.0 !in keys
  }

  lemma DueOutsideStep(ts: map<int, seq<Id>>, now: int, keys: set<int>, k: int)
    requires k in keys && k in ts
    ensures DueOutside(ts, now, keys - {k})
         == DueOutside(ts, now, keys) + DueEntry(ts, now, k)
  {
  }

  /** What one response appends to the channel `c`. */
  function Fed(r: RpcResponse, subscribers: map<Id, Pubsub.Channel>, c: Pubsub.Channel): seq<Json> {
    if r.Subscription? && r.id in subscribers && subscribers[r.id] == c then [r.result] else []
  }

  /** What a message appends to it: the notifications for ids it is registered under, in order. */
  function Feed(rs: seq<RpcResponse>, subscribers: map<Id, Pubsub.Channel>, c: Pubsub.Channel): seq<Json> {
    if rs == [] then []
    else Feed(rs[..|rs| - 1], subscribers, c) + Fed(rs[|rs| - 1], subscribers, c)
  }

  lemma DeliverOneMore(t: Table, rs: seq<RpcResponse>, i: nat)
    requires i < |rs|
    ensures Deliver(t, SocketAnswers(rs[..i + 1])) ==
              if rs[i].Subscription? then Deliver(t, SocketAnswers(rs[..i]))
              else Settle(Deliver(t, SocketAnswers(rs[..i])), rs[i].id, Answered(IntoResponse(rs[i]).result))
  {
    assert rs[..i + 1][..i] == rs[..i];
    var before := SocketAnswers(rs[..i]);
    if rs[i].Subscription? {
      assert SocketAnswers(rs[..i + 1]) == before;
    } else {
      assert (before + [IntoResponse(rs[i])])[..|before|] == before;
    }
  }

  lemma {:induction false} NoticesOnly(rs: seq<RpcResponse>, subscribers: map<Id, Pubsub.Channel>, c: Pubsub.Channel)
    requires forall r :: r in rs ==> !r.Subscription?
    ensures Feed(rs, subscribers, c) == []
  {
    if rs == [] {
    } else {
      NoticesOnly(rs[..|rs| - 1], subscribers, c);
      assert rs[|rs| - 1] in rs;
    }
  }

  /** What dispatching a decoded frame does to the table and to each channel. */
  lemma FrameEffect(t: Table, frame: Frame, subscribers: map<Id, Pubsub.Channel>)
    requires !Panics(frame) && HandleFrame(frame).Ok?
    ensures var rs := HandleFrame(frame).value;
            && (frame.response.Some? ==>
                  && (forall id :: Matches(t, OutputsOf(frame.response.value), Deliver(t, SocketAnswers(rs)), id))
                  && forall c :: Feed(rs, subscribers, c) == [])
            && (frame.response.None? ==>
                  && Deliver(t, SocketAnswers(rs)) == t
                  && frame.Text? && frame.notice.Some?
                  && forall c :: Feed(rs, subscribers, c) == Fed(rs[0], subscribers, c))
  {
    var rs := HandleFrame(frame).value;
    NotificationsComeAlone(frame);
    DecodesExactly(frame);
    if frame.response.Some? {
      forall id ensures Matches(t, OutputsOf(frame.response.value), Deliver(t, SocketAnswers(rs)), id) {
        FrameSettles(t, frame, id);
      }
      forall c ensures Feed(rs, subscribers, c) == [] {
        NoticesOnly(rs, subscribers, c);
      }
    } else {
      NoticeAnswers(frame.notice.value.subscription, frame.notice.value.result);
      assert rs[..0] == [];
    }
  }

  /** The iteration order of a hash map is unspecified. */
  method AnyKey<K(==)>(keys: set<K>) returns (k: K)
    requires |keys| > 0
    ensures k in keys
  {
    k :| k in keys;
  }

  class Client {
    var ids: Id
    var pending: set<Id>
    var fates: map<Id, Fate>           // the cells of the oneshots
    var ts: map<int, seq<Id>>
    const subscriptions: Pubsub.Subscriptions

    function Contents(): Table
      reads this
    {
      Table(pending, fates)
    }

    /** The client is as in a given reachable state of the protocol. */
    ghost predicate Represents(s: Protocol.State)
      reads this
    {
      Shows(s, Contents(), ids, ts)
    }

    /** It is as in the state that these actions, each enabled in turn, lead to. */
    ghost predicate Reached(s: Protocol.State, actions: seq<Protocol.Action>)
      reads this
    {
      Leads(s, actions, Contents(), ids, ts)
    }

    constructor (subscriptions: Pubsub.Subscriptions)
      ensures Contents() == Table({}, map[]) && ids == 1 && ts == map[]
      ensures this.subscriptions == subscriptions
      ensures Represents(Protocol.INITIAL)
    {
      assert Protocol.Execute(Protocol.INITIAL, []) == Some(Protocol.INITIAL);
      ids, pending, fates, ts := 1, {}, map[], map[];
      this.subscriptions := subscriptions;
    }

    method NextId() returns (id: Id)
      modifies this`ids
      ensures id == old(ids) && ids == id + 1
      ensures forall s :: old(Represents(s)) ==> Reached(s, [Protocol.TakeId])
    {
      id := ids;
      ids := ids + 1;
      OneAlways(Contents(), id, ts, Protocol.TakeId);
    }

    /** `sent` tells whether the message went out; if it did not, the request stays in the
        table although its caller already has the error. */
    method Request<T>(decode: Json -> Result<T>, now: int, sent: bool) returns (f: FutureState<T>)
      modifies this`ids, this`pending, this`ts
      ensures var id := old(ids);
              && ids == id + 1
              && pending == old(pending) + {id}
              && ts == Protocol.Recorded(old(ts), now, id)
              && ts == old(ts)[now := (if now in old(ts) then old(ts)[now] else []) + [id]]
              && f == if sent then Waiting(id, decode) else Failed(UNSENT)
      ensures forall s :: old(Represents(s)) && !s.sweeper.Scanning? ==>
                Reached(s, RequestActions(old(ids), now, sent))
    {
      var id := NextId();
      pending := pending + {id};
      ts := ts[now := (if now in ts then ts[now] else []) + [id]];
      f := if sent then Waiting(id, decode) else Failed(UNSENT);
      RequestAlways(old(Contents()), id, old(ts), now, sent);
    }

    /** Fresh ids in order, one per request, none of them recorded for the timeout. */
    method BatchRequest<T>(decoders: seq<Json -> Result<T>>, sent: bool) returns (futures: seq<FutureState<T>>)
      modifies this`ids, this`pending
      ensures ids == old(ids) + |decoders|
      ensures forall id :: id in pending <==> id in old(pending) || old(ids) <= id < ids
      ensures |futures| == |decoders|
      ensures sent ==>
                futures == BatchCorrectness.BatchFutures(seq(|decoders|, i requires 0 <= i => old(ids) + i), decoders)
      ensures forall i :: 0 <= i < |futures| ==>
                futures[i] == if sent then Waiting(old(ids) + i, decoders[i]) else Failed(UNSENT)
      ensures forall s :: old(Represents(s)) ==> Reached(s, BatchActions(old(ids), |decoders|, sent))
    {
      futures := [];
      for i := 0 to |decoders|
        invariant ids == old(ids) + i
        invariant forall id :: id in pending <==> id in old(pending) || old(ids) <= id < ids
        invariant |futures| == i
        invariant forall k :: 0 <= k < i ==>
                    futures[k] == if sent then Waiting(old(ids) + k, decoders[k]) else Failed(UNSENT)
      {
        var id := NextId();
        pending := pending + {id};
        futures := futures + [if sent then Waiting(id, decoders[i]) else Failed(UNSENT)];
      }
      BatchAlways(old(Contents()), old(ids), ts, |decoders|, sent);
      assert pending == old(pending) + Fresh(old(ids), |decoders|);
    }

    /** `guard.remove(&id)` followed by the send on the removed oneshot. */
    method Resolve(id: Id, fate: Fate)
      modifies this`pending, this`fates
      ensures Contents() == Settle(old(Contents()), id, fate)
    {
      if id in pending {
        pending := pending - {id};
        fates := fates[id := fate];
      }
    }

    method DispatchOne(r: RpcResponse)
      modifies this`pending, this`fates, subscriptions.subscribers.Values
      ensures Contents() == if r.Subscription? then old(Contents())
                            else Settle(old(Contents()), r.id, Answered(IntoResponse(r).result))
      ensures forall c :: c in subscriptions.subscribers.Values ==>
                c.queue == old(c.queue) + Fed(r, subscriptions.subscribers, c)
    {
      if r.Subscription? {
        subscriptions.Notify(r.id, r.result);
      } else {
        var answer := IntoResponse(r);
        Resolve(answer.id, Answered(answer.result));
      }
    }

    method DispatchEach(rs: seq<RpcResponse>)
      modifies this`pending, this`fates, subscriptions.subscribers.Values
      ensures Contents() == Deliver(old(Contents()), SocketAnswers(rs))
      ensures forall c :: c in subscriptions.subscribers.Values ==>
                c.queue == old(c.queue) + Feed(rs, subscriptions.subscribers, c)
    {
      for i := 0 to |rs|
        invariant Contents() == Deliver(old(Contents()), SocketAnswers(rs[..i]))
        invariant subscriptions.subscribers == old(subscriptions.subscribers)
        invariant forall c :: c in subscriptions.subscribers.Values ==>
                    c.queue == old(c.queue) + Feed(rs[..i], subscriptions.subscribers, c)
      {
        assert rs[..i + 1][..i] == rs[..i];
        DeliverOneMore(old(Contents()), rs, i);
        DispatchOne(rs[i]);
      }
      assert rs[..|rs|] == rs;
    }

    /** The socket reader, for one decoded message. */
    method Dispatch(rs: seq<RpcResponse>)
      modifies this`pending, this`fates, subscriptions.subscribers.Values
      ensures Contents() == Deliver(old(Contents()), SocketAnswers(rs))
      ensures forall c :: c in subscriptions.subscribers.Values ==>
                c.queue == old(c.queue) + Feed(rs, subscriptions.subscribers, c)
      ensures forall s :: old(Represents(s)) ==> Reached(s, [Protocol.Receive(SocketAnswers(rs))])
    {
      DispatchEach(rs);
      OneAlways(old(Contents()), ids, ts, Protocol.Receive(SocketAnswers(rs)));
    }

    /** The socket reader, for one frame: a frame that does not decode is dropped; a response
        resolves each pending request by the first output with its own id; a notification
        reaches the channel registered for its subscription, and touches no request. */
    method OnMessage(frame: Frame)
      requires !Panics(frame)
      modifies this`pending, this`fates, subscriptions.subscribers.Values
      ensures frame.response.Some? && (forall o :: o in OutputsOf(frame.response.value) ==> o.id.Num?) ==>
                forall id :: Matches(old(Contents()), OutputsOf(frame.response.value), Contents(), id)
      ensures frame.response.None? || (exists o :: o in OutputsOf(frame.response.value) && !o.id.Num?) ==>
                Contents() == old(Contents())
      ensures forall c :: c in subscriptions.subscribers.Values ==>
                c.queue == old(c.queue)
                  + if frame.Text? && frame.response.None? && frame.notice.Some?
                       && frame.notice.value.subscription in subscriptions.subscribers
                       && subscriptions.subscribers[frame.notice.value.subscription] == c
                    then [frame.notice.value.result] else []
    {
      DecodesExactly(frame);
      var decoded := HandleFrame(frame);
      if decoded.Ok? {
        FrameEffect(Contents(), frame, subscriptions.subscribers);
        Dispatch(decoded.value);
      }
    }

    /** The HTTP fallback, for one decoded reply. It does not tell notifications apart. */
    method DispatchHttp(rs: seq<RpcResponse>)
      modifies this`pending, this`fates
      ensures Contents() == Deliver(old(Contents()), HttpAnswers(rs))
      ensures forall s :: old(Represents(s)) ==> Reached(s, [Protocol.Receive(HttpAnswers(rs))])
    {
      for i := 0 to |rs|
        invariant Contents() == Deliver(old(Contents()), HttpAnswers(rs)[..i])
      {
        var answer := IntoResponse(rs[i]);
        assert HttpAnswers(rs)[..i + 1][..i] == HttpAnswers(rs)[..i];
        Resolve(answer.id, Answered(answer.result));
      }
      assert HttpAnswers(rs)[..|rs|] == HttpAnswers(rs);
      OneAlways(old(Contents()), ids, ts, Protocol.Receive(HttpAnswers(rs)));
    }

    /** Times out the still-pending requests of one timestamp entry. */
    method SweepKey(key: int) returns (removed: seq<Id>)
      requires key in ts
      modifies this`pending, this`fates
      ensures Contents() == Swept(old(Contents()), Entry(ts, key))
      ensures forall id :: id in removed <==> id in ts[key] && id in old(pending)
    {
      removed := [];
      var vs := ts[key];
      assert Swept(Contents(), Pairs(key, vs[..0])) == Contents();
      for i := 0 to |vs|
        invariant Contents() == Swept(old(Contents()), Pairs(key, vs[..i]))
        invariant forall id :: id in removed <==> id in vs[..i] && id in old(pending)
      {
        SweepOneMore(old(Contents()), key, vs, i);
        assert vs[..i + 1] == vs[..i] + [vs[i]];
        if vs[i] in pending {
          removed := removed + [vs[i]];
          Resolve(vs[i], TimedOut);
        }
      }
      assert vs[..|vs|] == vs;
    }

    /** Times out those of an entry that is old enough. */
    method SweepDue(key: int, now: int) returns (removed: seq<Id>)
      requires key in ts
      modifies this`pending, this`fates
      ensures Contents() == Swept(old(Contents()), DueEntry(ts, now, key))
      ensures forall id :: id in removed <==> id in old(pending) && id in DueIds(DueEntry(ts, now, key))
    {
      if now - key >= Protocol.TIMEOUT {
        removed := SweepKey(key);
        PairIds(key, ts[key]);
      } else {
        removed := [];
        assert Swept(Contents(), {}) == Contents();
      }
    }

    /** Times out every due request still pending, entry by entry in any order. */
    method Scan(now: int) returns (removed: seq<Id>)
      modifies this`pending, this`fates
      ensures Contents() == Swept(old(Contents()), Protocol.Due(ts, now))
      ensures forall id :: id in removed <==> id in old(pending) && id in DueIds(Protocol.Due(ts, now))
    {
      removed := [];
      var keys := ts.Keys;
      ghost var done := DueOutside(ts, now, keys);
      assert done == {} && Swept(Contents(), {}) == Contents();
      while keys != {}
        invariant keys <= ts.Keys && done == DueOutside(ts, now, keys)
        invariant Contents() == Swept(old(Contents()), done)
        invariant forall id :: id in removed <==> id in old(pending) && id in DueIds(done)
        decreases |keys|
      {
        var k := AnyKey(keys);
        DueOutsideStep(ts, now, keys, k);
        keys := keys - {k};
        var more := SweepDue(k, now);
        SweptTwice(old(Contents()), done, DueEntry(ts, now, k));
        DueIdsOfUnion(done, DueEntry(ts, now, k));
        removed := removed + more;
        done := done + DueEntry(ts, now, k);
      }
      assert done == Protocol.Due(ts, now);
    }

    /** Removes ids from the timestamps as if they were timestamp keys. */
    method Forget(removed: seq<Id>)
      modifies this`ts
      ensures ts == Unpruned(old(ts), Ids(removed))
    {
      PruneOne(ts, {}, 0);
      assert Ids(removed[..0]) == {};
      for i := 0 to |removed|
        invariant ts == Unpruned(old(ts), Ids(removed[..i]))
      {
        assert removed[..i + 1] == removed[..i] + [removed[i]];
        assert Ids(removed[..i + 1]) == Ids(removed[..i]) + {removed[i]};
        PruneOne(old(ts), Ids(removed[..i]), removed[i]);
        ts := ts - {removed[i]};
      }
      assert removed[..|removed|] == removed;
    }

    /** One run of the timeout thread, undisturbed. The ids it timed out are then removed
        from the timestamps as if they were timestamp keys. */
    method Sweep(now: int)
      modifies this`pending, this`fates, this`ts
      ensures Contents() == Swept(old(Contents()), Protocol.Due(old(ts), now))
      ensures ts == Unpruned(old(ts), old(pending) * DueIds(Protocol.Due(old(ts), now)))
      ensures forall s :: old(Represents(s)) && s.sweeper.Resting? ==>
                exists scan, prunes :: IsSweep(scan, prunes) && Reached(s, SweepActions(now, scan, prunes))
    {
      var removed := Scan(now);
      assert Ids(removed) == old(pending) * DueIds(Protocol.Due(ts, now));
      Forget(removed);
      SweepAlways(old(Contents()), ids, old(ts), now);
    }

    /** Dropping the client drops every pending sender. */
    method Drop()
      modifies this`pending, this`fates
      ensures Contents() == Protocol.Cleared(old(Contents()))
      ensures pending == {} && fates.Keys == old(fates).Keys + old(pending)
      ensures forall id :: id in old(pending) ==> fates[id] == Cancelled
      ensures forall id :: id in old(fates) && id !in old(pending) ==> fates[id] == old(fates)[id]
      ensures forall s :: old(Represents(s)) ==> Reached(s, [Protocol.DropClient])
    {
      fates := fates + map id | id in pending :: Cancelled;
      pending := {};
      OneAlways(old(Contents()), ids, ts, Protocol.DropClient);
    }
  }
}
