/**
 Subscription streams: a stream waits for its subscription id, registers its channel under
 that id once, and then yields what the socket readers route to it.
 */
module Pubsub {
  import opened Prelude
  import opened Responses
  import opened Futures

  datatype Phase = Subscribing(future: FutureState<Id>) | Subscribed

  /** A stream's own state; `inbox` is what its channel holds unread. */
  datatype Stream = Stream(id: Id, phase: Phase, holdsSender: bool, inbox: seq<Json>)

  type Decoder<T> = Json -> Result<T>

  /** The registration a poll makes, if it makes one. */
  function Registers(s: Stream, cell: Cell): Option<Id> {
    if !s.phase.Subscribing? then None
    else match PollFuture(s.phase.future, cell).1
      case Ok(Ready(id)) => Some(id)
      case _ => None
  }

  /** Whether a poll gets as far as its channel. */
  predicate Reads(s: Stream, cell: Cell) {
    s.phase.Subscribed? || Registers(s, cell).Some?
  }

  function Polled(s: Stream, cell: Cell): Stream {
    if Reads(s, cell) then
      var id := Registers(s, cell);
      Stream(if id.Some? then id.value else s.id, Subscribed, s.holdsSender && id.None?,
             if s.inbox == [] then [] else s.inbox[1..])
    else
      var (future, result) := PollFuture(s.phase.future, cell);
      s.(phase := if result.Err? then Subscribed else Subscribing(future))
  }

  function Outcome<T>(s: Stream, decode: Decoder<T>, cell: Cell): Result<Async<Option<T>>> {
    if Reads(s, cell) then
      if s.inbox == [] then Ok(NotReady)
      else match decode(s.inbox[0])
        case Ok(t) => Ok(Ready(Some(t)))
        case Err(_) => Ok(NotReady)
    else match PollFuture(s.phase.future, cell).1
      case Err(e) => Err(e)
      case Ok(_) => Ok(NotReady)
  }

  class Channel {
    var queue: seq<Json>

    constructor ()
      ensures queue == []
    {
      queue := [];
    }
  }

  /** The client's table of subscriptions. */
  class Subscriptions {
    var subscribers: map<Id, Channel>

    constructor ()
      ensures subscribers == map[]
    {
      subscribers := map[];
    }

    method AddSubscription(id: Id, channel: Channel)
      modifies this
      ensures subscribers == old(subscribers)[id := channel]
    {
      subscribers := subscribers[id := channel];
    }

    /** Routes a notification; one for an id nobody registered is dropped. */
    method Notify(id: Id, value: Json)
      modifies subscribers.Values
      ensures forall c :: c in subscribers.Values ==>
                c.queue == old(c.queue) + if id in subscribers && subscribers[id] == c then [value] else []
    {
      if id in subscribers {
        subscribers[id].queue := subscribers[id].queue + [value];
      }
    }
  }

  class PubsubStream<T> {
    var id: Id
    var phase: Phase
    const notifications: Channel
    var sender: Option<Channel>
    const decode: Decoder<T>
    const client: Subscriptions

    function Contents(): Stream
      reads this, notifications
    {
      Stream(id, phase, sender.Some?, notifications.queue)
    }

    ghost predicate Valid()
      reads this
    {
      && (phase.Subscribing? ==> sender.Some?)
      && (sender.Some? ==> sender.value == notifications)
    }

    constructor (future: FutureState<Id>, client: Subscriptions, channel: Channel, decode: Decoder<T>)
      ensures Valid() && Contents() == Stream(0, Subscribing(future), true, channel.queue)
      ensures this.client == client && notifications == channel && this.decode == decode
    {
      id, phase, sender := 0, Subscribing(future), Some(channel);
      notifications, this.client, this.decode := channel, client, decode;
    }

    /** Takes the next notification off the channel, if there is one. */
    method Receive() returns (result: Result<Async<Option<T>>>)
      modifies notifications
      ensures if old(notifications.queue) == [] then result == Ok(NotReady) && notifications.queue == []
              else
                && notifications.queue == old(notifications.queue)[1..]
                && match decode(old(notifications.queue)[0])
                   case Ok(t) => result == Ok(Ready(Some(t)))
                   case Err(_) => result == Ok(NotReady)
    {
      if notifications.queue == [] {
        return Ok(NotReady);
      }
      var value := notifications.queue[0];
      notifications.queue := notifications.queue[1..];
      match decode(value)
      case Ok(t) => result := Ok(Ready(Some(t)));
      case Err(_) => result := Ok(NotReady);
    }

    method Poll(cell: Cell) returns (result: Result<Async<Option<T>>>)
      requires Valid()
      modifies this, client, notifications
      ensures Valid()
      ensures Contents() == old(Polled(Contents(), cell))
      ensures result == old(Outcome(Contents(), decode, cell))
      ensures var r := old(Registers(Contents(), cell));
              client.subscribers == if r.Some? then old(client.subscribers)[r.value := notifications]
                                    else old(client.subscribers)
      ensures old(phase).Subscribing? ==>
                && (forall n :: Reports(old(phase).future, cell, Ok(Ready(n))) ==>
                      && id == n && phase == Subscribed && sender == None
                      && client.subscribers == old(client.subscribers)[n := notifications])
                && (forall e :: Reports(old(phase).future, cell, Err(e)) ==>
                      && result == Err(e) && phase == Subscribed && sender == old(sender)
                      && client.subscribers == old(client.subscribers))
                && (Reports(old(phase).future, cell, Ok(NotReady)) ==>
                      && result == Ok(NotReady) && phase == old(phase) && sender == old(sender)
                      && client.subscribers == old(client.subscribers))
      ensures old(phase).Subscribed? || (exists n :: Reports(old(phase).future, cell, Ok(Ready(n)))) ==>
                if old(notifications.queue) == [] then result == Ok(NotReady) && notifications.queue == []
                else
                  && notifications.queue == old(notifications.queue)[1..]
                  && match decode(old(notifications.queue)[0])
                     case Ok(t) => result == Ok(Ready(Some(t)))
                     case Err(_) => result == Ok(NotReady)
    {
      var taken := phase;
      phase := Subscribed;
      if taken.Subscribing? {
        var (future, polled) := PollFuture(taken.future, cell);
        match polled
        case Err(error) =>
          return Err(error);
        case Ok(NotReady) =>
          phase := Subscribing(future);
          return Ok(NotReady);
        case Ok(Ready(subscription)) =>
          id := subscription;
          client.AddSubscription(subscription, sender.value);
          sender := None;
      }
      result := Receive();
    }
  }

  // ------------------------------------------------------------ whole runs

  datatype Notification = Notification(id: Id, value: Json)

  /** One stream among others sharing the table. `owned` is the id it is registered under. */
  datatype World<T> = World(
    stream: Stream,
    owned: Option<Id>,
    // history
    log: seq<Notification>,        // every notification the readers handled, in order
    registeredAt: Option<nat>,     // length of the log when the stream registered
    takenOverAt: Option<nat>,      // and when another stream registered the same id
    received: seq<Json>,
    yielded: seq<T>,
    registrations: nat)

  datatype Event =
    | Notify(notification: Notification)
    | OtherRegisters(id: Id)
    | Poll(cell: Cell)

  function Begin<T>(future: FutureState<Id>): World<T> {
    World(Stream(0, Subscribing(future), true, []), None, [], None, None, [], [], 0)
  }

  function Step<T>(w: World<T>, decode: Decoder<T>, e: Event): World<T> {
    match e
    case Notify(n) =>
      var routed := w.owned == Some(n.id);
      w.(log := w.log + [n],
         stream := if routed then w.stream.(inbox := w.stream.inbox + [n.value]) else w.stream)
    case OtherRegisters(id) =>
      if w.owned == Some(id) then w.(owned := None, takenOverAt := Some(|w.log|)) else w
    case Poll(cell) =>
      var r := Registers(w.stream, cell);
      var consumes := Reads(w.stream, cell) && w.stream.inbox != [];
      w.(stream := Polled(w.stream, cell),
         owned := if r.Some? then r else w.owned,
         registeredAt := if r.Some? then Some(|w.log|) else w.registeredAt,
         received := if consumes then w.received + [w.stream.inbox[0]] else w.received,
         yielded := if consumes && decode(w.stream.inbox[0]).Ok? then w.yielded + [decode(w.stream.inbox[0]).value]
                    else w.yielded,
         registrations := w.registrations + if r.Some? then 1 else 0)
  }

  function Run<T>(w: World<T>, decode: Decoder<T>, events: seq<Event>): World<T> {
    if events == [] then w
    else Step(Run(w, decode, events[..|events| - 1]), decode, events[|events| - 1])
  }

  /** The history logs what polls return. */
  lemma OutcomesAreLogged<T>(w: World<T>, decode: Decoder<T>, cell: Cell)
    ensures var outcome := Outcome(w.stream, decode, cell);
            Step(w, decode, Poll(cell)).yielded == w.yielded
              + if outcome.Ok? && outcome.value.Ready? && outcome.value.item.Some?
                then [outcome.value.item.value] else []
    ensures Outcome(w.stream, decode, cell) != Ok(Ready(None))
  {
  }

  /** The values of the notifications for `id`, in order. */
  function Routed(log: seq<Notification>, id: Id): seq<Json> {
    if log == [] then []
    else Routed(log[..|log| - 1], id) + if log[|log| - 1].id == id then [log[|log| - 1].value] else []
  }

  /** The values a decoder accepts, decoded, in order. */
  function Decoded<T>(values: seq<Json>, decode: Decoder<T>): seq<T> {
    if values == [] then []
    else Decoded(values[..|values| - 1], decode)
         + match decode(values[|values| - 1]) case Ok(t) => [t] case Err(_) => []
  }

  ghost predicate YieldsDecoded<T>(w: World<T>, decode: Decoder<T>) {
    w.yielded == Decoded(w.received, decode)
  }

  function End<T>(w: World<T>): nat {
    if w.takenOverAt.Some? then w.takenOverAt.value else |w.log|
  }

  /** What was received and what is unread are the notifications of the registered span. */
  ghost predicate Span<T>(w: World<T>) {
    if w.registeredAt.None? then w.stream.inbox == [] && w.received == []
    else
      && w.registeredAt.value <= End(w) <= |w.log|
      && w.received + w.stream.inbox == Routed(w.log[w.registeredAt.value..End(w)], w.stream.id)
  }

  ghost predicate Registered<T>(w: World<T>) {
    && (w.stream.phase.Subscribing? ==> w.stream.holdsSender)
    && w.registrations == (if w.registeredAt.Some? then 1 else 0)
    && (w.registeredAt.Some? ==> w.stream.phase.Subscribed?)
    && w.owned == (if w.registeredAt.Some? && w.takenOverAt.None? then Some(w.stream.id) else None)
    && (w.registeredAt.None? ==> w.takenOverAt.None?)
  }

  ghost predicate Inv<T>(w: World<T>, decode: Decoder<T>) {
    YieldsDecoded(w, decode) && Span(w) && Registered(w)
  }

  lemma YieldsStep<T>(w: World<T>, decode: Decoder<T>, e: Event)
    requires YieldsDecoded(w, decode)
    ensures YieldsDecoded(Step(w, decode, e), decode)
  {
    if e.Poll? && w.stream.inbox != [] {
      var r := w.received + [w.stream.inbox[0]];
      assert r[..|r| - 1] == w.received;
    }
  }

  lemma RegisteredStep<T>(w: World<T>, decode: Decoder<T>, e: Event)
    requires Registered(w)
    ensures Registered(Step(w, decode, e))
  {
  }

  lemma SpanPoll<T>(w: World<T>, decode: Decoder<T>, cell: Cell)
    requires Span(w) && Registered(w)
    ensures Span(Step(w, decode, Poll(cell)))
  {
    var r := Step(w, decode, Poll(cell));
    if Registers(w.stream, cell).Some? {
      assert w.log[|w.log|..|w.log|] == [];
    } else {
      assert r.stream.id == w.stream.id;
      assert r.received + r.stream.inbox == w.received + w.stream.inbox;
    }
  }

  lemma RoutedSnoc(log: seq<Notification>, n: Notification, id: Id)
    ensures Routed(log + [n], id) == Routed(log, id) + if n.id == id then [n.value] else []
  {
    assert (log + [n])[..|log|] == log;
  }

  lemma SpanNotify<T>(w: World<T>, decode: Decoder<T>, n: Notification)
    requires Span(w) && Registered(w)
    ensures Span(Step(w, decode, Notify(n)))
  {
    var r := Step(w, decode, Notify(n));
    if w.registeredAt.Some? {
      var start := w.registeredAt.value;
      if w.takenOverAt.None? {
        var span := r.log[start..End(r)];
        assert span == w.log[start..End(w)] + [n];
        RoutedSnoc(w.log[start..End(w)], n, w.stream.id);
      } else {
        assert r.log[start..End(r)] == w.log[start..End(w)];
      }
    }
  }

  lemma {:induction false} InvRun<T>(future: FutureState<Id>, decode: Decoder<T>, events: seq<Event>)
    ensures Inv(Run(Begin(future), decode, events), decode)
    decreases |events|
  {
    if events == [] {
    } else {
      var w, e := Run(Begin(future), decode, events[..|events| - 1]), events[|events| - 1];
      InvRun(future, decode, events[..|events| - 1]);
      YieldsStep(w, decode, e);
      RegisteredStep(w, decode, e);
      match e
      case Poll(cell) => SpanPoll(w, decode, cell);
      case Notify(n) => SpanNotify(w, decode, n);
      case OtherRegisters(_) =>
    }
  }

  lemma {:induction false} RoutedPrefix(log: seq<Notification>, n: nat, id: Id)
    requires n <= |log|
    ensures Routed(log[..n], id) <= Routed(log, id)
    decreases |log|
  {
    if n < |log| {
      assert log[..|log| - 1][..n] == log[..n];
      RoutedPrefix(log[..|log| - 1], n, id);
    } else {
      assert log[..n] == log;
    }
  }

  lemma {:induction false} DecodedPrefix<T>(values: seq<Json>, n: nat, decode: Decoder<T>)
    requires n <= |values|
    ensures Decoded(values[..n], decode) <= Decoded(values, decode)
    decreases |values|
  {
    if n < |values| {
      assert values[..|values| - 1][..n] == values[..n];
      DecodedPrefix(values[..|values| - 1], n, decode);
    } else {
      assert values[..n] == values;
    }
  }

  lemma {:induction false} PrefixOfDecoded<T>(w: World<T>, decode: Decoder<T>)
    requires Inv(w, decode) && w.registeredAt.Some?
    ensures w.yielded <= Decoded(Routed(w.log[w.registeredAt.value..], w.stream.id), decode)
    ensures w.takenOverAt.None? ==>
              w.received + w.stream.inbox == Routed(w.log[w.registeredAt.value..], w.stream.id)
  {
    var start := w.registeredAt.value;
    var since := w.log[start..];
    assert w.log[start..End(w)] == since[..End(w) - start];
    RoutedPrefix(since, End(w) - start, w.stream.id);
    var routed := Routed(since, w.stream.id);
    assert w.received == routed[..|w.received|];
    DecodedPrefix(routed, |w.received|, decode);
    assert since[..|since|] == since;
  }

  /** Over every run: the stream registers at most once, so the sender it then takes is
      always there; what it has yielded is, in order, a prefix of the decodable
      notifications for its id since it registered, even if another stream takes the id
      over; and unless one does, nothing is missing but what is still unread. */
  lemma {:induction false} YieldsAPrefix<T>(future: FutureState<Id>, decode: Decoder<T>, events: seq<Event>, cell: Cell)
    ensures var w := Run(Begin(future), decode, events);
            && w.registrations <= 1
            && (Registers(w.stream, cell).Some? ==> w.stream.holdsSender && w.registrations == 0)
            && (w.registeredAt.None? ==> w.yielded == [])
            && (w.registeredAt.Some? ==>
                  && w.registeredAt.value <= |w.log|
                  && w.yielded <= Decoded(Routed(w.log[w.registeredAt.value..], w.stream.id), decode)
                  && (w.takenOverAt.None? ==>
                        w.received + w.stream.inbox == Routed(w.log[w.registeredAt.value..], w.stream.id)))
  {
    InvRun(future, decode, events);
    var w := Run(Begin(future), decode, events);
    if w.registeredAt.Some? {
      PrefixOfDecoded(w, decode);
    }
  }

  // ------------------------------------------------------------ which id is registered

  /** The notifications among the events, in order. */
  function Notices(events: seq<Event>): seq<Notification> {
    if events == [] then []
    else Notices(events[..|events| - 1])
         + if events[|events| - 1].Notify? then [events[|events| - 1].notification] else []
  }

  lemma {:induction false} NoticesOfConcat(a: seq<Event>, b: seq<Event>)
    ensures Notices(a + b) == Notices(a) + Notices(b)
    decreases |b|
  {
    if b == [] {
      assert a + b == a;
    } else {
      assert (a + b)[..|a + b| - 1] == a + b[..|b| - 1];
      NoticesOfConcat(a, b[..|b| - 1]);
    }
  }

  lemma {:induction false} LogIsNotices<T>(future: FutureState<Id>, decode: Decoder<T>, events: seq<Event>)
    ensures Run(Begin(future), decode, events).log == Notices(events)
    decreases |events|
  {
    if events == [] {
    } else {
      LogIsNotices(future, decode, events[..|events| - 1]);
    }
  }

  /** No poll among the events finds the subscription resolved. */
  ghost predicate Unresolved(future: FutureState<Id>, events: seq<Event>) {
    forall j :: 0 <= j < |events| && events[j].Poll? ==> Reports(future, events[j].cell, Ok(NotReady))
  }

  /** Until a poll finds its subscription resolved, a stream is as it was opened. */
  lemma {:induction false} WaitsForItsId<T>(future: FutureState<Id>, decode: Decoder<T>, events: seq<Event>)
    requires Unresolved(future, events)
    ensures var w := Run(Begin(future), decode, events);
            && w.stream == Stream(0, Subscribing(future), true, []) && w.registeredAt == None && w.yielded == []
            && w.registrations == 0 && w.owned == None
    decreases |events|
  {
    if events == [] {
    } else {
      WaitsForItsId(future, decode, events[..|events| - 1]);
    }
  }

  /** The k-th event is the first poll to find the subscription resolved. */
  ghost predicate ResolvedBy(future: FutureState<Id>, events: seq<Event>, k: nat) {
    && k < |events| && events[k].Poll? && !Reports(future, events[k].cell, Ok(NotReady))
    && Unresolved(future, events[..k])
  }

  /** What that poll leaves behind is never changed again. */
  lemma {:induction false} StaysSubscribed<T>(future: FutureState<Id>, decode: Decoder<T>, events: seq<Event>, k: nat)
    requires ResolvedBy(future, events, k)
    ensures var cell, w := events[k].cell, Run(Begin(future), decode, events);
            && w.stream.phase == Subscribed
            && (forall id :: Reports(future, cell, Ok(Ready(id))) ==>
                  w.stream.id == id && w.registeredAt == Some(|Notices(events[..k])|))
            && (forall e :: Reports(future, cell, Err(e)) ==> w.registeredAt == None)
    decreases |events|
  {
    var n := |events| - 1;
    if k == n {
      WaitsForItsId(future, decode, events[..k]);
      LogIsNotices(future, decode, events[..k]);
    } else {
      assert events[..n][..k] == events[..k];
      StaysSubscribed(future, decode, events[..n], k);
    }
  }

  /** The first poll that finds the subscription resolved decides. If it resolved to an id,
      the stream registers that very id then, and yields a prefix of the decodable
      notifications for it that come after; if it failed, that poll returns the error, and
      the stream is never registered and never yields. */
  lemma {:induction false} SubscribesExactly<T>(
    future: FutureState<Id>, decode: Decoder<T>, events: seq<Event>, k: nat)
    requires ResolvedBy(future, events, k)
    ensures var cell, w := events[k].cell, Run(Begin(future), decode, events);
            && (forall id :: Reports(future, cell, Ok(Ready(id))) ==>
                  && w.stream.id == id && w.registeredAt.Some? && w.registrations == 1
                  && w.yielded <= Decoded(Routed(Notices(events[k..]), id), decode)
                  && (w.takenOverAt.None? ==> w.received + w.stream.inbox == Routed(Notices(events[k..]), id)))
            && (forall e :: Reports(future, cell, Err(e)) ==>
                  && Outcome(Run(Begin(future), decode, events[..k]).stream, decode, cell) == Err(e)
                  && w.registeredAt == None && w.registrations == 0 && w.yielded == [])
  {
    StaysSubscribed(future, decode, events, k);
    YieldsAPrefix(future, decode, events, events[k].cell);
    InvRun(future, decode, events);
    WaitsForItsId(future, decode, events[..k]);
    LogIsNotices(future, decode, events);
    assert events == events[..k] + events[k..];
    NoticesOfConcat(events[..k], events[k..]);
    assert Notices(events)[|Notices(events[..k])|..] == Notices(events[k..]);
  }
}
