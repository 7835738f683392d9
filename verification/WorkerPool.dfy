/**
 The pool of socket workers shared by all senders. A sender pops a worker under the lock,
 submits outside it, and returns the worker under the lock again; a worker whose channel
 is closed is not returned, and its message goes out by HTTP instead.
 */
module WorkerPool {
  import opened Prelude

  type Worker = nat
  type Message = string

  datatype Carrier = Carrier(worker: Worker, message: Message)

  datatype Submission = Socket(worker: Worker, message: Message) | Http(message: Message)

  datatype Pool = Pool(
    idle: seq<Worker>,
    carrying: seq<Carrier>,    // popped, message not submitted yet
    returning: seq<Worker>,    // message submitted, worker not back yet
    retired: seq<Worker>,      // failed, or cleared when the client was dropped
    accepted: seq<Message>,    // every message a sender was asked to send
    wire: seq<Submission>)

  datatype Action =
    | Pop(message: Message)
    | Submit(index: nat, healthy: bool)
    | PushBack(index: nat)
    | Clear

  function Full(workers: seq<Worker>): Pool { Pool(workers, [], [], [], [], []) }

  function Without<T>(s: seq<T>, i: nat): seq<T>
    requires i < |s|
  {
    s[..i] + s[i + 1..]
  }

  predicate Enabled(p: Pool, a: Action) {
    match a
    case Submit(i, _) => i < |p.carrying|
    case PushBack(i) => i < |p.returning|
    case _ => true
  }

  function Apply(p: Pool, a: Action): Pool
    requires Enabled(p, a)
  {
    match a
    case Pop(m) =>
      var q := p.(accepted := p.accepted + [m]);
      if p.idle == [] then q.(wire := p.wire + [Http(m)])
      else q.(idle := p.idle[1..], carrying := p.carrying + [Carrier(p.idle[0], m)])
    case Submit(i, healthy) =>
      var c := p.carrying[i];
      var q := p.(carrying := Without(p.carrying, i));
      if healthy then q.(returning := p.returning + [c.worker], wire := p.wire + [Socket(c.worker, c.message)])
      else q.(retired := p.retired + [c.worker], wire := p.wire + [Http(c.message)])
    case PushBack(i) =>
      p.(returning := Without(p.returning, i), idle := p.idle + [p.returning[i]])
    case Clear => p.(idle := [], retired := p.retired + p.idle)
  }

  function Execute(p: Pool, actions: seq<Action>): Option<Pool> {
    if actions == [] then Some(p)
    else
      var before := Execute(p, actions[..|actions| - 1]);
      var a := actions[|actions| - 1];
      if before.Some? && Enabled(before.value, a) then Some(Apply(before.value, a)) else None
  }

  function Workers(cs: seq<Carrier>): (ws: seq<Worker>)
    ensures |ws| == |cs| && forall i :: 0 <= i < |ws| ==> ws[i] == cs[i].worker
  {
    seq(|cs|, i requires 0 <= i < |cs| => cs[i].worker)
  }

  function Carried(cs: seq<Carrier>): (ms: seq<Message>)
    ensures |ms| == |cs| && forall i :: 0 <= i < |ms| ==> ms[i] == cs[i].message
  {
    seq(|cs|, i requires 0 <= i < |cs| => cs[i].message)
  }

  function Submitted(wire: seq<Submission>): (ms: seq<Message>)
    ensures |ms| == |wire| && forall i :: 0 <= i < |ms| ==> ms[i] == wire[i].message
  {
    seq(|wire|, i requires 0 <= i < |wire| => wire[i].message)
  }

  ghost predicate WorkersConserved(p: Pool, workers: seq<Worker>) {
    multiset(workers) ==
      multiset(p.idle) + multiset(Workers(p.carrying)) + multiset(p.returning) + multiset(p.retired)
  }

  ghost predicate MessagesConserved(p: Pool) {
    multiset(p.accepted) == multiset(Carried(p.carrying)) + multiset(Submitted(p.wire))
  }

  lemma TakeOut<T>(s: seq<T>, i: nat)
    requires i < |s|
    ensures multiset(s) == multiset(Without(s, i)) + multiset{s[i]}
  {
    assert s == s[..i] + [s[i]] + s[i + 1..];
  }

  lemma TakeOutCarrier(cs: seq<Carrier>, i: nat)
    requires i < |cs|
    ensures multiset(Workers(cs)) == multiset(Workers(Without(cs, i))) + multiset{cs[i].worker}
    ensures multiset(Carried(cs)) == multiset(Carried(Without(cs, i))) + multiset{cs[i].message}
  {
    TakeOut(Workers(cs), i);
    TakeOut(Carried(cs), i);
    assert Workers(Without(cs, i)) == Without(Workers(cs), i);
    assert Carried(Without(cs, i)) == Without(Carried(cs), i);
  }

  lemma Snoc(cs: seq<Carrier>, c: Carrier)
    ensures multiset(Workers(cs + [c])) == multiset(Workers(cs)) + multiset{c.worker}
    ensures multiset(Carried(cs + [c])) == multiset(Carried(cs)) + multiset{c.message}
  {
    assert Workers(cs + [c]) == Workers(cs) + [c.worker];
    assert Carried(cs + [c]) == Carried(cs) + [c.message];
  }

  lemma SnocWire(wire: seq<Submission>, s: Submission)
    ensures multiset(Submitted(wire + [s])) == multiset(Submitted(wire)) + multiset{s.message}
  {
    assert Submitted(wire + [s]) == Submitted(wire) + [s.message];
  }

  lemma PopKeepsWorkers(p: Pool, m: Message, workers: seq<Worker>)
    requires WorkersConserved(p, workers)
    ensures WorkersConserved(Apply(p, Pop(m)), workers)
  {
    if p.idle != [] {
      Snoc(p.carrying, Carrier(p.idle[0], m));
      assert p.idle == [p.idle[0]] + p.idle[1..];
    }
  }

  lemma SubmitKeepsWorkers(p: Pool, i: nat, healthy: bool, workers: seq<Worker>)
    requires WorkersConserved(p, workers) && i < |p.carrying|
    ensures WorkersConserved(Apply(p, Submit(i, healthy)), workers)
  {
    TakeOutCarrier(p.carrying, i);
  }

  lemma PushBackKeepsWorkers(p: Pool, i: nat, workers: seq<Worker>)
    requires WorkersConserved(p, workers) && i < |p.returning|
    ensures WorkersConserved(Apply(p, PushBack(i)), workers)
  {
    TakeOut(p.returning, i);
  }

  lemma WorkersStep(p: Pool, a: Action, workers: seq<Worker>)
    requires WorkersConserved(p, workers) && Enabled(p, a)
    ensures WorkersConserved(Apply(p, a), workers)
  {
    match a
    case Pop(m) => PopKeepsWorkers(p, m, workers);
    case Submit(i, healthy) => SubmitKeepsWorkers(p, i, healthy, workers);
    case PushBack(i) => PushBackKeepsWorkers(p, i, workers);
    case Clear =>
  }

  lemma MessagesStep(p: Pool, a: Action)
    requires MessagesConserved(p) && Enabled(p, a)
    ensures MessagesConserved(Apply(p, a))
  {
    match a
    case Pop(m) =>
      if p.idle == [] {
        SnocWire(p.wire, Http(m));
      } else {
        Snoc(p.carrying, Carrier(p.idle[0], m));
      }
    case Submit(i, healthy) =>
      TakeOutCarrier(p.carrying, i);
      var c := p.carrying[i];
      SnocWire(p.wire, if healthy then Socket(c.worker, c.message) else Http(c.message));
    case _ =>
  }

  /** Over every interleaving of senders, no worker is lost or duplicated, and every
      message is either still carried or was submitted exactly once. */
  lemma {:induction false} PoolConserves(workers: seq<Worker>, actions: seq<Action>)
    requires Execute(Full(workers), actions).Some?
    ensures WorkersConserved(Execute(Full(workers), actions).value, workers)
    ensures MessagesConserved(Execute(Full(workers), actions).value)
    decreases |actions|
  {
    if actions == [] {
    } else {
      PoolConserves(workers, actions[..|actions| - 1]);
      var p := Execute(Full(workers), actions[..|actions| - 1]).value;
      WorkersStep(p, actions[|actions| - 1], workers);
      MessagesStep(p, actions[|actions| - 1]);
    }
  }

  /** Once the client is dropped every later message goes out by HTTP, until a sender that
      was on its way brings a worker back. */
  lemma ClearedPoolPosts(p: Pool, message: Message)
    ensures var cleared := Apply(p, Clear);
            && Apply(cleared, Pop(message)).wire == p.wire + [Http(message)]
            && Apply(cleared, Pop(message)).carrying == p.carrying
            && cleared.idle == [] && cleared.carrying == p.carrying && cleared.returning == p.returning
  {
  }

  // ------------------------------------------------------------ one sender at a time

  /** What one call of `send` does when no other sender interferes. */
  function SendActions(p: Pool, message: Message, healthy: bool): seq<Action> {
    if p.idle == [] then [Pop(message)]
    else if healthy then [Pop(message), Submit(|p.carrying|, true), PushBack(|p.returning|)]
    else [Pop(message), Submit(|p.carrying|, false)]
  }

  lemma Rotation(workers: seq<Worker>, i: nat)
    requires i < |workers|
    ensures var pool := workers[i..] + workers[..i];
            pool[0] == workers[i] && pool[1..] + [pool[0]] == workers[i + 1..] + workers[..i + 1]
  {
  }

  /** Each message on the worker of the same position. */
  function Round(workers: seq<Worker>, messages: seq<Message>): (round: seq<Submission>)
    requires |workers| == |messages|
    ensures |round| == |messages|
    ensures forall i :: 0 <= i < |round| ==> round[i] == Socket(workers[i], messages[i])
  {
    seq(|messages|, i requires 0 <= i < |messages| => Socket(workers[i], messages[i]))
  }

  lemma RoundOneMore(workers: seq<Worker>, messages: seq<Message>, i: nat)
    requires |workers| == |messages| && i < |messages|
    ensures var round := Round(workers, messages);
            round[..i + 1] == round[..i] + [Socket(workers[i], messages[i])]
  {
  }

  class Sender {
    var sockets: seq<Worker>
    var wire: seq<Submission>
    ghost var retired: seq<Worker>
    ghost var accepted: seq<Message>

    ghost function Contents(): Pool
      reads this
    {
      Pool(sockets, [], [], retired, accepted, wire)
    }

    constructor (workers: seq<Worker>)
      ensures Contents() == Full(workers)
    {
      sockets, wire, retired, accepted := workers, [], [], [];
    }

    /** `healthy` tells whether the popped worker's channel is still open. The effect is
        that of the pool's own actions; spelled out, there is one submission, by the front
        worker, which then goes to the back, or by HTTP, and then the worker is gone. */
    method Send(message: Message, healthy: bool)
      modifies this
      ensures Execute(old(Contents()), SendActions(old(Contents()), message, healthy)) == Some(Contents())
      ensures wire == old(wire) + [if old(sockets) != [] && healthy then Socket(old(sockets)[0], message)
                                   else Http(message)]
      ensures sockets == if old(sockets) == [] then []
                         else old(sockets)[1..] + if healthy then [old(sockets)[0]] else []
    {
      ghost var before := Contents();
      accepted := accepted + [message];
      if sockets == [] {
        wire := wire + [Http(message)];
      } else {
        var w := sockets[0];
        sockets := sockets[1..];
        if healthy {
          wire := wire + [Socket(w, message)];
          sockets := sockets + [w];
        } else {
          wire := wire + [Http(message)];
          retired := retired + [w];
        }
      }
      SendIsItsActions(before, message, healthy);
    }

    /** As many consecutive sends as there are healthy workers use every worker exactly
        once, in pool order, and leave the pool as it was. */
    method SendRound(messages: seq<Message>)
      requires |messages| == |sockets|
      modifies this
      ensures sockets == old(sockets)
      ensures wire == old(wire) + Round(old(sockets), messages)
    {
      ghost var round := Round(old(sockets), messages);
      for i := 0 to |messages|
        invariant sockets == old(sockets)[i..] + old(sockets)[..i]
        invariant wire == old(wire) + round[..i]
      {
        Rotation(old(sockets), i);
        RoundOneMore(old(sockets), messages, i);
        Send(messages[i], true);
      }
      assert round[..|messages|] == round;
    }
  }

  /** The pool's actions of one undisturbed send, in closed form. */
  lemma SendIsItsActions(p: Pool, message: Message, healthy: bool)
    requires p.carrying == [] && p.returning == []
    ensures Execute(p, SendActions(p, message, healthy)) == Some(
              if p.idle == [] then p.(accepted := p.accepted + [message], wire := p.wire + [Http(message)])
              else if healthy then
                p.(accepted := p.accepted + [message], wire := p.wire + [Socket(p.idle[0], message)],
                   idle := p.idle[1..] + [p.idle[0]])
              else
                p.(accepted := p.accepted + [message], wire := p.wire + [Http(message)],
                   idle := p.idle[1..], retired := p.retired + [p.idle[0]]))
  {
    var pop := Pop(message);
    var popped := Apply(p, pop);
    assert [pop][..0] == [];
    assert Execute(p, [pop]) == Some(popped);
    if p.idle != [] {
      var c := Carrier(p.idle[0], message);
      assert popped.carrying == [c] && Without([c], 0) == [];
      var submit := Submit(0, healthy);
      assert [pop, submit][..1] == [pop];
      assert Execute(p, [pop, submit]) == Some(Apply(popped, submit));
      if healthy {
        assert [pop, submit, PushBack(0)][..2] == [pop, submit];
        assert Without([p.idle[0]], 0) == [];
      }
    }
  }
}
