/**
 The table of pending requests and the oneshot cells it feeds. Every way a request can be
 resolved removes it from the table and writes its cell, under one lock.
 */
module Registry {
  import opened Prelude
  import opened Responses

  datatype Fate = Answered(result: Result<Json>) | TimedOut | Cancelled

  datatype Answer = Answer(id: Id, result: Result<Json>)

  datatype Table = Table(pending: set<Id>, fates: map<Id, Fate>)

  const TIMED_OUT: Error := RpcError("Rpc request timed out")

  /** Removes a pending request and resolves it; an unknown id changes nothing. */
  function Settle(t: Table, id: Id, fate: Fate): Table {
    if id in t.pending then Table(t.pending - {id}, t.fates[id := fate]) else t
  }

  function IntoResponse(r: RpcResponse): Answer {
    match r
    case Subscription(id, result) => Answer(id, Ok(result))
    case Success(id, result) => Answer(id, Ok(result))
    case Failure(id, error) => Answer(id, Err(error))
  }

  /** What the socket reader matches against the table: everything but notifications. */
  function SocketAnswers(rs: seq<RpcResponse>): seq<Answer> {
    if rs == [] then []
    else SocketAnswers(rs[..|rs| - 1])
         + if rs[|rs| - 1].Subscription? then [] else [IntoResponse(rs[|rs| - 1])]
  }

  /** What the HTTP fallback matches against the table: everything, notifications included. */
  function HttpAnswers(rs: seq<RpcResponse>): seq<Answer> {
    seq(|rs|, i requires 0 <= i < |rs| => IntoResponse(rs[i]))
  }

  function Deliver(t: Table, answers: seq<Answer>): Table {
    if answers == [] then t
    else var last := answers[|answers| - 1];
         Settle(Deliver(t, answers[..|answers| - 1]), last.id, Answered(last.result))
  }

  /** The first answer to `id`, if there is one. */
  function First(answers: seq<Answer>, id: Id): Option<Result<Json>> {
    if answers == [] then None
    else if answers[0].id == id then Some(answers[0].result)
    else First(answers[1..], id)
  }

  lemma {:induction false} FirstOfConcat(a: seq<Answer>, b: seq<Answer>, id: Id)
    ensures First(a + b, id) == if First(a, id).Some? then First(a, id) else First(b, id)
  {
    if a == [] {
      assert a + b == b;
    } else {
      assert (a + b)[1..] == a[1..] + b;
      FirstOfConcat(a[1..], b, id);
    }
  }

  lemma {:induction false} FirstIsMember(answers: seq<Answer>, id: Id)
    ensures First(answers, id).Some? <==> exists a :: a in answers && a.id == id
    ensures First(answers, id).Some? ==> Answer(id, First(answers, id).value) in answers
  {
    if answers == [] {
    } else {
      FirstIsMember(answers[1..], id);
      assert answers == [answers[0]] + answers[1..];
    }
  }

  /** Delivery, id by id: an answered pending request leaves the table with its first
      answer, and nothing else changes. */
  lemma {:induction false} DeliverPointwise(t: Table, answers: seq<Answer>, id: Id)
    ensures var r := Deliver(t, answers);
            && (id in r.pending <==> id in t.pending && First(answers, id).None?)
            && (id in t.pending && First(answers, id).Some? ==>
                  id in r.fates && r.fates[id] == Answered(First(answers, id).value))
            && (id !in t.pending || First(answers, id).None? ==>
                  (id in r.fates <==> id in t.fates) && (id in t.fates ==> r.fates[id] == t.fates[id]))
    decreases |answers|
  {
    if answers == [] {
    } else {
      var init := answers[..|answers| - 1];
      DeliverPointwise(t, init, id);
      assert answers == init + [answers[|answers| - 1]];
      FirstOfConcat(init, [answers[|answers| - 1]], id);
    }
  }

  lemma SameTable(a: Table, b: Table)
    requires forall id :: id in a.pending <==> id in b.pending
    requires forall id :: id in a.fates <==> id in b.fates
    requires forall id :: id in a.fates ==> id in b.fates && a.fates[id] == b.fates[id]
    ensures a == b
  {
    assert a.pending == b.pending && a.fates == b.fates;
  }

  /** Only the first answer to each id matters. */
  lemma {:induction false} DeliverDependsOnFirsts(t: Table, a: seq<Answer>, b: seq<Answer>)
    requires forall id :: id in t.pending ==> First(a, id) == First(b, id)
    ensures Deliver(t, a) == Deliver(t, b)
  {
    var ra, rb := Deliver(t, a), Deliver(t, b);
    forall id
      ensures id in ra.pending <==> id in rb.pending
      ensures id in ra.fates <==> id in rb.fates
      ensures id in ra.fates ==> id in rb.fates && ra.fates[id] == rb.fates[id]
    {
      DeliverPointwise(t, a, id);
      DeliverPointwise(t, b, id);
    }
    SameTable(ra, rb);
  }

  /** A message may be split anywhere into several messages. */
  lemma {:induction false} DeliverSplit(t: Table, a: seq<Answer>, b: seq<Answer>)
    ensures Deliver(t, a + b) == Deliver(Deliver(t, a), b)
    decreases |b|
  {
    if b == [] {
      assert a + b == a;
    } else {
      assert (a + b)[..|a + b| - 1] == a + b[..|b| - 1];
      DeliverSplit(t, a, b[..|b| - 1]);
    }
  }

  /** Replaying a message that was handled, even later, changes nothing. */
  lemma {:induction false} ReplayIsIdle(t: Table, a: seq<Answer>, b: seq<Answer>)
    requires multiset(b) <= multiset(a)
    ensures Deliver(Deliver(t, a), b) == Deliver(t, a)
  {
    var r := Deliver(t, a);
    forall x | x in b ensures x in a {
      assert x in multiset(b);
    }
    forall id | id in r.pending ensures First(b, id) == First([], id) {
      DeliverPointwise(t, a, id);
      FirstIsMember(a, id);
      FirstIsMember(b, id);
    }
    DeliverDependsOnFirsts(r, b, []);
  }

  ghost predicate DistinctIds(answers: seq<Answer>) {
    forall i, j :: 0 <= i < j < |answers| ==> answers[i].id != answers[j].id
  }

  /** With distinct ids the order of answers is irrelevant. */
  lemma {:induction false} OrderIsIrrelevant(t: Table, a: seq<Answer>, b: seq<Answer>)
    requires multiset(a) == multiset(b) && DistinctIds(a)
    ensures Deliver(t, a) == Deliver(t, b)
  {
    forall id ensures First(a, id) == First(b, id) {
      FirstIsMember(a, id);
      FirstIsMember(b, id);
      assert forall x :: x in a <==> x in multiset(a);
      assert forall x :: x in b <==> x in multiset(b);
    }
    DeliverDependsOnFirsts(t, a, b);
  }

  // ------------------------------------------------------------ socket against HTTP

  lemma {:induction false} AnswersAgree(rs: seq<RpcResponse>)
    requires forall r :: r in rs ==> !r.Subscription?
    ensures SocketAnswers(rs) == HttpAnswers(rs)
  {
    if rs == [] {
    } else {
      var init, last := rs[..|rs| - 1], rs[|rs| - 1];
      AnswersAgree(init);
      assert rs == init + [last];
      assert HttpAnswers(rs) == HttpAnswers(init) + [IntoResponse(last)];
    }
  }

  lemma NoticeAnswers(id: Id, result: Json)
    ensures SocketAnswers([Subscription(id, result)]) == []
    ensures HttpAnswers([Subscription(id, result)]) == [Answer(id, Ok(result))]
  {
    assert [Subscription(id, result)][..0] == [];
  }

  /** A notification whose subscription id is also the id of a pending request. */
  predicate Mistaken(t: Table, frame: Frame) {
    frame.Text? && frame.response.None? && frame.notice.Some? && frame.notice.value.subscription in t.pending
  }

  /** The HTTP fallback resolves the table as the socket reader does, for every frame that
      decodes, except exactly for a notification whose subscription id is also a pending
      request id: that request is then resolved with the payload of the notification. */
  lemma {:induction false} HttpAgreesExactly(t: Table, frame: Frame)
    requires !Panics(frame) && HandleFrame(frame).Ok? && t.pending !! t.fates.Keys
    ensures var rs := HandleFrame(frame).value;
            && (Deliver(t, HttpAnswers(rs)) == Deliver(t, SocketAnswers(rs)) <==> !Mistaken(t, frame))
            && (Mistaken(t, frame) ==>
                  var notice := frame.notice.value;
                  Deliver(t, HttpAnswers(rs)) == Settle(t, notice.subscription, Answered(Ok(notice.result)))
                  && Deliver(t, SocketAnswers(rs)) == t)
  {
    var rs := HandleFrame(frame).value;
    NotificationsComeAlone(frame);
    if frame.Text? && frame.response.None? {
      var notice := frame.notice.value;
      NoticeAnswers(notice.subscription, notice.result);
      var answer := Answer(notice.subscription, Ok(notice.result));
      assert [answer][..0] == [];
      assert Deliver(t, [answer]) == Settle(t, notice.subscription, Answered(Ok(notice.result)));
    } else {
      AnswersAgree(rs);
    }
  }

  // ------------------------------------------------------------ from frame to table

  /** The outputs a response carries, in order. */
  function OutputsOf(response: Response): seq<Output> {
    match response
    case Single(output) => [output]
    case Batch(outputs) => outputs
  }

  /** The k-th output is the first that carries the id. */
  ghost predicate FirstFor(outputs: seq<Output>, id: Id, k: nat) {
    && k < |outputs| && outputs[k].id == Num(id)
    && forall j :: 0 <= j < k ==> outputs[j].id != Num(id)
  }

  /** What an output means for the request it answers. */
  ghost predicate Resolves(output: Output, fate: Fate) {
    match output
    case Succeeded(_, result) => fate == Answered(Ok(result))
    case Refused(_, reason) => fate == Answered(Err(YumError(reason)))
  }

  /** Each request, before and after a message: if it was pending, the first output that
      carries its id resolves it; otherwise nothing changes for it. */
  ghost predicate Matches(t: Table, outputs: seq<Output>, r: Table, id: Id) {
    && (forall k: nat :: id in t.pending && FirstFor(outputs, id, k) ==>
          id !in r.pending && id in r.fates && Resolves(outputs[k], r.fates[id]))
    && (id !in t.pending || (forall o :: o in outputs ==> o.id != Num(id)) ==>
          && (id in r.pending <==> id in t.pending)
          && (id in r.fates <==> id in t.fates)
          && (id in t.fates ==> r.fates[id] == t.fates[id]))
  }

  /** A frame decodes exactly when it is a response with numeric ids only, or a text frame
      that is no response but a notification. */
  lemma {:induction false} DecodesExactly(frame: Frame)
    requires !Panics(frame)
    ensures HandleFrame(frame).Ok? <==>
            if frame.response.Some? then forall o :: o in OutputsOf(frame.response.value) ==> o.id.Num?
            else frame.Text? && frame.notice.Some?
    ensures HandleFrame(frame).Err? ==>
              HandleFrame(frame).error == if frame.response.Some? then BAD_ID else BAD_JSON
    ensures frame.Text? && frame.response.None? && frame.notice.Some? ==>
              HandleFrame(frame).value == [Subscription(frame.notice.value.subscription, frame.notice.value.result)]
  {
    if frame.response.Some? && frame.response.value.Batch? {
      BatchDecoding(frame.response.value.outputs);
    }
  }

  lemma DecodedOutputs(frame: Frame, outputs: seq<Output>)
    requires !Panics(frame) && HandleFrame(frame).Ok? && frame.response.Some?
    requires outputs == OutputsOf(frame.response.value)
    ensures var rs := HandleFrame(frame).value;
            && |rs| == |outputs|
            && forall i :: 0 <= i < |rs| ==>
                 && outputs[i].id.Num? && !rs[i].Subscription?
                 && IntoResponse(rs[i]).id == outputs[i].id.value
                 && Resolves(outputs[i], Answered(IntoResponse(rs[i]).result))
  {
    if frame.response.value.Batch? {
      BatchDecoding(outputs);
      assert forall i :: 0 <= i < |outputs| ==> Carries(HandleFrame(frame).value[i], outputs[i]);
    }
  }

  lemma {:induction false} FirstAt(answers: seq<Answer>, id: Id, k: nat)
    requires k < |answers| && answers[k].id == id && forall j :: 0 <= j < k ==> answers[j].id != id
    ensures First(answers, id) == Some(answers[k].result)
  {
    if k == 0 {
    } else {
      FirstAt(answers[1..], id, k - 1);
    }
  }

  /** From the frame to the table, for the socket reader and the HTTP fallback alike: every
      request gets what the first output with its own id says, and no other is touched. */
  lemma {:induction false} FrameSettles(t: Table, frame: Frame, id: Id)
    requires !Panics(frame) && HandleFrame(frame).Ok? && frame.response.Some?
    ensures var rs, outputs := HandleFrame(frame).value, OutputsOf(frame.response.value);
            && Matches(t, outputs, Deliver(t, SocketAnswers(rs)), id)
            && Matches(t, outputs, Deliver(t, HttpAnswers(rs)), id)
  {
    var rs, outputs := HandleFrame(frame).value, OutputsOf(frame.response.value);
    DecodedOutputs(frame, outputs);
    AnswersAgree(rs);
    AnswersMatch(t, rs, outputs, id);
  }

  lemma AnswersMatch(t: Table, rs: seq<RpcResponse>, outputs: seq<Output>, id: Id)
    requires |rs| == |outputs|
    requires forall i :: 0 <= i < |rs| ==>
               && outputs[i].id.Num? && IntoResponse(rs[i]).id == outputs[i].id.value
               && Resolves(outputs[i], Answered(IntoResponse(rs[i]).result))
    ensures Matches(t, outputs, Deliver(t, HttpAnswers(rs)), id)
  {
    var answers := HttpAnswers(rs);
    DeliverPointwise(t, answers, id);
    FirstIsMember(answers, id);
    forall k: nat | FirstFor(outputs, id, k) ensures First(answers, id) == Some(answers[k].result) {
      FirstAt(answers, id, k);
    }
    if First(answers, id).Some? {
      var a :| a in answers && a.id == id;
      var i :| 0 <= i < |answers| && answers[i] == a;
      assert outputs[i] in outputs && outputs[i].id == Num(id);
    }
  }
}
