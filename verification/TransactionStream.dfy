/**
 The transaction stream: the same window as the block stream over a list of hashes, with
 no repair round, so a lost request is never asked for again.
 */
module TransactionStreams {
  import opened Prelude
  import opened InFlight

  const CAPACITY: nat := 50  // five buffers of ten requests

  type Hash = nat

  /** What polling the popped future produces; the transaction itself stays opaque. */
  datatype Answer = Pending | Failed(error: Error) | Null | Transaction(body: Json)

  datatype Input = Input(clock: nat -> int, checked: int, answer: Answer)

  datatype Window = Window(todo: seq<Hash>, queue: seq<Request>)

  predicate Sound(w: Window) { |w.queue| <= CAPACITY - 1 }

  function Min(a: nat, b: nat): nat { if a <= b then a else b }

  function BatchSize(w: Window): nat
    requires Sound(w)
  {
    if |w.queue| > CAPACITY / 2 then 0 else Min(|w.todo|, CAPACITY - |w.queue| - 1)
  }

  function Loaded(w: Window, clock: nat -> int): (r: Window)
    requires Sound(w)
    ensures Sound(r)
    ensures w.todo != [] || w.queue != [] ==> r.queue != []
  {
    var n := BatchSize(w);
    Window(w.todo[n..], w.queue + Requests(w.todo[..n], clock))
  }

  predicate Finished(w: Window) { w.todo == [] && w.queue == [] }

  predicate Keeps(input: Input, popped: Request) {
    input.answer.Pending? && IsYoung(popped, input.checked)
  }

  function Polled(w: Window, input: Input): (r: Window)
    requires Sound(w)
    ensures Sound(r)
  {
    if Finished(w) then w
    else
      var loaded := Loaded(w, input.clock);
      var popped := loaded.queue[0];
      loaded.(queue := if Keeps(input, popped) then loaded.queue[1..] + [popped] else loaded.queue[1..])
  }

  function Outcome(w: Window, input: Input): Result<Async<Option<Json>>> {
    if Finished(w) then Ok(Ready(None))
    else match input.answer
      case Transaction(body) => Ok(Ready(Some(body)))
      case Failed(e) => Err(e)
      case _ => Ok(NotReady)
  }

  class TransactionStream {
    var txList: seq<Hash>
    const bufferSize: nat := 5
    const batchSize: nat := 10
    var queue: seq<Request>

    function Contents(): Window
      reads this
    {
      Window(txList, queue)
    }

    ghost predicate Valid()
      reads this
    {
      Sound(Contents())
    }

    constructor (txns: seq<Hash>)
      ensures Valid() && Contents() == Window(txns, [])
    {
      txList, queue := txns, [];
    }

    method PopFront() returns (item: Option<Request>)
      modifies this`queue
      ensures old(queue) == [] ==> item == None && queue == []
      ensures old(queue) != [] ==> item == Some(old(queue)[0]) && queue == old(queue)[1..]
    {
      if queue == [] { return None; }
      item := Some(queue[0]);
      queue := queue[1..];
    }

    /** Moves up to `count` hashes off the list and queues a request for each. */
    method Refill(count: nat, clock: nat -> int)
      requires count <= |txList|
      modifies this
      ensures txList == old(txList)[count..]
      ensures queue == old(queue) + Requests(old(txList)[..count], clock)
      ensures |queue| == |old(queue)| + count
      ensures forall i :: 0 <= i < count ==> queue[|old(queue)| + i] == Request(clock(i), old(txList)[i])
    {
      ghost var all := txList;
      var batch: seq<Hash> := [];
      for i := 0 to count
        invariant batch == all[..i] && txList == all[i..] && queue == old(queue)
      {
        if txList != [] {
          batch := batch + [txList[0]];
          txList := txList[1..];
        }
      }
      for i := 0 to |batch|
        invariant queue == old(queue) + Requests(batch, clock)[..i] && txList == all[count..]
      {
        queue := queue + [Request(clock(i), batch[i])];
      }
      assert Requests(batch, clock)[..|batch|] == Requests(batch, clock);
    }

    method Next(clock: nat -> int) returns (item: Option<Request>)
      requires Valid()
      modifies this
      ensures old(Finished(Contents())) ==> item == None && Contents() == old(Contents())
      ensures !old(Finished(Contents())) ==>
                && item == Some(old(Loaded(Contents(), clock).queue[0]))
                && txList == old(Loaded(Contents(), clock)).todo
                && queue == old(Loaded(Contents(), clock)).queue[1..]
      ensures old(txList != [] && |queue| <= 25) ==> |queue| == 48 || txList == []
      ensures old(|queue| > 25) ==> txList == old(txList)
    {
      var capacity := bufferSize * batchSize;
      if txList == [] && queue == [] {
        return None;
      } else if txList != [] && |queue| <= capacity / 2 {
        Refill(Min(|txList|, capacity - |queue| - 1), clock);
      }
      item := PopFront();
    }

    method Poll(input: Input) returns (result: Result<Async<Option<Json>>>)
      requires Valid()
      modifies this
      ensures Valid()
      ensures Contents() == old(Polled(Contents(), input))
      ensures result == old(Outcome(Contents(), input))
      ensures if old(txList == [] && queue == []) then result == Ok(Ready(None))
              else match input.answer
                case Transaction(body) => result == Ok(Ready(Some(body)))
                case Failed(error) => result == Err(error)
                case Null => result == Ok(NotReady)
                case Pending => result == Ok(NotReady)
    {
      var next := Next(input.clock);
      if next.None? {
        return Ok(Ready(None));
      }
      match input.answer
      case Transaction(body) => result := Ok(Ready(Some(body)));
      case Null => result := Ok(NotReady);
      case Failed(error) => result := Err(error);
      case Pending =>
        if input.checked - next.value.born < FIVE_SECONDS {
          queue := queue + [next.value];
        }
        result := Ok(NotReady);
    }
  }

  // ------------------------------------------------------------ whole runs

  datatype History = History(
    window: Window,
    requested: seq<Hash>,
    delivered: seq<Hash>,   // requests answered with a transaction
    lost: seq<Hash>,        // requests that ended in an error, a null or expiry
    popped: seq<Hash>,      // every request popped, in order
    bodies: seq<Json>,      // the transactions themselves
    errors: seq<Error>,     // errors of popped futures, in order
    waits: nat,
    ends: nat)

  function Begin(txns: seq<Hash>): History {
    History(Window(txns, []), [], [], [], [], [], [], 0, 0)
  }

  function Observe(h: History, input: Input): History
    requires Sound(h.window)
  {
    var w := h.window;
    if Finished(w) then h.(ends := h.ends + 1)
    else
      var head := Loaded(w, input.clock).queue[0];
      var success := input.answer.Transaction?;
      History(
        Polled(w, input),
        h.requested + w.todo[..BatchSize(w)],
        if success then h.delivered + [head.key] else h.delivered,
        if success || Keeps(input, head) then h.lost else h.lost + [head.key],
        h.popped + [head.key],
        if success then h.bodies + [input.answer.body] else h.bodies,
        if input.answer.Failed? then h.errors + [input.answer.error] else h.errors,
        if Keeps(input, head) then h.waits + 1 else h.waits,
        h.ends)
  }

  function Run(h: History, inputs: seq<Input>): (r: History)
    requires Sound(h.window)
    ensures Sound(r.window)
  {
    if inputs == [] then h
    else Observe(Run(h, inputs[..|inputs| - 1]), inputs[|inputs| - 1])
  }

  /** The list splits into what was requested, in order, and what is still to do; each
      request is queued, delivered or lost, with multiplicity. */
  ghost predicate Conserved(h: History, txns: seq<Hash>) {
    && h.requested + h.window.todo == txns
    && Balanced(multiset(h.requested), Keys(h.window.queue), h.delivered, h.lost)
  }

  /** While nothing had to wait, requests were popped in the order they were made. */
  ghost predicate InOrder(h: History) {
    h.waits == 0 ==> h.requested == h.popped + Keys(h.window.queue)
  }

  ghost predicate Counted(h: History) {
    && |h.popped| == |h.delivered| + |h.lost| + h.waits
    && |h.bodies| == |h.delivered|
    && (h.waits == 0 && h.lost == [] ==> h.delivered == h.popped)
    && (h.ends > 0 ==> Finished(h.window))
  }

  lemma BalancedStep(h: History, input: Input)
    requires Sound(h.window) && !Finished(h.window)
    requires Balanced(multiset(h.requested), Keys(h.window.queue), h.delivered, h.lost)
    ensures var r := Observe(h, input);
            Balanced(multiset(r.requested), Keys(r.window.queue), r.delivered, r.lost)
  {
    var w, r := h.window, Observe(h, input);
    var batch := w.todo[..BatchSize(w)];
    var loaded := Loaded(w, input.clock).queue;
    var kept := Keeps(input, loaded[0]);
    KeysOfQueued(w.queue, batch, input.clock);
    Rotate(loaded, kept);
    Rebalance(multiset(h.requested), multiset(batch), Keys(w.queue), Keys(r.window.queue),
              h.delivered, h.lost, loaded[0].key, kept, input.answer.Transaction?);
  }

  lemma ConservedStep(h: History, input: Input, txns: seq<Hash>)
    requires Sound(h.window) && Conserved(h, txns)
    ensures Conserved(Observe(h, input), txns)
  {
    if !Finished(h.window) {
      BalancedStep(h, input);
      var n := BatchSize(h.window);
      assert h.window.todo == h.window.todo[..n] + h.window.todo[n..];
    }
  }

  lemma PopInOrder(requested: seq<Hash>, popped: seq<Hash>, queued: seq<Hash>, batch: seq<Hash>, loaded: seq<Hash>)
    requires requested == popped + queued && loaded == queued + batch && loaded != []
    ensures requested + batch == (popped + [loaded[0]]) + loaded[1..]
  {
    assert loaded == [loaded[0]] + loaded[1..];
    assert requested + batch == popped + loaded;
  }

  lemma InOrderStep(h: History, input: Input)
    requires Sound(h.window) && InOrder(h)
    ensures InOrder(Observe(h, input))
  {
    var w, r := h.window, Observe(h, input);
    if !Finished(w) && r.waits == 0 {
      var loaded := Loaded(w, input.clock).queue;
      var batch := w.todo[..BatchSize(w)];
      assert Keys(loaded) == Keys(w.queue) + batch;
      assert Keys(r.window.queue) == Keys(loaded)[1..];
      PopInOrder(h.requested, h.popped, Keys(w.queue), batch, Keys(loaded));
    }
  }

  /** What polls return is what the history logs: the transaction of each hash delivered, the
      errors of the futures that failed, and the ends. */
  lemma OutcomesAreLogged(h: History, input: Input)
    requires Sound(h.window)
    ensures var r, outcome := Observe(h, input), Outcome(h.window, input);
            && r.delivered == h.delivered
               + (if outcome.Ok? && outcome.value.Ready? && outcome.value.item.Some?
                  then [Loaded(h.window, input.clock).queue[0].key] else [])
            && r.bodies == h.bodies
               + (if outcome.Ok? && outcome.value.Ready? && outcome.value.item.Some?
                  then [outcome.value.item.value] else [])
            && r.errors == h.errors + (if outcome.Err? then [outcome.error] else [])
            && r.ends == h.ends + (if outcome == Ok(Ready(None)) then 1 else 0)
            && (outcome == Ok(NotReady) <==>
                  r.delivered == h.delivered && r.errors == h.errors && r.ends == h.ends)
  {
  }

  // ------------------------------------------------------------ order

  /** `a` is `b` with some elements left out. */
  predicate Subsequence(a: seq<Hash>, b: seq<Hash>) {
    if a == [] then true
    else if b == [] then false
    else
      || (a[|a| - 1] == b[|b| - 1] && Subsequence(a[..|a| - 1], b[..|b| - 1]))
      || Subsequence(a, b[..|b| - 1])
  }

  lemma SubsequenceSnoc(a: seq<Hash>, b: seq<Hash>, x: Hash)
    requires Subsequence(a, b)
    ensures Subsequence(a, b + [x]) && Subsequence(a + [x], b + [x])
  {
    assert (a + [x])[..|a|] == a && (b + [x])[..|b|] == b;
  }

  lemma {:induction false} SubsequenceOfPrefix(a: seq<Hash>, b: seq<Hash>, c: seq<Hash>)
    requires Subsequence(a, b) && b <= c
    ensures Subsequence(a, c)
    decreases |c|
  {
    if |b| == |c| {
      assert b == c;
    } else {
      SubsequenceOfPrefix(a, b, c[..|c| - 1]);
    }
  }

  /** What is delivered and what is lost keep the order in which requests were popped. */
  ghost predicate KeepsOrder(h: History) {
    Subsequence(h.delivered, h.popped) && Subsequence(h.lost, h.popped)
  }

  lemma KeepsOrderStep(h: History, input: Input)
    requires Sound(h.window) && KeepsOrder(h)
    ensures KeepsOrder(Observe(h, input))
  {
    if !Finished(h.window) {
      var head := Loaded(h.window, input.clock).queue[0].key;
      SubsequenceSnoc(h.delivered, h.popped, head);
      SubsequenceSnoc(h.lost, h.popped, head);
    }
  }

  // ------------------------------------------------------------ main results

  /** While hashes are left to request, half a buffer of requests is in flight. */
  ghost predicate KeepsBusy(h: History) {
    h.popped != [] && h.window.todo != [] ==> |h.window.queue| >= 25
  }

  lemma KeepsBusyStep(h: History, input: Input)
    requires Sound(h.window) && KeepsBusy(h)
    ensures KeepsBusy(Observe(h, input))
  {
  }

  /** A request popped and not ready is queued again exactly while under five seconds old. */
  lemma RequeuesWhileYoung(w: Window, input: Input)
    requires Sound(w) && !Finished(w)
    ensures var loaded := Loaded(w, input.clock);
            var popped := loaded.queue[0];
            Polled(w, input).queue == loaded.queue[1..]
              + if input.answer.Pending? && input.checked < popped.born + 5_000_000_000 then [popped] else []
  {
  }

  ghost predicate Inv(h: History, txns: seq<Hash>, polls: nat) {
    && Sound(h.window) && Conserved(h, txns) && InOrder(h) && Counted(h) && KeepsOrder(h) && KeepsBusy(h)
    && polls == |h.popped| + h.ends
  }

  lemma CountedStep(h: History, input: Input)
    requires Sound(h.window) && Counted(h)
    ensures Counted(Observe(h, input))
    ensures |Observe(h, input).popped| + Observe(h, input).ends == |h.popped| + h.ends + 1
  {
  }

  lemma InvStep(h: History, txns: seq<Hash>, polls: nat, input: Input)
    requires Inv(h, txns, polls)
    ensures Inv(Observe(h, input), txns, polls + 1)
  {
    ConservedStep(h, input, txns);
    InOrderStep(h, input);
    CountedStep(h, input);
    KeepsOrderStep(h, input);
    KeepsBusyStep(h, input);
  }

  /** Conservation and order over every schedule, and the bound on the queue. */
  lemma {:induction false} StreamConserves(txns: seq<Hash>, inputs: seq<Input>)
    ensures var h := Run(Begin(txns), inputs);
            Inv(h, txns, |inputs|) && |h.window.queue| <= CAPACITY - 1
    decreases |inputs|
  {
    if inputs == [] {
    } else {
      var init := inputs[..|inputs| - 1];
      StreamConserves(txns, init);
      InvStep(Run(Begin(txns), init), txns, |init|, inputs[|inputs| - 1]);
    }
  }

  /** At the end everything was delivered or lost. If no future had to be queued again,
      requests are popped in input order, and the output is in input order too, whatever
      was lost; if nothing was lost it is the input. More polls than hashes and waits
      means that the stream has ended. */
  lemma {:induction false} EndOfStream(txns: seq<Hash>, inputs: seq<Input>)
    ensures var h := Run(Begin(txns), inputs);
            && (h.ends > 0 ==> multiset(txns) == multiset(h.delivered) + multiset(h.lost))
            && (h.waits == 0 ==>
                  h.popped <= txns && Subsequence(h.delivered, txns) && Subsequence(h.lost, txns))
            && (h.ends > 0 && h.waits == 0 && h.lost == [] ==> h.delivered == txns)
            && (|inputs| > |txns| + h.waits ==> h.ends > 0)
  {
    StreamConserves(txns, inputs);
    var h := Run(Begin(txns), inputs);
    assert |h.delivered| + |h.lost| <= |txns| by {
      assert |multiset(h.requested)| == |Keys(h.window.queue)| + |h.delivered| + |h.lost|;
    }
    if h.waits == 0 {
      SubsequenceOfPrefix(h.delivered, h.popped, txns);
      SubsequenceOfPrefix(h.lost, h.popped, txns);
    }
    if h.ends > 0 {
      assert h.requested == txns && Keys(h.window.queue) == [];
    }
  }
}
