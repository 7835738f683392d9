/**
 The block stream on top of the client: the queue holds the futures of its batch calls, and
 what a poll learns is what the popped future makes of its oneshot.
 */
module StreamOverClient {
  import opened Prelude
  import opened InFlight
  import opened BlockWindow
  import opened BlockRuns
  import opened BlockTheorems
  import opened BlockTermination
  import opened BatchCorrectness
  import Responses
  import Registry
  import Protocol
  import Futures
  import Clients

  type Id = Responses.Id

  /** A decoder reads a block, here its number, or a null. */
  type Decoder = Json -> Result<Option<nat>>

  type BlockFuture = Futures.FutureState<Option<nat>>

  /** What one poll learns from outside: clock readings, the ids its batch call draws, if it
      makes one, whether that call goes out, and the oneshot of the popped future. */
  datatype Reading = Reading(clock: nat -> int, checked: int, ids: nat -> Id, sent: bool, cell: Futures.Cell)

  /** A stream's history, the future of each queued request, and which block every id the
      stream was given asks for. */
  datatype Wired = Wired(history: History, futures: seq<BlockFuture>, issued: set<(Id, nat)>)

  function Unread(from: nat, to: nat, capacity: nat): Wired {
    Wired(Begin(from, to, capacity), [], {})
  }

  predicate Matched(w: Wired) {
    Sound(w.history.window) && |w.futures| == |w.history.window.queue|
  }

  /** The futures of one batch call. */
  function Called(count: nat, r: Reading, decode: Decoder): (fs: seq<BlockFuture>)
    ensures |fs| == count
    ensures forall i :: 0 <= i < count ==>
              fs[i] == if r.sent then Futures.Waiting(r.ids(i), decode) else Futures.Failed(Clients.UNSENT)
  {
    seq(count, i requires 0 <= i =>
      if r.sent then Futures.Waiting(r.ids(i), decode) else Futures.Failed(Clients.UNSENT))
  }

  function Issued(batch: seq<nat>, r: Reading): set<(Id, nat)> {
    set i | 0 <= i < |batch| :: (r.ids(i), batch[i])
  }

  function AnswerOf(polled: Result<Async<Option<nat>>>): Answer {
    match polled
    case Err(e) => Failed(e)
    case Ok(NotReady) => Pending
    case Ok(Ready(None)) => Null
    case Ok(Ready(Some(n))) => Block(n)
  }

  /** The futures once the batch of this poll is queued; the first is the one it pops. */
  function Queued(w: Wired, r: Reading, decode: Decoder): (fs: seq<BlockFuture>)
    requires Matched(w)
    ensures PhaseOf(w.history.window) != Finished ==> fs != []
  {
    w.futures + Called(|Batch(w.history.window)|, r, decode)
  }

  function InputOf(w: Wired, r: Reading, decode: Decoder): Input
    requires Matched(w)
  {
    Input(r.clock, r.checked,
          if PhaseOf(w.history.window) == Finished then Null
          else AnswerOf(Futures.PollFuture(Queued(w, r, decode)[0], r.cell).1))
  }

  function Step(w: Wired, r: Reading, decode: Decoder): (r': Wired)
    requires Matched(w)
    ensures Matched(r')
    ensures r'.history == Observe(w.history, InputOf(w, r, decode))
  {
    var h, input := w.history, InputOf(w, r, decode);
    if PhaseOf(h.window) == Finished then w.(history := Observe(h, input))
    else
      var futures := Queued(w, r, decode);
      var polled := Futures.PollFuture(futures[0], r.cell).0;
      Wired(Observe(h, input),
            if Keeps(input, Popped(h.window, r.clock)) then futures[1..] + [polled] else futures[1..],
            w.issued + Issued(Batch(h.window), r))
  }

  function Drive(w: Wired, readings: seq<Reading>, decode: Decoder): (r: Wired)
    requires Matched(w)
    ensures Matched(r)
  {
    if readings == [] then w
    else Step(Drive(w, readings[..|readings| - 1], decode), readings[|readings| - 1], decode)
  }

  /** What the polls of a stream learned, as its own specification takes it. */
  function Inputs(w: Wired, readings: seq<Reading>, decode: Decoder): (inputs: seq<Input>)
    requires Matched(w)
    ensures |inputs| == |readings|
  {
    if readings == [] then []
    else
      var earlier := readings[..|readings| - 1];
      Inputs(w, earlier, decode) + [InputOf(Drive(w, earlier, decode), readings[|readings| - 1], decode)]
  }

  lemma {:induction false} DriveIsRun(w: Wired, readings: seq<Reading>, decode: Decoder)
    requires Matched(w)
    ensures Drive(w, readings, decode).history == Run(w.history, Inputs(w, readings, decode))
    decreases |readings|
  {
    if readings == [] {
    } else {
      var earlier := readings[..|readings| - 1];
      DriveIsRun(w, earlier, decode);
      var inputs := Inputs(w, readings, decode);
      assert inputs[..|inputs| - 1] == Inputs(w, earlier, decode);
    }
  }

  // ------------------------------------------------------------ the protocol underneath

  /** Every popped future was read at some moment of the protocol's run. */
  ghost predicate ReadFrom(actions: seq<Protocol.Action>, w: Wired, readings: seq<Reading>, decode: Decoder)
    requires Matched(w)
    decreases |readings|
  {
    readings != [] ==>
      var earlier := readings[..|readings| - 1];
      ReadFrom(actions, w, earlier, decode)
      && ReadsItsCell(actions, Drive(w, earlier, decode), readings[|readings| - 1], decode)
  }

  ghost predicate ReadsItsCell(actions: seq<Protocol.Action>, w: Wired, r: Reading, decode: Decoder)
    requires Matched(w)
  {
    PhaseOf(w.history.window) != Finished ==>
      var f := Queued(w, r, decode)[0];
      f.Waiting? ==> ReadOnce(actions, f.id, r.cell)
  }

  /** The first response to an id since it was registered, if there is one and it holds a
      block, holds the block that was asked for. */
  ghost predicate RightAnswer(s: Protocol.State, id: Id, number: nat, decode: Decoder) {
    id in s.registered ==>
      var first := Registry.First(Protocol.Since(s.log, s.registered[id]), id);
      first.Some? && Futures.AndThen(first.value, decode).Ok? && decode(first.value.value).value.Some? ==>
        decode(first.value.value).value.value % U64_MODULUS == number
  }

  ghost predicate RightAnswers(s: Protocol.State, issued: set<(Id, nat)>, decode: Decoder) {
    forall p :: p in issued ==> RightAnswer(s, p.0, p.1, decode)
  }

  /** A queued future failed at once, or waits for an id that was issued for its block. */
  ghost predicate AsksFor(issued: set<(Id, nat)>, f: BlockFuture, number: nat, decode: Decoder) {
    f == Futures.Failed(Clients.UNSENT) || (f.Waiting? && f.decode == decode && (f.id, number) in issued)
  }

  ghost predicate AllAsk(futures: seq<BlockFuture>, queue: seq<Request>, issued: set<(Id, nat)>, decode: Decoder) {
    |futures| == |queue| && forall i :: 0 <= i < |queue| ==> AsksFor(issued, futures[i], queue[i].key, decode)
  }

  lemma QueuedAsk(w: Wired, r: Reading, decode: Decoder)
    requires Matched(w) && AllAsk(w.futures, w.history.window.queue, w.issued, decode)
    ensures AllAsk(Queued(w, r, decode), Loaded(w.history.window, r.clock).queue,
                   w.issued + Issued(Batch(w.history.window), r), decode)
  {
    var batch := Batch(w.history.window);
    forall i | 0 <= i < |batch| ensures (r.ids(i), batch[i]) in Issued(batch, r) {
    }
  }

  lemma StepAsks(w: Wired, r: Reading, decode: Decoder)
    requires Matched(w) && AllAsk(w.futures, w.history.window.queue, w.issued, decode)
    ensures var r' := Step(w, r, decode);
            AllAsk(r'.futures, r'.history.window.queue, r'.issued, decode)
  {
    if PhaseOf(w.history.window) != Finished {
      QueuedAsk(w, r, decode);
    }
  }

  /** A block that a waiting future resolves to is the one its id was issued for. */
  lemma RightBlock(actions: seq<Protocol.Action>, f: BlockFuture, number: nat, cell: Futures.Cell,
                   issued: set<(Id, nat)>, decode: Decoder)
    requires Protocol.Execute(Protocol.INITIAL, actions).Some?
    requires RightAnswers(Protocol.Execute(Protocol.INITIAL, actions).value, issued, decode)
    requires AsksFor(issued, f, number, decode) && (f.Waiting? ==> ReadOnce(actions, f.id, cell))
    ensures var answer := AnswerOf(Futures.PollFuture(f, cell).1);
            answer.Block? ==> answer.number % U64_MODULUS == number
  {
    var s := Protocol.Execute(Protocol.INITIAL, actions).value;
    if f.Waiting? && cell.Filled? {
      ReadingIsFinal(actions, f.id, cell);
      Protocol.InvReached(actions);
      assert RightAnswer(s, f.id, number, decode);
    }
  }

  lemma StepIsHonest(actions: seq<Protocol.Action>, w: Wired, r: Reading, decode: Decoder)
    requires Protocol.Execute(Protocol.INITIAL, actions).Some?
    requires Matched(w) && AllAsk(w.futures, w.history.window.queue, w.issued, decode)
    requires ReadsItsCell(actions, w, r, decode) && w.history.honest
    requires RightAnswers(Protocol.Execute(Protocol.INITIAL, actions).value, Step(w, r, decode).issued, decode)
    ensures Step(w, r, decode).history.honest
  {
    if PhaseOf(w.history.window) != Finished {
      QueuedAsk(w, r, decode);
      RightBlock(actions, Queued(w, r, decode)[0], Popped(w.history.window, r.clock).key, r.cell,
                 Step(w, r, decode).issued, decode);
    }
  }

  lemma {:induction false} DriveAsks(w: Wired, readings: seq<Reading>, decode: Decoder)
    requires Matched(w) && AllAsk(w.futures, w.history.window.queue, w.issued, decode)
    ensures var r := Drive(w, readings, decode);
            AllAsk(r.futures, r.history.window.queue, r.issued, decode)
    decreases |readings|
  {
    if readings == [] {
    } else {
      DriveAsks(w, readings[..|readings| - 1], decode);
      StepAsks(Drive(w, readings[..|readings| - 1], decode), readings[|readings| - 1], decode);
    }
  }

  lemma {:induction false} DriveIsHonest(actions: seq<Protocol.Action>, w: Wired, readings: seq<Reading>,
                                         decode: Decoder)
    requires Protocol.Execute(Protocol.INITIAL, actions).Some?
    requires Matched(w) && AllAsk(w.futures, w.history.window.queue, w.issued, decode) && w.history.honest
    requires ReadFrom(actions, w, readings, decode)
    requires RightAnswers(Protocol.Execute(Protocol.INITIAL, actions).value, Drive(w, readings, decode).issued, decode)
    ensures Drive(w, readings, decode).history.honest
    decreases |readings|
  {
    if readings == [] {
    } else {
      var earlier, last := readings[..|readings| - 1], readings[|readings| - 1];
      var before := Drive(w, earlier, decode);
      assert before.issued <= Drive(w, readings, decode).issued;
      DriveIsHonest(actions, w, earlier, decode);
      DriveAsks(w, earlier, decode);
      StepIsHonest(actions, before, last, decode);
    }
  }

  /** If the first response to every id of a refill or repair batch holds the block asked
      for, whatever else was received, lost, timed out or dropped, the run of the stream is
      that of an honest server. So it ends, with every block yielded, as such runs do. */
  lemma {:induction false} RightAnswersMakeAnHonestRun(
    from: nat, to: nat, capacity: nat, actions: seq<Protocol.Action>, readings: seq<Reading>, decode: Decoder)
    requires Startable(from, to, capacity) && Protocol.Execute(Protocol.INITIAL, actions).Some?
    requires ReadFrom(actions, Unread(from, to, capacity), readings, decode)
    requires RightAnswers(Protocol.Execute(Protocol.INITIAL, actions).value,
                          Drive(Unread(from, to, capacity), readings, decode).issued, decode)
    ensures var h := Drive(Unread(from, to, capacity), readings, decode).history;
            && h == Run(Begin(from, to, capacity), Inputs(Unread(from, to, capacity), readings, decode))
            && h.honest
            && (Progresses(to - from, capacity) && NeverWraps(from, to, capacity)
                && |readings| > PollBound(to - from, capacity, |h.lost|, h.waits) ==>
                  h.ends > 0 && YieldedAll(h))
  {
    var w := Unread(from, to, capacity);
    var inputs := Inputs(w, readings, decode);
    DriveIsRun(w, readings, decode);
    DriveIsHonest(actions, w, readings, decode);
    LongRunsEnd(from, to, capacity, inputs);
    EndedHasYieldedAll(from, to, capacity, inputs);
  }

  // ------------------------------------------------------------ where results come from

  /** What a poll learns from the future it pops. */
  lemma LearnsFromItsFuture(w: Wired, r: Reading, decode: Decoder)
    requires Matched(w) && PhaseOf(w.history.window) != Finished
    ensures var answer := InputOf(w, r, decode).answer;
            match Queued(w, r, decode)[0]
            case Failed(e) => answer == Failed(e)
            case Now(b) => answer == if b.Some? then Block(b.value) else Null
            case Complete => answer == Pending
            case Waiting(_, d) =>
              match r.cell
              case Empty => answer == Pending
              case Dropped => answer == Failed(Canceled)
              case Filled(Err(e)) => answer == Failed(e)
              case Filled(Ok(v)) =>
                match d(v)
                case Err(e) => answer == Failed(e)
                case Ok(None) => answer == Null
                case Ok(Some(n)) => answer == Block(n)
  {
  }

  ghost predicate AnsweredWith(t: Registry.Table, id: Id, decode: Decoder, number: nat) {
    && id in t.fates && t.fates[id].Answered? && t.fates[id].result.Ok?
    && decode(t.fates[id].result.value) == Ok(Some(number))
  }

  /** A block handed to the caller is what some request of the stream was answered with. */
  ghost predicate BlockSource(t: Registry.Table, issued: set<(Id, nat)>, decode: Decoder, number: nat) {
    exists p :: p in issued && AnsweredWith(t, p.0, decode, number)
  }

  /** An error is that of a call that did not go out, or that some request ended with. */
  ghost predicate ErrorSource(t: Registry.Table, issued: set<(Id, nat)>, decode: Decoder, e: Error) {
    e == Clients.UNSENT || exists p :: p in issued && EndedWith(t, p.0, decode, e)
  }

  ghost predicate Sourced(t: Registry.Table, w: Wired, decode: Decoder) {
    && (forall n :: n in w.history.yielded ==> BlockSource(t, w.issued, decode, n))
    && (forall e :: e in w.history.errors ==> ErrorSource(t, w.issued, decode, e))
  }

  lemma FrontSource(actions: seq<Protocol.Action>, f: BlockFuture, number: nat, cell: Futures.Cell,
                    issued: set<(Id, nat)>, decode: Decoder)
    requires Protocol.Execute(Protocol.INITIAL, actions).Some?
    requires AsksFor(issued, f, number, decode) && (f.Waiting? ==> ReadOnce(actions, f.id, cell))
    ensures var t := Protocol.Execute(Protocol.INITIAL, actions).value.table;
            match AnswerOf(Futures.PollFuture(f, cell).1)
            case Block(n) => BlockSource(t, issued, decode, n)
            case Failed(e) => ErrorSource(t, issued, decode, e)
            case _ => true
  {
    if f.Waiting? && cell != Futures.Empty {
      ReadingIsFinal(actions, f.id, cell);
      assert (f.id, number).0 == f.id;
    }
  }

  lemma StepIsSourced(actions: seq<Protocol.Action>, w: Wired, r: Reading, decode: Decoder)
    requires Protocol.Execute(Protocol.INITIAL, actions).Some?
    requires Matched(w) && AllAsk(w.futures, w.history.window.queue, w.issued, decode)
    requires ReadsItsCell(actions, w, r, decode)
    requires Sourced(Protocol.Execute(Protocol.INITIAL, actions).value.table, w, decode)
    ensures Sourced(Protocol.Execute(Protocol.INITIAL, actions).value.table, Step(w, r, decode), decode)
  {
    if PhaseOf(w.history.window) != Finished {
      QueuedAsk(w, r, decode);
      FrontSource(actions, Queued(w, r, decode)[0], Popped(w.history.window, r.clock).key, r.cell,
                  Step(w, r, decode).issued, decode);
    }
  }

  /** Whatever the server sends: every block the stream yields is one that some request of
      the stream was answered with, and every error it reports is one that some request of
      the stream ended with, or that of a call that could not be sent. */
  lemma {:induction false} ResultsComeFromTheWire(
    from: nat, to: nat, capacity: nat, actions: seq<Protocol.Action>, readings: seq<Reading>, decode: Decoder)
    requires Startable(from, to, capacity) && Protocol.Execute(Protocol.INITIAL, actions).Some?
    requires ReadFrom(actions, Unread(from, to, capacity), readings, decode)
    ensures Sourced(Protocol.Execute(Protocol.INITIAL, actions).value.table,
                    Drive(Unread(from, to, capacity), readings, decode), decode)
    decreases |readings|
  {
    if readings == [] {
    } else {
      var earlier := readings[..|readings| - 1];
      ResultsComeFromTheWire(from, to, capacity, actions, earlier, decode);
      DriveAsks(Unread(from, to, capacity), earlier, decode);
      StepIsSourced(actions, Drive(Unread(from, to, capacity), earlier, decode), readings[|readings| - 1], decode);
    }
  }
}
