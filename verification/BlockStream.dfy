/** The block stream itself: fields updated in place by `Next` and `Poll`. */
module BlockStreams {
  import opened Prelude
  import opened InFlight
  import opened BlockWindow

  class BlockStream {
    const startBlock: nat
    var from: nat
    const to: nat
    const bufferSize: nat
    const batchSize: nat
    var queue: seq<Request>
    var completed: set<nat>

    function Contents(): Window
      reads this
    {
      Window(startBlock, from, to, bufferSize * batchSize, queue, completed)
    }

    ghost predicate Valid()
      reads this
    {
      Sound(Contents())
    }

    /** The default options: ten requests a batch, five batches a buffer. */
    constructor (from: U64, to: U64)
      ensures Contents() == Opened(from, to, 50)
      ensures !Wraps(Contents()) ==> Valid()
    {
      startBlock, this.from, this.to := from, from, to;
      bufferSize, batchSize := 5, 10;
      queue, completed := [], {};
    }

    constructor WithOptions(from: U64, to: U64, batch: U64, buffer: U64)
      ensures Contents() == Opened(from, to, buffer * batch)
      ensures !Wraps(Contents()) ==> Valid()
    {
      startBlock, this.from, this.to := from, from, to;
      bufferSize, batchSize := buffer, batch;
      queue, completed := [], {};
    }

    /** Queues one request per block number, in order, stamping each as it is queued. */
    method Enqueue(numbers: seq<nat>, clock: nat -> int)
      modifies this`queue
      ensures queue == old(queue) + Requests(numbers, clock)
      ensures |queue| == |old(queue)| + |numbers|
      ensures forall i :: 0 <= i < |numbers| ==> queue[|old(queue)| + i] == Request(clock(i), numbers[i])
    {
      var i := 0;
      while i < |numbers|
        invariant 0 <= i <= |numbers|
        invariant queue == old(queue) + Requests(numbers, clock)[..i]
      {
        queue := queue + [Request(clock(i), numbers[i])];
        i := i + 1;
      }
      assert Requests(numbers, clock)[..i] == Requests(numbers, clock);
    }

    method PopFront() returns (item: Option<Request>)
      modifies this`queue
      ensures old(queue) == [] ==> item == None && queue == []
      ensures old(queue) != [] ==> item == Some(old(queue)[0]) && queue == old(queue)[1..]
    {
      if queue == [] { return None; }
      item := Some(queue[0]);
      queue := queue[1..];
    }

    method Next(clock: nat -> int) returns (item: Option<Request>)
      requires Valid() && !Wraps(Contents())
      modifies this
      ensures completed == old(completed)
      ensures old(PhaseOf(Contents())) == Finished ==> item == None && Contents() == old(Contents())
      ensures old(PhaseOf(Contents())) != Finished ==>
                && item == Some(old(Popped(Contents(), clock)))
                && from == old(Loaded(Contents(), clock)).from
                && queue == old(Loaded(Contents(), clock)).queue[1..]
    {
      var w := Contents();
      var capacity := w.capacity;
      if from == to && queue == [] {
        var missing := Missing(startBlock, to, completed);
        if missing == [] {
          return None;
        }
        assert Batch(w) == missing;
        Enqueue(missing, clock);
      } else if from < to && |queue| <= HalfCapacity(w) {
        var blocksLeft := to - from;
        var remaining := capacity - |queue| - 1;
        var getThisMany := if blocksLeft <= remaining then blocksLeft else remaining;
        assert Advance(w) == getThisMany;
        Enqueue(Span(from, from + getThisMany), clock);
        from := from + getThisMany;
      }
      assert Contents() == Loaded(w, clock);
      item := PopFront();
    }

    method Poll(input: Input) returns (result: Result<Async<Option<nat>>>)
      requires Valid() && !Wraps(Contents())
      modifies this
      ensures Valid()
      ensures Contents() == old(Polled(Contents(), input))
      ensures result == old(Outcome(Contents(), input))
      ensures if old(from == to && queue == [] && forall n :: startBlock <= n <= to ==> n in completed)
              then result == Ok(Ready(None))
              else match input.answer
                case Block(number) => result == Ok(Ready(Some(number)))
                case Failed(error) => result == Err(error)
                case Null => result == Ok(NotReady)
                case Pending => result == Ok(NotReady)
    {
      FinishedMeansCompleted(Contents());
      var next := Next(input.clock);
      if next.None? {
        return Ok(Ready(None));
      }
      match input.answer
      case Block(number) =>
        completed := completed + {number % U64_MODULUS};
        result := Ok(Ready(Some(number)));
      case Null =>
        result := Ok(NotReady);
      case Failed(error) =>
        result := Err(error);
      case Pending =>
        if input.checked - next.value.born < FIVE_SECONDS {
          queue := queue + [next.value];
        }
        result := Ok(NotReady);
    }
  }
}
