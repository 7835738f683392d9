/**
 Whole runs of a block stream, under every schedule of answers and clock readings: what
 the stream yields, which blocks it requests, how often it refills, when it ends.
 */
module BlockRuns {
  import opened Prelude
  import opened InFlight
  import opened BlockWindow

  /** A window together with everything that happened to it so far. */
  datatype History = History(
    window: Window,
    bounds: seq<nat>,    // the value of `from` at each refill
    forward: seq<nat>,   // block numbers requested by refills
    repairs: seq<nat>,   // block numbers requested by repair rounds
    served: seq<nat>,    // numbers whose request was answered with a block
    lost: seq<nat>,      // numbers whose request ended in an error, a null block or expiry
    yielded: seq<nat>,   // numbers of the blocks handed to the caller
    errors: seq<Error>,  // errors of popped futures, in order
    waits: nat,          // polls whose future was not ready and was queued again
    ends: nat,           // polls that returned end-of-stream
    honest: bool)        // every block so far had the number its request asked for

  function Begin(from: nat, to: nat, capacity: nat): History {
    History(Opened(from, to, capacity), [], [], [], [], [], [], [], 0, 0, true)
  }

  function Observe(h: History, input: Input): (r: History)
    requires Sound(h.window)
    ensures r.window == Polled(h.window, input)
  {
    var w := h.window;
    var phase := PhaseOf(w);
    if phase == Finished then h.(ends := h.ends + 1)
    else
      var popped := Popped(w, input.clock);
      var block := input.answer.Block?;
      History(
        Polled(w, input),
        if phase == Refilling then h.bounds + [w.from] else h.bounds,
        if phase == Refilling then h.forward + Batch(w) else h.forward,
        if phase == Repairing then h.repairs + Batch(w) else h.repairs,
        if block then h.served + [popped.key] else h.served,
        if Loses(input, popped) then h.lost + [popped.key] else h.lost,
        if block then h.yielded + [input.answer.number] else h.yielded,
        if input.answer.Failed? then h.errors + [input.answer.error] else h.errors,
        if Keeps(input, popped) then h.waits + 1 else h.waits,
        h.ends,
        h.honest && (block ==> input.answer.number % U64_MODULUS == popped.key))
  }

  function Run(h: History, inputs: seq<Input>): (r: History)
    requires Sound(h.window)
    ensures Sound(r.window)
    ensures r.window.start == h.window.start && r.window.to == h.window.to
    ensures r.window.capacity == h.window.capacity
  {
    if inputs == [] then h
    else Observe(Run(h, inputs[..|inputs| - 1]), inputs[|inputs| - 1])
  }

  /** What polls return is what the history logs: the blocks handed to the caller, the errors
      of the futures that failed, and the reports of end-of-stream; and nothing is reported
      for a future that waits or answers null. */
  lemma OutcomesAreLogged(h: History, input: Input)
    requires Sound(h.window)
    ensures var r, outcome := Observe(h, input), Outcome(h.window, input);
            && r.yielded == h.yielded
               + (if outcome.Ok? && outcome.value.Ready? && outcome.value.item.Some?
                  then [outcome.value.item.value] else [])
            && r.errors == h.errors + (if outcome.Err? then [outcome.error] else [])
            && r.ends == h.ends + (if outcome == Ok(Ready(None)) then 1 else 0)
            && (outcome == Ok(NotReady) <==> r.yielded == h.yielded && r.errors == h.errors && r.ends == h.ends)
  {
  }

  predicate Startable(from: nat, to: nat, capacity: nat) {
    from <= to <= U64_MAX && (from < to ==> 1 <= capacity)
  }

  // ---------------------------------------------------------------- bookkeeping

  function LowBits(numbers: seq<nat>): (s: seq<nat>)
    ensures |s| == |numbers|
    ensures forall i :: 0 <= i < |s| ==> s[i] == numbers[i] % U64_MODULUS
  {
    seq(|numbers|, i requires 0 <= i < |numbers| => numbers[i] % U64_MODULUS)
  }

  /** Refills requested the span so far once, and every interior boundary once more. */
  ghost predicate Covers(start: nat, from: nat, bounds: seq<nat>, forward: seq<nat>)
    requires start <= from
  {
    && (bounds == [] ==> from == start && forward == [])
    && (bounds != [] ==>
          && bounds[0] == start
          && multiset(forward) == multiset(Span(start, from)) + multiset(bounds[1..]))
  }

  ghost predicate ForwardLedger(h: History)
    requires Sound(h.window)
  {
    Covers(h.window.start, h.window.from, h.bounds, h.forward)
  }

  /** Every requested number is queued, served or lost, with multiplicity. */
  ghost predicate Conserved(h: History) {
    Balanced(multiset(h.forward) + multiset(h.repairs), Keys(h.window.queue), h.served, h.lost)
  }

  ghost predicate YieldsWhatItServes(h: History) {
    |h.yielded| == |h.served| && (h.honest ==> LowBits(h.yielded) == h.served)
  }

  ghost predicate CompletedIsYielded(h: History) {
    forall n :: n in h.window.completed <==> n in LowBits(h.yielded)
  }

  /** Repairs begin only once the forward phase is over. */
  ghost predicate PhasesInOrder(h: History) {
    && (h.repairs != [] ==> h.window.from == h.window.to)
    && (h.repairs == [] && h.window.start < h.window.to ==> |h.window.queue| <= h.window.capacity)
    && (h.repairs == [] && h.window.start == h.window.to ==> h.window.queue == [])
    && (h.repairs != [] ==> |h.window.queue| <= h.window.to - h.window.start + 1)
  }

  ghost predicate Inv(h: History) {
    && Sound(h.window) && ForwardLedger(h) && Conserved(h)
    && YieldsWhatItServes(h) && CompletedIsYielded(h) && PhasesInOrder(h)
  }

  lemma {:induction false} SpanSplit(lo: nat, mid: nat, hi: nat)
    requires lo <= mid + 1 && mid <= hi
    ensures Span(lo, hi) == Span(lo, mid) + Span(mid + 1, hi)
    decreases mid + 1 - lo
  {
    if lo == mid + 1 {
    } else {
      SpanSplit(lo + 1, mid, hi);
    }
  }

  lemma QueueAfterPoll(w: Window, input: Input)
    requires Sound(w) && PhaseOf(w) != Finished
    ensures var popped := Popped(w, input.clock);
            multiset(Keys(w.queue)) + multiset(Batch(w))
            == multiset(Keys(Polled(w, input).queue))
               + (if Keeps(input, popped) then multiset{} else multiset{popped.key})
  {
    KeysOfQueued(w.queue, Batch(w), input.clock);
    Rotate(Loaded(w, input.clock).queue, Keeps(input, Popped(w, input.clock)));
  }

  lemma {:induction false} RefillCovers(start: nat, from: nat, hi: nat, bounds: seq<nat>, forward: seq<nat>)
    requires start <= from <= hi && Covers(start, from, bounds, forward)
    ensures Covers(start, hi, bounds + [from], forward + Span(from, hi))
  {
    if bounds != [] {
      SpanSplit(start, from, hi);
      assert Span(from, hi) == [from] + Span(from + 1, hi);
      assert (bounds + [from])[1..] == bounds[1..] + [from];
    } else {
      assert (bounds + [from])[1..] == [];
    }
  }

  /** Only a refill moves `from`, and it logs what it moved over. */
  lemma ForwardMove(h: History, input: Input)
    requires Sound(h.window)
    ensures var w, r := h.window, Observe(h, input);
            if PhaseOf(w) == Refilling then
              && r.window.from == w.from + Advance(w)
              && r.bounds == h.bounds + [w.from]
              && r.forward == h.forward + Span(w.from, r.window.from)
            else r.window.from == w.from && r.bounds == h.bounds && r.forward == h.forward
  {
  }

  lemma {:induction false} ForwardLedgerStep(h: History, input: Input)
    requires Sound(h.window) && ForwardLedger(h)
    ensures ForwardLedger(Observe(h, input))
  {
    ForwardMove(h, input);
    var w, r := h.window, Observe(h, input);
    if PhaseOf(w) == Refilling {
      RefillCovers(w.start, w.from, r.window.from, h.bounds, h.forward);
    }
  }

  lemma RequestedGrows(h: History, input: Input)
    requires Sound(h.window) && PhaseOf(h.window) != Finished
    ensures var r := Observe(h, input);
            multiset(r.forward) + multiset(r.repairs)
            == multiset(h.forward) + multiset(h.repairs) + multiset(Batch(h.window))
  {
    assert multiset(h.forward + Batch(h.window)) == multiset(h.forward) + multiset(Batch(h.window));
    assert multiset(h.repairs + Batch(h.window)) == multiset(h.repairs) + multiset(Batch(h.window));
  }

  lemma ConservedStep(h: History, input: Input)
    requires Sound(h.window) && Conserved(h)
    ensures Conserved(Observe(h, input))
  {
    var w := h.window;
    var r := Observe(h, input);
    if PhaseOf(w) != Finished {
      var popped := Popped(w, input.clock);
      QueueAfterPoll(w, input);
      Rebalance(multiset(h.forward) + multiset(h.repairs), multiset(Batch(w)),
                Keys(w.queue), Keys(r.window.queue), h.served, h.lost,
                popped.key, Keeps(input, popped), input.answer.Block?);
      RequestedGrows(h, input);
    }
  }

  lemma YieldsStep(h: History, input: Input)
    requires Sound(h.window) && YieldsWhatItServes(h)
    ensures YieldsWhatItServes(Observe(h, input))
  {
    var r := Observe(h, input);
    if PhaseOf(h.window) != Finished && input.answer.Block? {
      assert LowBits(r.yielded) == LowBits(h.yielded) + [input.answer.number % U64_MODULUS];
    }
  }

  lemma CompletedStep(h: History, input: Input)
    requires Inv(h)
    ensures CompletedIsYielded(Observe(h, input))
  {
    var r := Observe(h, input);
    if PhaseOf(h.window) != Finished && input.answer.Block? {
      assert LowBits(r.yielded) == LowBits(h.yielded) + [input.answer.number % U64_MODULUS];
    }
  }

  /** A poll leaves as many requests as it loads, or one fewer. */
  lemma PollLength(w: Window, input: Input)
    requires Sound(w) && PhaseOf(w) != Finished
    ensures |w.queue| + |Batch(w)| - 1 <= |Polled(w, input).queue| <= |w.queue| + |Batch(w)|
    ensures PhaseOf(w) == Repairing ==> w.queue == [] && |Batch(w)| <= w.to - w.start + 1
    ensures PhaseOf(w) == Refilling ==> |w.queue| + |Batch(w)| <= w.capacity
    ensures PhaseOf(w) == Draining ==> Batch(w) == []
  {
  }

  lemma PhasesStep(h: History, input: Input)
    requires Sound(h.window) && PhasesInOrder(h)
    ensures PhasesInOrder(Observe(h, input))
  {
    if PhaseOf(h.window) != Finished {
      PollLength(h.window, input);
      ForwardMove(h, input);
    }
  }

  lemma {:induction false} InvRun(from: nat, to: nat, capacity: nat, inputs: seq<Input>)
    requires Startable(from, to, capacity)
    ensures Inv(Run(Begin(from, to, capacity), inputs))
    decreases |inputs|
  {
    if inputs == [] {
    } else {
      var earlier := inputs[..|inputs| - 1];
      var last := inputs[|inputs| - 1];
      InvRun(from, to, capacity, earlier);
      var h := Run(Begin(from, to, capacity), earlier);
      ForwardLedgerStep(h, last);
      ConservedStep(h, last);
      YieldsStep(h, last);
      CompletedStep(h, last);
      PhasesStep(h, last);
    }
  }
}
