/** The main results about runs of a block stream. */
module BlockTheorems {
  import opened Prelude
  import opened InFlight
  import opened BlockWindow
  import opened BlockRuns

  // ------------------------------------------------------------ completeness

  ghost predicate YieldedAll(h: History) {
    forall n :: h.window.start <= n <= h.window.to ==> n in LowBits(h.yielded)
  }

  /** Nothing is in flight, and every block of the range was yielded. */
  ghost predicate AllDone(h: History) {
    h.window.from == h.window.to && h.window.queue == [] && YieldedAll(h)
  }

  lemma EndsWhenAllDone(h: History, next: Input)
    requires Sound(h.window) && CompletedIsYielded(h)
    ensures Outcome(h.window, next) == Ok(Ready(None)) <==> AllDone(h)
  {
    FinishedMeansCompleted(h.window);
    assert (PhaseOf(h.window) == Finished) == (Outcome(h.window, next) == Ok(Ready(None)));
  }

  /** End-of-stream is reported exactly when nothing is in flight and every block of the
      range was yielded, whatever the server sent. */
  lemma {:induction false} EndOfStreamIsComplete(from: nat, to: nat, capacity: nat, inputs: seq<Input>, next: Input)
    requires Startable(from, to, capacity)
    ensures var h := Run(Begin(from, to, capacity), inputs);
            Outcome(h.window, next) == Ok(Ready(None)) <==> AllDone(h)
  {
    InvRun(from, to, capacity, inputs);
    EndsWhenAllDone(Run(Begin(from, to, capacity), inputs), next);
  }

  lemma {:induction false} EndIsFinal(h: History, inputs: seq<Input>)
    requires Sound(h.window) && PhaseOf(h.window) == Finished
    ensures Run(h, inputs) == h.(ends := h.ends + |inputs|)
    decreases |inputs|
  {
    if inputs == [] {
    } else {
      EndIsFinal(h, inputs[..|inputs| - 1]);
    }
  }

  /** A run that has ended stays where it was when it ended. */
  lemma {:induction false} EndedMeansFinished(from: nat, to: nat, capacity: nat, inputs: seq<Input>)
    requires Startable(from, to, capacity)
    ensures var h := Run(Begin(from, to, capacity), inputs);
            h.ends > 0 ==> PhaseOf(h.window) == Finished
    decreases |inputs|
  {
    if inputs == [] {
    } else {
      EndedMeansFinished(from, to, capacity, inputs[..|inputs| - 1]);
    }
  }

  // ------------------------------------------------------------ queue bounds

  /** Before the first repair the queue never exceeds the capacity, not even between a
      refill and the pop that follows it; from then on it never exceeds the range. */
  ghost predicate WithinBounds(h: History, clock: nat -> int)
    requires Sound(h.window)
  {
    var w, loaded := h.window, Loaded(h.window, clock);
    && (PhaseOf(w) == Refilling ==> |w.queue| + 1 <= w.capacity)
    && (w.from < w.to ==> h.repairs == [] && |loaded.queue| <= w.capacity)
    && (h.repairs == [] && w.start < w.to ==> |w.queue| <= w.capacity)
    && (h.repairs != [] ==> |loaded.queue| <= w.to - w.start + 1)
  }

  lemma StaysWithinBounds(h: History, clock: nat -> int)
    requires Sound(h.window) && PhasesInOrder(h)
    ensures WithinBounds(h, clock)
  {
    if PhaseOf(h.window) != Finished {
      PollLength(h.window, Input(clock, 0, Null));
    }
  }

  lemma {:induction false} QueueBounds(from: nat, to: nat, capacity: nat, inputs: seq<Input>, clock: nat -> int)
    requires Startable(from, to, capacity)
    ensures WithinBounds(Run(Begin(from, to, capacity), inputs), clock)
  {
    InvRun(from, to, capacity, inputs);
    StaysWithinBounds(Run(Begin(from, to, capacity), inputs), clock);
  }

  // ------------------------------------------------------------ refills

  /** When the forward phase makes progress: cap 1 and 2 stall on all but tiny ranges. */
  predicate Progresses(distance: nat, capacity: nat) {
    distance == 0 || capacity >= 3 || distance < capacity
  }

  function Stride(capacity: nat): nat
    requires capacity >= 1
  {
    capacity - capacity / 2 - 1
  }

  /** Where `from` stands after k full refills. */
  function Boundary(start: nat, capacity: nat, k: nat): nat
    requires capacity >= 1
  {
    if k == 0 then start
    else if k == 1 then start + (capacity - 1)
    else Boundary(start, capacity, k - 1) + Stride(capacity)
  }

  function CeilDiv(x: nat, y: nat): nat
    requires y > 0
  {
    (x + y - 1) / y
  }

  /** The number of refills in closed form. */
  function RefillCount(distance: nat, capacity: nat): nat
    requires Progresses(distance, capacity)
  {
    if distance == 0 then 0
    else if distance < capacity then 1
    else 1 + CeilDiv(distance - (capacity - 1), Stride(capacity))
  }

  ghost predicate Paced(h: History)
    requires Sound(h.window) && h.window.start < h.window.to && h.window.capacity >= 1
  {
    var w, k := h.window, |h.bounds|;
    && (k == 0 ==> w.from == w.start && w.queue == [] && h.repairs == [])
    && (forall i :: 0 <= i < k ==> h.bounds[i] == Boundary(w.start, w.capacity, i))
    && (k > 0 && w.from < w.to ==>
          w.from == Boundary(w.start, w.capacity, k) && HalfCapacity(w) <= |w.queue|)
    && (k > 0 && w.from == w.to ==>
          Boundary(w.start, w.capacity, k - 1) < w.to <= Boundary(w.start, w.capacity, k))
  }

  /** A refill after the first happens at a queue length of exactly half the capacity, and
      moves `from` from one boundary to the next, or to the end if that is nearer. */
  ghost predicate MovesOneStride(h: History)
    requires Sound(h.window)
  {
    var w, k := h.window, |h.bounds|;
    PhaseOf(w) == Refilling ==>
      && (k > 0 ==> |w.queue| == HalfCapacity(w))
      && w.from == Boundary(w.start, w.capacity, k)
      && w.from + Advance(w) ==
         if w.to <= Boundary(w.start, w.capacity, k + 1) then w.to
         else Boundary(w.start, w.capacity, k + 1)
  }

  lemma PacedRefill(h: History)
    requires Sound(h.window) && h.window.start < h.window.to && h.window.capacity >= 1 && Paced(h)
    requires Progresses(h.window.to - h.window.start, h.window.capacity)
    ensures MovesOneStride(h)
  {
  }

  lemma RefillStaysPaced(h: History, input: Input)
    requires Sound(h.window) && h.window.start < h.window.to && h.window.capacity >= 1 && Paced(h)
    requires Progresses(h.window.to - h.window.start, h.window.capacity)
    requires PhaseOf(h.window) == Refilling
    ensures Paced(Observe(h, input))
  {
    ForwardMove(h, input);
    PollLength(h.window, input);
    PacedRefill(h);
  }

  lemma PacedStep(h: History, input: Input)
    requires Sound(h.window) && h.window.start < h.window.to && h.window.capacity >= 1 && Paced(h)
    requires Progresses(h.window.to - h.window.start, h.window.capacity)
    ensures Paced(Observe(h, input))
  {
    if PhaseOf(h.window) == Refilling {
      RefillStaysPaced(h, input);
    } else if PhaseOf(h.window) != Finished {
      ForwardMove(h, input);
      PollLength(h.window, input);
    }
  }

  lemma {:induction false} PacedRun(from: nat, to: nat, capacity: nat, inputs: seq<Input>)
    requires Startable(from, to, capacity) && from < to && Progresses(to - from, capacity)
    ensures Paced(Run(Begin(from, to, capacity), inputs))
    decreases |inputs|
  {
    if inputs == [] {
    } else {
      PacedRun(from, to, capacity, inputs[..|inputs| - 1]);
      PacedStep(Run(Begin(from, to, capacity), inputs[..|inputs| - 1]), inputs[|inputs| - 1]);
    }
  }

  /** In every run each refill moves one stride. */
  lemma {:induction false} RefillMovesOneStride(from: nat, to: nat, capacity: nat, inputs: seq<Input>)
    requires Startable(from, to, capacity) && Progresses(to - from, capacity)
    ensures MovesOneStride(Run(Begin(from, to, capacity), inputs))
  {
    if from < to {
      PacedRun(from, to, capacity, inputs);
      PacedRefill(Run(Begin(from, to, capacity), inputs));
    } else {
      NoRefillOfOneBlock(from, capacity, inputs);
    }
  }

  lemma {:induction false} BoundaryClosedForm(start: nat, capacity: nat, j: nat)
    requires capacity >= 1
    ensures Boundary(start, capacity, j + 1) == start + (capacity - 1) + j * Stride(capacity)
  {
    if j == 0 {
    } else {
      BoundaryClosedForm(start, capacity, j - 1);
      assert j * Stride(capacity) == (j - 1) * Stride(capacity) + Stride(capacity);
    }
  }

  lemma MultiplesApart(a: nat, b: nat, y: nat)
    requires a < b
    ensures a * y + y <= b * y
  {
    assert b * y == (a + 1) * y + (b - a - 1) * y;
  }

  lemma DivUnique(x: nat, y: nat, k: nat)
    requires y > 0 && k * y <= x < k * y + y
    ensures x / y == k
  {
    var q := x / y;
    if q < k {
      MultiplesApart(q, k, y);
    } else if k < q {
      MultiplesApart(k, q, y);
    }
  }

  lemma CeilDivBetween(x: nat, y: nat, j: nat)
    requires y > 0 && j * y < x <= j * y + y
    ensures CeilDiv(x, y) == j + 1
  {
    assert (j + 1) * y == j * y + y;
    DivUnique(x + y - 1, y, j + 1);
  }

  lemma {:induction false} BoundariesIncrease(start: nat, capacity: nat, i: nat, j: nat)
    requires capacity >= 3 && i < j
    ensures Boundary(start, capacity, i) < Boundary(start, capacity, j)
    decreases j
  {
    if i == j - 1 {
    } else {
      BoundariesIncrease(start, capacity, i, j - 1);
    }
  }

  /** The refill count is where the boundaries first reach the end of the range. */
  lemma {:induction false} RefillCountIsFirstReach(start: nat, to: nat, capacity: nat, k: nat)
    requires start < to && capacity >= 1 && k >= 1 && Progresses(to - start, capacity)
    requires Boundary(start, capacity, k - 1) < to <= Boundary(start, capacity, k)
    ensures k == RefillCount(to - start, capacity)
  {
    if k > 1 {
      var j := k - 2;
      BoundaryClosedForm(start, capacity, j);
      if to - start >= capacity {
        CeilDivBetween(to - start - (capacity - 1), Stride(capacity), j);
      }
    }
  }

  lemma {:induction false} RefillCountAhead(start: nat, to: nat, capacity: nat, k: nat)
    requires start < to && capacity >= 1 && Progresses(to - start, capacity)
    requires Boundary(start, capacity, k) < to
    ensures k < RefillCount(to - start, capacity)
    decreases (to as int) - Boundary(start, capacity, k)
  {
    if to <= Boundary(start, capacity, k + 1) {
      RefillCountIsFirstReach(start, to, capacity, k + 1);
    } else {
      if k >= 1 {
        BoundaryClosedForm(start, capacity, k - 1);
      }
      BoundariesIncrease(start, capacity, k, k + 1);
      RefillCountAhead(start, to, capacity, k + 1);
    }
  }

  lemma BoundariesInside(start: nat, to: nat, capacity: nat, i: nat, j: nat, k: nat)
    requires start < to && capacity >= 1 && Progresses(to - start, capacity) && i < j < k
    requires Boundary(start, capacity, k - 1) < to
    ensures start <= Boundary(start, capacity, i) < Boundary(start, capacity, j) < to
  {
    if capacity >= 3 {
      BoundariesIncrease(start, capacity, i, j);
      if i > 0 { BoundariesIncrease(start, capacity, 0, i); }
      if j < k - 1 { BoundariesIncrease(start, capacity, j, k - 1); }
    } else {
      BoundaryClosedForm(start, capacity, k - 2);
    }
  }

  lemma LastBoundInside(h: History)
    requires Sound(h.window) && h.window.start < h.window.to && h.window.capacity >= 1 && Paced(h)
    requires Progresses(h.window.to - h.window.start, h.window.capacity) && h.bounds != []
    ensures Boundary(h.window.start, h.window.capacity, |h.bounds| - 1) < h.window.to
  {
    if h.window.capacity >= 3 {
      BoundariesIncrease(h.window.start, h.window.capacity, |h.bounds| - 1, |h.bounds|);
    }
  }

  ghost predicate Ordered(h: History) {
    forall i, j :: 0 <= i < j < |h.bounds| ==>
      h.window.start <= h.bounds[i] < h.bounds[j] < h.window.to
  }

  lemma PacedIsOrdered(h: History)
    requires Sound(h.window) && h.window.start < h.window.to && h.window.capacity >= 1 && Paced(h)
    requires Progresses(h.window.to - h.window.start, h.window.capacity)
    ensures Ordered(h)
  {
    forall i, j | 0 <= i < j < |h.bounds|
      ensures h.window.start <= h.bounds[i] < h.bounds[j] < h.window.to
    {
      LastBoundInside(h);
      BoundariesInside(h.window.start, h.window.to, h.window.capacity, i, j, |h.bounds|);
    }
  }

  /** At most the predicted number of refills, and exactly that many once the range is requested. */
  ghost predicate RefillsAsPredicted(h: History, count: nat) {
    |h.bounds| <= count && (h.window.from == h.window.to ==> |h.bounds| == count)
  }

  lemma PacedCount(h: History)
    requires Sound(h.window) && h.window.start < h.window.to && h.window.capacity >= 1 && Paced(h)
    requires Progresses(h.window.to - h.window.start, h.window.capacity)
    ensures RefillsAsPredicted(h, RefillCount(h.window.to - h.window.start, h.window.capacity))
  {
    var w := h.window;
    if h.bounds != [] && w.from == w.to {
      RefillCountIsFirstReach(w.start, w.to, w.capacity, |h.bounds|);
    } else if h.bounds != [] {
      RefillCountAhead(w.start, w.to, w.capacity, |h.bounds|);
    }
  }

  /** Every schedule that leaves the forward phase did exactly the closed-form number of
      refills, at strictly increasing boundaries; no schedule does more. */
  lemma {:induction false} RefillsDoNotDependOnSchedule(from: nat, to: nat, capacity: nat, inputs: seq<Input>)
    requires Startable(from, to, capacity) && Progresses(to - from, capacity)
    ensures var h := Run(Begin(from, to, capacity), inputs);
            RefillsAsPredicted(h, RefillCount(to - from, capacity)) && Ordered(h)
  {
    var h := Run(Begin(from, to, capacity), inputs);
    if from == to {
      NoRefillOfOneBlock(from, capacity, inputs);
    } else {
      PacedRun(from, to, capacity, inputs);
      assert Ordered(h) by {
        PacedIsOrdered(h);
      }
      assert RefillsAsPredicted(h, RefillCount(to - from, capacity)) by {
        PacedCount(h);
      }
    }
  }

  lemma {:induction false} NoRefillOfOneBlock(from: nat, capacity: nat, inputs: seq<Input>)
    requires Startable(from, from, capacity)
    ensures var h := Run(Begin(from, from, capacity), inputs);
            h.bounds == [] && h.forward == [] && h.window.from == from
    decreases |inputs|
  {
    if inputs == [] {
    } else {
      NoRefillOfOneBlock(from, capacity, inputs[..|inputs| - 1]);
      ForwardMove(Run(Begin(from, from, capacity), inputs[..|inputs| - 1]), inputs[|inputs| - 1]);
    }
  }

  /** The forward phase requests every number so far once and every interior refill
      boundary once more. */
  lemma {:induction false} ForwardRequests(from: nat, to: nat, capacity: nat, inputs: seq<Input>)
    requires Startable(from, to, capacity)
    ensures var h := Run(Begin(from, to, capacity), inputs);
            h.bounds != [] ==>
              && multiset(h.forward) == multiset(Span(from, h.window.from)) + multiset(h.bounds[1..])
              && |h.forward| == (h.window.from - from) + |h.bounds|
  {
    var h := Run(Begin(from, to, capacity), inputs);
    InvRun(from, to, capacity, inputs);
    if h.bounds == [] {
    } else {
      assert |multiset(h.forward)| == |Span(from, h.window.from)| + |h.bounds[1..]|;
    }
  }
}
