/** When a block stream ends: repairs never outnumber losses, and only a stalled window runs for ever. */
module BlockTermination {
  import opened Prelude
  import opened InFlight
  import opened BlockWindow
  import opened BlockRuns
  import opened BlockTheorems

  // ------------------------------------------------------------ repairs against losses

  /** Numbers the stream has been through that are neither completed nor in `queued`. */
  ghost function Uncovered(w: Window, refilled: bool, queued: seq<nat>): set<nat> {
    set n | w.start <= n <= w.from && (refilled || w.start == w.to)
            && n !in w.completed && n !in queued
  }

  ghost function Debt(h: History): set<nat> {
    Uncovered(h.window, h.bounds != [], Keys(h.window.queue))
  }

  ghost predicate RepairsBounded(h: History) {
    h.honest ==> |h.repairs| + |Debt(h)| <= |h.lost| + (if h.window.start == h.window.to then 1 else 0)
  }

  lemma SubsetSize<T>(a: set<T>, b: set<T>)
    requires a <= b
    ensures |a| <= |b|
  {
    assert b == a + (b - a);
  }

  /** A repair round asks for the whole debt. */
  lemma RepairingSettles(h: History, clock: nat -> int)
    requires Sound(h.window) && ForwardLedger(h) && PhaseOf(h.window) == Repairing
    ensures var w, loaded := h.window, Loaded(h.window, clock);
            Uncovered(loaded, h.bounds != [], Keys(loaded.queue)) == {} && |Debt(h)| == |Batch(w)|
  {
    var w := h.window;
    KeysOfQueued(w.queue, Batch(w), clock);
    MissingMembers(w.start, w.to, w.completed);
    MissingCount(w.start, w.to, w.completed);
    assert Debt(h) == MissingSet(w.start, w.to, w.completed);
  }

  /** Loading pays off the whole debt in a repair round and never adds to it otherwise. */
  lemma LoadingSettles(h: History, clock: nat -> int)
    requires Sound(h.window) && ForwardLedger(h) && PhaseOf(h.window) != Finished
    ensures var w, loaded := h.window, Loaded(h.window, clock);
            var owed := Uncovered(loaded, h.bounds != [] || PhaseOf(w) == Refilling, Keys(loaded.queue));
            if PhaseOf(w) == Repairing then owed == {} && |Debt(h)| == |Batch(w)| else owed <= Debt(h)
  {
    var w := h.window;
    if PhaseOf(w) == Repairing {
      RepairingSettles(h, clock);
    } else {
      KeysOfQueued(w.queue, Batch(w), clock);
      SpanMembers(w.from, w.from + Advance(w));
    }
  }

  /** Popping adds at most the popped number to the debt, and only when it is lost. */
  lemma PoppingOwesAtMostOne(h: History, input: Input)
    requires Sound(h.window) && PhaseOf(h.window) != Finished && Observe(h, input).honest
    ensures var w, loaded, r := h.window, Loaded(h.window, input.clock), Observe(h, input);
            var popped := Popped(w, input.clock);
            Debt(r) <= Uncovered(loaded, r.bounds != [], Keys(loaded.queue))
                       + if Loses(input, popped) then {popped.key} else {}
  {
    var w, loaded, r := h.window, Loaded(h.window, input.clock), Observe(h, input);
    var popped := loaded.queue[0];
    forall i | 0 <= i < |loaded.queue| && (i > 0 || Keeps(input, popped))
      ensures loaded.queue[i].key in Keys(r.window.queue)
    {
      var j := if i > 0 then i - 1 else |r.window.queue| - 1;
      assert Keys(r.window.queue)[j] == loaded.queue[i].key;
    }
  }

  lemma RepairsStep(h: History, input: Input)
    requires Sound(h.window) && ForwardLedger(h) && RepairsBounded(h)
    ensures RepairsBounded(Observe(h, input))
  {
    var r := Observe(h, input);
    if PhaseOf(h.window) != Finished && r.honest {
      var popped := Popped(h.window, input.clock);
      LoadingSettles(h, input.clock);
      PoppingOwesAtMostOne(h, input);
      ForwardMove(h, input);
      var base := if PhaseOf(h.window) == Repairing then {} else Debt(h);
      var extra := if Loses(input, popped) then {popped.key} else {};
      assert Debt(r) <= base + extra;
      SubsetSize(Debt(r), base + extra);
      assert |base + extra| <= |base| + |extra|;
    }
  }

  /** With an honest server, repair requests never outnumber losses; a one-block range,
      whose only request is a repair, is allowed one more. */
  lemma {:induction false} RepairsNeverOutnumberLosses(from: nat, to: nat, capacity: nat, inputs: seq<Input>)
    requires Startable(from, to, capacity)
    ensures var h := Run(Begin(from, to, capacity), inputs);
            && RepairsBounded(h)
            && (h.honest ==> |h.repairs| <= |h.lost| + if from == to then 1 else 0)
    decreases |inputs|
  {
    if inputs == [] {
      assert Debt(Begin(from, to, capacity)) == if from == to then {from} else {};
    } else {
      var earlier := inputs[..|inputs| - 1];
      RepairsNeverOutnumberLosses(from, to, capacity, earlier);
      InvRun(from, to, capacity, earlier);
      RepairsStep(Run(Begin(from, to, capacity), earlier), inputs[|inputs| - 1]);
    }
  }

  // ------------------------------------------------------------ termination

  lemma {:induction false} PollsAreAccountedFor(from: nat, to: nat, capacity: nat, inputs: seq<Input>)
    requires Startable(from, to, capacity)
    ensures var h := Run(Begin(from, to, capacity), inputs);
            |inputs| == |h.served| + |h.lost| + h.waits + h.ends
    decreases |inputs|
  {
    if inputs == [] {
    } else {
      PollsAreAccountedFor(from, to, capacity, inputs[..|inputs| - 1]);
    }
  }

  /** How many polls a run can make before it must have ended. */
  function PollBound(distance: nat, capacity: nat, losses: nat, waits: nat): nat
    requires Progresses(distance, capacity)
  {
    distance + RefillCount(distance, capacity) + (if distance == 0 then 1 else 0) + losses + waits
  }

  lemma {:induction false} RequestsAreBounded(from: nat, to: nat, capacity: nat, inputs: seq<Input>)
    requires Startable(from, to, capacity) && Progresses(to - from, capacity)
    ensures var h := Run(Begin(from, to, capacity), inputs);
            && |h.served| + |h.lost| <= |h.forward| + |h.repairs|
            && |h.forward| <= (to - from) + RefillCount(to - from, capacity)
  {
    var h := Run(Begin(from, to, capacity), inputs);
    InvRun(from, to, capacity, inputs);
    ForwardRequests(from, to, capacity, inputs);
    RefillsDoNotDependOnSchedule(from, to, capacity, inputs);
    assert |multiset(h.forward) + multiset(h.repairs)|
        == |Keys(h.window.queue)| + |h.served| + |h.lost|;
  }

  /** Long runs have ended, unless the window stalls; this takes no notice of polls that
      leave 64-bit arithmetic. */
  lemma {:induction false} LongRunsEnd(from: nat, to: nat, capacity: nat, inputs: seq<Input>)
    requires Startable(from, to, capacity)
    ensures var h := Run(Begin(from, to, capacity), inputs);
            && (Progresses(to - from, capacity) && h.honest ==>
                  |inputs| > PollBound(to - from, capacity, |h.lost|, h.waits) ==> h.ends > 0)
            && (!Progresses(to - from, capacity) ==> h.ends == 0 && h.window.from < to)
  {
    if Progresses(to - from, capacity) {
      PollsAreAccountedFor(from, to, capacity, inputs);
      RequestsAreBounded(from, to, capacity, inputs);
      RepairsNeverOutnumberLosses(from, to, capacity, inputs);
    } else {
      StallsForEver(from, to, capacity, inputs);
    }
  }

  /** The polls of a run stay in range. With an honest server it ends within the bound its
      own losses and waits give, if the window progresses and the range stops short of the
      largest number. Otherwise it never ends, under any schedule. */
  lemma {:induction false} EndsExactlyWhenItProgresses(from: nat, to: nat, capacity: nat, inputs: seq<Input>)
    requires Startable(from, to, capacity) && InRange(Begin(from, to, capacity), inputs)
    ensures var h := Run(Begin(from, to, capacity), inputs);
            if to < U64_MAX && Progresses(to - from, capacity) then
              h.honest && |inputs| > PollBound(to - from, capacity, |h.lost|, h.waits) ==> h.ends > 0
            else h.ends == 0
  {
    LongRunsEnd(from, to, capacity, inputs);
    if to == U64_MAX && from < to {
      MaximumIsNeverReached(from, capacity, inputs);
    } else if to == U64_MAX && inputs != [] {
      StartsInRange(Begin(from, to, capacity), inputs);
    }
  }

  /** The first polls of an unending schedule. */
  function Prefix(schedule: nat -> Input, n: nat): (s: seq<Input>)
    ensures |s| == n
  {
    seq(n, i requires 0 <= i => schedule(i))
  }

  ghost predicate FewFaults(h: History, losses: nat, waits: nat) {
    h.honest && |h.lost| <= losses && h.waits <= waits
  }

  lemma {:induction false} EndedHasYieldedAll(from: nat, to: nat, capacity: nat, inputs: seq<Input>)
    requires Startable(from, to, capacity)
    ensures var h := Run(Begin(from, to, capacity), inputs);
            h.ends > 0 ==> PhaseOf(h.window) == Finished && YieldedAll(h)
  {
    EndedMeansFinished(from, to, capacity, inputs);
    InvRun(from, to, capacity, inputs);
    FinishedMeansCompleted(Run(Begin(from, to, capacity), inputs).window);
  }

  lemma PollBoundGrows(distance: nat, capacity: nat, losses: nat, waits: nat, losses': nat, waits': nat)
    requires Progresses(distance, capacity) && losses <= losses' && waits <= waits'
    ensures PollBound(distance, capacity, losses, waits) <= PollBound(distance, capacity, losses', waits')
  {
  }

  lemma FewFaultsEnd(from: nat, to: nat, capacity: nat, inputs: seq<Input>, losses: nat, waits: nat)
    requires Startable(from, to, capacity) && Progresses(to - from, capacity)
    requires FewFaults(Run(Begin(from, to, capacity), inputs), losses, waits)
    requires |inputs| > PollBound(to - from, capacity, losses, waits)
    ensures Run(Begin(from, to, capacity), inputs).ends > 0
  {
    var h := Run(Begin(from, to, capacity), inputs);
    PollBoundGrows(to - from, capacity, |h.lost|, h.waits, losses, waits);
    LongRunsEnd(from, to, capacity, inputs);
  }

  /** An unending schedule with an honest server and finitely many losses and waits
      reaches end-of-stream, in range, and the number of polls that takes is known beforehand. */
  lemma {:induction false} FiniteFaultsReachTheEnd(
    from: nat, to: nat, capacity: nat, schedule: nat -> Input, losses: nat, waits: nat)
    requires NeverWraps(from, to, capacity) && Progresses(to - from, capacity)
    requires forall n: nat :: FewFaults(Run(Begin(from, to, capacity), Prefix(schedule, n)), losses, waits)
    ensures var n := PollBound(to - from, capacity, losses, waits) + 1;
            var h := Run(Begin(from, to, capacity), Prefix(schedule, n));
            && h.ends > 0 && PhaseOf(h.window) == Finished && YieldedAll(h)
            && InRange(Begin(from, to, capacity), Prefix(schedule, n))
  {
    var n := PollBound(to - from, capacity, losses, waits) + 1;
    var inputs := Prefix(schedule, n);
    assert FewFaults(Run(Begin(from, to, capacity), inputs), losses, waits);
    FewFaultsEnd(from, to, capacity, inputs, losses, waits);
    EndedHasYieldedAll(from, to, capacity, inputs);
    SafeRunsStayInRange(from, to, capacity, inputs);
  }

  // ------------------------------------------------------------ the ideal server

  /** Answers the request the next poll pops with the block it asks for, at once. */
  function IdealInput(w: Window): Input
    requires Sound(w)
  {
    var clock := (i: nat) => 0;
    Input(clock, 0, if PhaseOf(w) == Finished then Null else Block(Popped(w, clock).key))
  }

  /** The history after n polls against the ideal server. */
  function IdealRun(h: History, n: nat): (r: History)
    requires Sound(h.window)
    ensures Sound(r.window)
  {
    if n == 0 then h
    else var before := IdealRun(h, n - 1);
         Observe(before, IdealInput(before.window))
  }

  function IdealSchedule(from: nat, to: nat, capacity: nat): nat -> Input
    requires Startable(from, to, capacity)
  {
    (n: nat) => IdealInput(IdealRun(Begin(from, to, capacity), n).window)
  }

  lemma {:induction false} IdealRunIsRun(from: nat, to: nat, capacity: nat, n: nat)
    requires Startable(from, to, capacity)
    ensures var schedule := IdealSchedule(from, to, capacity);
            Run(Begin(from, to, capacity), Prefix(schedule, n)) == IdealRun(Begin(from, to, capacity), n)
  {
    if n == 0 {
    } else {
      var schedule := IdealSchedule(from, to, capacity);
      assert Prefix(schedule, n)[..n - 1] == Prefix(schedule, n - 1);
      IdealRunIsRun(from, to, capacity, n - 1);
    }
  }

  ghost predicate KeysInRange(w: Window) {
    forall i :: 0 <= i < |w.queue| ==> w.queue[i].key <= w.to
  }

  lemma LoadingKeepsKeys(w: Window, clock: nat -> int)
    requires Sound(w) && KeysInRange(w)
    ensures KeysInRange(Loaded(w, clock))
  {
    if PhaseOf(w) == Repairing {
      MissingMembers(w.start, w.to, w.completed);
    } else if PhaseOf(w) == Refilling {
      SpanMembers(w.from, w.from + Advance(w));
    }
    forall i | 0 <= i < |Batch(w)| ensures Batch(w)[i] <= w.to {
      assert Batch(w)[i] in Batch(w);
    }
  }

  lemma IdealStep(h: History)
    requires Sound(h.window) && KeysInRange(h.window) && FewFaults(h, 0, 0)
    ensures var r := Observe(h, IdealInput(h.window));
            KeysInRange(r.window) && FewFaults(r, 0, 0)
  {
    var input := IdealInput(h.window);
    if PhaseOf(h.window) != Finished {
      LoadingKeepsKeys(h.window, input.clock);
      assert Popped(h.window, input.clock).key <= h.window.to;
    }
  }

  /** There is a schedule without any fault at all: the one of the ideal server. */
  lemma {:induction false} IdealServerIsFaultless(from: nat, to: nat, capacity: nat, n: nat)
    requires Startable(from, to, capacity)
    ensures var h := Run(Begin(from, to, capacity), Prefix(IdealSchedule(from, to, capacity), n));
            FewFaults(h, 0, 0) && KeysInRange(h.window)
  {
    IdealRunIsRun(from, to, capacity, n);
    if n == 0 {
    } else {
      IdealServerIsFaultless(from, to, capacity, n - 1);
      IdealRunIsRun(from, to, capacity, n - 1);
      IdealStep(IdealRun(Begin(from, to, capacity), n - 1));
    }
  }

  ghost predicate EndsInRange(from: nat, to: nat, capacity: nat, inputs: seq<Input>)
    requires Startable(from, to, capacity)
  {
    InRange(Begin(from, to, capacity), inputs) && Run(Begin(from, to, capacity), inputs).ends > 0
  }

  lemma IdealServerEnds(from: nat, to: nat, capacity: nat) returns (inputs: seq<Input>)
    requires NeverWraps(from, to, capacity) && Progresses(to - from, capacity)
    ensures EndsInRange(from, to, capacity, inputs)
  {
    var n := PollBound(to - from, capacity, 0, 0) + 1;
    inputs := Prefix(IdealSchedule(from, to, capacity), n);
    IdealServerIsFaultless(from, to, capacity, n);
    FewFaultsEnd(from, to, capacity, inputs, 0, 0);
    SafeRunsStayInRange(from, to, capacity, inputs);
  }

  lemma EndNeedsRoom(from: nat, to: nat, capacity: nat, inputs: seq<Input>)
    requires Startable(from, to, capacity) && EndsInRange(from, to, capacity, inputs)
    ensures NeverWraps(from, to, capacity) && Progresses(to - from, capacity)
  {
    EndsExactlyWhenItProgresses(from, to, capacity, inputs);
    StartsInRange(Begin(from, to, capacity), inputs);
  }

  /** Some schedule ends the stream, with all its polls in range, exactly for the openings
      that never wrap and whose window progresses. */
  lemma {:induction false} EndIsReachableExactly(from: nat, to: nat, capacity: nat)
    requires Startable(from, to, capacity)
    ensures (exists inputs :: EndsInRange(from, to, capacity, inputs))
            <==> NeverWraps(from, to, capacity) && Progresses(to - from, capacity)
  {
    if NeverWraps(from, to, capacity) && Progresses(to - from, capacity) {
      var inputs := IdealServerEnds(from, to, capacity);
    }
    if inputs :| EndsInRange(from, to, capacity, inputs) {
      EndNeedsRoom(from, to, capacity, inputs);
    }
  }

  /** With a capacity of one every refill re-requests the first block; with two, the second. */
  lemma {:induction false} StallsForEver(from: nat, to: nat, capacity: nat, inputs: seq<Input>)
    requires Startable(from, to, capacity) && !Progresses(to - from, capacity)
    ensures var h := Run(Begin(from, to, capacity), inputs);
            && h.ends == 0 && h.window.from < to
            && h.window.from <= from + capacity - 1
            && (capacity == 2 && h.window.from == from ==> h.window.queue == [])
            && (capacity == 2 && h.window.from > from ==> h.window.queue != [])
    decreases |inputs|
  {
    if inputs == [] {
    } else {
      StallsForEver(from, to, capacity, inputs[..|inputs| - 1]);
      ForwardMove(Run(Begin(from, to, capacity), inputs[..|inputs| - 1]), inputs[|inputs| - 1]);
    }
  }

  // ------------------------------------------------------------ arithmetic range

  /** The openings no run of which ever leaves the range of 64-bit arithmetic. */
  predicate NeverWraps(from: nat, to: nat, capacity: nat) {
    && Startable(from, to, capacity)
    && (from < to ==> capacity <= U64_MAX)
    && (to == U64_MAX ==> !Progresses(to - from, capacity))
  }

  /** No poll of the run so far wrapped. */
  ghost predicate InRange(h: History, inputs: seq<Input>)
    requires Sound(h.window)
  {
    inputs == [] || (InRange(h, inputs[..|inputs| - 1]) && !Wraps(Run(h, inputs[..|inputs| - 1]).window))
  }

  lemma {:induction false} StartsInRange(h: History, inputs: seq<Input>)
    requires Sound(h.window) && InRange(h, inputs) && inputs != []
    ensures !Wraps(h.window)
    decreases |inputs|
  {
    if |inputs| == 1 {
    } else {
      StartsInRange(h, inputs[..|inputs| - 1]);
    }
  }

  /** On a range that ends at the largest number, an in-range poll never gets there. */
  lemma {:induction false} MaximumIsNeverReached(from: nat, capacity: nat, inputs: seq<Input>)
    requires Startable(from, U64_MAX, capacity) && from < U64_MAX
    requires InRange(Begin(from, U64_MAX, capacity), inputs)
    ensures var h := Run(Begin(from, U64_MAX, capacity), inputs);
            h.window.from < U64_MAX && h.ends == 0
    decreases |inputs|
  {
    if inputs == [] {
    } else {
      var init := inputs[..|inputs| - 1];
      MaximumIsNeverReached(from, capacity, init);
      ForwardMove(Run(Begin(from, U64_MAX, capacity), init), inputs[|inputs| - 1]);
    }
  }

  /** Exactly the openings above never wrap. Of the others, a crossed range, a missing
      capacity and an overflowing one wrap at the very first poll; a range that ends at the
      largest number wraps at the poll that would request that number or look for missing
      blocks, and every run of it that is longer than the usual bound has wrapped. */
  lemma {:induction false} WrapsExactly(from: U64, to: U64, capacity: nat, inputs: seq<Input>)
    ensures NeverWraps(from, to, capacity) ==> !Wraps(Run(Begin(from, to, capacity), inputs).window)
    ensures !Startable(from, to, capacity) || (from < to && capacity > U64_MAX) ==>
              Wraps(Opened(from, to, capacity))
    ensures !NeverWraps(from, to, capacity) && !Wraps(Opened(from, to, capacity)) ==>
              && Startable(from, to, capacity) && Progresses(to - from, capacity) && to == U64_MAX
              && var h := Run(Begin(from, to, capacity), inputs);
                 h.honest && |inputs| > PollBound(to - from, capacity, |h.lost|, h.waits) ==>
                   !InRange(Begin(from, to, capacity), inputs)
  {
    if NeverWraps(from, to, capacity) {
      SafeStaysInRange(from, to, capacity, inputs);
    } else if !Wraps(Opened(from, to, capacity)) {
      if InRange(Begin(from, to, capacity), inputs) {
        MaximumIsNeverReached(from, capacity, inputs);
      }
      LongRunsEnd(from, to, capacity, inputs);
    }
  }

  lemma {:induction false} SafeStaysInRange(from: nat, to: nat, capacity: nat, inputs: seq<Input>)
    requires NeverWraps(from, to, capacity)
    ensures !Wraps(Run(Begin(from, to, capacity), inputs).window)
  {
    var h := Run(Begin(from, to, capacity), inputs);
    InvRun(from, to, capacity, inputs);
    if !Progresses(to - from, capacity) {
      var idle := Input(_ => 0, 0, Null);
      StallsForEver(from, to, capacity, inputs);
      assert (inputs + [idle])[..|inputs|] == inputs;
      StallsForEver(from, to, capacity, inputs + [idle]);
      ForwardMove(h, idle);
    }
  }

  lemma {:induction false} SafeRunsStayInRange(from: nat, to: nat, capacity: nat, inputs: seq<Input>)
    requires NeverWraps(from, to, capacity)
    ensures InRange(Begin(from, to, capacity), inputs)
    decreases |inputs|
  {
    if inputs == [] {
    } else {
      SafeRunsStayInRange(from, to, capacity, inputs[..|inputs| - 1]);
      SafeStaysInRange(from, to, capacity, inputs[..|inputs| - 1]);
    }
  }

  // ------------------------------------------------------------ loss-free runs

  /** A loss-free run of a range of two blocks or more issues no repair, and when it ends
      it has yielded every block once and every interior refill boundary once more. */
  lemma {:induction false} LossFreeRun(from: nat, to: nat, capacity: nat, inputs: seq<Input>)
    requires Startable(from, to, capacity) && from < to
    ensures var h := Run(Begin(from, to, capacity), inputs);
            h.honest && h.lost == [] ==>
              && h.repairs == []
              && (h.ends > 0 ==>
                    && h.bounds != []
                    && multiset(LowBits(h.yielded)) == multiset(Span(from, to)) + multiset(h.bounds[1..]))
  {
    var h := Run(Begin(from, to, capacity), inputs);
    RepairsNeverOutnumberLosses(from, to, capacity, inputs);
    InvRun(from, to, capacity, inputs);
    EndedMeansFinished(from, to, capacity, inputs);
    if h.honest && h.lost == [] && h.ends > 0 {
      assert Keys(h.window.queue) == [];
      assert multiset(h.forward) + multiset(h.repairs) == multiset(h.served);
    }
  }

  // ------------------------------------------------------------ fairness

  lemma PollShiftsQueue(w: Window, input: Input)
    requires Sound(w) && w.queue != []
    ensures PhaseOf(w) != Finished && Popped(w, input.clock) == w.queue[0]
    ensures w.queue[1..] <= Polled(w, input).queue
  {
  }

  lemma {:induction false} QueueShifts(h: History, inputs: seq<Input>)
    requires Sound(h.window) && |inputs| < |h.window.queue|
    ensures h.window.queue[|inputs|..] <= Run(h, inputs).window.queue
    decreases |inputs|
  {
    if inputs == [] {
    } else {
      var n := |inputs| - 1;
      QueueShifts(h, inputs[..n]);
      var w := Run(h, inputs[..n]).window;
      PollShiftsQueue(w, inputs[n]);
      PrefixTails(h.window.queue, n, w.queue, Polled(w, inputs[n]).queue);
    }
  }

  lemma PrefixTails<T>(s: seq<T>, n: nat, t: seq<T>, u: seq<T>)
    requires n + 1 <= |s| && s[n..] <= t && t[1..] <= u
    ensures s[n + 1..] <= u
  {
    forall i | 0 <= i < |s| - n - 1 ensures s[n + 1..][i] == u[i] {
      assert s[n + 1..][i] == s[n..][i + 1] == t[i + 1] == t[1..][i];
    }
  }

  /** The request at position i is the one popped by the (i+1)-th later poll, whatever
      happens in between; that poll queues it again exactly when it is not ready and
      under five seconds old. */
  lemma {:induction false} RotationIsFair(h: History, inputs: seq<Input>, next: Input)
    requires Sound(h.window) && |inputs| < |h.window.queue|
    ensures var w := Run(h, inputs).window;
            var request := h.window.queue[|inputs|];
            && PhaseOf(w) != Finished && Popped(w, next.clock) == request
            && Polled(w, next).queue == Loaded(w, next.clock).queue[1..]
               + if next.answer.Pending? && next.checked < request.born + 5_000_000_000 then [request] else []
  {
    QueueShifts(h, inputs);
    PollShiftsQueue(Run(h, inputs).window, next);
  }
}
