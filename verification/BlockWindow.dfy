/**
 The window of in-flight block requests behind a block stream: which blocks the next
 poll requests, which queued request it pops, and how the answer changes the window.
 */
module BlockWindow {
  import opened Prelude
  import opened InFlight

  const U64_MODULUS: nat := 0x1_0000_0000_0000_0000
  const U64_MAX: nat := U64_MODULUS - 1

  type U64 = n: nat | n < U64_MODULUS witness 0

  /** What polling the popped future produces. A block carries its 256-bit number. */
  datatype Answer = Pending | Failed(error: Error) | Null | Block(number: nat)

  /** Everything one poll learns from outside: clock readings for the i-th future it
      queues, the reading its age check makes, and the answer of the popped future. */
  datatype Input = Input(clock: nat -> int, checked: int, answer: Answer)

  datatype Window = Window(
    start: nat, from: nat, to: nat, capacity: nat,
    queue: seq<Request>, completed: set<nat>)

  datatype Phase = Finished | Repairing | Draining | Refilling

  function Opened(from: nat, to: nat, capacity: nat): Window {
    Window(from, from, to, capacity, [], {})
  }

  /** The shape every window keeps. */
  predicate Sound(w: Window) {
    && w.start <= w.from <= w.to <= U64_MAX
    && (w.from < w.to ==> |w.queue| <= w.capacity && 1 <= w.capacity)
  }

  /** The next poll would leave the range of unsigned 64-bit arithmetic: in the capacity
      product, in one of the two subtractions of a refill, or in the `to + 1` that makes a
      range inclusive, of a refill or of the check for missing blocks. */
  predicate Wraps(w: Window) {
    if w.from == w.to then w.queue == [] && w.to == U64_MAX
    else
      || w.capacity > U64_MAX
      || (|w.queue| <= w.capacity / 2
          && (|| w.to < w.from
              || w.capacity < |w.queue| + 1
              || (w.to == U64_MAX && w.to - w.from <= w.capacity - |w.queue| - 1)))
  }

  /** The inclusive range `lo..=hi`, in order. */
  function Span(lo: nat, hi: nat): (s: seq<nat>)
    requires lo <= hi + 1
    ensures |s| == hi + 1 - lo
    decreases hi + 1 - lo
  {
    if lo == hi + 1 then [] else [lo] + Span(lo + 1, hi)
  }

  lemma {:induction false} SpanMembers(lo: nat, hi: nat)
    requires lo <= hi + 1
    ensures forall n :: n in Span(lo, hi) <==> lo <= n <= hi
    decreases hi + 1 - lo
  {
    if lo == hi + 1 {
    } else {
      SpanMembers(lo + 1, hi);
    }
  }

  /** The members of `lo..=hi` outside `completed`, ascending. */
  function Missing(lo: nat, hi: nat, completed: set<nat>): (s: seq<nat>)
    requires lo <= hi + 1
    ensures |s| <= hi + 1 - lo
    decreases hi + 1 - lo
  {
    if lo == hi + 1 then []
    else (if lo in completed then [] else [lo]) + Missing(lo + 1, hi, completed)
  }

  lemma {:induction false} MissingMembers(lo: nat, hi: nat, completed: set<nat>)
    requires lo <= hi + 1
    ensures forall n :: n in Missing(lo, hi, completed) <==> lo <= n <= hi && n !in completed
    decreases hi + 1 - lo
  {
    if lo == hi + 1 {
    } else {
      MissingMembers(lo + 1, hi, completed);
      var first: seq<nat> := if lo in completed then [] else [lo];
      assert Missing(lo, hi, completed) == first + Missing(lo + 1, hi, completed);
    }
  }

  ghost function MissingSet(lo: nat, hi: nat, completed: set<nat>): set<nat> {
    set n | lo <= n <= hi && n !in completed
  }

  lemma {:induction false} MissingCount(lo: nat, hi: nat, completed: set<nat>)
    requires lo <= hi + 1
    ensures |Missing(lo, hi, completed)| == |MissingSet(lo, hi, completed)|
    decreases hi + 1 - lo
  {
    var all := MissingSet(lo, hi, completed);
    if lo == hi + 1 {
      assert all == {};
    } else {
      var others := MissingSet(lo + 1, hi, completed);
      MissingCount(lo + 1, hi, completed);
      if lo in completed {
        assert all == others;
      } else {
        assert all == others + {lo};
      }
    }
  }

  function HalfCapacity(w: Window): nat { w.capacity / 2 }

  function PhaseOf(w: Window): Phase
    requires Sound(w)
  {
    if w.from == w.to && w.queue == [] then
      if Missing(w.start, w.to, w.completed) == [] then Finished else Repairing
    else if w.from == w.to || |w.queue| > HalfCapacity(w) then Draining
    else Refilling
  }

  lemma FinishedMeansCompleted(w: Window)
    requires Sound(w)
    ensures PhaseOf(w) == Finished <==>
            && w.from == w.to && w.queue == []
            && forall n :: w.start <= n <= w.to ==> n in w.completed
  {
    MissingMembers(w.start, w.to, w.completed);
    var missing := Missing(w.start, w.to, w.completed);
    assert missing != [] ==> missing[0] in missing;
  }

  /** How far a refill moves `from`: bounded by the blocks left and by the free space less one. */
  function Advance(w: Window): nat
    requires Sound(w)
  {
    if PhaseOf(w) != Refilling then 0
    else if w.to - w.from <= w.capacity - |w.queue| - 1 then w.to - w.from
    else w.capacity - |w.queue| - 1
  }

  /** The block numbers a poll requests before it pops. */
  function Batch(w: Window): seq<nat>
    requires Sound(w)
  {
    match PhaseOf(w)
    case Repairing => Missing(w.start, w.to, w.completed)
    case Refilling => Span(w.from, w.from + Advance(w))
    case _ => []
  }

  function Loaded(w: Window, clock: nat -> int): Window
    requires Sound(w)
  {
    w.(queue := w.queue + Requests(Batch(w), clock), from := w.from + Advance(w))
  }

  /** The request a poll pops. */
  function Popped(w: Window, clock: nat -> int): Request
    requires Sound(w) && PhaseOf(w) != Finished
  {
    Loaded(w, clock).queue[0]
  }

  predicate Keeps(input: Input, popped: Request) {
    input.answer.Pending? && IsYoung(popped, input.checked)
  }

  /** A popped request that yields no block and is not queued again. */
  predicate Loses(input: Input, popped: Request) {
    !input.answer.Block? && !Keeps(input, popped)
  }

  function Polled(w: Window, input: Input): (r: Window)
    requires Sound(w)
    ensures Sound(r)
    ensures r.start == w.start && r.to == w.to && r.capacity == w.capacity
  {
    if PhaseOf(w) == Finished then w
    else
      var loaded := Loaded(w, input.clock);
      var popped := loaded.queue[0];
      var rest := loaded.(queue := loaded.queue[1..]);
      if input.answer.Block? then
        rest.(completed := rest.completed + {input.answer.number % U64_MODULUS})
      else if Keeps(input, popped) then
        rest.(queue := rest.queue + [popped])
      else rest
  }

  function Outcome(w: Window, input: Input): Result<Async<Option<nat>>>
    requires Sound(w)
  {
    if PhaseOf(w) == Finished then Ok(Ready(None))
    else match input.answer
      case Block(n) => Ok(Ready(Some(n)))
      case Failed(e) => Err(e)
      case _ => Ok(NotReady)
  }
}
