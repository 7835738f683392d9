/** The futures a caller polls: one request, a batch of requests, a mapped batch. */
module Futures {
  import opened Prelude
  import opened Responses

  /** What a receiver sees when it polls its oneshot. */
  datatype Cell = Empty | Filled(result: Result<Json>) | Dropped

  datatype FutureState<T> =
    | Waiting(id: Id, decode: Json -> Result<T>)
    | Now(value: T)
    | Complete
    | Failed(error: Error)

  function AndThen<T>(r: Result<Json>, decode: Json -> Result<T>): Result<T> {
    match r
    case Ok(v) => decode(v)
    case Err(e) => Err(e)
  }

  function AsPoll<T>(r: Result<T>): Result<Async<T>> {
    match r
    case Ok(v) => Ok(Ready(v))
    case Err(e) => Err(e)
  }

  function PollFuture<T>(f: FutureState<T>, cell: Cell): (FutureState<T>, Result<Async<T>>) {
    match f
    case Waiting(_, decode) =>
      (match cell
       case Empty => (f, Ok(NotReady))
       case Filled(r) => (Complete, AsPoll(AndThen(r, decode)))
       case Dropped => (Complete, Err(Canceled)))
    case Now(v) => (Complete, Ok(Ready(v)))
    case Complete => (Complete, Ok(NotReady))
    case Failed(e) => (Complete, Err(e))
  }

  /** What a poll of `f` that reads `cell` must report, if it has to report anything: the
      decoded value, the decoder's error, the delivered error, a cancellation, or what the
      future was created with. */
  ghost predicate Reports<T>(f: FutureState<T>, cell: Cell, output: Result<Async<T>>) {
    match f
    case Waiting(_, decode) =>
      (match cell
       case Empty => output == Ok(NotReady)
       case Dropped => output == Err(Canceled)
       case Filled(Err(e)) => output == Err(e)
       case Filled(Ok(v)) =>
         (match decode(v)
          case Ok(t) => output == Ok(Ready(t))
          case Err(e) => output == Err(e)))
    case Now(v) => output == Ok(Ready(v))
    case Failed(e) => output == Err(e)
    case Complete => output == Ok(NotReady)
  }

  class YumFuture<T> {
    var state: FutureState<T>

    constructor (state: FutureState<T>)
      ensures this.state == state
    {
      this.state := state;
    }

    /** Takes the state out, leaving `Complete`, and puts it back only while still waiting. */
    method Poll(cell: Cell) returns (result: Result<Async<T>>)
      modifies this
      ensures (state, result) == PollFuture(old(state), cell)
      ensures Reports(old(state), cell, result)
      ensures state == if old(state).Waiting? && cell.Empty? then old(state) else Complete
    {
      var taken := state;
      state := Complete;
      match taken
      case Waiting(id, decode) =>
        match cell {
          case Empty =>
            state := taken;
            result := Ok(NotReady);
          case Dropped =>
            result := Err(Canceled);
          case Filled(r) =>
            result := AsPoll(AndThen(r, decode));
        }
      case Now(value) => result := Ok(Ready(value));
      case Complete => result := Ok(NotReady);
      case Failed(error) => result := Err(error);
    }
  }

  /** The state before the n-th poll of an infinite sequence of polls. */
  function StateAt<T>(f: FutureState<T>, cells: nat -> Cell, n: nat): FutureState<T> {
    if n == 0 then f else PollFuture(StateAt(f, cells, n - 1), cells(n - 1)).0
  }

  function OutputAt<T>(f: FutureState<T>, cells: nat -> Cell, n: nat): Result<Async<T>> {
    PollFuture(StateAt(f, cells, n), cells(n)).1
  }

  lemma {:induction false} StateOnlyCompletes<T>(f: FutureState<T>, cells: nat -> Cell, m: nat, n: nat)
    requires m <= n
    ensures StateAt(f, cells, n) == StateAt(f, cells, m) || StateAt(f, cells, n) == Complete
    ensures StateAt(f, cells, m) == Complete ==> StateAt(f, cells, n) == Complete
    decreases n
  {
    if m == n {
    } else {
      StateOnlyCompletes(f, cells, m, n - 1);
    }
  }

  /** A future resolves at most once over any infinite sequence of polls, and the poll that
      resolves it reports what its own reading calls for. */
  lemma {:induction false} ResolvesAtMostOnce<T>(f: FutureState<T>, cells: nat -> Cell, m: nat, n: nat)
    requires m < n && OutputAt(f, cells, m) != Ok(NotReady)
    ensures OutputAt(f, cells, n) == Ok(NotReady)
    ensures Reports(f, cells(m), OutputAt(f, cells, m))
    ensures f.Now? || f.Failed? ==> m == 0
  {
    StateOnlyCompletes(f, cells, 0, m);
    StateOnlyCompletes(f, cells, m + 1, n);
    if m > 0 {
      StateOnlyCompletes(f, cells, 1, m);
    }
  }

  /** It is the first poll with anything to report that resolves the future. */
  lemma {:induction false} ResolvesAtTheFirstReading<T>(f: FutureState<T>, cells: nat -> Cell, m: nat)
    requires forall i: nat :: i < m ==> Reports(f, cells(i), Ok(NotReady))
    ensures StateAt(f, cells, m) == f && Reports(f, cells(m), OutputAt(f, cells, m))
  {
    if m == 0 {
    } else {
      ResolvesAtTheFirstReading(f, cells, m - 1);
      assert Reports(f, cells(m - 1), Ok(NotReady));
    }
  }

  // ------------------------------------------------------------ batches

  datatype Elem<T> = Running(future: FutureState<T>) | Done(value: T)

  datatype BatchState<T> =
    | Unpolled(futures: seq<FutureState<T>>)
    | Polling(elems: seq<Elem<T>>)
    | Finished

  function PollElem<T>(e: Elem<T>, cell: Cell): Result<Elem<T>> {
    match e
    case Done(_) => Ok(e)
    case Running(f) =>
      match PollFuture(f, cell)
      case (_, Ok(Ready(v))) => Ok(Done(v))
      case (f', Ok(NotReady)) => Ok(Running(f'))
      case (_, Err(error)) => Err(error)
  }

  /** One pass over the elements, in order, stopping at the first error. */
  function PollElems<T>(elems: seq<Elem<T>>, cells: nat -> Cell): Result<seq<Elem<T>>> {
    if elems == [] then Ok([])
    else
      var n := |elems| - 1;
      match PollElems(elems[..n], cells)
      case Err(error) => Err(error)
      case Ok(polled) =>
        match PollElem(elems[n], cells(n))
        case Err(error) => Err(error)
        case Ok(e) => Ok(polled + [e])
  }

  predicate AllDone<T>(elems: seq<Elem<T>>) {
    forall i :: 0 <= i < |elems| ==> elems[i].Done?
  }

  lemma AllDoneSnoc<T>(elems: seq<Elem<T>>, e: Elem<T>)
    ensures AllDone(elems + [e]) <==> AllDone(elems) && e.Done?
  {
    if AllDone(elems + [e]) {
      assert (elems + [e])[|elems|].Done?;
      assert forall i :: 0 <= i < |elems| ==> elems[i] == (elems + [e])[i];
    }
  }

  function Values<T>(elems: seq<Elem<T>>): (vs: seq<T>)
    requires AllDone(elems)
    ensures |vs| == |elems|
    ensures forall i :: 0 <= i < |vs| ==> vs[i] == elems[i].value
  {
    seq(|elems|, i requires 0 <= i < |elems| => elems[i].value)
  }

  function Joined<T>(futures: seq<FutureState<T>>): (elems: seq<Elem<T>>)
    ensures |elems| == |futures|
    ensures forall i :: 0 <= i < |elems| ==> elems[i] == Running(futures[i])
  {
    seq(|futures|, i requires 0 <= i < |futures| => Running(futures[i]))
  }

  function PollBatch<T>(b: BatchState<T>, cells: nat -> Cell): (BatchState<T>, Result<Async<seq<T>>>)
    requires !b.Finished?
  {
    var elems := if b.Unpolled? then Joined(b.futures) else b.elems;
    match PollElems(elems, cells)
    case Err(error) => (Finished, Err(error))
    case Ok(polled) =>
      if AllDone(polled) then (Finished, Ok(Ready(Values(polled))))
      else (Polling(polled), Ok(NotReady))
  }

  class YumBatchFuture<T(0)> {
    var state: BatchState<T>

    constructor (futures: seq<FutureState<T>>)
      ensures state == Unpolled(futures)
    {
      state := Unpolled(futures);
    }

    /** Polling a batch that already resolved is a panic in the original. */
    method Poll(cells: nat -> Cell) returns (result: Result<Async<seq<T>>>)
      requires !state.Finished?
      modifies this
      ensures (state, result) == PollBatch(old(state), cells)
    {
      var elems := if state.Unpolled? then Joined(state.futures) else state.elems;
      state := Finished;
      ghost var initial := elems;
      var allDone, i := true, 0;
      while i < |elems|
        invariant 0 <= i <= |elems| == |initial|
        invariant PollElems(initial[..i], cells) == Ok(elems[..i]) && elems[i..] == initial[i..]
        invariant allDone == AllDone(elems[..i])
        invariant state == Finished
      {
        assert initial[..i + 1][..i] == initial[..i];
        match PollElem(elems[i], cells(i)) {
          case Err(error) =>
            PollStopsAtError(initial, cells, i);
            return Err(error);
          case Ok(e) =>
            ghost var before := elems;
            elems := elems[i := e];
            allDone := allDone && e.Done?;
            assert elems[..i + 1] == before[..i] + [e];
            assert elems[i + 1..] == before[i..][1..];
            assert initial[i..][1..] == initial[i + 1..];
            AllDoneSnoc(before[..i], e);
        }
        i := i + 1;
      }
      assert elems[..i] == elems && initial[..i] == initial;
      if allDone {
        result := Ok(Ready(Values(elems)));
      } else {
        state := Polling(elems);
        result := Ok(NotReady);
      }
    }
  }

  lemma {:induction false} PollStopsAtError<T>(elems: seq<Elem<T>>, cells: nat -> Cell, i: nat)
    requires i < |elems| && PollElems(elems[..i + 1], cells).Err?
    ensures PollElems(elems, cells) == PollElems(elems[..i + 1], cells)
    decreases |elems|
  {
    if i + 1 == |elems| {
      assert elems[..i + 1] == elems;
    } else {
      var init := elems[..|elems| - 1];
      assert init[..i + 1] == elems[..i + 1];
      PollStopsAtError(init, cells, i);
    }
  }

  /** One element before and after a pass that did not fail on it. */
  ghost predicate Advances<T>(e: Elem<T>, cell: Cell, e': Elem<T>) {
    match e
    case Done(_) => e' == e
    case Running(f) =>
      match e'
      case Done(v) => Reports(f, cell, Ok(Ready(v)))
      case Running(_) => Reports(f, cell, Ok(NotReady))
  }

  ghost predicate FailsFirst<T>(elems: seq<Elem<T>>, cells: nat -> Cell, k: nat, error: Error) {
    && k < |elems| && elems[k].Running? && Reports(elems[k].future, cells(k), Err(error))
    && forall i :: 0 <= i < k && elems[i].Running? ==> !exists e :: Reports(elems[i].future, cells(i), Err(e))
  }

  /** A pass advances every element, or reports the error of the first one that fails. */
  lemma {:induction false} PassInOrder<T>(elems: seq<Elem<T>>, cells: nat -> Cell)
    ensures var r := PollElems(elems, cells);
            && (r.Ok? ==> |r.value| == |elems|
                          && forall i :: 0 <= i < |elems| ==> Advances(elems[i], cells(i), r.value[i]))
            && (r.Err? ==> exists k: nat :: FailsFirst(elems, cells, k, r.error))
  {
    if elems == [] {
    } else {
      var n := |elems| - 1;
      PassInOrder(elems[..n], cells);
      match PollElems(elems[..n], cells)
      case Err(error) =>
        var k: nat :| FailsFirst(elems[..n], cells, k, error);
        assert FailsFirst(elems, cells, k, error);
      case Ok(polled) =>
        if PollElem(elems[n], cells(n)).Err? {
          forall i | 0 <= i < n && elems[i].Running?
            ensures !exists e :: Reports(elems[i].future, cells(i), Err(e))
          {
            assert Advances(elems[..n][i], cells(i), polled[i]);
          }
          var error := PollElem(elems[n], cells(n)).error;
          assert PollElems(elems, cells) == Err(error);
          assert FailsFirst(elems, cells, n, error);
        }
    }
  }

  // ------------------------------------------------------------ mapped batches

  datatype MappedState<!T, U> =
    | WaitingBatch(batch: BatchState<T>, op: seq<T> -> U)
    | Mapped
    | MapFailed(error: Error)

  /** A mapped batch never holds a batch that has already resolved. */
  predicate Pollable<T, U>(m: MappedState<T, U>) {
    m.WaitingBatch? ==> !m.batch.Finished?
  }

  function PollMapped<T, U>(m: MappedState<T, U>, cells: nat -> Cell): (r: (MappedState<T, U>, Result<Async<U>>))
    requires Pollable(m)
    ensures Pollable(r.0)
    ensures r.1 != Ok(NotReady) ==> r.0 == Mapped
  {
    match m
    case Mapped => (Mapped, Ok(NotReady))
    case MapFailed(e) => (Mapped, Err(e))
    case WaitingBatch(batch, op) =>
      match PollBatch(batch, cells)
      case (_, Err(e)) => (Mapped, Err(e))
      case (_, Ok(Ready(vs))) => (Mapped, Ok(Ready(op(vs))))
      case (b, Ok(NotReady)) => (WaitingBatch(b, op), Ok(NotReady))
  }

  class YumBatchFutureT<T(0), U> {
    var state: MappedState<T, U>

    constructor (futures: seq<FutureState<T>>, op: seq<T> -> U)
      ensures Pollable(state) && state == WaitingBatch(Unpolled(futures), op)
    {
      state := WaitingBatch(Unpolled(futures), op);
    }

    method Poll(cells: nat -> Cell) returns (result: Result<Async<U>>)
      requires Pollable(state)
      modifies this
      ensures Pollable(state)
      ensures (state, result) == PollMapped(old(state), cells)
      ensures old(state).MapFailed? ==> result == Err(old(state).error)
    {
      var taken := state;
      state := Mapped;
      match taken
      case Mapped => result := Ok(NotReady);
      case MapFailed(error) => result := Err(error);
      case WaitingBatch(batch, op) =>
        var inner := new YumBatchFuture<T>([]);
        inner.state := batch;
        var polled := inner.Poll(cells);
        match polled {
          case Err(error) => result := Err(error);
          case Ok(Ready(values)) => result := Ok(Ready(op(values)));
          case Ok(NotReady) =>
            state := WaitingBatch(inner.state, op);
            result := Ok(NotReady);
        }
    }
  }

  /** The state after a sequence of polls. */
  function MappedAfter<T, U>(m: MappedState<T, U>, readings: seq<nat -> Cell>): (r: MappedState<T, U>)
    requires Pollable(m)
    ensures Pollable(r)
  {
    if readings == [] then m
    else PollMapped(MappedAfter(m, readings[..|readings| - 1]), readings[|readings| - 1]).0
  }

  lemma {:induction false} MappedStaysMapped<T, U>(m: MappedState<T, U>, readings: seq<nat -> Cell>, i: nat)
    requires Pollable(m) && i <= |readings| && MappedAfter(m, readings[..i]) == Mapped
    ensures MappedAfter(m, readings) == Mapped
    decreases |readings|
  {
    if i < |readings| {
      var init := readings[..|readings| - 1];
      assert init[..i] == readings[..i];
      MappedStaysMapped(m, init, i);
    } else {
      assert readings[..i] == readings;
    }
  }

  /** Unlike a plain batch, a mapped batch may be polled without end: once a poll has
      resolved it no later poll is ever ready, and it never polls a resolved batch. */
  lemma {:induction false} MappedResolvesAtMostOnce<T, U>(
    m: MappedState<T, U>, readings: seq<nat -> Cell>, i: nat, last: nat -> Cell)
    requires Pollable(m) && i < |readings|
    requires PollMapped(MappedAfter(m, readings[..i]), readings[i]).1 != Ok(NotReady)
    ensures MappedAfter(m, readings) == Mapped
    ensures PollMapped(MappedAfter(m, readings), last).1 == Ok(NotReady)
  {
    assert readings[..i + 1][..i] == readings[..i];
    MappedStaysMapped(m, readings, i + 1);
  }
}
