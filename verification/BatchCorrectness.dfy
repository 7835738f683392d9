/** From the wire to the caller: what a batch future resolves to. */
module BatchCorrectness {
  import opened Prelude
  import opened Responses
  import opened Registry
  import opened Protocol
  import opened ProtocolTheorems
  import opened Futures

  /** What the receiver of request `id` sees in a given table. */
  function CellOf(t: Table, id: Id): Cell {
    if id !in t.fates then Empty
    else match t.fates[id]
      case Answered(r) => Filled(r)
      case TimedOut => Filled(Err(TIMED_OUT))
      case Cancelled => Dropped
  }

  /** The futures a batch call hands out: one per id, each with its own decoder. */
  function BatchFutures<T>(ids: seq<Id>, decoders: seq<Json -> Result<T>>): (fs: seq<FutureState<T>>)
    requires |ids| == |decoders|
    ensures |fs| == |ids|
    ensures forall i :: 0 <= i < |fs| ==> fs[i] == Waiting(ids[i], decoders[i])
  {
    seq(|ids|, i requires 0 <= i < |ids| => Waiting(ids[i], decoders[i]))
  }

  /** The i-th cell was read at some moment of the run, not necessarily the same for every i. */
  ghost predicate ReadDuring(actions: seq<Action>, ids: seq<Id>, cells: nat -> Cell) {
    forall i :: 0 <= i < |ids| ==> ReadOnce(actions, ids[i], cells(i))
  }

  ghost predicate ReadOnce(actions: seq<Action>, id: Id, cell: Cell) {
    exists n: nat :: n <= |actions| && ReadAt(actions, n, id, cell)
  }

  ghost predicate ReadAt(actions: seq<Action>, n: nat, id: Id, cell: Cell)
    requires n <= |actions|
  {
    var s := Execute(INITIAL, actions[..n]);
    s.Some? && cell == CellOf(s.value.table, id)
  }

  /** Polls a batch once per reading until it resolves. */
  function Drive<T>(b: BatchState<T>, readings: seq<nat -> Cell>): (BatchState<T>, Option<Result<seq<T>>>)
    requires !b.Finished?
  {
    if readings == [] then (b, None)
    else
      match Drive(b, readings[..|readings| - 1])
      case (m, Some(r)) => (m, Some(r))
      case (m, None) =>
        if m.Finished? then (m, None)
        else
          match PollBatch(m, readings[|readings| - 1])
          case (m', Err(e)) => (m', Some(Err(e)))
          case (m', Ok(Ready(vs))) => (m', Some(Ok(vs)))
          case (m', Ok(NotReady)) => (m', None)
  }

  /** A non-empty reading stays true for the rest of the run. */
  lemma ReadingIsFinal(actions: seq<Action>, id: Id, cell: Cell)
    requires Execute(INITIAL, actions).Some? && ReadOnce(actions, id, cell) && cell != Empty
    ensures cell == CellOf(Execute(INITIAL, actions).value.table, id)
  {
    var n: nat :| n <= |actions| && ReadAt(actions, n, id, cell);
    assert actions == actions[..n] + actions[n..];
    FateIsFinal(actions[..n], actions[n..], id);
  }

  /** An element is still waiting for its own id, or holds its decoder's result on the
      value that id was answered with. */
  ghost predicate Tracks<T>(t: Table, id: Id, decode: Json -> Result<T>, e: Elem<T>) {
    match e
    case Running(f) => f == Waiting(id, decode)
    case Done(v) =>
      && id in t.fates && t.fates[id].Answered? && t.fates[id].result.Ok?
      && decode(t.fates[id].result.value) == Ok(v)
  }

  /** The request ended with this error: the one it was answered with, the decoder's, the
      timeout's, or the cancellation. */
  ghost predicate EndedWith<T>(t: Table, id: Id, decode: Json -> Result<T>, e: Error) {
    && id in t.fates
    && match t.fates[id]
       case Answered(Err(e')) => e == e'
       case Answered(Ok(v)) => decode(v) == Err(e)
       case TimedOut => e == TIMED_OUT
       case Cancelled => e == Canceled
  }

  /** The request was answered with a value that decodes to `t`. */
  ghost predicate GotValue<T>(s: State, id: Id, decode: Json -> Result<T>, value: T) {
    && id in s.registered
    && match First(Since(s.log, s.registered[id]), id)
       case Some(Ok(v)) => decode(v) == Ok(value)
       case _ => false
  }

  /** One value per request, in order. */
  ghost predicate GotValues<T>(s: State, ids: seq<Id>, decoders: seq<Json -> Result<T>>, values: seq<T>)
    requires |ids| == |decoders|
  {
    |values| == |ids| && forall i :: 0 <= i < |ids| ==> GotValue(s, ids[i], decoders[i], values[i])
  }

  ghost predicate OneEndedWith<T>(t: Table, ids: seq<Id>, decoders: seq<Json -> Result<T>>, e: Error)
    requires |ids| == |decoders|
  {
    exists i :: 0 <= i < |ids| && EndedWith(t, ids[i], decoders[i], e)
  }

  lemma {:induction false} PassTracks<T>(t: Table, ids: seq<Id>, decoders: seq<Json -> Result<T>>,
                                        elems: seq<Elem<T>>, cells: nat -> Cell)
    requires |ids| == |decoders| == |elems|
    requires forall i :: 0 <= i < |ids| ==> Tracks(t, ids[i], decoders[i], elems[i])
    requires forall i :: 0 <= i < |ids| ==> cells(i) == Empty || cells(i) == CellOf(t, ids[i])
    ensures match PollElems(elems, cells)
            case Ok(polled) =>
              && |polled| == |ids|
              && forall i :: 0 <= i < |ids| ==> Tracks(t, ids[i], decoders[i], polled[i])
            case Err(e) => OneEndedWith(t, ids, decoders, e)
    decreases |elems|
  {
    if elems == [] {
    } else {
      var n := |elems| - 1;
      PassTracks(t, ids[..n], decoders[..n], elems[..n], cells);
      if PollElems(elems[..n], cells).Ok? {
        TracksStep(t, ids[n], decoders[n], elems[n], cells(n));
      } else {
        var e := PollElems(elems[..n], cells).error;
        var i :| 0 <= i < n && EndedWith(t, ids[..n][i], decoders[..n][i], e);
        assert EndedWith(t, ids[i], decoders[i], e);
      }
    }
  }

  lemma TracksStep<T>(t: Table, id: Id, decode: Json -> Result<T>, e: Elem<T>, cell: Cell)
    requires Tracks(t, id, decode, e) && (cell == Empty || cell == CellOf(t, id))
    ensures match PollElem(e, cell)
            case Ok(e') => Tracks(t, id, decode, e')
            case Err(error) => EndedWith(t, id, decode, error)
  {
  }

  /** The state of a driven batch: still tracking, or resolved to tracked values or to the
      error of one of its requests. */
  ghost predicate BatchTracks<T>(t: Table, ids: seq<Id>, decoders: seq<Json -> Result<T>>,
                                 b: BatchState<T>, result: Option<Result<seq<T>>>)
    requires |ids| == |decoders|
  {
    match result
    case None =>
      (match b
       case Unpolled(fs) => fs == BatchFutures(ids, decoders)
       case Polling(elems) =>
         |elems| == |ids| && forall i :: 0 <= i < |ids| ==> Tracks(t, ids[i], decoders[i], elems[i])
       case Finished => false)
    case Some(Ok(vs)) =>
      |vs| == |ids| && forall i :: 0 <= i < |ids| ==> Tracks(t, ids[i], decoders[i], Done(vs[i]))
    case Some(Err(e)) => OneEndedWith(t, ids, decoders, e)
  }

  lemma {:induction false} DriveTracks<T>(actions: seq<Action>, ids: seq<Id>, decoders: seq<Json -> Result<T>>,
                                         readings: seq<nat -> Cell>)
    requires Execute(INITIAL, actions).Some? && |ids| == |decoders|
    requires forall k :: 0 <= k < |readings| ==> ReadDuring(actions, ids, readings[k])
    ensures var d := Drive(Unpolled(BatchFutures(ids, decoders)), readings);
            BatchTracks(Execute(INITIAL, actions).value.table, ids, decoders, d.0, d.1)
    decreases |readings|
  {
    if readings == [] {
    } else {
      var t := Execute(INITIAL, actions).value.table;
      var n := |readings| - 1;
      DriveTracks(actions, ids, decoders, readings[..n]);
      var d := Drive(Unpolled(BatchFutures(ids, decoders)), readings[..n]);
      if d.1.None? {
        var cells := readings[n];
        forall i | 0 <= i < |ids| ensures cells(i) == Empty || cells(i) == CellOf(t, ids[i]) {
          assert ReadOnce(actions, ids[i], cells(i));
          if cells(i) != Empty {
            ReadingIsFinal(actions, ids[i], cells(i));
          }
        }
        var elems := if d.0.Unpolled? then Joined(d.0.futures) else d.0.elems;
        PassTracks(t, ids, decoders, elems, cells);
      }
    }
  }

  /** End to end: for any interleaving, splitting, reordering, duplication or noise, and
      however the batch is polled, if it resolves to values there is one per request, in
      order, each its decoder applied to the first response carrying its id since the
      request was registered; and if it fails, it fails with the error of one of them. */
  lemma {:induction false} BatchResolvesCorrectly<T>(
    actions: seq<Action>, ids: seq<Id>, decoders: seq<Json -> Result<T>>, readings: seq<nat -> Cell>)
    requires Execute(INITIAL, actions).Some? && |ids| == |decoders|
    requires forall i :: 0 <= i < |ids| ==> ids[i] in Execute(INITIAL, actions).value.registered
    requires forall k :: 0 <= k < |readings| ==> ReadDuring(actions, ids, readings[k])
    ensures var s := Execute(INITIAL, actions).value;
            match Drive(Unpolled(BatchFutures(ids, decoders)), readings).1
            case None => true
            case Some(Err(e)) => OneEndedWith(s.table, ids, decoders, e)
            case Some(Ok(vs)) => GotValues(s, ids, decoders, vs)
  {
    DriveTracks(actions, ids, decoders, readings);
    InvReached(actions);
    var s := Execute(INITIAL, actions).value;
    var r := Drive(Unpolled(BatchFutures(ids, decoders)), readings).1;
    if r.Some? && r.value.Ok? {
      forall i | 0 <= i < |ids|
        ensures GotValue(s, ids[i], decoders[i], r.value.value[i])
      {
        assert Tracks(s.table, ids[i], decoders[i], Done(r.value.value[i]));
      }
    }
  }

  // ------------------------------------------------------------ progress

  /** A request whose answer its decoder accepts. */
  ghost predicate Satisfied<T>(t: Table, id: Id, decode: Json -> Result<T>) {
    id in t.fates && t.fates[id].Answered? && t.fates[id].result.Ok? && decode(t.fates[id].result.value).Ok?
  }

  /** One pass over cells that are all settled leaves every element done, or reports an error. */
  lemma {:induction false} SettledPass<T>(t: Table, ids: seq<Id>, decoders: seq<Json -> Result<T>>,
                                         elems: seq<Elem<T>>, cells: nat -> Cell)
    requires |ids| == |decoders| == |elems|
    requires forall i :: 0 <= i < |ids| ==> Tracks(t, ids[i], decoders[i], elems[i])
    requires forall i :: 0 <= i < |ids| ==> cells(i) == CellOf(t, ids[i]) != Empty
    ensures PollElems(elems, cells).Ok? ==> AllDone(PollElems(elems, cells).value)
    ensures (forall i :: 0 <= i < |ids| ==> Satisfied(t, ids[i], decoders[i])) ==> PollElems(elems, cells).Ok?
    decreases |elems|
  {
    if elems == [] {
    } else {
      var n := |elems| - 1;
      SettledPass(t, ids[..n], decoders[..n], elems[..n], cells);
      TracksStep(t, ids[n], decoders[n], elems[n], cells(n));
      if PollElems(elems[..n], cells).Ok? && PollElem(elems[n], cells(n)).Ok? {
        AllDoneSnoc(PollElems(elems[..n], cells).value, PollElem(elems[n], cells(n)).value);
      }
    }
  }

  /** Once every request of a batch is resolved, the next poll made after that resolves the
      batch, if an earlier one has not; and it resolves to values exactly when every
      decoder accepts the answer it gets. */
  lemma {:induction false} ResolvedBatchIsReady<T>(
    actions: seq<Action>, ids: seq<Id>, decoders: seq<Json -> Result<T>>,
    readings: seq<nat -> Cell>, cells: nat -> Cell)
    requires Execute(INITIAL, actions).Some? && |ids| == |decoders|
    requires forall k :: 0 <= k < |readings| ==> ReadDuring(actions, ids, readings[k])
    requires var t := Execute(INITIAL, actions).value.table;
             forall i :: 0 <= i < |ids| ==> ids[i] in t.fates && cells(i) == CellOf(t, ids[i])
    ensures var t := Execute(INITIAL, actions).value.table;
            var r := Drive(Unpolled(BatchFutures(ids, decoders)), readings + [cells]).1;
            && r.Some?
            && (r.value.Ok? <==> forall i :: 0 <= i < |ids| ==> Satisfied(t, ids[i], decoders[i]))
  {
    var t := Execute(INITIAL, actions).value.table;
    var b := Unpolled(BatchFutures(ids, decoders));
    assert (readings + [cells])[..|readings|] == readings;
    DriveTracks(actions, ids, decoders, readings);
    var d := Drive(b, readings);
    if d.1.None? {
      var elems := if d.0.Unpolled? then Joined(d.0.futures) else d.0.elems;
      SettledPass(t, ids, decoders, elems, cells);
      PassTracks(t, ids, decoders, elems, cells);
    }
    ResolutionIsExact(t, ids, decoders, Drive(b, readings + [cells]));
  }

  /** A batch that resolved to values has satisfied requests only; one that failed, has not. */
  lemma ResolutionIsExact<T>(t: Table, ids: seq<Id>, decoders: seq<Json -> Result<T>>,
                             d: (BatchState<T>, Option<Result<seq<T>>>))
    requires |ids| == |decoders| && d.1.Some? && BatchTracks(t, ids, decoders, d.0, d.1)
    ensures d.1.value.Ok? <==> forall i :: 0 <= i < |ids| ==> Satisfied(t, ids[i], decoders[i])
  {
    if d.1.value.Ok? {
      forall i | 0 <= i < |ids| ensures Satisfied(t, ids[i], decoders[i]) {
        assert Tracks(t, ids[i], decoders[i], Done(d.1.value.value[i]));
      }
    }
  }

  // ------------------------------------------------------------ mapped batches

  /** Polls a mapped batch once per reading until it resolves. */
  function DriveMapped<T, U>(m: MappedState<T, U>, readings: seq<nat -> Cell>)
    : (r: (MappedState<T, U>, Option<Result<U>>))
    requires Pollable(m)
    ensures Pollable(r.0)
  {
    if readings == [] then (m, None)
    else
      var before := DriveMapped(m, readings[..|readings| - 1]);
      if before.1.Some? then before
      else
        match PollMapped(before.0, readings[|readings| - 1])
        case (m', Err(e)) => (m', Some(Err(e)))
        case (m', Ok(Ready(u))) => (m', Some(Ok(u)))
        case (m', Ok(NotReady)) => (m', None)
  }

  /** The mapped batch resolves when its batch does, to the operation on the same values. */
  lemma {:induction false} MappedFollowsBatch<T, U>(b: BatchState<T>, op: seq<T> -> U, readings: seq<nat -> Cell>)
    requires !b.Finished?
    ensures var d, m := Drive(b, readings), DriveMapped(WaitingBatch(b, op), readings);
            match d.1
            case None => m == (WaitingBatch(d.0, op), None) && !d.0.Finished?
            case Some(Ok(vs)) => m.1 == Some(Ok(op(vs)))
            case Some(Err(e)) => m.1 == Some(Err(e))
    decreases |readings|
  {
    if readings == [] {
    } else {
      MappedFollowsBatch(b, op, readings[..|readings| - 1]);
    }
  }

  /** So a mapped batch that resolves to a value has it from its operation, applied to one
      decoded first answer per request in order; and it fails as a batch does. */
  lemma {:induction false} MappedResolvesCorrectly<T, U>(
    actions: seq<Action>, ids: seq<Id>, decoders: seq<Json -> Result<T>>, op: seq<T> -> U,
    readings: seq<nat -> Cell>)
    requires Execute(INITIAL, actions).Some? && |ids| == |decoders|
    requires forall i :: 0 <= i < |ids| ==> ids[i] in Execute(INITIAL, actions).value.registered
    requires forall k :: 0 <= k < |readings| ==> ReadDuring(actions, ids, readings[k])
    ensures var s := Execute(INITIAL, actions).value;
            match DriveMapped(WaitingBatch(Unpolled(BatchFutures(ids, decoders)), op), readings).1
            case None => true
            case Some(Err(e)) => OneEndedWith(s.table, ids, decoders, e)
            case Some(Ok(u)) => exists vs :: GotValues(s, ids, decoders, vs) && u == op(vs)
  {
    var b := Unpolled(BatchFutures(ids, decoders));
    MappedFollowsBatch(b, op, readings);
    BatchResolvesCorrectly(actions, ids, decoders, readings);
    if Drive(b, readings).1.Some? && Drive(b, readings).1.value.Ok? {
      assert GotValues(Execute(INITIAL, actions).value, ids, decoders, Drive(b, readings).1.value.value);
    }
  }
}
