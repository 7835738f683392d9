/**
 The request/response protocol as a state machine over one global state, with one action
 per atomic operation or lock-protected region. Any number of callers, socket readers and
 HTTP fallbacks interleave with the timeout thread and with the client being dropped.
 */
module Protocol {
  import opened Prelude
  import opened Responses
  import opened Registry

  const TIMEOUT: int := 10  // seconds

  /** The timeout thread: it holds the timestamp lock while scanning, and takes it once
      more for every key it prunes. */
  datatype Sweeper =
    | Resting
    | Scanning(now: int, todo: set<(int, Id)>, swept: seq<Id>)
    | Pruning(swept: seq<Id>)

  datatype State = State(
    nextId: Id,
    taken: set<Id>,              // ids drawn from the counter and not yet inserted
    table: Table,
    sent: set<Id>,
    ts: map<int, seq<Id>>,
    sweeper: Sweeper,
    // history
    log: seq<Answer>,            // every answer matched against the table, in order
    registered: map<Id, nat>,    // each inserted id, with the length of the log at that moment
    stamped: map<Id, int>,       // the second each single request was recorded under
    batched: set<Id>,            // the inserted ids that belong to a batch
    expired: map<Id, int>)       // the sweep time at which each id was timed out

  const INITIAL: State :=
    State(1, {}, Table({}, map[]), {}, map[], Resting, [], map[], map[], {}, map[])

  datatype Action =
    | TakeId                             // one fetch-and-add of the id counter
    | Insert(id: Id, batched: bool)      // a request enters the table
    | Stamp(id: Id, now: int)            // a single request is recorded under the current second
    | Send(ids: set<Id>)                 // a request or batch goes out
    | Receive(answers: seq<Answer>)      // one decoded message, by socket or HTTP
    | SweepBegin(now: int)
    | SweepOne(key: int, id: Id)
    | SweepEnd
    | Prune
    | DropClient

  function Due(ts: map<int, seq<Id>>, now: int): set<(int, Id)> {
    set k, id | k in ts && id in ts[k] && now - k >= TIMEOUT :: (k, id)
  }

  predicate Enabled(s: State, a: Action) {
    match a
    case TakeId => true
    case Insert(id, _) => id in s.taken
    case Stamp(id, _) =>
      id in s.registered && id !in s.batched && id !in s.stamped && !s.sweeper.Scanning?
    case Send(ids) => ids <= s.registered.Keys
    case Receive(_) => true
    case SweepBegin(_) => s.sweeper.Resting?
    case SweepOne(k, id) => s.sweeper.Scanning? && (k, id) in s.sweeper.todo
    case SweepEnd => s.sweeper.Scanning? && s.sweeper.todo == {}
    case Prune => s.sweeper.Pruning?
    case DropClient => true
  }

  function Recorded(ts: map<int, seq<Id>>, now: int, id: Id): map<int, seq<Id>> {
    ts[now := (if now in ts then ts[now] else []) + [id]]
  }

  function Cleared(t: Table): Table {
    Table({}, t.fates + map id | id in t.pending :: Cancelled)
  }

  function Apply(s: State, a: Action): State
    requires Enabled(s, a)
  {
    match a
    case TakeId => s.(nextId := s.nextId + 1, taken := s.taken + {s.nextId})
    case Insert(id, batched) =>
      s.(taken := s.taken - {id},
         table := s.table.(pending := s.table.pending + {id}),
         registered := s.registered[id := |s.log|],
         batched := if batched then s.batched + {id} else s.batched)
    case Stamp(id, now) =>
      s.(ts := Recorded(s.ts, now, id), stamped := s.stamped[id := now])
    case Send(ids) => s.(sent := s.sent + ids)
    case Receive(answers) =>
      s.(table := Deliver(s.table, answers), log := s.log + answers)
    case SweepBegin(now) => s.(sweeper := Scanning(now, Due(s.ts, now), []))
    case SweepOne(k, id) =>
      var found := id in s.table.pending;
      var sweep := s.sweeper;
      s.(table := Settle(s.table, id, TimedOut),
         expired := if found then s.expired[id := sweep.now] else s.expired,
         sweeper := Scanning(sweep.now, sweep.todo - {(k, id)},
                             if found then sweep.swept + [id] else sweep.swept))
    case SweepEnd => s.(sweeper := Pruning(s.sweeper.swept))
    case Prune =>
      var swept := s.sweeper.swept;
      if swept == [] then s.(sweeper := Resting)
      else s.(ts := s.ts - {swept[0]},
              sweeper := Pruning(swept[1..]))
    case DropClient => s.(table := Cleared(s.table))
  }

  /** The state after a sequence of actions, if each was enabled in turn. */
  function Execute(s: State, actions: seq<Action>): Option<State> {
    if actions == [] then Some(s)
    else
      var before := Execute(s, actions[..|actions| - 1]);
      var a := actions[|actions| - 1];
      if before.Some? && Enabled(before.value, a) then Some(Apply(before.value, a)) else None
  }

  lemma {:induction false} ExecuteAppend(s: State, actions: seq<Action>, more: seq<Action>)
    requires Execute(s, actions).Some?
    ensures Execute(s, actions + more) == Execute(Execute(s, actions).value, more)
    decreases |more|
  {
    if more == [] {
      assert actions + more == actions;
    } else {
      assert (actions + more)[..|actions + more| - 1] == actions + more[..|more| - 1];
      ExecuteAppend(s, actions, more[..|more| - 1]);
    }
  }

  lemma Extend(s: State, actions: seq<Action>, a: Action)
    requires Execute(s, actions).Some? && Enabled(Execute(s, actions).value, a)
    ensures Execute(s, actions + [a]) == Some(Apply(Execute(s, actions).value, a))
  {
    assert (actions + [a])[..|actions|] == actions;
  }

  // ------------------------------------------------------------ invariants

  /** Every registered id is pending or resolved, never both, and ids are never reused. */
  ghost predicate Lifecycle(s: State) {
    && s.registered.Keys == s.table.pending + s.table.fates.Keys
    && s.table.pending !! s.table.fates.Keys
    && s.taken !! s.registered.Keys
    && (forall id :: id in s.taken || id in s.registered ==> id < s.nextId)
    && s.sent <= s.registered.Keys
  }

  function Since(log: seq<Answer>, index: nat): seq<Answer> {
    if index <= |log| then log[index..] else []
  }

  /** What a registered request got is the first answer to its id since it was registered. */
  ghost predicate GotFirstAnswer(t: Table, log: seq<Answer>, index: nat, id: Id) {
    && index <= |log|
    && (id in t.pending ==> First(Since(log, index), id) == None)
    && (id in t.fates && t.fates[id].Answered? ==> First(Since(log, index), id) == Some(t.fates[id].result))
  }

  ghost predicate FirstAnswerWins(s: State) {
    forall id :: id in s.registered ==> GotFirstAnswer(s.table, s.log, s.registered[id], id)
  }

  /** Timestamp entries are exactly where the stamps say they are, and never for a batch. */
  ghost predicate Stamps(s: State) {
    && s.stamped.Keys <= s.registered.Keys
    && s.stamped.Keys !! s.batched && s.batched <= s.registered.Keys
    && (forall k, id :: k in s.ts && id in s.ts[k] ==> id in s.stamped && s.stamped[id] == k)
    && (s.sweeper.Scanning? ==> forall k, id :: (k, id) in s.sweeper.todo ==>
          id in s.stamped && s.stamped[id] == k && s.sweeper.now - k >= TIMEOUT)
  }

  ghost predicate IsTimedOut(s: State, id: Id) {
    id in s.table.fates && s.table.fates[id].TimedOut?
  }

  ghost predicate ExpirySound(s: State) {
    forall id :: IsTimedOut(s, id) ==>
      id in s.expired && id in s.stamped && s.expired[id] - s.stamped[id] >= TIMEOUT
  }

  ghost predicate SweptTimedOut(s: State) {
    !s.sweeper.Resting? ==> forall id :: id in s.sweeper.swept ==> IsTimedOut(s, id)
  }

  /** The request was recorded, and its record is still there. */
  ghost predicate OnFile(s: State, id: Id) {
    id in s.stamped && s.stamped[id] in s.ts && id in s.ts[s.stamped[id]]
  }

  /** The request was recorded, and its record is gone. */
  ghost predicate Forgotten(s: State, id: Id) {
    id in s.stamped && !OnFile(s, id)
  }

  /** A scan has ahead of it every due pending request that is not forgotten, and no other. */
  ghost predicate ScanComplete(s: State) {
    s.sweeper.Scanning? ==>
      && (forall id :: id in s.stamped && s.sweeper.now - s.stamped[id] >= TIMEOUT ==>
            id in s.table.pending ==> (s.stamped[id], id) in s.sweeper.todo || Forgotten(s, id))
      && (forall k, id :: (k, id) in s.sweeper.todo ==> OnFile(s, id))
  }

  /** A record disappears only under the key of a request that timed out. */
  ghost predicate ForgottenForCause(s: State) {
    forall id :: Forgotten(s, id) ==> s.stamped[id] >= 0 && IsTimedOut(s, s.stamped[id])
  }

  ghost predicate Inv(s: State) {
    && Lifecycle(s) && FirstAnswerWins(s) && Stamps(s)
    && ExpirySound(s) && SweptTimedOut(s) && ScanComplete(s) && ForgottenForCause(s)
  }

  lemma DeliverParts(t: Table, answers: seq<Answer>)
    ensures var r := Deliver(t, answers);
            && r.pending <= t.pending
            && r.fates.Keys == t.fates.Keys + (t.pending - r.pending)
            && (t.pending !! t.fates.Keys ==> r.pending !! r.fates.Keys)
            && (t.pending !! t.fates.Keys ==> forall id :: id in t.fates ==> r.fates[id] == t.fates[id])
            && (forall id :: id in r.fates && id !in t.fates ==> r.fates[id].Answered?)
  {
    forall id ensures var r := Deliver(t, answers);
        && (id in r.pending ==> id in t.pending)
        && (id in r.fates <==> id in t.fates || (id in t.pending && id !in r.pending))
        && (t.pending !! t.fates.Keys && id in r.pending ==> id !in r.fates)
        && (t.pending !! t.fates.Keys && id in t.fates ==> r.fates[id] == t.fates[id])
        && (id in r.fates && id !in t.fates ==> r.fates[id].Answered?)
    {
      DeliverPointwise(t, answers, id);
    }
  }

  lemma LifecycleStep(s: State, a: Action)
    requires Lifecycle(s) && Stamps(s) && Enabled(s, a)
    ensures Lifecycle(Apply(s, a))
  {
    if a.Receive? {
      DeliverParts(s.table, a.answers);
    }
  }

  lemma ReceiveKeepsFirst(t: Table, log: seq<Answer>, index: nat, id: Id, answers: seq<Answer>)
    requires GotFirstAnswer(t, log, index, id) && t.pending !! t.fates.Keys
    ensures GotFirstAnswer(Deliver(t, answers), log + answers, index, id)
  {
    assert Since(log + answers, index) == Since(log, index) + answers;
    FirstOfConcat(Since(log, index), answers, id);
    DeliverPointwise(t, answers, id);
  }

  lemma FirstAnswerStep(s: State, a: Action)
    requires Lifecycle(s) && FirstAnswerWins(s) && Enabled(s, a)
    ensures FirstAnswerWins(Apply(s, a))
  {
    if a.Receive? {
      forall id | id in s.registered
        ensures GotFirstAnswer(Deliver(s.table, a.answers), s.log + a.answers, s.registered[id], id)
      {
        ReceiveKeepsFirst(s.table, s.log, s.registered[id], id, a.answers);
      }
    }
  }

  lemma StampsStep(s: State, a: Action)
    requires Lifecycle(s) && Stamps(s) && Enabled(s, a)
    ensures Stamps(Apply(s, a))
  {
  }

  lemma TimedOutStays(s: State, a: Action, id: Id)
    requires Lifecycle(s) && Enabled(s, a) && IsTimedOut(s, id)
    ensures IsTimedOut(Apply(s, a), id)
  {
    if a.Receive? {
      DeliverParts(s.table, a.answers);
    }
  }

  lemma ExpiryStep(s: State, a: Action)
    requires Lifecycle(s) && Stamps(s) && ExpirySound(s) && Enabled(s, a)
    ensures ExpirySound(Apply(s, a))
  {
    if a.Receive? {
      DeliverParts(s.table, a.answers);
    }
  }

  lemma SweptStep(s: State, a: Action)
    requires Lifecycle(s) && SweptTimedOut(s) && Enabled(s, a)
    ensures SweptTimedOut(Apply(s, a))
  {
    var r := Apply(s, a);
    if !s.sweeper.Resting? {
      forall id | id in s.sweeper.swept ensures IsTimedOut(r, id) {
        TimedOutStays(s, a, id);
      }
    }
  }

  lemma ReceiveKeepsScan(s: State, answers: seq<Answer>)
    requires Lifecycle(s) && Stamps(s) && ScanComplete(s)
    ensures ScanComplete(Apply(s, Receive(answers)))
  {
    DeliverParts(s.table, answers);
  }

  lemma SweepOneKeepsScan(s: State, key: int, id: Id)
    requires Stamps(s) && ScanComplete(s) && Enabled(s, SweepOne(key, id))
    ensures ScanComplete(Apply(s, SweepOne(key, id)))
  {
  }

  lemma SweepBeginScans(s: State, now: int)
    requires Stamps(s) && Enabled(s, SweepBegin(now))
    ensures ScanComplete(Apply(s, SweepBegin(now)))
  {
  }

  lemma RegistrationKeepsScan(s: State, a: Action)
    requires Lifecycle(s) && Stamps(s) && ScanComplete(s) && Enabled(s, a)
    requires a.TakeId? || a.Insert? || a.Stamp? || a.Send? || a.DropClient?
    ensures ScanComplete(Apply(s, a))
  {
  }

  lemma ScanStep(s: State, a: Action)
    requires Lifecycle(s) && Stamps(s) && ScanComplete(s) && Enabled(s, a)
    ensures ScanComplete(Apply(s, a))
  {
    match a
    case Receive(answers) => ReceiveKeepsScan(s, answers);
    case SweepOne(key, id) => SweepOneKeepsScan(s, key, id);
    case SweepBegin(now) => SweepBeginScans(s, now);
    case SweepEnd =>
    case Prune =>
    case _ => RegistrationKeepsScan(s, a);
  }

  /** A recorded request is forgotten by a prune of the key it is recorded under, and by
      nothing else. */
  lemma ForgettingStep(s: State, a: Action, id: Id)
    requires Stamps(s) && Enabled(s, a) && OnFile(s, id)
    ensures Forgotten(Apply(s, a), id) <==>
            a.Prune? && s.sweeper.swept != [] && s.sweeper.swept[0] == s.stamped[id]
  {
  }

  /** A forgotten request stays forgotten, and no action times it out. */
  lemma ForgottenStays(s: State, a: Action, id: Id)
    requires Lifecycle(s) && Stamps(s) && ScanComplete(s) && Enabled(s, a) && Forgotten(s, id)
    ensures Forgotten(Apply(s, a), id)
    ensures IsTimedOut(Apply(s, a), id) ==> IsTimedOut(s, id)
  {
    if a.Receive? {
      DeliverParts(s.table, a.answers);
    }
  }

  lemma CauseStep(s: State, a: Action)
    requires Lifecycle(s) && Stamps(s) && SweptTimedOut(s) && ForgottenForCause(s) && Enabled(s, a)
    ensures ForgottenForCause(Apply(s, a))
  {
    var r := Apply(s, a);
    forall id | Forgotten(r, id) ensures r.stamped[id] >= 0 && IsTimedOut(r, r.stamped[id]) {
      if OnFile(s, id) {
        ForgettingStep(s, a, id);
        assert s.sweeper.swept[0] in s.sweeper.swept;
      } else {
        assert Forgotten(s, id);
      }
      TimedOutStays(s, a, s.stamped[id]);
    }
  }

  lemma InvStep(s: State, a: Action)
    requires Inv(s) && Enabled(s, a)
    ensures Inv(Apply(s, a))
  {
    LifecycleStep(s, a);
    FirstAnswerStep(s, a);
    StampsStep(s, a);
    ExpiryStep(s, a);
    SweptStep(s, a);
    ScanStep(s, a);
    CauseStep(s, a);
  }

  lemma {:induction false} InvReached(actions: seq<Action>)
    requires Execute(INITIAL, actions).Some?
    ensures Inv(Execute(INITIAL, actions).value)
    decreases |actions|
  {
    if actions == [] {
    } else {
      InvReached(actions[..|actions| - 1]);
      InvStep(Execute(INITIAL, actions[..|actions| - 1]).value, actions[|actions| - 1]);
    }
  }

  ghost predicate Reachable(s: State) {
    exists actions :: Execute(INITIAL, actions) == Some(s)
  }

  lemma ReachableOn(s: State, more: seq<Action>)
    requires Reachable(s) && Execute(s, more).Some?
    ensures Reachable(Execute(s, more).value)
  {
    var actions :| Execute(INITIAL, actions) == Some(s);
    ExecuteAppend(INITIAL, actions, more);
  }

  lemma NextIdIsFresh(s: State)
    requires Reachable(s)
    ensures s.nextId !in s.registered && s.nextId !in s.stamped && s.nextId !in s.batched
  {
    var actions :| Execute(INITIAL, actions) == Some(s);
    InvReached(actions);
  }
}
