/**
 What each call of the client does when nothing interferes with it, as the protocol's own
 actions and in closed form.
 */
module ClientActions {
  import opened Responses
  import opened Registry
  import opened Prelude
  import opened Protocol

  /** The state is reachable, and this is what the client sees of it. */
  ghost predicate Shows(s: State, t: Table, nextId: Id, ts: map<int, seq<Id>>) {
    Reachable(s) && s.table == t && s.nextId == nextId && s.ts == ts
  }

  /** The actions, each enabled in turn, lead to a state of which the client sees this. */
  ghost predicate Leads(s: State, actions: seq<Action>, t: Table, nextId: Id, ts: map<int, seq<Id>>) {
    var r := Execute(s, actions);
    r.Some? && Shows(r.value, t, nextId, ts) && r.value.sweeper == s.sweeper
  }

  // ------------------------------------------------------------ requests

  function RequestActions(id: Id, now: int, sent: bool): seq<Action> {
    [TakeId, Insert(id, false), Stamp(id, now)] + if sent then [Send({id})] else []
  }

  lemma RequestRuns(s: State, now: int, sent: bool)
    requires Reachable(s) && !s.sweeper.Scanning?
    ensures Leads(s, RequestActions(s.nextId, now, sent),
                  Table(s.table.pending + {s.nextId}, s.table.fates), s.nextId + 1, Recorded(s.ts, now, s.nextId))
    ensures Execute(s, RequestActions(s.nextId, now, sent)).value.sent == s.sent + if sent then {s.nextId} else {}
  {
    var id := s.nextId;
    NextIdIsFresh(s);
    var actions := [];
    Extend(s, actions, TakeId);
    actions := actions + [TakeId];
    Extend(s, actions, Insert(id, false));
    actions := actions + [Insert(id, false)];
    Extend(s, actions, Stamp(id, now));
    actions := actions + [Stamp(id, now)];
    assert actions == [TakeId, Insert(id, false), Stamp(id, now)];
    if sent {
      Extend(s, actions, Send({id}));
    } else {
      assert RequestActions(id, now, sent) == actions;
    }
    ReachableOn(s, RequestActions(id, now, sent));
  }

  /** A batch call registers its requests one after the other. */
  function BatchInserts(first: Id, count: nat): seq<Action> {
    if count == 0 then [] else BatchInserts(first, count - 1) + [TakeId, Insert(first + count - 1, true)]
  }

  function Fresh(first: Id, count: nat): (ids: set<Id>)
    ensures forall id: Id :: id in ids <==> first <= id < first + count
  {
    if count == 0 then {} else Fresh(first, count - 1) + {first + count - 1}
  }

  function BatchActions(first: Id, count: nat, sent: bool): seq<Action> {
    BatchInserts(first, count) + if sent then [Send(Fresh(first, count))] else []
  }

  function Enrolled(t: Table, first: Id, count: nat): Table {
    Table(t.pending + Fresh(first, count), t.fates)
  }

  lemma {:induction false} InsertsRun(s: State, count: nat)
    ensures var r := Execute(s, BatchInserts(s.nextId, count));
            && r.Some? && r.value.table == Enrolled(s.table, s.nextId, count)
            && r.value.nextId == s.nextId + count && r.value.ts == s.ts && r.value.sweeper == s.sweeper
            && Fresh(s.nextId, count) <= r.value.registered.Keys && r.value.sent == s.sent
  {
    if count == 0 {
      assert Fresh(s.nextId, 0) == {};
    } else {
      var n := count - 1;
      var id := s.nextId + n;
      InsertsRun(s, n);
      var before := BatchInserts(s.nextId, n);
      Extend(s, before, TakeId);
      Extend(s, before + [TakeId], Insert(id, true));
      assert before + [TakeId] + [Insert(id, true)] == BatchInserts(s.nextId, count);
      assert Fresh(s.nextId, count) == Fresh(s.nextId, n) + {id};
    }
  }

  lemma BatchRuns(s: State, count: nat, sent: bool)
    requires Reachable(s)
    ensures Leads(s, BatchActions(s.nextId, count, sent),
                  Enrolled(s.table, s.nextId, count), s.nextId + count, s.ts)
    ensures Execute(s, BatchActions(s.nextId, count, sent)).value.sent ==
              s.sent + if sent then Fresh(s.nextId, count) else {}
  {
    var inserts := BatchInserts(s.nextId, count);
    InsertsRun(s, count);
    if sent {
      Extend(s, inserts, Send(Fresh(s.nextId, count)));
    } else {
      assert BatchActions(s.nextId, count, sent) == inserts;
    }
    ReachableOn(s, BatchActions(s.nextId, count, sent));
  }

  /** A single action that records nothing for the timeout. */
  lemma OneRuns(s: State, a: Action)
    requires Reachable(s) && (a.TakeId? || a.Receive? || a.DropClient?)
    ensures Leads(s, [a], Apply(s, a).table, Apply(s, a).nextId, s.ts)
  {
    Extend(s, [], a);
    assert [] + [a] == [a];
    ReachableOn(s, [a]);
  }

  // ------------------------------------------------------------ sweeps

  /** The requests due in a sweep. */
  function DueIds(due: set<(int, Id)>): set<Id> { set p | p in due :: p.1 }

  /** The table once every due request that is still pending has timed out. */
  function Swept(t: Table, due: set<(int, Id)>): Table { Expired(t, DueIds(due)) }

  function Expired(t: Table, ids: set<Id>): Table {
    Table(t.pending - ids, t.fates + map id | id in t.pending * ids :: TimedOut)
  }

  lemma ExpiredTwice(t: Table, a: set<Id>, b: set<Id>)
    ensures Expired(Expired(t, a), b) == Expired(t, a + b)
  {
    var once, twice := Expired(t, a + b), Expired(Expired(t, a), b);
    assert once.pending == twice.pending;
    assert once.fates.Keys == twice.fates.Keys;
    assert once.fates == twice.fates;
  }

  lemma DueIdsOfUnion(a: set<(int, Id)>, b: set<(int, Id)>)
    ensures DueIds(a + b) == DueIds(a) + DueIds(b)
  {
  }

  lemma SweptTwice(t: Table, a: set<(int, Id)>, b: set<(int, Id)>)
    ensures Swept(Swept(t, a), b) == Swept(t, a + b)
  {
    DueIdsOfUnion(a, b);
    ExpiredTwice(t, DueIds(a), DueIds(b));
  }

  lemma SettleIsSwept(t: Table, k: int, id: Id)
    ensures Settle(t, id, TimedOut) == Swept(t, {(k, id)})
  {
    assert DueIds({(k, id)}) == {id};
    assert Swept(t, {(k, id)}).fates == Settle(t, id, TimedOut).fates;
  }

  /** However the timestamp map is iterated, a scan is heading for the same table. */
  lemma ScanOrderIsIrrelevant(s: State, k: int, id: Id)
    requires s.sweeper.Scanning? && (k, id) in s.sweeper.todo
    ensures var r := Apply(s, SweepOne(k, id));
            Swept(r.table, r.sweeper.todo) == Swept(s.table, s.sweeper.todo)
  {
    var todo := s.sweeper.todo;
    SettleIsSwept(s.table, k, id);
    SweptTwice(s.table, {(k, id)}, todo - {(k, id)});
    assert {(k, id)} + (todo - {(k, id)}) == todo;
  }

  function Ids(ids: seq<Id>): set<Id> { set id | id in ids }

  /** The entries left when ids are removed as if they were timestamp keys. */
  function Unpruned(ts: map<int, seq<Id>>, ids: set<Id>): map<int, seq<Id>> {
    map k | k in ts && !(k >= 0 && k in ids) :: ts[k]
  }

  lemma PruneOne(ts: map<int, seq<Id>>, ids: set<Id>, id: Id)
    ensures Unpruned(ts, ids) - {id} == Unpruned(ts, ids + {id})
    ensures Unpruned(ts - {id}, ids) == Unpruned(ts, ids + {id})
    ensures Unpruned(ts, {}) == ts
  {
  }

  /** A scan, then the pruning of what it timed out. */
  function SweepActions(now: int, scan: seq<Action>, prunes: seq<Action>): seq<Action> {
    [SweepBegin(now)] + scan + [SweepEnd] + prunes
  }

  predicate IsSweep(scan: seq<Action>, prunes: seq<Action>) {
    (forall a :: a in scan ==> a.SweepOne?) && (forall a :: a in prunes ==> a == Prune)
  }

  lemma AnyMember<K>(keys: set<K>) returns (k: K)
    requires |keys| > 0
    ensures k in keys
  {
    k :| k in keys;
  }

  ghost predicate Scanned(s: State, r: State)
    requires s.sweeper.Scanning?
  {
    && r.sweeper.Scanning? && r.sweeper.todo == {}
    && r.table == Swept(s.table, s.sweeper.todo) && r.ts == s.ts && r.nextId == s.nextId
    && forall id :: id in r.sweeper.swept <==>
         id in s.sweeper.swept || (id in s.table.pending && id in DueIds(s.sweeper.todo))
  }

  lemma ScanOneMore(s: State, k: int, id: Id, r: State)
    requires s.sweeper.Scanning? && (k, id) in s.sweeper.todo
    requires Scanned(Apply(s, SweepOne(k, id)), r)
    ensures Scanned(s, r)
  {
    var todo := s.sweeper.todo;
    ScanOrderIsIrrelevant(s, k, id);
    DueIdsOfUnion({(k, id)}, todo - {(k, id)});
    assert {(k, id)} + (todo - {(k, id)}) == todo;
    assert DueIds({(k, id)}) == {id};
  }

  lemma {:induction false} ScanRuns(s: State) returns (scan: seq<Action>)
    requires s.sweeper.Scanning?
    ensures forall a :: a in scan ==> a.SweepOne?
    ensures Execute(s, scan).Some? && Scanned(s, Execute(s, scan).value)
    decreases |s.sweeper.todo|
  {
    if |s.sweeper.todo| == 0 {
      scan := [];
      assert Swept(s.table, {}) == s.table;
    } else {
      var p := AnyMember(s.sweeper.todo);
      var one := SweepOne(p.0, p.1);
      var more := ScanRuns(Apply(s, one));
      Extend(s, [], one);
      assert [] + [one] == [one];
      ExecuteAppend(s, [one], more);
      scan := [one] + more;
      ScanOneMore(s, p.0, p.1, Execute(s, scan).value);
    }
  }

  ghost predicate Pruned(s: State, r: State)
    requires s.sweeper.Pruning?
  {
    && r.sweeper.Resting? && r.table == s.table && r.nextId == s.nextId
    && r.ts == Unpruned(s.ts, Ids(s.sweeper.swept))
  }

  lemma PruneOneMore(s: State, r: State)
    requires s.sweeper.Pruning? && s.sweeper.swept != [] && Pruned(Apply(s, Prune), r)
    ensures Pruned(s, r)
  {
    var swept := s.sweeper.swept;
    PruneOne(s.ts, Ids(swept[1..]), swept[0]);
    assert Ids(swept) == Ids(swept[1..]) + {swept[0]};
  }

  lemma {:induction false} PrunesRun(s: State) returns (prunes: seq<Action>)
    requires s.sweeper.Pruning?
    ensures forall a :: a in prunes ==> a == Prune
    ensures Execute(s, prunes).Some? && Pruned(s, Execute(s, prunes).value)
    decreases |s.sweeper.swept|
  {
    var one := [Prune];
    Extend(s, [], Prune);
    assert [] + one == one;
    if s.sweeper.swept == [] {
      prunes := one;
      PruneOne(s.ts, {}, 0);
    } else {
      var more := PrunesRun(Apply(s, Prune));
      ExecuteAppend(s, one, more);
      prunes := one + more;
      PruneOneMore(s, Execute(s, prunes).value);
    }
  }

  /** An undisturbed sweep: everything due and pending times out, and the keys equal to an
      id that timed out are gone. */
  lemma SweepRuns(s: State, now: int) returns (scan: seq<Action>, prunes: seq<Action>)
    requires Reachable(s) && s.sweeper.Resting?
    ensures IsSweep(scan, prunes)
    ensures var due := Due(s.ts, now);
            Leads(s, SweepActions(now, scan, prunes), Swept(s.table, due), s.nextId,
                  Unpruned(s.ts, s.table.pending * DueIds(due)))
  {
    var begin := [SweepBegin(now)];
    Extend(s, [], SweepBegin(now));
    assert [] + begin == begin;
    var scanning := Apply(s, SweepBegin(now));
    scan := ScanRuns(scanning);
    ExecuteAppend(s, begin, scan);
    Extend(s, begin + scan, SweepEnd);
    var pruning := Apply(Execute(scanning, scan).value, SweepEnd);
    prunes := PrunesRun(pruning);
    ExecuteAppend(s, begin + scan + [SweepEnd], prunes);
    ReachableOn(s, SweepActions(now, scan, prunes));
    assert Ids(pruning.sweeper.swept) == s.table.pending * DueIds(Due(s.ts, now));
  }

  // ------------------------------------------------------------ calls, in any state

  lemma RequestAlways(t: Table, first: Id, ts: map<int, seq<Id>>, now: int, sent: bool)
    ensures forall s :: Shows(s, t, first, ts) && !s.sweeper.Scanning? ==>
              Leads(s, RequestActions(first, now, sent),
                    Table(t.pending + {first}, t.fates), first + 1, Recorded(ts, now, first))
  {
    forall s | Shows(s, t, first, ts) && !s.sweeper.Scanning?
      ensures Leads(s, RequestActions(first, now, sent),
                    Table(t.pending + {first}, t.fates), first + 1, Recorded(ts, now, first))
    {
      RequestRuns(s, now, sent);
    }
  }

  lemma BatchAlways(t: Table, first: Id, ts: map<int, seq<Id>>, count: nat, sent: bool)
    ensures forall s :: Shows(s, t, first, ts) ==>
              Leads(s, BatchActions(first, count, sent), Enrolled(t, first, count), first + count, ts)
  {
    forall s | Shows(s, t, first, ts)
      ensures Leads(s, BatchActions(first, count, sent), Enrolled(t, first, count), first + count, ts)
    {
      BatchRuns(s, count, sent);
    }
  }

  lemma OneAlways(t: Table, first: Id, ts: map<int, seq<Id>>, a: Action)
    requires a.TakeId? || a.Receive? || a.DropClient?
    ensures var t' := if a.Receive? then Deliver(t, a.answers) else if a.DropClient? then Cleared(t) else t;
            forall s :: Shows(s, t, first, ts) ==>
              Leads(s, [a], t', if a.TakeId? then first + 1 else first, ts)
  {
    var t' := if a.Receive? then Deliver(t, a.answers) else if a.DropClient? then Cleared(t) else t;
    forall s | Shows(s, t, first, ts)
      ensures Leads(s, [a], t', if a.TakeId? then first + 1 else first, ts)
    {
      OneRuns(s, a);
    }
  }

  lemma SweepAlways(t: Table, first: Id, ts: map<int, seq<Id>>, now: int)
    ensures forall s :: Shows(s, t, first, ts) && s.sweeper.Resting? ==>
              exists scan, prunes :: IsSweep(scan, prunes)
                && Leads(s, SweepActions(now, scan, prunes), Swept(t, Due(ts, now)), first,
                         Unpruned(ts, t.pending * DueIds(Due(ts, now))))
  {
    forall s | Shows(s, t, first, ts) && s.sweeper.Resting?
      ensures exists scan, prunes :: IsSweep(scan, prunes)
                && Leads(s, SweepActions(now, scan, prunes), Swept(t, Due(ts, now)), first,
                         Unpruned(ts, t.pending * DueIds(Due(ts, now))))
    {
      var scan, prunes := SweepRuns(s, now);
    }
  }
}
