/** What callers can rely on, for every interleaving of the protocol's actions. */
module ProtocolTheorems {
  import opened Prelude
  import opened Responses
  import opened Registry
  import opened Protocol

  // ------------------------------------------------------------ request lifecycle

  /** A registered request is pending, answered, timed out or cancelled, and only one of
      these; no other id is any of them; and a response to a request that was sent is
      unknown to the table only when that request is already resolved. */
  lemma {:induction false} RequestLifecycle(actions: seq<Action>, id: Id)
    requires Execute(INITIAL, actions).Some?
    ensures var s := Execute(INITIAL, actions).value;
            && (id in s.registered <==> (id in s.table.pending) != (id in s.table.fates))
            && !(id in s.table.pending && id in s.table.fates)
            && (id in s.sent && id !in s.table.pending ==> id in s.table.fates)
            && (id in s.registered ==> id < s.nextId && id !in s.taken)
  {
    InvReached(actions);
  }

  lemma FateKept(s: State, a: Action, id: Id)
    requires Lifecycle(s) && Enabled(s, a) && id in s.table.fates
    ensures var r := Apply(s, a);
            id in r.table.fates && r.table.fates[id] == s.table.fates[id] && id !in r.table.pending
  {
    if a.Receive? {
      DeliverParts(s.table, a.answers);
    }
  }

  lemma {:induction false} ExecutePrefix(s: State, actions: seq<Action>, more: seq<Action>)
    requires Execute(s, actions + more).Some?
    ensures Execute(s, actions).Some?
    ensures Execute(s, actions + more) == Execute(Execute(s, actions).value, more)
    decreases |more|
  {
    if more == [] {
      assert actions + more == actions;
    } else {
      assert (actions + more)[..|actions + more| - 1] == actions + more[..|more| - 1];
      ExecutePrefix(s, actions, more[..|more| - 1]);
    }
  }

  /** A oneshot is written once: whichever of a response, the sweep or the drop resolves a
      request first, no continuation changes what its caller receives. */
  lemma {:induction false} FateIsFinal(actions: seq<Action>, more: seq<Action>, id: Id)
    requires Execute(INITIAL, actions + more).Some?
    ensures Execute(INITIAL, actions).Some?
    ensures var s, r := Execute(INITIAL, actions).value, Execute(INITIAL, actions + more).value;
            id in s.table.fates ==>
              id in r.table.fates && r.table.fates[id] == s.table.fates[id] && id !in r.table.pending
    decreases |more|
  {
    ExecutePrefix(INITIAL, actions, more);
    InvReached(actions);
    if more == [] {
      assert actions + more == actions;
    } else {
      var n := |more| - 1;
      assert (actions + more)[..|actions + more| - 1] == actions + more[..n];
      FateIsFinal(actions, more[..n], id);
      var m := Execute(INITIAL, actions + more[..n]).value;
      InvReached(actions + more[..n]);
      if id in m.table.fates {
        FateKept(m, more[n], id);
      }
    }
  }

  /** Dropping the client leaves nothing pending: what was is cancelled, for good, and what
      was resolved before stays as it was. */
  lemma {:induction false} DropCancelsThePending(actions: seq<Action>, more: seq<Action>, id: Id)
    requires Execute(INITIAL, actions + [DropClient] + more).Some?
    ensures Execute(INITIAL, actions).Some? && Execute(INITIAL, actions + [DropClient]).Some?
    ensures Execute(INITIAL, actions + [DropClient]).value.table.pending == {}
    ensures var s, r := Execute(INITIAL, actions).value, Execute(INITIAL, actions + [DropClient] + more).value;
            && (id in s.table.pending ==> id in r.table.fates && r.table.fates[id] == Cancelled)
            && (id in s.table.fates ==> id in r.table.fates && r.table.fates[id] == s.table.fates[id])
  {
    ExecutePrefix(INITIAL, actions + [DropClient], more);
    LastAction(actions, DropClient);
    InvReached(actions);
    FateIsFinal(actions + [DropClient], more, id);
  }

  lemma LastAction(actions: seq<Action>, a: Action)
    requires Execute(INITIAL, actions + [a]).Some?
    ensures var s := Execute(INITIAL, actions);
            s.Some? && Enabled(s.value, a) && Execute(INITIAL, actions + [a]).value == Apply(s.value, a)
  {
    assert (actions + [a])[..|actions|] == actions;
  }

  // ------------------------------------------------------------ timeouts

  /** The sweep never fails a request recorded under ten seconds before it, and never one
      that was not recorded at all; so no request of a batch ever times out. */
  lemma {:induction false} TimeoutIsSound(actions: seq<Action>, id: Id)
    requires Execute(INITIAL, actions).Some?
    ensures var s := Execute(INITIAL, actions).value;
            && (IsTimedOut(s, id) ==>
                  id in s.stamped && id in s.expired && s.expired[id] >= s.stamped[id] + 10)
            && (id in s.batched ==> id in s.registered && !IsTimedOut(s, id))
  {
    InvReached(actions);
  }

  /** When a scan is through, a request recorded ten seconds or more before it is still
      pending only if it is forgotten, whatever was received or registered meanwhile; so
      none recorded at a second that no id has reached is. */
  lemma {:induction false} TimeoutIsComplete(actions: seq<Action>, id: Id)
    requires Execute(INITIAL, actions + [SweepEnd]).Some?
    ensures var s, r := Execute(INITIAL, actions).value, Execute(INITIAL, actions + [SweepEnd]).value;
            && s.sweeper.Scanning?
            && (id in s.stamped && s.stamped[id] <= s.sweeper.now - 10 && id in r.table.pending ==>
                  Forgotten(r, id) && s.stamped[id] < s.nextId)
  {
    LastAction(actions, SweepEnd);
    InvReached(actions);
    InvReached(actions + [SweepEnd]);
    assert Forgotten(Execute(INITIAL, actions + [SweepEnd]).value, id) ==>
             IsTimedOut(Execute(INITIAL, actions).value, Execute(INITIAL, actions).value.stamped[id]);
  }

  /** A sweep sets out to time out a due request exactly when it is not forgotten. */
  lemma {:induction false} SweepFindsExactlyTheRemembered(actions: seq<Action>, now: int, id: Id)
    requires Execute(INITIAL, actions + [SweepBegin(now)]).Some?
    ensures var r := Execute(INITIAL, actions + [SweepBegin(now)]).value;
            id in r.stamped && r.stamped[id] <= now - 10 ==>
              ((r.stamped[id], id) in r.sweeper.todo <==> !Forgotten(r, id))
  {
    LastAction(actions, SweepBegin(now));
    InvReached(actions);
  }

  /** Forgetting is for good: in no continuation is a request that was forgotten while
      pending ever timed out. It stays pending until it is answered or the client dropped. */
  lemma {:induction false} ForgottenNeverTimesOut(actions: seq<Action>, more: seq<Action>, id: Id)
    requires Execute(INITIAL, actions + more).Some?
    ensures Execute(INITIAL, actions).Some?
    ensures var s, r := Execute(INITIAL, actions).value, Execute(INITIAL, actions + more).value;
            Forgotten(s, id) ==> Forgotten(r, id) && (IsTimedOut(r, id) ==> IsTimedOut(s, id))
    decreases |more|
  {
    if more == [] {
      assert actions + more == actions;
    } else {
      var n := |more| - 1;
      var shorter := actions + more[..n];
      assert actions + more == shorter + [more[n]];
      LastAction(shorter, more[n]);
      ForgottenNeverTimesOut(actions, more[..n], id);
      InvReached(shorter);
      if Forgotten(Execute(INITIAL, shorter).value, id) {
        ForgottenStays(Execute(INITIAL, shorter).value, more[n], id);
      }
    }
  }

  /** A recorded request is forgotten exactly when the timeout thread prunes an id equal to
      the second it was recorded under. */
  lemma {:induction false} ForgottenExactlyByPrune(actions: seq<Action>, a: Action, id: Id)
    requires Execute(INITIAL, actions + [a]).Some?
    ensures Execute(INITIAL, actions).Some?
    ensures var s, r := Execute(INITIAL, actions).value, Execute(INITIAL, actions + [a]).value;
            OnFile(s, id) ==>
              (Forgotten(r, id) <==>
                a.Prune? && s.sweeper.swept != [] && s.sweeper.swept[0] == s.stamped[id])
  {
    LastAction(actions, a);
    InvReached(actions);
    if OnFile(Execute(INITIAL, actions).value, id) {
      ForgettingStep(Execute(INITIAL, actions).value, a, id);
    }
  }

  /** So the second must be the id of a request that timed out. A request recorded under a
      second no id has reached is not forgotten. */
  lemma {:induction false} RememberedAboveIds(actions: seq<Action>, id: Id)
    requires Execute(INITIAL, actions).Some?
    ensures var s := Execute(INITIAL, actions).value;
            && (Forgotten(s, id) ==> 0 <= s.stamped[id] < s.nextId && IsTimedOut(s, s.stamped[id]))
            && (id in s.stamped && s.stamped[id] >= s.nextId ==> OnFile(s, id))
  {
    InvReached(actions);
  }

  /** Forgetting does happen, at any second n that ids have reached: request n, recorded a
      second earlier, times out, and pruning its id forgets the request recorded at second
      n. With a clock of today that takes some 1.7 billion requests. */
  lemma {:induction false} CollisionDefeatsTimeout(n: nat) returns (actions: seq<Action>)
    requires n >= 1
    ensures Execute(INITIAL, actions).Some?
    ensures var s := Execute(INITIAL, actions).value;
            && n + 1 in s.stamped && s.stamped[n + 1] == n
            && n + 1 in s.table.pending && Forgotten(s, n + 1)
  {
    actions := RecordedInTurn(n);
    DueAlone(n);
    actions := SweptAlone(actions, n - 1, n, n + 9);
    Extend(INITIAL, actions, SweepEnd);
    actions := actions + [SweepEnd];
    Extend(INITIAL, actions, Prune);
    actions := actions + [Prune];
  }

  /** Requests n and n + 1, recorded at seconds n - 1 and n. */
  function InTurn(n: nat): map<int, seq<Id>> { map[n - 1 := [n], n as int := [n + 1]] }

  lemma DueAlone(n: nat)
    ensures Due(InTurn(n), n + 9) == {(n - 1, n)}
  {
  }

  lemma RecordedInTurn(n: nat) returns (actions: seq<Action>)
    requires n >= 1
    ensures Execute(INITIAL, actions).Some?
    ensures var s := Execute(INITIAL, actions).value;
            && s.ts == InTurn(n) && s.sweeper.Resting?
            && n in s.table.pending && n + 1 in s.table.pending
            && n + 1 in s.stamped && s.stamped[n + 1] == n
  {
    actions := DrawnUpTo(n);
    actions := Registered(actions, n, n - 1);
    var ts := Recorded(map[], n - 1, n);
    assert [] + [n] == [n] && [] + [n + 1] == [n + 1];
    actions := Registered(actions, n + 1, n);
    assert Execute(INITIAL, actions).value.ts == Recorded(ts, n, n + 1) == InTurn(n);
  }

  /** The first ids can be drawn by callers that have not registered anything yet. */
  lemma {:induction false} DrawnUpTo(n: nat) returns (actions: seq<Action>)
    requires n >= 1
    ensures Execute(INITIAL, actions).Some?
    ensures var s := Execute(INITIAL, actions).value;
            s == INITIAL.(nextId := n, taken := s.taken)
  {
    if n == 1 {
      actions := [];
    } else {
      var before := DrawnUpTo(n - 1);
      Extend(INITIAL, before, TakeId);
      actions := before + [TakeId];
    }
  }

  /** A scan that finds one pending request due. */
  lemma SweptAlone(before: seq<Action>, key: int, id: Id, now: int) returns (actions: seq<Action>)
    requires Execute(INITIAL, before).Some?
    requires var s := Execute(INITIAL, before).value;
             s.sweeper.Resting? && Due(s.ts, now) == {(key, id)} && id in s.table.pending
    ensures Execute(INITIAL, actions).Some?
    ensures var s, r := Execute(INITIAL, before).value, Execute(INITIAL, actions).value;
            && r.sweeper == Scanning(now, {}, [id])
            && r.table == Settle(s.table, id, TimedOut)
            && r.ts == s.ts && r.stamped == s.stamped
  {
    Extend(INITIAL, before, SweepBegin(now));
    actions := before + [SweepBegin(now)];
    Extend(INITIAL, actions, SweepOne(key, id));
    actions := actions + [SweepOne(key, id)];
    assert {(key, id)} - {(key, id)} == {};
  }

  lemma Registered(before: seq<Action>, id: Id, now: int) returns (actions: seq<Action>)
    requires Execute(INITIAL, before).Some?
    requires var s := Execute(INITIAL, before).value;
             && s.nextId == id && s.sweeper.Resting?
             && id !in s.registered && id !in s.stamped && id !in s.batched
    ensures Execute(INITIAL, actions).Some?
    ensures var s, r := Execute(INITIAL, before).value, Execute(INITIAL, actions).value;
            r == s.(nextId := id + 1, taken := s.taken + {id} - {id},
                    table := s.table.(pending := s.table.pending + {id}),
                    registered := s.registered[id := |s.log|],
                    ts := Recorded(s.ts, now, id), stamped := s.stamped[id := now])
  {
    Extend(INITIAL, before, TakeId);
    actions := before + [TakeId];
    Extend(INITIAL, actions, Insert(id, false));
    actions := actions + [Insert(id, false)];
    Extend(INITIAL, actions, Stamp(id, now));
    actions := actions + [Stamp(id, now)];
  }
}
