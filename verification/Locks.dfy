/**
 Lock usage of the client's threads. Callers, the timeout thread, the sentinel and the
 socket threads are automata over what they hold and what they wait for; any number of
 each may run, and they interleave freely.
 */
module Locks {
  import opened Prelude

  type Tid = nat

  datatype Lock = Sockets | Timestamps | Pending | Subscriptions

  datatype Kind = Caller | Timeout | Sentinel | Socket

  datatype Control =
    | Free                        // holds nothing and waits for nothing
    | Wants(lock: Lock)           // about to take a lock while holding none
    | Holds(lock: Lock)
    | AwaitsSocket(peer: Tid)     // holds the socket list, waits for a socket thread's reply
    | SweepWantsPending           // holds the timestamps
    | SweepHoldsBoth
    | ReaderWantsSubscriptions    // holds the pending table
    | ReaderHoldsBoth

  type Kinds = Tid -> Kind

  type State = map<Tid, Control>

  /** The locks a kind of thread takes without holding another. */
  function Entry(k: Kind): set<Lock> {
    match k
    case Caller => {Sockets, Timestamps, Pending, Subscriptions}
    case Timeout => {Timestamps}
    case Sentinel => {Sockets}
    case Socket => {Pending}
  }

  function Held(c: Control): set<Lock> {
    match c
    case Holds(l) => {l}
    case AwaitsSocket(_) => {Sockets}
    case SweepWantsPending => {Timestamps}
    case SweepHoldsBoth => {Timestamps, Pending}
    case ReaderWantsSubscriptions => {Pending}
    case ReaderHoldsBoth => {Pending, Subscriptions}
    case _ => {}
  }

  function Wanted(c: Control): Option<Lock> {
    match c
    case Wants(l) => Some(l)
    case SweepWantsPending => Some(Pending)
    case ReaderWantsSubscriptions => Some(Subscriptions)
    case _ => None
  }

  /** The program of each kind of thread, one lock operation at a time. */
  predicate Next(kinds: Kinds, t: Tid, c: Control, c': Control) {
    var k := kinds(t);
    match c
    case Free => c'.Wants? && c'.lock in Entry(k)
    case Wants(l) => c' == Holds(l)
    case Holds(l) =>
      || c' == Free
      || (l == Sockets && c'.AwaitsSocket? && k in {Caller, Sentinel} && kinds(c'.peer) == Socket)
      || (l == Timestamps && c' == SweepWantsPending && k == Timeout)
      || (l == Pending && c' == ReaderWantsSubscriptions && k == Socket)
    case AwaitsSocket(_) => c' == Holds(Sockets)
    case SweepWantsPending => c' == SweepHoldsBoth
    case SweepHoldsBoth => c' == Holds(Timestamps)
    case ReaderWantsSubscriptions => c' == ReaderHoldsBoth
    case ReaderHoldsBoth => c' == Holds(Pending)
  }

  /** `t` cannot go on before `u` does: `u` holds the lock `t` wants, or is the socket
      thread `t` awaits and is in the middle of handling a message. */
  predicate WaitsFor(s: State, t: Tid, u: Tid) {
    && t in s && u in s
    && (|| (Wanted(s[t]).Some? && Wanted(s[t]).value in Held(s[u]))
        || (s[t] == AwaitsSocket(u) && s[u] != Free))
  }

  ghost predicate Blocked(s: State, t: Tid) { exists u :: WaitsFor(s, t, u) }

  datatype Action = Spawn(t: Tid) | Exit(t: Tid) | Move(t: Tid, to: Control)

  ghost predicate Enabled(kinds: Kinds, s: State, a: Action) {
    match a
    case Spawn(t) => t !in s
    case Exit(t) => t in s && s[t] == Free
    case Move(t, c) => t in s && Next(kinds, t, s[t], c) && !Blocked(s, t)
  }

  function Apply(s: State, a: Action): State {
    match a
    case Spawn(t) => s[t := Free]
    case Exit(t) => s - {t}
    case Move(t, c) => s[t := c]
  }

  ghost function Execute(kinds: Kinds, actions: seq<Action>): Option<State> {
    if actions == [] then Some(map[])
    else
      var before := Execute(kinds, actions[..|actions| - 1]);
      var a := actions[|actions| - 1];
      if before.Some? && Enabled(kinds, before.value, a) then Some(Apply(before.value, a)) else None
  }

  // ------------------------------------------------------------ invariants

  ghost predicate Exclusive(s: State) {
    forall t, u :: t in s && u in s && t != u ==> Held(s[t]) !! Held(s[u])
  }

  /** Each thread stays inside its own program. */
  predicate Plausible(kinds: Kinds, t: Tid, c: Control) {
    match c
    case Free => true
    case Wants(l) => l in Entry(kinds(t))
    case Holds(l) => l in Entry(kinds(t))
    case AwaitsSocket(peer) => kinds(t) in {Caller, Sentinel} && kinds(peer) == Socket
    case SweepWantsPending => kinds(t) == Timeout
    case SweepHoldsBoth => kinds(t) == Timeout
    case ReaderWantsSubscriptions => kinds(t) == Socket
    case ReaderHoldsBoth => kinds(t) == Socket
  }

  ghost predicate Inv(kinds: Kinds, s: State) {
    Exclusive(s) && forall t :: t in s ==> Plausible(kinds, t, s[t])
  }

  lemma MoveIsExclusive(kinds: Kinds, s: State, t: Tid, c: Control, u: Tid)
    requires Inv(kinds, s) && Enabled(kinds, s, Move(t, c)) && u in s && u != t
    ensures Held(c) !! Held(s[u])
  {
    assert !WaitsFor(s, t, u);
  }

  lemma InvStep(kinds: Kinds, s: State, a: Action)
    requires Inv(kinds, s) && Enabled(kinds, s, a)
    ensures Inv(kinds, Apply(s, a))
  {
    if a.Move? {
      forall u | u in s && u != a.t ensures Held(a.to) !! Held(s[u]) {
        MoveIsExclusive(kinds, s, a.t, a.to, u);
      }
    }
  }

  lemma {:induction false} InvReached(kinds: Kinds, actions: seq<Action>)
    requires Execute(kinds, actions).Some?
    ensures Inv(kinds, Execute(kinds, actions).value)
    decreases |actions|
  {
    if actions == [] {
    } else {
      InvReached(kinds, actions[..|actions| - 1]);
      InvStep(kinds, Execute(kinds, actions[..|actions| - 1]).value, actions[|actions| - 1]);
    }
  }

  /** The thread is between taking and releasing the lock. */
  predicate Inside(c: Control, l: Lock) {
    match l
    case Sockets => c == Holds(Sockets) || c.AwaitsSocket?
    case Timestamps => c == Holds(Timestamps) || c == SweepWantsPending || c == SweepHoldsBoth
    case Pending =>
      c == Holds(Pending) || c == SweepHoldsBoth || c == ReaderWantsSubscriptions || c == ReaderHoldsBoth
    case Subscriptions => c == Holds(Subscriptions) || c == ReaderHoldsBoth
  }

  /** No two threads are inside the same lock, in any reachable state. */
  lemma {:induction false} MutualExclusion(kinds: Kinds, actions: seq<Action>, t: Tid, u: Tid, l: Lock)
    requires Execute(kinds, actions).Some? && t != u
    requires t in Execute(kinds, actions).value && u in Execute(kinds, actions).value
    ensures var s := Execute(kinds, actions).value;
            !(Inside(s[t], l) && Inside(s[u], l))
  {
    InvReached(kinds, actions);
    var s := Execute(kinds, actions).value;
    assert Held(s[t]) !! Held(s[u]);
    assert Inside(s[t], l) ==> l in Held(s[t]);
  }

  // ------------------------------------------------------------ what threads do hold

  /** Left alone, a thread moves through its program unhindered. */
  lemma MovesAlone(kinds: Kinds, actions: seq<Action>, t: Tid, c: Control, c': Control)
    requires Execute(kinds, actions) == Some(map[t := c]) && Next(kinds, t, c, c') && c' != AwaitsSocket(t)
    requires Wanted(c).Some? ==> Wanted(c).value !in Held(c)
    requires !c.AwaitsSocket? || c.peer != t
    ensures Execute(kinds, actions + [Move(t, c')]) == Some(map[t := c'])
  {
    assert (actions + [Move(t, c')])[..|actions|] == actions;
    assert map[t := c][t := c'] == map[t := c'];
  }

  lemma Takes(kinds: Kinds, t: Tid, l: Lock) returns (actions: seq<Action>)
    requires l in Entry(kinds(t))
    ensures Execute(kinds, actions) == Some(map[t := Holds(l)])
  {
    actions := [Spawn(t)];
    assert actions[..0] == [];
    assert Execute(kinds, actions) == Some(map[t := Free]);
    MovesAlone(kinds, actions, t, Free, Wants(l));
    actions := actions + [Move(t, Wants(l))];
    MovesAlone(kinds, actions, t, Wants(l), Holds(l));
    actions := actions + [Move(t, Holds(l))];
  }

  lemma TakesInside(kinds: Kinds, t: Tid, l: Lock, waiting: Control, both: Control) returns (actions: seq<Action>)
    requires l in Entry(kinds(t)) && Next(kinds, t, Holds(l), waiting) && Next(kinds, t, waiting, both)
    requires waiting == SweepWantsPending || waiting == ReaderWantsSubscriptions
    ensures Execute(kinds, actions) == Some(map[t := both])
  {
    actions := Takes(kinds, t, l);
    MovesAlone(kinds, actions, t, Holds(l), waiting);
    actions := actions + [Move(t, waiting)];
    MovesAlone(kinds, actions, t, waiting, both);
    actions := actions + [Move(t, both)];
  }

  /** Some run brings the thread there. */
  ghost predicate Attained(kinds: Kinds, t: Tid, c: Control) {
    exists actions :: Execute(kinds, actions) == Some(map[t := c])
  }

  /** The nested locks are really taken: a sweep holds the timestamps and the pending table,
      a reader holds the pending table and the subscriptions, and a caller or the sentinel
      waits for a socket thread while it holds the socket list; a caller takes each lock. */
  lemma NestingHappens(kinds: Kinds, t: Tid, peer: Tid)
    ensures kinds(t) == Timeout ==> Attained(kinds, t, SweepHoldsBoth)
    ensures kinds(t) == Socket ==> Attained(kinds, t, ReaderHoldsBoth)
    ensures kinds(t) in {Caller, Sentinel} && kinds(peer) == Socket ==> Attained(kinds, t, AwaitsSocket(peer))
    ensures kinds(t) == Caller ==> forall l :: Attained(kinds, t, Holds(l))
  {
    if kinds(t) == Timeout {
      var actions := TakesInside(kinds, t, Timestamps, SweepWantsPending, SweepHoldsBoth);
    } else if kinds(t) == Socket {
      var actions := TakesInside(kinds, t, Pending, ReaderWantsSubscriptions, ReaderHoldsBoth);
    } else if kinds(peer) == Socket {
      var actions := Takes(kinds, t, Sockets);
      MovesAlone(kinds, actions, t, Holds(Sockets), AwaitsSocket(peer));
    }
    if kinds(t) == Caller {
      forall l ensures Attained(kinds, t, Holds(l)) {
        assert l.Sockets? || l.Timestamps? || l.Pending? || l.Subscriptions?;
        var actions := Takes(kinds, t, l);
      }
    }
  }

  // ------------------------------------------------------------ no deadlock

  /** The socket list comes first, then a socket thread's reply, then the nested locks in
      the order timestamps, pending, subscriptions. */
  function Level(c: Control): nat {
    match c
    case Wants(Sockets) => 0
    case AwaitsSocket(_) => 1
    case Wants(Timestamps) => 2
    case Wants(Pending) => 3
    case SweepWantsPending => 3
    case Wants(Subscriptions) => 4
    case ReaderWantsSubscriptions => 4
    case _ => 5
  }

  lemma WaitingClimbs(kinds: Kinds, s: State, t: Tid, u: Tid)
    requires Inv(kinds, s) && WaitsFor(s, t, u)
    ensures Level(s[t]) < Level(s[u])
  {
    assert Plausible(kinds, t, s[t]) && Plausible(kinds, u, s[u]);
  }

  ghost predicate WaitChain(s: State, path: seq<Tid>) {
    forall i :: 0 <= i < |path| - 1 ==> WaitsFor(s, path[i], path[i + 1])
  }

  lemma {:induction false} ChainClimbs(kinds: Kinds, s: State, path: seq<Tid>)
    requires Inv(kinds, s) && |path| >= 2 && WaitChain(s, path)
    ensures path[0] in s && path[|path| - 1] in s
    ensures Level(s[path[0]]) < Level(s[path[|path| - 1]])
    decreases |path|
  {
    WaitingClimbs(kinds, s, path[|path| - 2], path[|path| - 1]);
    if |path| > 2 {
      ChainClimbs(kinds, s, path[..|path| - 1]);
    }
  }

  /** No reachable state has a cycle of waiting threads. */
  lemma {:induction false} NoWaitCycle(kinds: Kinds, actions: seq<Action>, path: seq<Tid>)
    requires Execute(kinds, actions).Some? && |path| >= 2
    requires WaitChain(Execute(kinds, actions).value, path)
    ensures path[0] != path[|path| - 1]
  {
    InvReached(kinds, actions);
    ChainClimbs(kinds, Execute(kinds, actions).value, path);
  }

  /** The step a thread in the middle of an operation takes next. */
  function Onward(c: Control): Control {
    match c
    case Free => Free
    case Wants(l) => Holds(l)
    case Holds(_) => Free
    case AwaitsSocket(_) => Holds(Sockets)
    case SweepWantsPending => SweepHoldsBoth
    case SweepHoldsBoth => Holds(Timestamps)
    case ReaderWantsSubscriptions => ReaderHoldsBoth
    case ReaderHoldsBoth => Holds(Pending)
  }

  lemma {:induction false} SomeBlockerRuns(kinds: Kinds, s: State, t: Tid) returns (path: seq<Tid>)
    requires Inv(kinds, s) && t in s && s[t] != Free
    ensures path != [] && path[0] == t && WaitChain(s, path)
    ensures var u := path[|path| - 1];
            u in s && s[u] != Free && !Blocked(s, u) && Enabled(kinds, s, Move(u, Onward(s[u])))
    decreases 5 - Level(s[t])
  {
    if u :| WaitsFor(s, t, u) {
      WaitingClimbs(kinds, s, t, u);
      var rest := SomeBlockerRuns(kinds, s, u);
      path := [t] + rest;
      assert forall i :: 0 < i < |path| - 1 ==> path[i] == rest[i - 1] && path[i + 1] == rest[i];
    } else {
      path := [t];
    }
  }

  /** In every reachable state, whoever is in the middle of an operation waits, through
      some chain, for a thread that can take its next step now. */
  lemma {:induction false} NoDeadlock(kinds: Kinds, actions: seq<Action>, t: Tid) returns (path: seq<Tid>)
    requires Execute(kinds, actions).Some?
    requires t in Execute(kinds, actions).value && Execute(kinds, actions).value[t] != Free
    ensures path != [] && path[0] == t && WaitChain(Execute(kinds, actions).value, path)
    ensures var s, u := Execute(kinds, actions).value, path[|path| - 1];
            u in s && s[u] != Free && Enabled(kinds, s, Move(u, Onward(s[u])))
  {
    InvReached(kinds, actions);
    path := SomeBlockerRuns(kinds, Execute(kinds, actions).value, t);
  }
}
