/** Queues of in-flight requests, as both streams keep them. */
module InFlight {
  const FIVE_SECONDS: int := 5_000_000_000  // nanoseconds

  /** The instant a future was queued, and the block number or hash it asked for. */
  datatype Request = Request(born: int, key: nat)

  predicate IsYoung(r: Request, checked: int) { checked - r.born < FIVE_SECONDS }

  function Requests(keys: seq<nat>, clock: nat -> int): (rs: seq<Request>)
    ensures |rs| == |keys|
    ensures forall i :: 0 <= i < |rs| ==> rs[i] == Request(clock(i), keys[i])
  {
    seq(|keys|, i requires 0 <= i < |keys| => Request(clock(i), keys[i]))
  }

  function Keys(queue: seq<Request>): (s: seq<nat>)
    ensures |s| == |queue|
    ensures forall i :: 0 <= i < |s| ==> s[i] == queue[i].key
  {
    seq(|queue|, i requires 0 <= i < |queue| => queue[i].key)
  }

  lemma KeysOfQueued(queue: seq<Request>, keys: seq<nat>, clock: nat -> int)
    ensures Keys(queue + Requests(keys, clock)) == Keys(queue) + keys
  {
  }

  /** Popping the front and possibly queueing it again loses at most the popped key. */
  lemma Rotate(queue: seq<Request>, kept: bool)
    requires queue != []
    ensures multiset(Keys(queue))
         == multiset(Keys(if kept then queue[1..] + [queue[0]] else queue[1..]))
            + (if kept then multiset{} else multiset{queue[0].key})
  {
    var s := Keys(queue);
    assert s == [s[0]] + s[1..];
    assert Keys(queue[1..]) == s[1..];
    assert Keys(queue[1..] + [queue[0]]) == s[1..] + [s[0]];
  }

  /** Every requested key is queued, served or lost, with multiplicity. */
  ghost predicate Balanced(requested: multiset<nat>, queued: seq<nat>, served: seq<nat>, lost: seq<nat>) {
    requested == multiset(queued) + multiset(served) + multiset(lost)
  }

  /** The balance survives a batch of new requests and one popped request. */
  lemma Rebalance(requested: multiset<nat>, batch: multiset<nat>, queued: seq<nat>, queued': seq<nat>,
                  served: seq<nat>, lost: seq<nat>, gone: nat, kept: bool, success: bool)
    requires Balanced(requested, queued, served, lost) && !(kept && success)
    requires multiset(queued) + batch == multiset(queued') + if kept then multiset{} else multiset{gone}
    ensures Balanced(requested + batch, queued',
                     if success then served + [gone] else served,
                     if kept || success then lost else lost + [gone])
  {
    assert multiset(served + [gone]) == multiset(served) + multiset{gone};
    assert multiset(lost + [gone]) == multiset(lost) + multiset{gone};
    var settled := multiset(served) + multiset(lost);
    assert requested + batch == (multiset(queued) + batch) + settled;
    if !kept {
      assert requested + batch == multiset(queued') + (settled + multiset{gone});
    }
  }
}
