/**
  The 32-bit dependency counter of a gathering session (src/gathernodeinputhandler.cpp:27-35) without a bound on
  the number of shards: when the session is ready, and when that means that every shard has arrived.
 */
module GatherBound {
  import opened Integers
  import opened Collections
  import opened MixedRadix
  import opened SessionMetadata
  import opened Blobs
  import opened InputHandlers
  import opened GatherRuns

  /** A wiring, the pairs it waits for, and deliveries of such pairs. */
  ghost predicate Wired(all: set<(nat, nat)>, deps: seq<Mapping>, details: CollapseDetails) {
    WellWired(deps) && details.names != [] && Covers(all, deps, details.sizes)
  }

  ghost predicate Within(all: set<(nat, nat)>, arrivals: seq<Arrival>) {
    forall i :: 0 <= i < |arrivals| ==> (arrivals[i].dep, arrivals[i].shard) in all
  }

  // ----- what every run does to the counter -----

  lemma DeliveryState(h: Handler, deps: seq<Mapping>, seen: set<(nat, nat)>, a: Arrival, after: Handler)
    requires WellWired(deps) && h.kind.Gather? && Stores(h, deps, seen) && Arrives(h, deps, a, after)
    ensures (a.dep, a.shard) !in seen && Stores(after, deps, seen + {(a.dep, a.shard)})
    ensures after.kind == h.kind && after.used == h.used && after.remaining == Decremented(h.remaining)
  {
    var mapping := deps[a.dep];
    var fed := Feed(h, mapping, a.inputs, a.shard).value;
    FeedExactly(h, mapping, a.inputs, a.shard);
    FeedEffect(h, mapping, a.inputs, a.shard);
    FreshPair(h, deps, seen, a);
    FedStores(h, deps, seen, a, fed);
    SameStorage(fed, after, deps, seen + {(a.dep, a.shard)});
  }

  lemma {:induction false} RunState(all: set<(nat, nat)>, deps: seq<Mapping>, details: CollapseDetails,
                                    arrivals: seq<Arrival>, states: seq<Handler>, n: nat)
    requires Wired(all, deps, details) && IsRun(deps, details, arrivals, states) && n <= |arrivals|
    ensures states[n].kind == Gather(details.sizes) && !states[n].used
    ensures states[n].remaining == CounterAfter(|all|, n)
    ensures Stores(states[n], deps, Seen(arrivals[..n])) && DistinctPairs(arrivals[..n])
  {
    CoversSize(all, deps, details.sizes);
    if n == 0 {
      assert Seen(arrivals[..0]) == {};
    } else {
      var k := n - 1;
      RunState(all, deps, details, arrivals, states, k);
      assert Arrives(states[k], deps, arrivals[k], states[k + 1]);
      DeliveryState(states[k], deps, Seen(arrivals[..k]), arrivals[k], states[n]);
      SeenStep(arrivals, n);
      CounterCountsDown(|all|, k);
    }
  }

  lemma {:induction false} SeenSize(arrivals: seq<Arrival>)
    requires DistinctPairs(arrivals)
    ensures |Seen(arrivals)| == |arrivals|
  {
    if arrivals == [] {
      assert Seen(arrivals) == {};
    } else {
      var k := |arrivals| - 1;
      SeenSize(arrivals[..k]);
      assert arrivals[..|arrivals|] == arrivals;
      SeenStep(arrivals, |arrivals|);
      LastIsNew(arrivals);
    }
  }

  /**
    Over every run, whatever the number of expected pairs: the session is ready exactly when what is left is a
    multiple of 2^32, and complete exactly when nothing is left.
   */
  lemma ReadyModulo(all: set<(nat, nat)>, deps: seq<Mapping>, details: CollapseDetails,
                    arrivals: seq<Arrival>, states: seq<Handler>, n: nat)
    requires Wired(all, deps, details) && IsRun(deps, details, arrivals, states) && Within(all, arrivals)
    requires n <= |arrivals|
    ensures n <= |all|
    ensures Ready(states[n]) <==> (|all| - n) % INT_VALUES == 0
    ensures Seen(arrivals[..n]) == all <==> n == |all|
  {
    RunState(all, deps, details, arrivals, states, n);
    SeenSize(arrivals[..n]);
    forall p | p in Seen(arrivals[..n]) ensures p in all {
      var i :| 0 <= i < n && p == (arrivals[..n][i].dep, arrivals[..n][i].shard);
      assert p == (arrivals[i].dep, arrivals[i].shard);
    }
    SubsetCardinality(Seen(arrivals[..n]), all);
  }

  // ----- a run that is ready too early -----

  /** `inputs(d, s)` is what dependency `d` delivers as shard `s`. */
  ghost predicate Supplies(deps: seq<Mapping>, sizes: seq<nat>, tensors: map<string, Blob>,
                           inputs: (nat, nat) -> map<string, Blob>)
    requires TensorsFor(tensors, deps, sizes)
  {
    forall d: nat, s: nat :: d < |deps| && s < Product(sizes) ==>
             Brings(Arrival(d, s, inputs(d, s)), deps, tensors, sizes)
  }

  /** The first `n` shards, dependency after dependency, in order. */
  function Queue(count: nat, inputs: (nat, nat) -> map<string, Blob>, n: nat): (r: seq<Arrival>)
    requires count > 0
    ensures |r| == n
  {
    seq(n, (i: nat) => Arrival(i / count, i % count, inputs(i / count, i % count)))
  }

  lemma QueueIndex(deps: nat, count: nat, i: nat)
    requires count > 0 && i < deps * count
    ensures i / count < deps && i % count < count && (i / count) * count <= i && i == (i / count) * count + i % count
  {
    DivisionIdentity(i, count);
    QuotientBelow(i, deps, count);
  }

  lemma QueueFacts(deps: nat, count: nat, inputs: (nat, nat) -> map<string, Blob>, n: nat)
    requires count > 0 && 0 < n <= deps * count
    ensures var q, k := Queue(count, inputs, n), n - 1;
            && q[..k] == Queue(count, inputs, k)
            && q[k].dep < deps && q[k].shard < count
            && (q[k].dep, q[k].shard) !in Seen(q[..k])
            && (q[k].dep, 0) in Seen(q)
  {
    var q, k := Queue(count, inputs, n), n - 1;
    QueueIndex(deps, count, k);
    forall i | 0 <= i < k ensures (q[..k][i].dep, q[..k][i].shard) != (q[k].dep, q[k].shard) {
      DivisionIdentity(i, count);
    }
    var first := (k / count) * count;
    DivModUnique(k / count, 0, count);
    assert first / count == k / count && first % count == 0;
    assert (q[first].dep, q[first].shard) == (q[k].dep, 0);
  }

  /** Every stored input has its shard 0. */
  ghost predicate HaveFirst(h: Handler) {
    forall name :: name in h.shards ==> 0 in h.shards[name]
  }

  lemma FedHaveFirst(h: Handler, deps: seq<Mapping>, seen: set<(nat, nat)>, a: Arrival, fed: Handler)
    requires HaveFirst(h) && a.dep < |deps| && Fed(h, deps[a.dep], a.inputs, a.shard, fed)
    requires Stores(fed, deps, seen) && (a.dep, 0) in seen
    ensures HaveFirst(fed)
  {
    forall name | name in fed.shards ensures 0 in fed.shards[name] {
      if Targets(deps[a.dep], name) {
        assert 0 in Stored(fed, name);
      } else {
        assert Stored(fed, name) == Stored(h, name);
      }
    }
  }

  /** With shard 0 of every input there, the notification goes through, complete or not. */
  lemma Notifiable(fed: Handler, deps: seq<Mapping>, tensors: map<string, Blob>, sizes: seq<nat>)
    returns (after: Handler)
    requires TensorsFor(tensors, deps, sizes) && Carries(fed, deps, tensors, sizes) && HaveFirst(fed)
    requires fed.kind == Gather(sizes)
    ensures NotifyOk(fed) && Notified(fed, after)
  {
    forall name | name in fed.shards
      ensures Consolidatable(sizes, fed.shards[name]) && IsConsolidated(sizes, fed.shards[name], tensors[name])
    {
      assert ShardsOf(fed.shards[name], tensors[name], sizes);
      ShardsConsolidatable(tensors[name], |sizes|, fed.shards[name]);
      ShardsConsolidateTo(tensors[name], |sizes|, fed.shards[name]);
    }
    after := fed.(remaining := Decremented(fed.remaining));
    if Finishes(fed) {
      after := after.(inputs := map name | name in fed.inputs.Keys + fed.shards.Keys ::
                                  if name in fed.inputs then fed.inputs[name] else tensors[name]);
    }
  }

  lemma {:induction false} QueueRun(all: set<(nat, nat)>, deps: seq<Mapping>, details: CollapseDetails,
                                    tensors: map<string, Blob>, inputs: (nat, nat) -> map<string, Blob>, n: nat)
    returns (states: seq<Handler>)
    requires Wired(all, deps, details) && TensorsFor(tensors, deps, details.sizes) && Product(details.sizes) > 0
    requires Supplies(deps, details.sizes, tensors, inputs) && n <= |deps| * Product(details.sizes)
    ensures IsRun(deps, details, Queue(Product(details.sizes), inputs, n), states)
    ensures Carries(states[n], deps, tensors, details.sizes) && HaveFirst(states[n])
  {
    var count := Product(details.sizes);
    if n == 0 {
      states := EmptyRun(deps, details, tensors);
      assert Queue(count, inputs, 0) == [];
    } else {
      hide Wired, IsRun, Carries, HaveFirst, Brings, Supplies, TensorsFor, Queue;
      var before := QueueRun(all, deps, details, tensors, inputs, n - 1);
      QueueFacts(|deps|, count, inputs, n);
      SuppliesAt(deps, details.sizes, tensors, inputs, n);
      states := ExtendRun(all, deps, details, tensors, Queue(count, inputs, n), before);
    }
  }

  lemma EmptyRun(deps: seq<Mapping>, details: CollapseDetails, tensors: map<string, Blob>)
    returns (states: seq<Handler>)
    requires TensorsFor(tensors, deps, details.sizes)
    ensures IsRun(deps, details, [], states) && Carries(states[0], deps, tensors, details.sizes) && HaveFirst(states[0])
  {
    states := [Create(|deps|, details)];
  }

  lemma ExtendRun(all: set<(nat, nat)>, deps: seq<Mapping>, details: CollapseDetails, tensors: map<string, Blob>,
                  q: seq<Arrival>, before: seq<Handler>)
    returns (states: seq<Handler>)
    requires Wired(all, deps, details) && TensorsFor(tensors, deps, details.sizes) && q != []
    requires var k := |q| - 1;
             && IsRun(deps, details, q[..k], before)
             && Carries(before[k], deps, tensors, details.sizes) && HaveFirst(before[k])
             && Brings(q[k], deps, tensors, details.sizes)
             && (q[k].dep, q[k].shard) !in Seen(q[..k]) && (q[k].dep, 0) in Seen(q)
    ensures IsRun(deps, details, q, states)
    ensures Carries(states[|q|], deps, tensors, details.sizes) && HaveFirst(states[|q|])
  {
    var k := |q| - 1;
    RunLength(deps, details, q[..k], before);
    RunState(all, deps, details, q[..k], before, k);
    assert q[..k][..k] == q[..k] && q[..|q|] == q;
    SeenStep(q, |q|);
    hide IsRun, Carries, HaveFirst, Stores, Brings, TensorsFor, Create, Seen;
    var after := QueueStep(deps, tensors, details.sizes, Seen(q[..k]), before[k], q[k]);
    states := before + [after];
    RunAppend(deps, details, q, before, after);
  }

  lemma RunLength(deps: seq<Mapping>, details: CollapseDetails, arrivals: seq<Arrival>, states: seq<Handler>)
    requires IsRun(deps, details, arrivals, states)
    ensures |states| == |arrivals| + 1
  {
  }

  lemma SuppliesAt(deps: seq<Mapping>, sizes: seq<nat>, tensors: map<string, Blob>,
                   inputs: (nat, nat) -> map<string, Blob>, n: nat)
    requires TensorsFor(tensors, deps, sizes) && Supplies(deps, sizes, tensors, inputs)
    requires Product(sizes) > 0 && 0 < n <= |deps| * Product(sizes)
    ensures Brings(Queue(Product(sizes), inputs, n)[n - 1], deps, tensors, sizes)
  {
    QueueIndex(|deps|, Product(sizes), n - 1);
  }

  lemma QueueStep(deps: seq<Mapping>, tensors: map<string, Blob>, sizes: seq<nat>, seen: set<(nat, nat)>, h: Handler,
                  a: Arrival)
    returns (after: Handler)
    requires WellWired(deps) && TensorsFor(tensors, deps, sizes) && Brings(a, deps, tensors, sizes)
    requires h.kind == Gather(sizes) && Carries(h, deps, tensors, sizes) && HaveFirst(h) && Stores(h, deps, seen)
    requires (a.dep, a.shard) !in seen && (a.dep, 0) in seen + {(a.dep, a.shard)}
    ensures Arrives(h, deps, a, after) && Carries(after, deps, tensors, sizes) && HaveFirst(after)
  {
    var mapping := deps[a.dep];
    PairFeeds(h, deps, tensors, sizes, seen, a);
    FeedExactly(h, mapping, a.inputs, a.shard);
    FeedEffect(h, mapping, a.inputs, a.shard);
    var fed := Feed(h, mapping, a.inputs, a.shard).value;
    FedCarries(h, deps, a, fed, tensors, sizes);
    FedStores(h, deps, seen, a, fed);
    FedHaveFirst(h, deps, seen + {(a.dep, a.shard)}, a, fed);
    after := Notifiable(fed, deps, tensors, sizes);
  }

  /**
    With 2^32 expected pairs or more there is a successful run of proper, pairwise different deliveries after
    which the session is ready although pairs are missing.
   */
  lemma ReadyTooEarly(all: set<(nat, nat)>, deps: seq<Mapping>, details: CollapseDetails,
                      tensors: map<string, Blob>, inputs: (nat, nat) -> map<string, Blob>)
    returns (arrivals: seq<Arrival>, states: seq<Handler>)
    requires Wired(all, deps, details) && TensorsFor(tensors, deps, details.sizes) && Product(details.sizes) > 0
    requires Supplies(deps, details.sizes, tensors, inputs) && |all| >= INT_VALUES
    ensures IsRun(deps, details, arrivals, states) && Within(all, arrivals)
    ensures |arrivals| == |all| % INT_VALUES && Ready(states[|arrivals|]) && Seen(arrivals) != all
  {
    var n, count := |all| % INT_VALUES, Product(details.sizes);
    CoversSize(all, deps, details.sizes);
    arrivals := Queue(count, inputs, n);
    states := QueueRun(all, deps, details, tensors, inputs, n);
    forall i | 0 <= i < n ensures (arrivals[i].dep, arrivals[i].shard) in all {
      QueueIndex(|deps|, count, i);
    }
    ReadyModulo(all, deps, details, arrivals, states, n);
    assert arrivals[..n] == arrivals;
  }

  ghost predicate ReadyMeansComplete(all: set<(nat, nat)>, arrivals: seq<Arrival>, states: seq<Handler>)
    requires |states| == |arrivals| + 1
  {
    forall n :: 0 <= n <= |arrivals| && Ready(states[n]) ==> Seen(arrivals[..n]) == all
  }

  /** Being ready means having everything, in all runs, if and only if fewer than 2^32 pairs are expected. */
  lemma BoundExactly(all: set<(nat, nat)>, deps: seq<Mapping>, details: CollapseDetails,
                     tensors: map<string, Blob>, inputs: (nat, nat) -> map<string, Blob>)
    requires Wired(all, deps, details) && TensorsFor(tensors, deps, details.sizes) && Product(details.sizes) > 0
    requires Supplies(deps, details.sizes, tensors, inputs)
    ensures |all| < INT_VALUES
            <==> forall arrivals, states :: IsRun(deps, details, arrivals, states) && Within(all, arrivals) ==>
                   ReadyMeansComplete(all, arrivals, states)
  {
    if |all| < INT_VALUES {
      forall arrivals, states | IsRun(deps, details, arrivals, states) && Within(all, arrivals)
        ensures ReadyMeansComplete(all, arrivals, states)
      {
        forall n | 0 <= n <= |arrivals| && Ready(states[n]) ensures Seen(arrivals[..n]) == all {
          ReadyModulo(all, deps, details, arrivals, states, n);
        }
      }
    } else {
      var arrivals, states := ReadyTooEarly(all, deps, details, tensors, inputs);
      assert arrivals[..|arrivals|] == arrivals;
    }
  }

  /** Three levels within the limit of one split expect 2^32 pairs: the session is ready when it is created. */
  lemma ReadyWhenCreated(names: seq<string>)
    requires |names| == 3
    ensures Ready(Create(1, CollapseDetails(names, [4096, 4096, 256])))
  {
    assert [4096, 4096, 256][1..] == [4096, 256] && [4096, 256][1..] == [256] && [256][1..] == [];
    assert Product([256]) == 256 && Product([4096, 256]) == 0x10_0000;
  }
}
