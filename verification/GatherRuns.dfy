/**
  Every run of one gathering session: dependencies deliver their shards one at a time, in any
  order, each delivery being `setInput` for all mapped inputs followed by
  `notifyFinishedDependency` (src/node.cpp:110-134).
 */
module GatherRuns {
  import opened Integers
  import opened Wrappers
  import opened Collections
  import opened MixedRadix
  import opened SessionMetadata
  import opened Blobs
  import opened InputHandlers

  /** Pairs of (output name of the dependency, input name of this node). */
  type Mapping = seq<(string, string)>

  datatype Arrival = Arrival(dep: nat, shard: nat, inputs: map<string, Blob>)

  /** The loop over a dependency's mapping. */
  function Feed(h: Handler, mapping: Mapping, inputs: map<string, Blob>, shard: nat): Result<Handler, Status>
    decreases |mapping|
  {
    if mapping == [] then Ok(h)
    else if mapping[0].0 !in inputs then Err(MissingInput)
    else
      match Put(h, mapping[0].1, inputs[mapping[0].0], shard)
      case Err(e) => Err(e)
      case Ok(next) => Feed(next, mapping[1..], inputs, shard)
  }

  /** Where that loop leaves the handler, whether it gets to the end or not. */
  function FedAsFar(h: Handler, mapping: Mapping, inputs: map<string, Blob>, shard: nat): Handler
    decreases |mapping|
  {
    if mapping == [] || mapping[0].0 !in inputs then h
    else
      match Put(h, mapping[0].1, inputs[mapping[0].0], shard)
      case Err(_) => h
      case Ok(next) => FedAsFar(next, mapping[1..], inputs, shard)
  }

  ghost predicate DistinctTargets(mapping: Mapping) {
    forall i, j :: 0 <= i < j < |mapping| ==> mapping[i].1 != mapping[j].1
  }

  ghost predicate Targets(mapping: Mapping, name: string) {
    exists i :: 0 <= i < |mapping| && mapping[i].1 == name
  }

  ghost predicate IsInput(deps: seq<Mapping>, name: string) {
    exists d :: 0 <= d < |deps| && Targets(deps[d], name)
  }

  /** Every dependency maps something, and no input is fed twice. */
  ghost predicate WellWired(deps: seq<Mapping>) {
    && deps != []
    && (forall d :: 0 <= d < |deps| ==> deps[d] != [] && DistinctTargets(deps[d]))
    && (forall d, e, name :: 0 <= d < |deps| && 0 <= e < |deps| && Targets(deps[d], name) && Targets(deps[e], name) ==>
         d == e)
  }

  ghost predicate Arrives(h: Handler, deps: seq<Mapping>, a: Arrival, after: Handler) {
    a.dep < |deps| && Delivery(h, deps[a.dep], a.inputs, a.shard, after)
  }

  /** One dependency's inputs are set and its end is notified, all successfully. */
  ghost predicate Delivery(h: Handler, mapping: Mapping, inputs: map<string, Blob>, shard: nat, after: Handler) {
    && Feed(h, mapping, inputs, shard).Ok?
    && NotifyOk(Feed(h, mapping, inputs, shard).value)
    && Notified(Feed(h, mapping, inputs, shard).value, after)
  }

  // ----- one delivery -----

  ghost predicate FeedAllowed(h: Handler, mapping: Mapping, inputs: map<string, Blob>, shard: nat) {
    forall i :: 0 <= i < |mapping| ==> mapping[i].0 in inputs && shard !in Stored(h, mapping[i].1)
  }

  ghost predicate Fed(h: Handler, mapping: Mapping, inputs: map<string, Blob>, shard: nat, after: Handler) {
    && after == h.(shards := after.shards)
    && (forall name :: name in after.shards <==> name in h.shards || Targets(mapping, name))
    && (forall name :: !Targets(mapping, name) ==> Stored(after, name) == Stored(h, name))
    && (forall i :: 0 <= i < |mapping| && mapping[i].0 in inputs ==>
          Stored(after, mapping[i].1) == Stored(h, mapping[i].1)[shard := inputs[mapping[i].0]])
  }

  lemma TargetsSplit(mapping: Mapping, name: string)
    requires mapping != []
    ensures Targets(mapping, name) <==> name == mapping[0].1 || Targets(mapping[1..], name)
  {
    if Targets(mapping, name) {
      var i :| 0 <= i < |mapping| && mapping[i].1 == name;
      if i > 0 {
        assert mapping[1..][i - 1].1 == name;
      }
    }
    if Targets(mapping[1..], name) {
      var i :| 0 <= i < |mapping[1..]| && mapping[1..][i].1 == name;
      assert mapping[i + 1].1 == name;
    }
  }

  lemma {:induction false} FeedExactly(h: Handler, mapping: Mapping, inputs: map<string, Blob>, shard: nat)
    requires h.kind.Gather? && DistinctTargets(mapping)
    ensures Feed(h, mapping, inputs, shard).Ok? <==> FeedAllowed(h, mapping, inputs, shard)
    decreases |mapping|
  {
    if mapping != [] {
      var next := Put(h, mapping[0].1, if mapping[0].0 in inputs then inputs[mapping[0].0] else Blob(Other, [], []),
            shard);
      if next.Ok? {
        FeedExactly(next.value, mapping[1..], inputs, shard);
        assert forall i :: 1 <= i < |mapping| ==> mapping[i] == mapping[1..][i - 1];
        assert forall i :: 1 <= i < |mapping| ==> Stored(next.value, mapping[i].1) == Stored(h, mapping[i].1);
      }
    }
  }

  lemma {:induction false} FeedEffect(h: Handler, mapping: Mapping, inputs: map<string, Blob>, shard: nat)
    requires h.kind.Gather? && DistinctTargets(mapping) && Feed(h, mapping, inputs, shard).Ok?
    ensures Fed(h, mapping, inputs, shard, Feed(h, mapping, inputs, shard).value)
    decreases |mapping|
  {
    if mapping != [] {
      var next := Put(h, mapping[0].1, inputs[mapping[0].0], shard).value;
      var after := Feed(h, mapping, inputs, shard).value;
      FeedEffect(next, mapping[1..], inputs, shard);
      forall name ensures Targets(mapping, name) <==> name == mapping[0].1 || Targets(mapping[1..], name) {
        TargetsSplit(mapping, name);
      }
      assert !Targets(mapping[1..], mapping[0].1);
      forall i | 0 <= i < |mapping| && mapping[i].0 in inputs
        ensures Stored(after, mapping[i].1) == Stored(h, mapping[i].1)[shard := inputs[mapping[i].0]]
      {
        if i > 0 {
          assert mapping[i] == mapping[1..][i - 1];
        }
      }
    }
  }

  // ----- readiness -----

  /** The counter holds what is left of `total` deliveries, and nothing is consolidated before the end. */
  ghost predicate Counts(h: Handler, total: nat, seen: set<(nat, nat)>) {
    && h.kind.Gather?
    && |seen| <= total
    && h.remaining == total - |seen|
    && (h.remaining > 0 ==> h.inputs == map[])
  }

  /** The storage of an input holds exactly the shards its dependency has delivered. */
  ghost predicate Stores(h: Handler, deps: seq<Mapping>, seen: set<(nat, nat)>) {
    && (forall name :: name in h.shards ==> IsInput(deps, name))
    && (forall d, name, s :: 0 <= d < |deps| && Targets(deps[d], name) ==>
          (s in Stored(h, name) <==> (d, s) in seen))
  }

  lemma RoomLeft(seen: set<(nat, nat)>, all: set<(nat, nat)>, pair: (nat, nat))
    requires seen <= all && pair in all && pair !in seen
    ensures |seen| < |all| && seen + {pair} <= all && |seen + {pair}| == |seen| + 1
  {
    SubsetCardinality(seen + {pair}, all);
  }

  /** A delivery is refused if its pair has been here before; otherwise it is counted once, without underflow. */
  lemma ArrivalCounted(h: Handler, deps: seq<Mapping>, all: set<(nat, nat)>, seen: set<(nat, nat)>, a: Arrival,
                       after: Handler)
    requires WellWired(deps) && |all| < INT_VALUES && seen <= all && (a.dep, a.shard) in all
    requires Counts(h, |all|, seen) && Stores(h, deps, seen)
    requires Arrives(h, deps, a, after)
    ensures (a.dep, a.shard) !in seen && h.remaining > 0 && after.remaining == h.remaining - 1
    ensures Counts(after, |all|, seen + {(a.dep, a.shard)}) && Stores(after, deps, seen + {(a.dep, a.shard)})
    ensures after.kind == h.kind && after.used == h.used
  {
    var mapping := deps[a.dep];
    var fed := Feed(h, mapping, a.inputs, a.shard).value;
    FeedExactly(h, mapping, a.inputs, a.shard);
    FeedEffect(h, mapping, a.inputs, a.shard);
    FreshPair(h, deps, seen, a);
    RoomLeft(seen, all, (a.dep, a.shard));
    FedStores(h, deps, seen, a, fed);
    SameStorage(fed, after, deps, seen + {(a.dep, a.shard)});
    NotifyCounts(fed, after, |all|, seen, (a.dep, a.shard));
  }

  lemma FreshPair(h: Handler, deps: seq<Mapping>, seen: set<(nat, nat)>, a: Arrival)
    requires a.dep < |deps| && deps[a.dep] != [] && Stores(h, deps, seen)
    requires FeedAllowed(h, deps[a.dep], a.inputs, a.shard)
    ensures (a.dep, a.shard) !in seen
  {
    var mapping := deps[a.dep];
    assert Targets(mapping, mapping[0].1);
    assert a.shard !in Stored(h, mapping[0].1);
  }

  lemma NotifyCounts(fed: Handler, after: Handler, total: nat, seen: set<(nat, nat)>, pair: (nat, nat))
    requires total < INT_VALUES && Counts(fed, total, seen) && |seen| < total && pair !in seen
    requires Notified(fed, after)
    ensures after.remaining == fed.remaining - 1 && Counts(after, total, seen + {pair})
  {
    assert Decremented(fed.remaining) == fed.remaining - 1;
    assert |seen + {pair}| == |seen| + 1;
  }

  lemma SameStorage(h: Handler, g: Handler, deps: seq<Mapping>, seen: set<(nat, nat)>)
    requires Stores(h, deps, seen) && g.shards == h.shards
    ensures Stores(g, deps, seen)
  {
    assert forall name :: Stored(g, name) == Stored(h, name);
  }

  lemma FedStores(h: Handler, deps: seq<Mapping>, seen: set<(nat, nat)>, a: Arrival, fed: Handler)
    requires WellWired(deps) && Stores(h, deps, seen) && a.dep < |deps|
    requires FeedAllowed(h, deps[a.dep], a.inputs, a.shard) && Fed(h, deps[a.dep], a.inputs, a.shard, fed)
    ensures Stores(fed, deps, seen + {(a.dep, a.shard)})
  {
    forall d, name, s | 0 <= d < |deps| && Targets(deps[d], name)
      ensures s in Stored(fed, name) <==> (d, s) in seen + {(a.dep, a.shard)}
    {
      if d == a.dep {
        var i :| 0 <= i < |deps[d]| && deps[d][i].1 == name;
        assert Stored(fed, name) == Stored(h, name)[a.shard := a.inputs[deps[d][i].0]];
      } else {
        assert !Targets(deps[a.dep], name);
      }
    }
  }

  /** The states of a session from its creation through the given deliveries. */
  ghost predicate IsRun(deps: seq<Mapping>, details: CollapseDetails, arrivals: seq<Arrival>, states: seq<Handler>) {
    && |states| == |arrivals| + 1
    && states[0] == Create(|deps|, details)
    && forall i :: 0 <= i < |arrivals| ==> Arrives(states[i], deps, arrivals[i], states[i + 1])
  }

  function Seen(arrivals: seq<Arrival>): set<(nat, nat)> {
    set i | 0 <= i < |arrivals| :: (arrivals[i].dep, arrivals[i].shard)
  }

  ghost predicate DistinctPairs(arrivals: seq<Arrival>) {
    forall i, j :: 0 <= i < j < |arrivals| ==>
                     arrivals[i].dep != arrivals[j].dep || arrivals[i].shard != arrivals[j].shard
  }

  /** `all` is the set of (dependency, shard) pairs a session waits for. */
  ghost predicate Covers(all: set<(nat, nat)>, deps: seq<Mapping>, sizes: seq<nat>) {
    forall d: nat, s: nat :: (d, s) in all <==> d < |deps| && s < Product(sizes)
  }

  lemma CoversSize(all: set<(nat, nat)>, deps: seq<Mapping>, sizes: seq<nat>)
    requires Covers(all, deps, sizes)
    ensures |all| == |deps| * Product(sizes)
  {
    assert all == Pairs(|deps|, Product(sizes));
  }

  /** The hypotheses of the gather theorems: the 32-bit bound, and deliveries that come from the wiring. */
  ghost predicate Sound(all: set<(nat, nat)>, deps: seq<Mapping>, details: CollapseDetails, arrivals: seq<Arrival>) {
    && WellWired(deps)
    && details.names != []
    && Covers(all, deps, details.sizes)
    && |all| < INT_VALUES
    && forall i :: 0 <= i < |arrivals| ==> (arrivals[i].dep, arrivals[i].shard) in all
  }

  lemma CreatedTracks(all: set<(nat, nat)>, deps: seq<Mapping>, details: CollapseDetails)
    requires details.names != [] && Covers(all, deps, details.sizes) && |all| < INT_VALUES
    ensures Counts(Create(|deps|, details), |all|, {})
    ensures Stores(Create(|deps|, details), deps, {})
  {
    CoversSize(all, deps, details.sizes);
  }

  lemma {:induction false} RunTracks(all: set<(nat, nat)>, deps: seq<Mapping>, details: CollapseDetails,
                                     arrivals: seq<Arrival>, states: seq<Handler>, n: nat)
    requires Sound(all, deps, details, arrivals) && IsRun(deps, details, arrivals, states) && n <= |arrivals|
    ensures Counts(states[n], |all|, Seen(arrivals[..n]))
    ensures Stores(states[n], deps, Seen(arrivals[..n]))
    ensures states[n].kind == Gather(details.sizes) && !states[n].used
    ensures DistinctPairs(arrivals[..n]) && |Seen(arrivals[..n])| == n
    ensures Seen(arrivals[..n]) <= all
  {
    if n == 0 {
      CreatedTracks(all, deps, details);
      assert Seen(arrivals[..0]) == {};
    } else {
      RunTracks(all, deps, details, arrivals, states, n - 1);
      var k := n - 1;
      assert Arrives(states[k], deps, arrivals[k], states[k + 1]);
      ArrivalCounted(states[k], deps, all, Seen(arrivals[..k]), arrivals[k], states[n]);
      SeenStep(arrivals, n);
    }
  }

  lemma SeenStep(arrivals: seq<Arrival>, n: nat)
    requires 0 < n <= |arrivals|
    ensures Seen(arrivals[..n]) == Seen(arrivals[..n - 1]) + {(arrivals[n - 1].dep, arrivals[n - 1].shard)}
    ensures DistinctPairs(arrivals[..n - 1])
            && (arrivals[n - 1].dep, arrivals[n - 1].shard) !in Seen(arrivals[..n - 1]) ==>
              DistinctPairs(arrivals[..n])
  {
    var all, init, last := arrivals[..n], arrivals[..n - 1], (arrivals[n - 1].dep, arrivals[n - 1].shard);
    assert forall i :: 0 <= i < n - 1 ==> all[i] == init[i];
    forall p ensures p in Seen(all) <==> p in Seen(init) || p == last {
      if p in Seen(init) {
        var i :| 0 <= i < |init| && p == (init[i].dep, init[i].shard);
        assert p == (all[i].dep, all[i].shard);
      }
      if p == last {
        assert p == (all[n - 1].dep, all[n - 1].shard);
      }
    }
    forall i | 0 <= i < n - 1 ensures (all[i].dep, all[i].shard) in Seen(init) {
      assert (init[i].dep, init[i].shard) in Seen(init);
    }
  }

  /**
    Readiness by pigeonhole.  Over every successful run no pair is delivered twice, the counter is what
    is left and never wraps, and the session is ready exactly when every dependency has delivered every shard.
   */
  lemma ReadyExactlyWhenComplete(all: set<(nat, nat)>, deps: seq<Mapping>, details: CollapseDetails,
                                 arrivals: seq<Arrival>, states: seq<Handler>, n: nat)
    requires Sound(all, deps, details, arrivals) && IsRun(deps, details, arrivals, states) && n <= |arrivals|
    ensures DistinctPairs(arrivals)
    ensures |all| == |deps| * Product(details.sizes)
    ensures n <= |all|
    ensures states[n].remaining == |all| - n
    ensures Ready(states[n]) <==> Seen(arrivals[..n]) == all
  {
    CoversSize(all, deps, details.sizes);
    RunTracks(all, deps, details, arrivals, states, |arrivals|);
    assert arrivals[..|arrivals|] == arrivals;
    RunTracks(all, deps, details, arrivals, states, n);
    SubsetCardinality(Seen(arrivals[..n]), all);
  }

  /** `remainingDependencies` after `n` decrements of the 32-bit product. */
  function CounterAfter(total: nat, n: nat): nat {
    (total - n) % INT_VALUES
  }

  lemma CounterCountsDown(total: nat, n: nat)
    ensures CounterAfter(total, 0) == total % INT_VALUES
    ensures Decremented(CounterAfter(total, n)) == CounterAfter(total, n + 1)
  {
  }

  // ----- what a completed session holds -----

  /** One tensor per mapped input, each cut along the collapsed sizes. */
  ghost predicate TensorsFor(tensors: map<string, Blob>, deps: seq<Mapping>, sizes: seq<nat>) {
    && (forall d, name :: 0 <= d < |deps| && Targets(deps[d], name) ==> name in tensors)
    && (forall name :: name in tensors ==>
          && WellFormed(tensors[name])
          && Supported(tensors[name].precision)
          && |sizes| <= |tensors[name].dims|
          && tensors[name].dims[..|sizes|] == sizes)
  }

  ghost predicate ShardsOf(shards: map<nat, Blob>, tensor: Blob, sizes: seq<nat>)
    requires WellFormed(tensor) && |sizes| <= |tensor.dims| && tensor.dims[..|sizes|] == sizes
  {
    forall s :: s in shards ==> s < Product(sizes) && shards[s] == Shard(tensor, |sizes|, s)
  }

  ghost predicate Carries(h: Handler, deps: seq<Mapping>, tensors: map<string, Blob>, sizes: seq<nat>)
    requires TensorsFor(tensors, deps, sizes)
  {
    forall name :: name in h.shards ==> name in tensors && ShardsOf(h.shards[name], tensors[name], sizes)
  }

  /** A delivery brings, for each mapped input, the shard of that input's tensor at the delivered position. */
  ghost predicate Brings(a: Arrival, deps: seq<Mapping>, tensors: map<string, Blob>, sizes: seq<nat>)
    requires TensorsFor(tensors, deps, sizes)
  {
    && a.dep < |deps|
    && a.shard < Product(sizes)
    && forall i :: 0 <= i < |deps[a.dep]| ==> BringsOne(a, deps[a.dep][i], tensors, sizes)
  }

  ghost predicate BringsOne(a: Arrival, wire: (string, string), tensors: map<string, Blob>, sizes: seq<nat>)
    requires a.shard < Product(sizes)
  {
    && wire.0 in a.inputs
    && wire.1 in tensors
    && WellFormed(tensors[wire.1]) && |sizes| <= |tensors[wire.1].dims| && tensors[wire.1].dims[..|sizes|] == sizes
    && a.inputs[wire.0] == Shard(tensors[wire.1], |sizes|, a.shard)
  }

  lemma FedCarries(h: Handler, deps: seq<Mapping>, a: Arrival, fed: Handler, tensors: map<string, Blob>,
                   sizes: seq<nat>)
    requires TensorsFor(tensors, deps, sizes) && Brings(a, deps, tensors, sizes) && Carries(h, deps, tensors, sizes)
    requires Fed(h, deps[a.dep], a.inputs, a.shard, fed)
    ensures Carries(fed, deps, tensors, sizes)
  {
    forall name | name in fed.shards ensures name in tensors && ShardsOf(fed.shards[name], tensors[name], sizes) {
      hide Fed, Carries, Brings, Stored, Shard, WellFormed, Product;
      if Targets(deps[a.dep], name) {
        FedTargeted(h, deps, a, fed, tensors, sizes, name);
      } else {
        FedOther(h, deps, a, fed, tensors, sizes, name);
      }
    }
  }

  lemma FedTargeted(h: Handler, deps: seq<Mapping>, a: Arrival, fed: Handler, tensors: map<string, Blob>,
                    sizes: seq<nat>,
                    name: string)
    requires TensorsFor(tensors, deps, sizes) && Brings(a, deps, tensors, sizes) && Carries(h, deps, tensors, sizes)
    requires Fed(h, deps[a.dep], a.inputs, a.shard, fed) && name in fed.shards && Targets(deps[a.dep], name)
    ensures name in tensors && ShardsOf(fed.shards[name], tensors[name], sizes)
  {
    var mapping := deps[a.dep];
    hide Shard, Product;
    var i :| 0 <= i < |mapping| && mapping[i].1 == name;
    assert BringsOne(a, mapping[i], tensors, sizes);
    assert Stored(fed, name) == Stored(h, name)[a.shard := a.inputs[mapping[i].0]];
  }

  lemma FedOther(h: Handler, deps: seq<Mapping>, a: Arrival, fed: Handler, tensors: map<string, Blob>, sizes: seq<nat>,
                 name: string)
    requires TensorsFor(tensors, deps, sizes) && Carries(h, deps, tensors, sizes) && a.dep < |deps|
    requires Fed(h, deps[a.dep], a.inputs, a.shard, fed) && name in fed.shards && !Targets(deps[a.dep], name)
    ensures name in tensors && ShardsOf(fed.shards[name], tensors[name], sizes)
  {
    hide ShardsOf;
    assert Stored(fed, name) == Stored(h, name);
  }

  lemma StoredComplete(all: set<(nat, nat)>, h: Handler, deps: seq<Mapping>, sizes: seq<nat>, name: string)
    requires Covers(all, deps, sizes) && Stores(h, deps, all) && name in h.shards
    ensures Complete(h.shards[name], Product(sizes))
  {
    var d :| 0 <= d < |deps| && Targets(deps[d], name);
    forall s: nat ensures s in h.shards[name] <==> s < Product(sizes) {
      assert s in Stored(h, name) <==> (d, s) in all;
    }
  }

  lemma AllConsolidatable(all: set<(nat, nat)>, h: Handler, deps: seq<Mapping>, tensors: map<string, Blob>,
                          sizes: seq<nat>)
    requires TensorsFor(tensors, deps, sizes) && Carries(h, deps, tensors, sizes)
    requires Covers(all, deps, sizes) && Stores(h, deps, all) && Product(sizes) > 0
    ensures forall name :: name in h.shards ==> Consolidatable(sizes, h.shards[name])
  {
    forall name | name in h.shards ensures Consolidatable(sizes, h.shards[name]) {
      StoredComplete(all, h, deps, sizes, name);
      assert ShardsOf(h.shards[name], tensors[name], sizes);
      ShardsConsolidatable(tensors[name], |sizes|, h.shards[name]);
    }
  }

  /** The inputs are the mapped ones, each with its whole tensor. */
  ghost predicate Rebuilt(inputs: map<string, Blob>, deps: seq<Mapping>, tensors: map<string, Blob>) {
    && (forall name :: name in inputs <==> IsInput(deps, name))
    && (forall name :: name in inputs ==> name in tensors && inputs[name] == tensors[name])
  }

  lemma GatheredTensors(all: set<(nat, nat)>, h: Handler, after: Handler, deps: seq<Mapping>,
                        tensors: map<string, Blob>, sizes: seq<nat>)
    requires TensorsFor(tensors, deps, sizes) && Carries(h, deps, tensors, sizes)
    requires Covers(all, deps, sizes) && Stores(h, deps, all) && Product(sizes) > 0
    requires h.kind == Gather(sizes) && Finishes(h) && h.inputs == map[] && Notified(h, after)
    ensures Rebuilt(after.inputs, deps, tensors)
  {
    forall name | name in after.inputs ensures name in tensors && after.inputs[name] == tensors[name] {
      StoredComplete(all, h, deps, sizes, name);
      assert ShardsOf(h.shards[name], tensors[name], sizes);
      assert IsConsolidated(sizes, h.shards[name], after.inputs[name]);
      ConsolidationRestores(tensors[name], |sizes|, h.shards[name], after.inputs[name]);
    }
    forall d, name | 0 <= d < |deps| && Targets(deps[d], name) ensures name in h.shards {
      assert (d, 0) in all;
      assert 0 in Stored(h, name);
    }
  }

  /** Progress: a delivery of a new pair always succeeds, and keeps the storage true to the tensors. */
  lemma NewPairAccepted(all: set<(nat, nat)>, h: Handler, deps: seq<Mapping>, tensors: map<string, Blob>,
                        sizes: seq<nat>, seen: set<(nat, nat)>, a: Arrival)
    requires WellWired(deps) && TensorsFor(tensors, deps, sizes) && Brings(a, deps, tensors, sizes)
    requires h.kind == Gather(sizes) && Carries(h, deps, tensors, sizes) && Stores(h, deps, seen)
    requires Covers(all, deps, sizes) && Counts(h, |all|, seen) && |all| < INT_VALUES
    requires seen <= all && (a.dep, a.shard) !in seen
    ensures Feed(h, deps[a.dep], a.inputs, a.shard).Ok?
    ensures var fed := Feed(h, deps[a.dep], a.inputs, a.shard).value;
            && NotifyOk(fed) && Carries(fed, deps, tensors, sizes)
            && Stores(fed, deps, seen + {(a.dep, a.shard)}) && Counts(fed, |all|, seen)
  {
    var mapping := deps[a.dep];
    PairFeeds(h, deps, tensors, sizes, seen, a);
    FeedExactly(h, mapping, a.inputs, a.shard);
    FeedEffect(h, mapping, a.inputs, a.shard);
    var fed := Feed(h, mapping, a.inputs, a.shard).value;
    FedCarries(h, deps, a, fed, tensors, sizes);
    FedStores(h, deps, seen, a, fed);
    RoomLeft(seen, all, (a.dep, a.shard));
    if Finishes(fed) {
      LastPair(fed.remaining, |all|, |seen|);
      SubsetCardinality(seen + {(a.dep, a.shard)}, all);
      AllConsolidatable(all, fed, deps, tensors, sizes);
    }
  }

  lemma LastPair(remaining: nat, total: nat, count: nat)
    requires total < INT_VALUES && count < total && remaining == total - count && Decremented(remaining) == 0
    ensures count + 1 == total
  {
  }

  lemma PairFeeds(h: Handler, deps: seq<Mapping>, tensors: map<string, Blob>, sizes: seq<nat>, seen: set<(nat, nat)>,
                  a: Arrival)
    requires TensorsFor(tensors, deps, sizes) && Brings(a, deps, tensors, sizes)
    requires Stores(h, deps, seen) && (a.dep, a.shard) !in seen
    ensures FeedAllowed(h, deps[a.dep], a.inputs, a.shard)
  {
    var mapping := deps[a.dep];
    forall i | 0 <= i < |mapping| ensures mapping[i].0 in a.inputs && a.shard !in Stored(h, mapping[i].1) {
      assert BringsOne(a, mapping[i], tensors, sizes);
      assert Targets(mapping, mapping[i].1);
    }
  }

  lemma {:induction false} RunCarries(all: set<(nat, nat)>, deps: seq<Mapping>, details: CollapseDetails,
                                      tensors: map<string, Blob>, arrivals: seq<Arrival>, states: seq<Handler>, n: nat)
    requires Sound(all, deps, details, arrivals) && IsRun(deps, details, arrivals, states) && n <= |arrivals|
    requires TensorsFor(tensors, deps, details.sizes)
    requires forall i :: 0 <= i < |arrivals| ==> Brings(arrivals[i], deps, tensors, details.sizes)
    ensures Carries(states[n], deps, tensors, details.sizes)
  {
    if n > 0 {
      var k := n - 1;
      var a := arrivals[k];
      RunCarries(all, deps, details, tensors, arrivals, states, k);
      RunTracks(all, deps, details, arrivals, states, k);
      assert Arrives(states[k], deps, a, states[k + 1]);
      FeedEffect(states[k], deps[a.dep], a.inputs, a.shard);
      FedCarries(states[k], deps, a, Feed(states[k], deps[a.dep], a.inputs, a.shard).value, tensors, details.sizes);
    }
  }

  /**
    Gathering is the inverse of sharding.  However the shards of the input tensors are ordered, once
    every pair has arrived the session's inputs are exactly the original tensors, dims and bytes.
   */
  lemma GatherRestoresTensors(all: set<(nat, nat)>, deps: seq<Mapping>, details: CollapseDetails,
                              tensors: map<string, Blob>, arrivals: seq<Arrival>, states: seq<Handler>)
    requires Sound(all, deps, details, arrivals) && IsRun(deps, details, arrivals, states)
    requires TensorsFor(tensors, deps, details.sizes)
    requires forall i :: 0 <= i < |arrivals| ==> Brings(arrivals[i], deps, tensors, details.sizes)
    requires Seen(arrivals) == all && Product(details.sizes) > 0
    ensures Ready(states[|arrivals|])
    ensures Rebuilt(states[|arrivals|].inputs, deps, tensors)
  {
    var n := |arrivals|;
    assert arrivals[..n] == arrivals;
    assert Ready(states[n]) by {
      ReadyExactlyWhenComplete(all, deps, details, arrivals, states, n);
    }
    BeforeLast(all, deps, details, tensors, arrivals, states);
    assert Arrives(states[n - 1], deps, arrivals[n - 1], states[n - 1 + 1]);
    LastArrival(all, states[n - 1], deps, tensors, details.sizes, Seen(arrivals[..n - 1]), arrivals[n - 1], states[n]);
  }

  lemma BeforeLast(all: set<(nat, nat)>, deps: seq<Mapping>, details: CollapseDetails, tensors: map<string, Blob>,
                   arrivals: seq<Arrival>, states: seq<Handler>)
    requires Sound(all, deps, details, arrivals) && IsRun(deps, details, arrivals, states)
    requires TensorsFor(tensors, deps, details.sizes)
    requires forall i :: 0 <= i < |arrivals| ==> Brings(arrivals[i], deps, tensors, details.sizes)
    requires Seen(arrivals) == all && Product(details.sizes) > 0
    ensures arrivals != []
    ensures var k := |arrivals| - 1;
            var a, h, seen := arrivals[k], states[k], Seen(arrivals[..k]);
            && h.kind == Gather(details.sizes) && Carries(h, deps, tensors, details.sizes) && Stores(h, deps, seen)
            && Counts(h, |all|, seen) && seen + {(a.dep, a.shard)} == all && (a.dep, a.shard) !in seen
  {
    assert arrivals != [] by {
      assert (0, 0) in all;
    }
    var n := |arrivals|;
    assert arrivals[..n] == arrivals;
    SeenStep(arrivals, n);
    assert DistinctPairs(arrivals) by {
      RunTracks(all, deps, details, arrivals, states, n);
    }
    LastIsNew(arrivals);
    RunTracks(all, deps, details, arrivals, states, n - 1);
    RunCarries(all, deps, details, tensors, arrivals, states, n - 1);
  }

  lemma LastArrival(all: set<(nat, nat)>, h: Handler, deps: seq<Mapping>, tensors: map<string, Blob>, sizes: seq<nat>,
                    seen: set<(nat, nat)>, a: Arrival, after: Handler)
    requires WellWired(deps) && TensorsFor(tensors, deps, sizes) && Brings(a, deps, tensors, sizes)
    requires h.kind == Gather(sizes) && Carries(h, deps, tensors, sizes) && Stores(h, deps, seen)
    requires Covers(all, deps, sizes) && Counts(h, |all|, seen) && |all| < INT_VALUES
    requires seen + {(a.dep, a.shard)} == all && (a.dep, a.shard) !in seen
    requires Arrives(h, deps, a, after)
    ensures Rebuilt(after.inputs, deps, tensors)
  {
    LastFeed(all, h, deps, tensors, sizes, seen, a);
    assert Product(sizes) > 0;
    GatheredTensors(all, Feed(h, deps[a.dep], a.inputs, a.shard).value, after, deps, tensors, sizes);
  }

  lemma LastFeed(all: set<(nat, nat)>, h: Handler, deps: seq<Mapping>, tensors: map<string, Blob>, sizes: seq<nat>,
                 seen: set<(nat, nat)>, a: Arrival)
    requires WellWired(deps) && TensorsFor(tensors, deps, sizes) && Brings(a, deps, tensors, sizes)
    requires h.kind == Gather(sizes) && Carries(h, deps, tensors, sizes) && Stores(h, deps, seen)
    requires Covers(all, deps, sizes) && Counts(h, |all|, seen) && |all| < INT_VALUES
    requires seen + {(a.dep, a.shard)} == all && (a.dep, a.shard) !in seen
    ensures Feed(h, deps[a.dep], a.inputs, a.shard).Ok?
    ensures var fed := Feed(h, deps[a.dep], a.inputs, a.shard).value;
            && Carries(fed, deps, tensors, sizes) && Stores(fed, deps, all)
            && fed.kind == Gather(sizes) && Finishes(fed) && fed.inputs == map[]
  {
    NewPairAccepted(all, h, deps, tensors, sizes, seen, a);
    FeedEffect(h, deps[a.dep], a.inputs, a.shard);
    assert |seen + {(a.dep, a.shard)}| == |seen| + 1;
    assert Decremented(1) == 0;
  }

  // ----- no order of the shards fails -----

  lemma NotificationExists(all: set<(nat, nat)>, fed: Handler, deps: seq<Mapping>, tensors: map<string, Blob>,
                           sizes: seq<nat>, seen: set<(nat, nat)>)
    returns (after: Handler)
    requires TensorsFor(tensors, deps, sizes) && Carries(fed, deps, tensors, sizes) && Stores(fed, deps, seen)
    requires fed.kind == Gather(sizes) && Product(sizes) > 0
    requires Covers(all, deps, sizes) && (Finishes(fed) ==> seen == all && fed.inputs == map[])
    ensures Notified(fed, after)
  {
    after := fed.(remaining := Decremented(fed.remaining));
    if Finishes(fed) {
      after := after.(inputs := map name | name in fed.shards :: tensors[name]);
      forall name | name in fed.shards ensures IsConsolidated(sizes, fed.shards[name], tensors[name]) {
        StoredComplete(all, fed, deps, sizes, name);
        assert ShardsOf(fed.shards[name], tensors[name], sizes);
        ShardsConsolidateTo(tensors[name], |sizes|, fed.shards[name]);
      }
    }
  }

  /** Whatever the order, deliveries of pairwise different pairs all succeed. */
  lemma {:induction false} AnyOrderSucceeds(all: set<(nat, nat)>, deps: seq<Mapping>, details: CollapseDetails,
                                            tensors: map<string, Blob>, arrivals: seq<Arrival>)
    returns (states: seq<Handler>)
    requires Sound(all, deps, details, arrivals) && DistinctPairs(arrivals)
    requires TensorsFor(tensors, deps, details.sizes) && Product(details.sizes) > 0
    requires forall i :: 0 <= i < |arrivals| ==> Brings(arrivals[i], deps, tensors, details.sizes)
    ensures IsRun(deps, details, arrivals, states)
  {
    if arrivals == [] {
      states := [Create(|deps|, details)];
    } else {
      var n := |arrivals| - 1;
      var init, a := arrivals[..n], arrivals[n];
      var before := AnyOrderSucceeds(all, deps, details, tensors, init);
      assert init[..n] == init;
      RunTracks(all, deps, details, init, before, n);
      RunCarries(all, deps, details, tensors, init, before, n);
      LastIsNew(arrivals);
      var h := before[n];
      NewPairAccepted(all, h, deps, tensors, details.sizes, Seen(init), a);
      FeedEffect(h, deps[a.dep], a.inputs, a.shard);
      var fed := Feed(h, deps[a.dep], a.inputs, a.shard).value;
      FinishingMeansAll(all, fed, deps, details.sizes, Seen(init), (a.dep, a.shard));
      var after := NotificationExists(all, fed, deps, tensors, details.sizes, Seen(init) + {(a.dep, a.shard)});
      states := before + [after];
      RunAppend(deps, details, arrivals, before, after);
    }
  }

  lemma LastIsNew(arrivals: seq<Arrival>)
    requires arrivals != [] && DistinctPairs(arrivals)
    ensures (arrivals[|arrivals| - 1].dep, arrivals[|arrivals| - 1].shard) !in Seen(arrivals[..|arrivals| - 1])
  {
  }

  lemma FinishingMeansAll(all: set<(nat, nat)>, fed: Handler, deps: seq<Mapping>, sizes: seq<nat>,
                          seen: set<(nat, nat)>, pair: (nat, nat))
    requires Counts(fed, |all|, seen) && |all| < INT_VALUES
    requires seen <= all && pair in all && pair !in seen
    ensures Finishes(fed) ==> seen + {pair} == all && fed.inputs == map[]
  {
    RoomLeft(seen, all, pair);
    if Finishes(fed) {
      LastPair(fed.remaining, |all|, |seen|);
      SubsetCardinality(seen + {pair}, all);
    }
  }

  lemma RunAppend(deps: seq<Mapping>, details: CollapseDetails, arrivals: seq<Arrival>, before: seq<Handler>,
                  after: Handler)
    requires arrivals != [] && IsRun(deps, details, arrivals[..|arrivals| - 1], before)
    requires Arrives(before[|arrivals| - 1], deps, arrivals[|arrivals| - 1], after)
    ensures IsRun(deps, details, arrivals, before + [after])
  {
    var states, n := before + [after], |arrivals| - 1;
    forall i | 0 <= i < |arrivals| ensures Arrives(states[i], deps, arrivals[i], states[i + 1]) {
      if i < n {
        assert Arrives(before[i], deps, arrivals[..n][i], before[i + 1]);
      }
    }
  }
}
