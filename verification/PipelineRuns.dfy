/**
  From demultiplexers to the gathering node: the shards that arrive are those that chains of
  `demultiplyOutputs` leave (src/node.cpp:197-261), and they can arrive in every order.
 */
module PipelineRuns {
  import opened Integers
  import opened Wrappers
  import opened Collections
  import opened MixedRadix
  import opened SessionMetadata
  import opened SessionKeys
  import opened ShardIds
  import opened Blobs
  import opened InputHandlers
  import opened GatherRuns
  import opened PipelineNode
  import opened DemultiplyGather
  import D = Demultiplexer

  type Tensors = map<string, Blob>

  // ----- chains of demultiplications -----

  /** `meta` and `pieces` are the entry that one demultiplication of `blobs` leaves for subsession `i`. */
  ghost predicate Cut(from: Metadata, blobs: Tensors, name: string, n: nat, i: nat,
                      e: map<string, D.SessionResult>, meta: Metadata, pieces: Tensors) {
    && D.CanSplit(from, name) && i < n < INT_VALUES
    && D.Split(e, from, name, blobs, n)
    && D.SubKey(from, name, i) in e
    && e[D.SubKey(from, name, i)] == D.SessionResult(meta, pieces)
  }

  /** What the nodes `names`, demultiplying one after the other, leave at position `ids`. */
  ghost predicate Chain(root: Metadata, blobs: Tensors, names: seq<string>, sizes: seq<nat>, ids: seq<nat>,
                        meta: Metadata, pieces: Tensors)
    decreases |ids|
  {
    && |names| == |sizes| == |ids|
    && if ids == [] then meta == root && pieces == blobs
       else
         var k := |ids| - 1;
         exists m, p, e ::
           Chain(root, blobs, names[..k], sizes[..k], ids[..k], m, p)
               && Cut(m, p, names[k], sizes[k], ids[k], e, meta, pieces)
  }

  /** A successful `DemultiplyOutputs` leaves such an entry for every subsession. */
  lemma DemultiplierCuts(meta: Metadata, name: string, count: Option<nat>, order: seq<string>, blobs: Tensors,
                         e: map<string, D.SessionResult>, i: nat)
    requires Valid(meta) && (forall b :: b in order <==> b in blobs)
    requires D.StatusOf(meta, name, count, order, blobs) == D.Demultiplied
    requires D.FirstCount(order, blobs).Some? && i < D.FirstCount(order, blobs).value
    requires D.Split(e, meta, name, blobs, D.FirstCount(order, blobs).value)
    ensures D.SubKey(meta, name, i) in e
    ensures var entry := e[D.SubKey(meta, name, i)];
            Cut(meta, blobs, name, D.FirstCount(order, blobs).value, i, e, entry.meta, entry.blobs)
  {
    assert order[0] in blobs;
    assert D.Entry(e, meta, name, blobs, D.FirstCount(order, blobs).value, i, blobs.Keys);
  }

  ghost predicate AllCut(blobs: Tensors, sizes: seq<nat>) {
    forall b :: b in blobs ==> CutsAs(blobs[b], sizes)
  }

  lemma CutsPrefix(b: Blob, sizes: seq<nat>, k: nat)
    requires CutsAs(b, sizes) && k <= |sizes|
    ensures CutsAs(b, sizes[..k])
  {
    assert b.dims[..k] == b.dims[..|sizes|][..k];
  }

  lemma ReachedSplittable(root: Metadata, b: Blob, names: seq<string>, sizes: seq<nat>, ids: seq<nat>, meta: Metadata,
                          piece: Blob, n: nat)
    requires Reached(root, b, names, sizes, ids, meta, piece) && CutsAs(b, sizes + [n])
    ensures D.Splittable(piece) && piece.dims[0] == n
  {
    var k := |sizes|;
    NestedDims(b, ids);
    assert piece.dims == b.dims[k..];
    assert b.dims[..k + 1][k] == n;
  }

  lemma {:induction false} NestedDims(b: Blob, ids: seq<nat>)
    requires WellFormed(b) && |ids| <= |b.dims| && Digits(ids, b.dims[..|ids|])
    ensures NestedShard(b, ids).dims == b.dims[|ids|..]
    decreases |ids|
  {
    if ids != [] {
      OneDim(b.dims);
      NestedDigits(ids, b.dims);
      NestedDims(Shard(b, 1, ids[0]), ids[1..]);
    }
  }

  /** By induction over the depth: every piece is the nested shard of its tensor, under the chain's metadata. */
  lemma {:induction false} ChainReaches(root: Metadata, blobs: Tensors, names: seq<string>, sizes: seq<nat>,
                                        ids: seq<nat>,
                                        meta: Metadata, pieces: Tensors)
    requires Valid(root) && Chain(root, blobs, names, sizes, ids, meta, pieces) && AllCut(blobs, sizes)
    ensures pieces.Keys == blobs.Keys
    ensures forall b :: b in blobs ==> Reached(root, blobs[b], names, sizes, ids, meta, pieces[b])
    decreases |ids|
  {
    hide Cut, Reached, CutsAs;
    if ids == [] {
      forall b | b in blobs ensures Reached(root, blobs[b], names, sizes, ids, meta, pieces[b]) {
        ReachedNothing(root, blobs[b]);
      }
    } else {
      var k := |ids| - 1;
      var m, p, e :| Chain(root, blobs, names[..k], sizes[..k], ids[..k], m, p)
                     && Cut(m, p, names[k], sizes[k], ids[k], e, meta, pieces);
      forall b | b in blobs ensures CutsAs(blobs[b], sizes[..k]) {
        CutsPrefix(blobs[b], sizes, k);
      }
      ChainReaches(root, blobs, names[..k], sizes[..k], ids[..k], m, p);
      CutKeys(m, p, names[k], sizes[k], ids[k], e, meta, pieces);
      assert names[..k] + [names[k]] == names && sizes[..k] + [sizes[k]] == sizes && ids[..k] + [ids[k]] == ids;
      forall b | b in blobs ensures Reached(root, blobs[b], names, sizes, ids, meta, pieces[b]) {
        CutDeepens(root, blobs[b], names[..k], sizes[..k], ids[..k], m, p, b, names[k], sizes[k], ids[k], e, meta,
            pieces);
      }
    }
  }

  lemma ReachedNothing(root: Metadata, b: Blob)
    requires CutsAs(b, [])
    ensures Reached(root, b, [], [], [], root, b)
  {
    assert Splits([], [], []) == [];
  }

  lemma CutKeys(m: Metadata, p: Tensors, name: string, n: nat, i: nat, e: map<string, D.SessionResult>,
                meta: Metadata, pieces: Tensors)
    requires Cut(m, p, name, n, i, e, meta, pieces)
    ensures pieces.Keys == p.Keys
  {
    assert D.Entry(e, m, name, p, n, i, p.Keys);
  }

  lemma CutDeepens(root: Metadata, b: Blob, names: seq<string>, sizes: seq<nat>, ids: seq<nat>, m: Metadata, p: Tensors,
                   blobName: string, name: string, n: nat, i: nat, e: map<string, D.SessionResult>,
                   meta: Metadata, pieces: Tensors)
    requires blobName in p && Reached(root, b, names, sizes, ids, m, p[blobName]) && CutsAs(b, sizes + [n])
    requires Cut(m, p, name, n, i, e, meta, pieces)
    ensures blobName in pieces && Reached(root, b, names + [name], sizes + [n], ids + [i], meta, pieces[blobName])
  {
    ReachedSplittable(root, b, names, sizes, ids, m, p[blobName], n);
    hide Reached;
    DemultiplyDeepens(root, b, names, sizes, ids, m, p[blobName], name, n, i, blobName, p, e);
  }

  // ----- leaves -----

  /** `sources[d]` holds what dependency `d` had before it was demultiplied; the wires carry the tensors. */
  ghost predicate Sources(w: Wiring, sizes: seq<nat>, tensors: Tensors, sources: seq<Tensors>) {
    && |sources| == |w.deps|
    && (forall d :: 0 <= d < |w.deps| ==> w.deps[d] != [] && AllCut(sources[d], sizes))
    && (forall d, i :: 0 <= d < |w.deps| && 0 <= i < |w.deps[d]| ==> Carried(w.deps[d][i], tensors, sources[d]))
  }

  ghost predicate Carried(wire: (string, string), tensors: Tensors, source: Tensors) {
    wire.0 in source && wire.1 in tensors && tensors[wire.1] == source[wire.0]
  }

  /** The event brings what a chain of demultiplications of its dependency has left at `ids`. */
  ghost predicate FromSource(w: Wiring, root: Metadata, names: seq<string>, sizes: seq<nat>, sources: seq<Tensors>,
                             ids: seq<nat>, e: Event) {
    e.dep < |w.deps| == |sources| && Chain(root, sources[e.dep], names, sizes, ids, e.meta, e.inputs)
  }

  lemma SourceIsLeaf(w: Wiring, root: Metadata, names: seq<string>, sizes: seq<nat>, tensors: Tensors,
                     sources: seq<Tensors>,
                     ids: seq<nat>, e: Event)
    requires Valid(root) && Sources(w, sizes, tensors, sources) && FromSource(w, root, names, sizes, sources, ids, e)
    ensures IsLeaf(w, root, names, sizes, tensors, ids, e)
  {
    hide Chain, CutsAs;
    var d, source := e.dep, sources[e.dep];
    ChainReaches(root, source, names, sizes, ids, e.meta, e.inputs);
    assert Carried(w.deps[d][0], tensors, source);
    forall i | 0 <= i < |w.deps[d]| ensures Digits(ids, sizes) && WireLeaf(w.deps[d][i], e, sizes, tensors, ids) {
      var wire := w.deps[d][i];
      assert Carried(wire, tensors, source);
      assert Reached(root, source[wire.0], names, sizes, ids, e.meta, e.inputs[wire.0]);
    }
    assert Reached(root, source[w.deps[d][0].0], names, sizes, ids, e.meta, e.inputs[w.deps[d][0].0]);
  }

  /** Whatever reaches the session of `root` comes from the chains; other sessions are free. */
  ghost predicate OnlyFromSources(w: Wiring, root: Metadata, names: seq<string>, sizes: seq<nat>, sources: seq<Tensors>,
                                  events: seq<Event>, ids: seq<seq<nat>>) {
    && Keyed(root) && |ids| == |events|
    && forall i :: 0 <= i < |events| && Addressed(w, events[i], Key(root)) ==>
         FromSource(w, root, names, sizes, sources, ids[i], events[i])
  }

  /**
    Gathering undoes demultiplying: over every run of the gathering node whose session of `root` is fed by the
    entries that demultiplications leave, that session is ready exactly when every dependency has delivered
    every position, and then its inputs are the tensors before the first demultiplication.
   */
  lemma GatherUndoesDemultiplication(w: Wiring, root: Metadata, names: seq<string>, sizes: seq<nat>, tensors: Tensors,
                                     sources: seq<Tensors>, events: seq<Event>, ids: seq<seq<nat>>,
                                         states: seq<Sessions>)
    requires Setting(w, root, names, sizes, tensors) && Sources(w, sizes, tensors, sources)
    requires OnlyFromSources(w, root, names, sizes, sources, events, ids) && NodeRun(w, events, states)
    ensures (Key(root) in states[|events|] && Ready(states[|events|][Key(root)].handler))
            <==> AllDelivered(w, events, ids, Key(root), sizes)
    ensures AllDelivered(w, events, ids, Key(root), sizes) ==>
              && states[|events|][Key(root)].meta == root
              && Rebuilt(states[|events|][Key(root)].handler.inputs, w.deps, tensors)
  {
    SettingRoot(w, root, names, sizes, tensors);
    hide AllDelivered, Rebuilt, NodeRun, Setting, IsLeaf, FromSource, Sources, Addressed;
    forall i | 0 <= i < |events| && Addressed(w, events[i], Key(root))
      ensures IsLeaf(w, root, names, sizes, tensors, ids[i], events[i])
    {
      SourceIsLeaf(w, root, names, sizes, tensors, sources, ids[i], events[i]);
    }
    GatherInvertsDemultiply(w, root, names, sizes, tensors, events, ids, states);
  }

  lemma SettingRoot(w: Wiring, root: Metadata, names: seq<string>, sizes: seq<nat>, tensors: Tensors)
    requires Setting(w, root, names, sizes, tensors)
    ensures Valid(root) && Keyed(root) && names != [] && w.gatherFrom == Elems(names) && WellWired(w.deps)
    ensures TensorsFor(tensors, w.deps, sizes) && Product(sizes) > 0 && |w.deps| * Product(sizes) < INT_VALUES
  {
  }

  // ----- every order of the leaves -----

  /** Events that bring different positions of the dependencies' tensors to the session of `root`. */
  ghost predicate DifferentLeaves(w: Wiring, root: Metadata, names: seq<string>, sizes: seq<nat>, sources: seq<Tensors>,
                                  events: seq<Event>, ids: seq<seq<nat>>) {
    && |ids| == |events|
    && (forall i :: 0 <= i < |events| ==> FromSource(w, root, names, sizes, sources, ids[i], events[i]))
    && (forall i, j :: 0 <= i < j < |events| ==> events[i].dep != events[j].dep || ids[i] != ids[j])
  }

  /** What the node makes of such an event. */
  ghost predicate Routed(w: Wiring, root: Metadata, names: seq<string>, sizes: seq<nat>, tensors: Tensors,
                         ids: seq<nat>,
                         e: Event)
    requires TensorsFor(tensors, w.deps, sizes)
  {
    && Keyed(root) && Digits(ids, sizes) && |names| == |sizes| && e.dep < |w.deps|
    && Addressed(w, e, Key(root)) && ShardId(e.meta, w.gatherFrom).Ok?
    && Collapse(e.meta, w.gatherFrom) == Ok((root, CollapseDetails(names, sizes)))
    && ArrivalOf(w, e) == Arrival(e.dep, RowMajor(ids, sizes), e.inputs)
    && RowMajor(ids, sizes) < Product(sizes)
    && Brings(ArrivalOf(w, e), w.deps, tensors, sizes)
  }

  lemma SourceRouted(w: Wiring, root: Metadata, names: seq<string>, sizes: seq<nat>, tensors: Tensors,
                     sources: seq<Tensors>,
                     ids: seq<nat>, e: Event)
    requires Setting(w, root, names, sizes, tensors) && Sources(w, sizes, tensors, sources)
    requires FromSource(w, root, names, sizes, sources, ids, e)
    ensures TensorsFor(tensors, w.deps, sizes) && Routed(w, root, names, sizes, tensors, ids, e)
  {
    hide Chain, AllCut, Spawned, ShardId, Collapse, SessionKey, Brings, WellWired;
    BoundFactor(|w.deps|, Product(sizes));
    SourceIsLeaf(w, root, names, sizes, tensors, sources, ids, e);
    LeafRouted(w, root, names, sizes, tensors, ids, e);
    LeafBrings(w, root, names, sizes, tensors, ids, e);
  }

  /** The deliveries that events make, in their order. */
  function Arrivals(w: Wiring, events: seq<Event>): (r: seq<Arrival>)
    requires forall e :: e in events ==> Keyed(e.meta) && ShardId(e.meta, w.gatherFrom).Ok?
    ensures |r| == |events|
  {
    seq(|events|, i requires 0 <= i < |events| => ArrivalOf(w, events[i]))
  }

  ghost predicate AllRouted(w: Wiring, root: Metadata, names: seq<string>, sizes: seq<nat>, tensors: Tensors,
                            events: seq<Event>, ids: seq<seq<nat>>) {
    && TensorsFor(tensors, w.deps, sizes) && |ids| == |events|
    && (forall i :: 0 <= i < |events| ==> Routed(w, root, names, sizes, tensors, ids[i], events[i]))
    && (forall i, j :: 0 <= i < j < |events| ==> events[i].dep != events[j].dep || ids[i] != ids[j])
  }

  lemma RoutedEvents(w: Wiring, root: Metadata, names: seq<string>, sizes: seq<nat>, tensors: Tensors,
                     events: seq<Event>, ids: seq<seq<nat>>)
    requires AllRouted(w, root, names, sizes, tensors, events, ids)
    ensures forall e :: e in events ==> Keyed(e.meta) && ShardId(e.meta, w.gatherFrom).Ok?
    ensures forall i :: 0 <= i < |events| ==> RoutedParts(w, sizes, tensors, ids[i], events[i])
  {
    hide Routed, ShardId, Brings, TensorsFor, RowMajor, Product;
    forall i | 0 <= i < |events| ensures RoutedParts(w, sizes, tensors, ids[i], events[i]) {
      RoutedMeans(w, root, names, sizes, tensors, ids[i], events[i]);
    }
    forall e | e in events ensures Keyed(e.meta) && ShardId(e.meta, w.gatherFrom).Ok? {
      var i :| 0 <= i < |events| && events[i] == e;
      assert RoutedParts(w, sizes, tensors, ids[i], events[i]);
    }
  }

  lemma ArrivalsDistinct(w: Wiring, root: Metadata, names: seq<string>, sizes: seq<nat>, tensors: Tensors,
                         events: seq<Event>, ids: seq<seq<nat>>)
    requires AllRouted(w, root, names, sizes, tensors, events, ids)
    requires forall e :: e in events ==> Keyed(e.meta) && ShardId(e.meta, w.gatherFrom).Ok?
    ensures DistinctPairs(Arrivals(w, events))
  {
    RoutedEvents(w, root, names, sizes, tensors, events, ids);
    hide Routed, ShardId, Brings, TensorsFor, RowMajor, Product;
    var arrivals := Arrivals(w, events);
    forall i, j | 0 <= i < j < |events|
      ensures arrivals[i].dep != arrivals[j].dep || arrivals[i].shard != arrivals[j].shard
    {
      assert RoutedParts(w, sizes, tensors, ids[i], events[i]) && RoutedParts(w, sizes, tensors, ids[j], events[j]);
      if RowMajor(ids[i], sizes) == RowMajor(ids[j], sizes) {
        RowMajorInjective(ids[i], ids[j], sizes);
      }
    }
  }

  lemma ArrivalsSound(w: Wiring, root: Metadata, names: seq<string>, sizes: seq<nat>, tensors: Tensors,
                      events: seq<Event>, ids: seq<seq<nat>>)
    returns (all: set<(nat, nat)>)
    requires Setting(w, root, names, sizes, tensors) && AllRouted(w, root, names, sizes, tensors, events, ids)
    requires forall e :: e in events ==> Keyed(e.meta) && ShardId(e.meta, w.gatherFrom).Ok?
    ensures var arrivals, details := Arrivals(w, events), CollapseDetails(names, sizes);
            && Sound(all, w.deps, details, arrivals)
            && forall i :: 0 <= i < |arrivals| ==> Brings(arrivals[i], w.deps, tensors, sizes)
  {
    SettingRoot(w, root, names, sizes, tensors);
    RoutedEvents(w, root, names, sizes, tensors, events, ids);
    hide Setting, Routed, ShardId, Brings, TensorsFor, RowMajor, Product, WellWired;
    all := Pairs(|w.deps|, Product(sizes));
    var arrivals := Arrivals(w, events);
    forall i | 0 <= i < |events|
      ensures (arrivals[i].dep, arrivals[i].shard) in all && Brings(arrivals[i], w.deps, tensors, sizes)
    {
      assert RoutedParts(w, sizes, tensors, ids[i], events[i]);
    }
  }

  /** The delivery of a routed event. */
  ghost predicate RoutedParts(w: Wiring, sizes: seq<nat>, tensors: Tensors, ids: seq<nat>, e: Event)
    requires TensorsFor(tensors, w.deps, sizes)
  {
    && Keyed(e.meta) && ShardId(e.meta, w.gatherFrom).Ok? && e.dep < |w.deps| && Digits(ids, sizes)
    && ArrivalOf(w, e) == Arrival(e.dep, RowMajor(ids, sizes), e.inputs) && RowMajor(ids, sizes) < Product(sizes)
    && Brings(ArrivalOf(w, e), w.deps, tensors, sizes)
  }

  lemma RoutedMeans(w: Wiring, root: Metadata, names: seq<string>, sizes: seq<nat>, tensors: Tensors, ids: seq<nat>,
                    e: Event)
    requires TensorsFor(tensors, w.deps, sizes) && Routed(w, root, names, sizes, tensors, ids, e)
    ensures RoutedParts(w, sizes, tensors, ids, e)
  {
    hide ShardId, Brings, TensorsFor, RowMajor, Product;
  }

  /** The node with the one session in the given handler state, or none before the first delivery. */
  function Only(root: Metadata, started: bool, h: Handler): Sessions
    requires Keyed(root)
  {
    if started then map[Key(root) := Session(root, h)] else map[]
  }

  lemma RoutedStep(w: Wiring, root: Metadata, names: seq<string>, sizes: seq<nat>, tensors: Tensors, ids: seq<nat>,
                   e: Event,
                   started: bool, h: Handler, after: Handler)
    requires names != [] && w.gatherFrom == Elems(names) && TensorsFor(tensors, w.deps, sizes)
    requires Routed(w, root, names, sizes, tensors, ids, e)
    requires !started ==> h == Create(|w.deps|, CollapseDetails(names, sizes))
    requires Arrives(h, w.deps, ArrivalOf(w, e), after)
    ensures NodeStep(w, Only(root, started, h), e, Only(root, true, after))
  {
    hide SessionKey, ShardId, Collapse, Create, Brings, TensorsFor, Arrives, Key, RowMajor, Product;
    assert names[0] in w.gatherFrom;
    var sessions := Only(root, started, h);
    assert SessionFor(w, sessions, e.meta) == Some(Session(root, h));
    assert Delivered(w, sessions, e, after);
    assert After(w, sessions, e, after) == Only(root, true, after);
  }

  /**
    Leaves can arrive in every order: for events that bring pairwise different positions there is a run of the
    node in which every call succeeds, and when they bring all positions it ends ready, with the tensors as inputs.
   */
  lemma AnyOrderOfLeaves(w: Wiring, root: Metadata, names: seq<string>, sizes: seq<nat>, tensors: Tensors,
                         sources: seq<Tensors>, events: seq<Event>, ids: seq<seq<nat>>)
    returns (states: seq<Sessions>)
    requires Setting(w, root, names, sizes, tensors) && Sources(w, sizes, tensors, sources)
    requires DifferentLeaves(w, root, names, sizes, sources, events, ids)
    ensures NodeRun(w, events, states)
    ensures AllDelivered(w, events, ids, Key(root), sizes) ==>
              && Key(root) in states[|events|] && Ready(states[|events|][Key(root)].handler)
              && Rebuilt(states[|events|][Key(root)].handler.inputs, w.deps, tensors)
  {
    SettingRoot(w, root, names, sizes, tensors);
    hide Setting, Sources, FromSource, Routed, Sound, Brings, IsRun, Create, NodeStep, AllDelivered, Rebuilt, Only;
    forall i | 0 <= i < |events| ensures Routed(w, root, names, sizes, tensors, ids[i], events[i]) {
      SourceRouted(w, root, names, sizes, tensors, sources, ids[i], events[i]);
    }
    states := RunOfLeaves(w, root, names, sizes, tensors, events, ids);
    GatherUndoesDemultiplication(w, root, names, sizes, tensors, sources, events, ids, states);
  }

  lemma RunOfLeaves(w: Wiring, root: Metadata, names: seq<string>, sizes: seq<nat>, tensors: Tensors,
                    events: seq<Event>, ids: seq<seq<nat>>)
    returns (states: seq<Sessions>)
    requires Setting(w, root, names, sizes, tensors) && AllRouted(w, root, names, sizes, tensors, events, ids)
    ensures NodeRun(w, events, states)
  {
    SettingRoot(w, root, names, sizes, tensors);
    RoutedEvents(w, root, names, sizes, tensors, events, ids);
    ArrivalsDistinct(w, root, names, sizes, tensors, events, ids);
    var all := ArrivalsSound(w, root, names, sizes, tensors, events, ids);
    var details, arrivals := CollapseDetails(names, sizes), Arrivals(w, events);
    hide Setting, Sound, Brings, IsRun, Create, Routed, NodeStep;
    var handlers := AnyOrderSucceeds(all, w.deps, details, tensors, arrivals);
    RunParts(w.deps, details, arrivals, handlers);
    states := seq(|events| + 1, i requires 0 <= i <= |events| => Only(root, i > 0, handlers[i]));
    assert states[0] == map[];
    forall i | 0 <= i < |events| ensures NodeStep(w, states[i], events[i], states[i + 1]) {
      assert arrivals[i] == ArrivalOf(w, events[i]);
      RoutedStep(w, root, names, sizes, tensors, ids[i], events[i], i > 0, handlers[i], handlers[i + 1]);
    }
  }

  lemma RunParts(deps: seq<Mapping>, details: CollapseDetails, arrivals: seq<Arrival>, handlers: seq<Handler>)
    requires IsRun(deps, details, arrivals, handlers)
    ensures |handlers| == |arrivals| + 1 && handlers[0] == Create(|deps|, details)
    ensures forall i :: 0 <= i < |arrivals| ==> Arrives(handlers[i], deps, arrivals[i], handlers[i + 1])
  {
  }

  // ----- leaves exist -----

  /** Shard `i` of a blob that has one. */
  function PieceOf(b: Blob, i: nat): Blob {
    if WellFormed(b) && b.dims != [] && i < b.dims[0] then
      OneDim(b.dims);
      Shard(b, 1, i)
    else b
  }

  lemma PieceOfIsPiece(b: Blob, n: nat, i: nat)
    requires D.Splittable(b) && b.dims[0] == n && i < n
    ensures D.IsPiece(b, n, i, PieceOf(b, i))
  {
    OneDim(b.dims);
    StepIsShardSize(b);
  }

  function PiecesOf(blobs: Tensors, i: nat): Tensors {
    map b | b in blobs :: PieceOf(blobs[b], i)
  }

  ghost predicate SameFirst(blobs: Tensors, n: nat) {
    blobs != map[] && forall b :: b in blobs ==> D.Splittable(blobs[b]) && blobs[b].dims[0] == n
  }

  /** Blobs with the same first dimension can be demultiplied. */
  lemma CutExists(meta: Metadata, name: string, blobs: Tensors, n: nat, i: nat)
    returns (e: map<string, D.SessionResult>)
    requires D.CanSplit(meta, name) && SameFirst(blobs, n) && i < n < INT_VALUES
    ensures D.SubKey(meta, name, i) in e
    ensures Cut(meta, blobs, name, n, i, e, e[D.SubKey(meta, name, i)].meta, e[D.SubKey(meta, name, i)].blobs)
  {
    e := SplitMap(meta, name, blobs, n, n);
    SplitMapHas(meta, name, blobs, n, n);
    hide SplitMap, D.Entry, PiecesOf, SameFirst, Subsession, Key, D.SubKey;
    forall j: nat | j < n ensures D.Entry(e, meta, name, blobs, n, j, blobs.Keys) {
      assert HasSubsession(e, meta, name, blobs, n, j);
      EntryOf(meta, name, blobs, n, j, e);
    }
    assert HasSubsession(e, meta, name, blobs, n, i);
  }

  function SplitMap(meta: Metadata, name: string, blobs: Tensors, n: nat, upTo: nat): map<string, D.SessionResult>
    requires Keyed(meta)
  {
    if upTo == 0 then map[] else
      var j := upTo - 1;
      SplitMap(meta, name, blobs, n, j)[
        D.SubKey(meta, name, j) := D.SessionResult(Subsession(meta, name, j, n), PiecesOf(blobs, j))]
  }

  ghost predicate HasSubsession(e: map<string, D.SessionResult>, meta: Metadata, name: string, blobs: Tensors, n: nat,
                                j: nat)
    requires Keyed(meta)
  {
    && D.SubKey(meta, name, j) in e
    && e[D.SubKey(meta, name, j)] == D.SessionResult(Subsession(meta, name, j, n), PiecesOf(blobs, j))
  }

  lemma {:induction false} SplitMapHas(meta: Metadata, name: string, blobs: Tensors, n: nat, upTo: nat)
    requires Keyed(meta)
    ensures var e := SplitMap(meta, name, blobs, n, upTo);
            && (forall j: nat :: j < upTo ==> HasSubsession(e, meta, name, blobs, n, j))
            && D.OnlySubsessions(e, meta, name, upTo) && Key(meta) !in e
  {
    hide D.SubKey, PiecesOf, Subsession, Key;
    if upTo > 0 {
      var k := upTo - 1;
      SplitMapHas(meta, name, blobs, n, k);
      var before, e := SplitMap(meta, name, blobs, n, k), SplitMap(meta, name, blobs, n, upTo);
      D.SubKeysDiffer(meta, name, k, k);
      forall j: nat | j < upTo ensures HasSubsession(e, meta, name, blobs, n, j) {
        if j < k {
          assert HasSubsession(before, meta, name, blobs, n, j);
          D.SubKeysDiffer(meta, name, j, k);
        }
      }
      assert e.Keys == before.Keys + {D.SubKey(meta, name, k)};
    }
  }

  lemma EntryOf(meta: Metadata, name: string, blobs: Tensors, n: nat, j: nat, e: map<string, D.SessionResult>)
    requires Keyed(meta) && SameFirst(blobs, n) && j < n
    requires D.SubKey(meta, name, j) in e
    requires e[D.SubKey(meta, name, j)] == D.SessionResult(Subsession(meta, name, j, n), PiecesOf(blobs, j))
    ensures D.Entry(e, meta, name, blobs, n, j, blobs.Keys)
  {
    forall b | b in blobs ensures D.IsPiece(blobs[b], n, j, PieceOf(blobs[b], j)) {
      PieceOfIsPiece(blobs[b], n, j);
    }
    hide D.IsPiece, PieceOf, D.SubKey;
    assert blobs.Keys != {};
  }

  /** The names can be added to the levels of `root` one after the other. */
  ghost predicate FreshNames(root: Metadata, names: seq<string>) {
    Distinct(names) && forall x :: x in names ==> x != "" && x !in root.levels
  }

  /** At every position there is a leaf. */
  lemma {:induction false} LeafExists(root: Metadata, blobs: Tensors, names: seq<string>, sizes: seq<nat>,
                                      ids: seq<nat>)
    returns (meta: Metadata, pieces: Tensors)
    requires Valid(root) && blobs != map[] && AllCut(blobs, sizes) && |names| == |sizes| && Digits(ids, sizes)
    requires FreshNames(root, names) && forall i :: 0 <= i < |sizes| ==> sizes[i] < INT_VALUES
    ensures Chain(root, blobs, names, sizes, ids, meta, pieces)
    decreases |ids|
  {
    if ids == [] {
      meta, pieces := root, blobs;
    } else {
      var k := |ids| - 1;
      forall b | b in blobs ensures CutsAs(blobs[b], sizes[..k]) {
        CutsPrefix(blobs[b], sizes, k);
      }
      var m, p := LeafExists(root, blobs, names[..k], sizes[..k], ids[..k]);
      ChainReaches(root, blobs, names[..k], sizes[..k], ids[..k], m, p);
      ReachedCanSplit(root, blobs, names, sizes, ids, m, p);
      var e := CutExists(m, names[k], p, sizes[k], ids[k]);
      meta, pieces := e[D.SubKey(m, names[k], ids[k])].meta, e[D.SubKey(m, names[k], ids[k])].blobs;
      assert Cut(m, p, names[k], sizes[k], ids[k], e, meta, pieces);
    }
  }

  lemma ReachedCanSplit(root: Metadata, blobs: Tensors, names: seq<string>, sizes: seq<nat>, ids: seq<nat>,
                        m: Metadata, p: Tensors)
    requires Valid(root) && blobs != map[] && AllCut(blobs, sizes) && 0 < |names| == |sizes| == |ids|
    requires FreshNames(root, names) && p.Keys == blobs.Keys
    requires var k := |ids| - 1;
             forall b :: b in blobs ==> Reached(root, blobs[b], names[..k], sizes[..k], ids[..k], m, p[b])
    ensures D.CanSplit(m, names[|names| - 1]) && SameFirst(p, sizes[|sizes| - 1])
  {
    var k := |ids| - 1;
    hide Reached, D.Splittable, FreshNames, CutsAs, D.CanSplit, Valid;
    var any :| any in blobs;
    assert any in p;
    ReachedFresh(root, blobs[any], names, sizes[..k], ids[..k], m, p[any]);
    forall b | b in p ensures D.Splittable(p[b]) && p[b].dims != [] && p[b].dims[0] == sizes[k] {
      ReachedFirst(root, blobs[b], names[..k], sizes, ids[..k], m, p[b]);
    }
  }

  lemma ReachedFirst(root: Metadata, b: Blob, names: seq<string>, sizes: seq<nat>, ids: seq<nat>, m: Metadata,
                     piece: Blob)
    requires sizes != [] && CutsAs(b, sizes) && Reached(root, b, names, sizes[..|sizes| - 1], ids, m, piece)
    ensures D.Splittable(piece) && piece.dims != [] && piece.dims[0] == sizes[|sizes| - 1]
  {
    var k := |sizes| - 1;
    assert sizes[..k] + [sizes[k]] == sizes;
    ReachedSplittable(root, b, names, sizes[..k], ids, m, piece, sizes[k]);
  }

  lemma ReachedFresh(root: Metadata, b: Blob, names: seq<string>, sizes: seq<nat>, ids: seq<nat>, m: Metadata,
                     piece: Blob)
    requires Valid(root) && names != [] && FreshNames(root, names)
    requires Reached(root, b, names[..|names| - 1], sizes, ids, m, piece)
    ensures D.CanSplit(m, names[|names| - 1])
  {
    var k := |names| - 1;
    SpawnedShape(root, Splits(names[..k], sizes, ids), m);
    assert Names(Splits(names[..k], sizes, ids)) == names[..k];
    hide Reached, Spawned;
    assert names[k] in names && names[k] !in names[..k] && names[k] !in root.levels;
    assert names[k] !in Elems(m.levels);
  }
}
