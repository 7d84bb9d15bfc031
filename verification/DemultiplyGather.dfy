/**
  The law the DAG executor rests on: splitting a tensor by any nesting of demultiplexers and
  gathering the same levels again gives the tensor back, in whatever order the shards arrive.
 */
module DemultiplyGather {
  import opened Integers
  import opened Wrappers
  import opened Collections
  import opened MixedRadix
  import opened SessionMetadata
  import opened SessionKeys
  import opened ShardIds
  import opened Blobs
  import opened InputHandlers
  import opened GatherRuns
  import opened PipelineNode
  import D = Demultiplexer

  /** The demultiplications by the nodes `names`, following shard `ids[i]` of the `sizes[i]` at level `i`. */
  function Splits(names: seq<string>, sizes: seq<nat>, ids: seq<nat>): (r: seq<Split>)
    requires |names| == |sizes| == |ids|
    ensures |r| == |names|
  {
    seq(|names|, i requires 0 <= i < |names| => Split(names[i], sizes[i], ids[i]))
  }

  /** The tensor can be cut along `sizes`. */
  ghost predicate CutsAs(b: Blob, sizes: seq<nat>) {
    WellFormed(b) && |sizes| <= |b.dims| && b.dims[..|sizes|] == sizes
  }

  /** `meta` and `piece` are what demultiplying `b` under `root` leaves at position `ids`. */
  ghost predicate Reached(root: Metadata, b: Blob, names: seq<string>, sizes: seq<nat>, ids: seq<nat>, meta: Metadata,
                          piece: Blob) {
    && |names| == |sizes|
    && Digits(ids, sizes)
    && CutsAs(b, sizes)
    && Spawned(root, Splits(names, sizes, ids), meta)
    && piece == NestedShard(b, ids)
  }

  lemma {:induction false} NestedShardAppend(b: Blob, ids: seq<nat>, i: nat)
    requires WellFormed(b) && |ids| < |b.dims| && Digits(ids + [i], b.dims[..|ids| + 1])
    ensures Digits(ids, b.dims[..|ids|])
    ensures NestedShard(b, ids).dims == b.dims[|ids|..]
    ensures i < Product(NestedShard(b, ids).dims[..1])
    ensures NestedShard(b, ids + [i]) == Shard(NestedShard(b, ids), 1, i)
    decreases |ids|
  {
    var all := ids + [i];
    assert forall j :: 0 <= j < |ids| ==> ids[j] == all[j] && b.dims[..|ids|][j] == b.dims[..|ids| + 1][j];
    if ids == [] {
      OneDim(b.dims);
      assert all[0] == i && all[1..] == [];
    } else {
      OneDim(b.dims);
      NestedDigits(ids, b.dims);
      NestedDigits(all, b.dims);
      assert all[1..] == ids[1..] + [i] && all[0] == ids[0];
      NestedShardAppend(Shard(b, 1, ids[0]), ids[1..], i);
      assert b.dims[1..][|ids| - 1..] == b.dims[|ids|..];
    }
  }

  /**
    One more demultiplication goes one level deeper: the entries that `DemultiplyOutputs` leaves for a
    reached position are the positions below it.
   */
  lemma DemultiplyDeepens(root: Metadata, b: Blob, names: seq<string>, sizes: seq<nat>, ids: seq<nat>, meta: Metadata,
                          piece: Blob, name: string, n: nat, i: nat, blobName: string, blobs: map<string, Blob>,
                          e: map<string, D.SessionResult>)
    requires Reached(root, b, names, sizes, ids, meta, piece) && CutsAs(b, sizes + [n])
    requires D.CanSplit(meta, name) && i < n < INT_VALUES
    requires blobName in blobs && blobs[blobName] == piece && D.Splittable(piece)
    requires D.Split(e, meta, name, blobs, n)
    ensures D.SubKey(meta, name, i) in e
    ensures var entry := e[D.SubKey(meta, name, i)];
            && blobName in entry.blobs
            && Reached(root, b, names + [name], sizes + [n], ids + [i], entry.meta, entry.blobs[blobName])
  {
    var k := |sizes|;
    var entry := EntryAt(meta, name, n, i, blobName, blobs, e);
    PieceDeepens(b, sizes, ids, piece, n, i, entry.blobs[blobName]);
    hide D.Split, D.Splittable, D.IsPiece, CutsAs, NestedShard;
    SpawnedOnce(meta, Split(name, n, i));
    SpawnedAppend(root, Splits(names, sizes, ids), meta, Split(name, n, i), entry.meta);
    assert Splits(names + [name], sizes + [n], ids + [i]) == Splits(names, sizes, ids) + [Split(name, n, i)];
  }

  lemma EntryAt(meta: Metadata, name: string, n: nat, i: nat, blobName: string, blobs: map<string, Blob>,
                e: map<string, D.SessionResult>)
    returns (entry: D.SessionResult)
    requires Keyed(meta) && i < n && D.Split(e, meta, name, blobs, n)
    requires blobName in blobs && D.Splittable(blobs[blobName])
    ensures D.SubKey(meta, name, i) in e && entry == e[D.SubKey(meta, name, i)]
    ensures entry.meta == Subsession(meta, name, i, n)
    ensures blobName in entry.blobs && D.IsPiece(blobs[blobName], n, i, entry.blobs[blobName])
  {
    assert D.Entry(e, meta, name, blobs, n, i, blobs.Keys);
    entry := e[D.SubKey(meta, name, i)];
    hide D.IsPiece, D.OnlySubsessions;
  }

  /** A piece of a nested shard is nested one level deeper. */
  lemma PieceDeepens(b: Blob, sizes: seq<nat>, ids: seq<nat>, piece: Blob, n: nat, i: nat, deeper: Blob)
    requires Digits(ids, sizes) && CutsAs(b, sizes + [n]) && CutsAs(b, sizes) && piece == NestedShard(b, ids)
    requires i < n && D.Splittable(piece) && D.IsPiece(piece, n, i, deeper)
    ensures Digits(ids + [i], sizes + [n]) && deeper == NestedShard(b, ids + [i])
  {
    var k := |sizes|;
    assert b.dims[..k + 1] == sizes + [n];
    NestedShardAppend(b, ids, i);
    assert piece.dims[0] == b.dims[k] == n;
    D.PieceIsShard(piece, n, i, deeper);
  }

  // ----- what a shard brings to the gathering node -----

  /** Event `e` delivers, for every wire of its dependency, the shard at `ids` of the wired input's tensor. */
  ghost predicate IsLeaf(w: Wiring, root: Metadata, names: seq<string>, sizes: seq<nat>, tensors: map<string, Blob>,
                         ids: seq<nat>, e: Event) {
    && e.dep < |w.deps|
    && |names| == |sizes|
    && Digits(ids, sizes)
    && Spawned(root, Splits(names, sizes, ids), e.meta)
    && forall i :: 0 <= i < |w.deps[e.dep]| ==> WireLeaf(w.deps[e.dep][i], e, sizes, tensors, ids)
  }

  ghost predicate WireLeaf(wire: (string, string), e: Event, sizes: seq<nat>, tensors: map<string, Blob>, ids: seq<nat>)
    requires Digits(ids, sizes)
  {
    && wire.0 in e.inputs
    && wire.1 in tensors
    && CutsAs(tensors[wire.1], sizes)
    && e.inputs[wire.0] == NestedShard(tensors[wire.1], ids)
  }

  lemma SpawnedIds(from: Metadata, names: seq<string>, sizes: seq<nat>, ids: seq<nat>, to: Metadata)
    requires Valid(from) && |names| == |sizes| == |ids| && Spawned(from, Splits(names, sizes, ids), to)
    ensures Valid(to) && |to.levels| == |from.levels| + |names|
    ensures Last(Ids(to), |names|) == ids && Last(Sizes(to), |names|) == sizes
  {
    var splits := Splits(names, sizes, ids);
    SpawnedSizes(from, splits, to);
    SpawnedLevels(from, splits, to);
    forall i | 0 <= i < |names| ensures Ids(to)[|from.levels| + i] == ids[i] {
      assert to.levels[|from.levels| + i] == Names(splits)[i];
      SpawnedDetail(from, splits, to, i);
    }
    assert SplitSizes(splits) == sizes;
  }

  /** A shard is addressed to its root's session, collapses to the split sizes, and gets its row-major position. */
  lemma LeafRouted(w: Wiring, root: Metadata, names: seq<string>, sizes: seq<nat>, tensors: map<string, Blob>,
                   ids: seq<nat>, e: Event)
    requires Valid(root) && names != [] && IsLeaf(w, root, names, sizes, tensors, ids, e)
    requires w.gatherFrom == Elems(names) && Product(sizes) <= INT_VALUES
    ensures Addressed(w, e, Key(root))
    ensures Collapse(e.meta, w.gatherFrom) == Ok((root, CollapseDetails(names, sizes)))
    ensures ShardId(e.meta, w.gatherFrom) == Ok(RowMajor(ids, sizes))
    ensures RowMajor(ids, sizes) < Product(sizes)
  {
    hide Collapse, SessionKey, ShardId, IsLeaf;
    LeafParts(w, root, names, sizes, tensors, ids, e);
    var splits := Splits(names, sizes, ids);
    assert Names(splits) == names && SplitSizes(splits) == sizes;
    CollapseUndoesSpawning(root, splits, e.meta);
    KeyOfCollapsed(e.meta, w.gatherFrom);
    SpawnedIds(root, names, sizes, ids, e.meta);
    SpawnedInnermost(root, splits, e.meta);
    ShardIdIsRowMajor(e.meta, w.gatherFrom);
    RowMajorInRange(ids, sizes);
  }

  lemma LeafParts(w: Wiring, root: Metadata, names: seq<string>, sizes: seq<nat>, tensors: map<string, Blob>,
                  ids: seq<nat>, e: Event)
    requires IsLeaf(w, root, names, sizes, tensors, ids, e)
    ensures |names| == |sizes| && Digits(ids, sizes) && Spawned(root, Splits(names, sizes, ids), e.meta)
  {
  }

  lemma LeafBrings(w: Wiring, root: Metadata, names: seq<string>, sizes: seq<nat>, tensors: map<string, Blob>,
                   ids: seq<nat>, e: Event)
    requires Valid(root) && names != [] && IsLeaf(w, root, names, sizes, tensors, ids, e)
    requires w.gatherFrom == Elems(names) && Product(sizes) <= INT_VALUES && TensorsFor(tensors, w.deps, sizes)
    ensures Addressed(w, e, Key(root)) && ShardId(e.meta, w.gatherFrom).Ok?
    ensures ArrivalOf(w, e) == Arrival(e.dep, RowMajor(ids, sizes), e.inputs)
    ensures Brings(ArrivalOf(w, e), w.deps, tensors, sizes)
  {
    hide Collapse, SessionKey, ShardId;
    LeafRouted(w, root, names, sizes, tensors, ids, e);
    var a := ArrivalOf(w, e);
    forall i | 0 <= i < |w.deps[e.dep]| ensures BringsOne(a, w.deps[e.dep][i], tensors, sizes) {
      var wire := w.deps[e.dep][i];
      assert WireLeaf(wire, e, sizes, tensors, ids);
      NestedShardIsChunk(tensors[wire.1], ids);
    }
  }

  // ----- the identity -----

  /** Every dependency has delivered the shard at every position. */
  ghost predicate AllDelivered(w: Wiring, events: seq<Event>, ids: seq<seq<nat>>, key: string, sizes: seq<nat>)
    requires |ids| == |events|
  {
    forall d: nat, x: seq<nat> :: d < |w.deps| && Digits(x, sizes) ==> HasDelivered(w, events, ids, key, d, x)
  }

  ghost predicate HasDelivered(w: Wiring, events: seq<Event>, ids: seq<seq<nat>>, key: string, d: nat, x: seq<nat>)
    requires |ids| == |events|
  {
    exists i :: 0 <= i < |events| && Addressed(w, events[i], key) && events[i].dep == d && ids[i] == x
  }

  /** The setting of the theorem: a gathering node, its wiring, and tensors cut along the split sizes. */
  ghost predicate Setting(w: Wiring, root: Metadata, names: seq<string>, sizes: seq<nat>, tensors: map<string, Blob>) {
    && Valid(root)
    && names != [] && |names| == |sizes|
    && w.gatherFrom == Elems(names)
    && WellWired(w.deps)
    && TensorsFor(tensors, w.deps, sizes)
    && Product(sizes) > 0
    && |w.deps| * Product(sizes) < INT_VALUES
  }

  /** Whatever reaches the session of `root` are shards of the tensors; other sessions are free. */
  ghost predicate OnlyLeaves(w: Wiring, root: Metadata, names: seq<string>, sizes: seq<nat>, tensors: map<string, Blob>,
                             events: seq<Event>, ids: seq<seq<nat>>) {
    && Keyed(root)
    && |ids| == |events|
    && forall i :: 0 <= i < |events| && Addressed(w, events[i], Key(root)) ==>
         IsLeaf(w, root, names, sizes, tensors, ids[i], events[i])
  }

  lemma BoundFactor(d: nat, p: nat)
    requires d > 0 && d * p < INT_VALUES
    ensures p < INT_VALUES
  {
    AtLeastOnce(d, p);
  }

  lemma {:induction false} PickedLeaves(w: Wiring, root: Metadata, names: seq<string>, sizes: seq<nat>,
                                        tensors: map<string, Blob>, events: seq<Event>, ids: seq<seq<nat>>)
    requires Setting(w, root, names, sizes, tensors) && OnlyLeaves(w, root, names, sizes, tensors, events, ids)
    ensures forall j :: 0 <= j < |Picked(w, events, Key(root))| ==>
              Brings(Picked(w, events, Key(root))[j], w.deps, tensors, sizes)
    ensures forall d: nat, x: seq<nat> :: Digits(x, sizes) ==>
              ((d, RowMajor(x, sizes)) in Seen(Picked(w, events, Key(root)))
               <==> HasDelivered(w, events, ids, Key(root), d, x))
  {
    hide Setting, IsLeaf, Collapse, SessionKey, ShardId, Brings;
    if events != [] {
      var k := |events| - 1;
      assert OnlyLeaves(w, root, names, sizes, tensors, events[..k], ids[..k]) by {
        assert forall i :: 0 <= i < k ==> events[..k][i] == events[i] && ids[..k][i] == ids[i];
      }
      PickedLeaves(w, root, names, sizes, tensors, events[..k], ids[..k]);
      PickedStep(w, root, names, sizes, tensors, events, ids);
      var before, now := Picked(w, events[..k], Key(root)), Picked(w, events, Key(root));
      if Addressed(w, events[k], Key(root)) {
        SeenStep(now, |now|);
        assert now[..|now|] == now;
        forall d: nat, x: seq<nat> | Digits(x, sizes)
          ensures (d, RowMajor(x, sizes)) in Seen(now) <==> HasDelivered(w, events, ids, Key(root), d, x)
        {
          if RowMajor(x, sizes) == RowMajor(ids[k], sizes) {
            RowMajorInjective(x, ids[k], sizes);
          }
        }
      }
    }
  }

  lemma PickedStep(w: Wiring, root: Metadata, names: seq<string>, sizes: seq<nat>, tensors: map<string, Blob>,
                   events: seq<Event>, ids: seq<seq<nat>>)
    requires Setting(w, root, names, sizes, tensors) && OnlyLeaves(w, root, names, sizes, tensors, events, ids)
             && events != []
    ensures var k := |events| - 1;
            var before, now := Picked(w, events[..k], Key(root)), Picked(w, events, Key(root));
            if Addressed(w, events[k], Key(root)) then
              && Digits(ids[k], sizes)
              && |now| == |before| + 1 && now[..|before|] == before
              && Brings(now[|before|], w.deps, tensors, sizes)
              && (now[|before|].dep, now[|before|].shard) == (events[k].dep, RowMajor(ids[k], sizes))
            else now == before
    ensures var k := |events| - 1;
            forall d, x :: HasDelivered(w, events, ids, Key(root), d, x) <==>
              HasDelivered(w, events[..k], ids[..k], Key(root), d, x)
              || (Addressed(w, events[k], Key(root)) && events[k].dep == d && ids[k] == x)
  {
    hide Collapse, SessionKey, ShardId, Brings;
    var k := |events| - 1;
    if Addressed(w, events[k], Key(root)) {
      BoundFactor(|w.deps|, Product(sizes));
      LeafBrings(w, root, names, sizes, tensors, ids[k], events[k]);
    }
    forall d, x ensures HasDelivered(w, events, ids, Key(root), d, x) <==>
        HasDelivered(w, events[..k], ids[..k], Key(root), d, x)
        || (Addressed(w, events[k], Key(root)) && events[k].dep == d && ids[k] == x)
    {
      DeliveredStep(w, events, ids, Key(root), d, x);
    }
  }

  lemma DeliveredStep(w: Wiring, events: seq<Event>, ids: seq<seq<nat>>, key: string, d: nat, x: seq<nat>)
    requires |ids| == |events| && events != []
    ensures var k := |events| - 1;
            HasDelivered(w, events, ids, key, d, x) <==>
              HasDelivered(w, events[..k], ids[..k], key, d, x)
              || (Addressed(w, events[k], key) && events[k].dep == d && ids[k] == x)
  {
    hide Addressed;
    var k := |events| - 1;
    if HasDelivered(w, events[..k], ids[..k], key, d, x) {
      var i :| 0 <= i < k && Addressed(w, events[..k][i], key) && events[..k][i].dep == d && ids[..k][i] == x;
      assert events[i] == events[..k][i] && ids[i] == ids[..k][i];
    }
    if HasDelivered(w, events, ids, key, d, x) {
      var i :| 0 <= i < |events| && Addressed(w, events[i], key) && events[i].dep == d && ids[i] == x;
      if i < k {
        assert events[i] == events[..k][i] && ids[i] == ids[..k][i];
      }
    }
  }

  lemma PickedSound(w: Wiring, root: Metadata, names: seq<string>, sizes: seq<nat>, tensors: map<string, Blob>,
                    events: seq<Event>, ids: seq<seq<nat>>)
    returns (all: set<(nat, nat)>)
    requires Setting(w, root, names, sizes, tensors) && OnlyLeaves(w, root, names, sizes, tensors, events, ids)
    ensures Sound(all, w.deps, CollapseDetails(names, sizes), Picked(w, events, Key(root)))
    ensures forall j :: 0 <= j < |Picked(w, events, Key(root))| ==>
              Brings(Picked(w, events, Key(root))[j], w.deps, tensors, sizes)
    ensures Seen(Picked(w, events, Key(root))) == all <==> AllDelivered(w, events, ids, Key(root), sizes)
  {
    all := Pairs(|w.deps|, Product(sizes));
    PickedLeaves(w, root, names, sizes, tensors, events, ids);
    var picked := Picked(w, events, Key(root));
    forall j | 0 <= j < |picked| ensures (picked[j].dep, picked[j].shard) in all {
      assert Brings(picked[j], w.deps, tensors, sizes);
    }
    CompleteExactly(all, w, events, ids, Key(root), sizes, picked);
  }

  lemma CompleteExactly(all: set<(nat, nat)>, w: Wiring, events: seq<Event>, ids: seq<seq<nat>>, key: string,
                        sizes: seq<nat>, picked: seq<Arrival>)
    requires |ids| == |events| && Covers(all, w.deps, sizes)
    requires forall j :: 0 <= j < |picked| ==> (picked[j].dep, picked[j].shard) in all
    requires forall d: nat, x: seq<nat> :: Digits(x, sizes) ==>
               ((d, RowMajor(x, sizes)) in Seen(picked) <==> HasDelivered(w, events, ids, key, d, x))
    ensures Seen(picked) == all <==> AllDelivered(w, events, ids, key, sizes)
  {
    hide HasDelivered;
    if AllDelivered(w, events, ids, key, sizes) {
      assert all <= Seen(picked) by {
        forall d: nat, s: nat | (d, s) in all ensures (d, s) in Seen(picked) {
          RowMajorOfUnrank(s, sizes);
          assert HasDelivered(w, events, ids, key, d, Unrank(s, sizes));
        }
        assert forall p :: p in all ==> p == (p.0, p.1) && (p.0, p.1) in Seen(picked);
      }
      forall p | p in Seen(picked) ensures p in all {
        var j :| 0 <= j < |picked| && p == (picked[j].dep, picked[j].shard);
      }
      assert Seen(picked) <= all;
    }
    if Seen(picked) == all {
      forall d: nat, x: seq<nat> | d < |w.deps| && Digits(x, sizes) ensures HasDelivered(w, events, ids, key, d, x) {
        RowMajorInRange(x, sizes);
        assert (d, RowMajor(x, sizes)) in all;
      }
    }
  }

  /**
    Demultiply, then gather: over every run of a gathering node, with sessions interleaved and shards in
    any order, the session of `root` is ready exactly when every dependency has delivered the shard at
    every position, and then its inputs are the original tensors, dims and bytes.
   */
  lemma GatherInvertsDemultiply(w: Wiring, root: Metadata, names: seq<string>, sizes: seq<nat>,
                                tensors: map<string, Blob>,
                                events: seq<Event>, ids: seq<seq<nat>>, states: seq<Sessions>)
    requires Setting(w, root, names, sizes, tensors) && OnlyLeaves(w, root, names, sizes, tensors, events, ids)
    requires NodeRun(w, events, states)
    ensures (Key(root) in states[|events|] && Ready(states[|events|][Key(root)].handler))
            <==> AllDelivered(w, events, ids, Key(root), sizes)
    ensures AllDelivered(w, events, ids, Key(root), sizes) ==>
              && states[|events|][Key(root)].meta == root
              && Rebuilt(states[|events|][Key(root)].handler.inputs, w.deps, tensors)
  {
    hide AllDelivered, Brings, Sound, Rebuilt, NodeRun, OnlyLeaves, IsRun, Picked, Setting;
    var details := CollapseDetails(names, sizes);
    LeavesAgree(w, root, names, sizes, tensors, events, ids);
    var handlers := SessionRun(w, events, states, root, details);
    var all := PickedSound(w, root, names, sizes, tensors, events, ids);
    var picked := Picked(w, events, Key(root));
    RunLengths(w.deps, details, picked, handlers);
    assert picked[..|picked|] == picked;
    ReadyExactlyWhenComplete(all, w.deps, details, picked, handlers, |picked|);
    SomethingExpected(all, w, root, names, sizes, tensors, picked);
    if Seen(picked) == all {
      SettingParts(w, root, names, sizes, tensors);
      GatherRestoresTensors(all, w.deps, details, tensors, picked, handlers);
    }
  }

  lemma LeavesAgree(w: Wiring, root: Metadata, names: seq<string>, sizes: seq<nat>, tensors: map<string, Blob>,
                    events: seq<Event>, ids: seq<seq<nat>>)
    requires Setting(w, root, names, sizes, tensors) && OnlyLeaves(w, root, names, sizes, tensors, events, ids)
    ensures Keyed(root) && Agree(w, events, root, CollapseDetails(names, sizes))
  {
    hide Collapse, SessionKey, ShardId, IsLeaf;
    assert names[0] in w.gatherFrom;
    forall i | 0 <= i < |events| && Addressed(w, events[i], Key(root))
      ensures Collapse(events[i].meta, w.gatherFrom) == Ok((root, CollapseDetails(names, sizes)))
    {
      BoundFactor(|w.deps|, Product(sizes));
      LeafRouted(w, root, names, sizes, tensors, ids[i], events[i]);
    }
  }

  lemma RunLengths(deps: seq<Mapping>, details: CollapseDetails, arrivals: seq<Arrival>, handlers: seq<Handler>)
    requires IsRun(deps, details, arrivals, handlers)
    ensures |handlers| == |arrivals| + 1
  {
  }

  lemma SettingParts(w: Wiring, root: Metadata, names: seq<string>, sizes: seq<nat>, tensors: map<string, Blob>)
    requires Setting(w, root, names, sizes, tensors)
    ensures TensorsFor(tensors, w.deps, sizes) && Product(sizes) > 0
  {
  }

  lemma SomethingExpected(all: set<(nat, nat)>, w: Wiring, root: Metadata, names: seq<string>, sizes: seq<nat>,
                          tensors: map<string, Blob>, picked: seq<Arrival>)
    requires Setting(w, root, names, sizes, tensors) && Sound(all, w.deps, CollapseDetails(names, sizes), picked)
    ensures picked == [] ==> Seen(picked) != all
  {
    assert (0, 0) in all;
  }
}
