/**
  What a failed `setInputs` leaves for the pipeline, which goes on to ask the node for its ready sessions
  (src/node.cpp:94-135, src/pipeline.cpp:126-148).
 */
module FailedCalls {
  import opened Integers
  import opened Wrappers
  import opened Collections
  import opened MixedRadix
  import opened SessionMetadata
  import opened SessionKeys
  import opened ShardIds
  import opened Blobs
  import opened InputHandlers
  import opened GatherRuns
  import opened PipelineNode
  import GatherBound

  /** Setting inputs, as far as it gets, does not touch the counter; shards stored before are kept. */
  lemma {:induction false} FedAsFarKeeps(h: Handler, mapping: Mapping, inputs: map<string, Blob>, shard: nat)
    ensures var after := FedAsFar(h, mapping, inputs, shard);
            && after.kind == h.kind && after.used == h.used && after.remaining == h.remaining
            && (h.kind.Gather? ==> after.inputs == h.inputs)
            && (forall name, s :: s in Stored(h, name) ==>
                 s in Stored(after, name) && Stored(after, name)[s] == Stored(h, name)[s])
    decreases |mapping|
  {
    if mapping != [] && mapping[0].0 in inputs && Put(h, mapping[0].1, inputs[mapping[0].0], shard).Ok? {
      FedAsFarKeeps(Put(h, mapping[0].1, inputs[mapping[0].0], shard).value, mapping[1..], inputs, shard);
    }
  }

  lemma {:induction false} FedIsAsFar(h: Handler, mapping: Mapping, inputs: map<string, Blob>, shard: nat)
    requires Feed(h, mapping, inputs, shard).Ok?
    ensures Feed(h, mapping, inputs, shard).value == FedAsFar(h, mapping, inputs, shard)
    decreases |mapping|
  {
    if mapping != [] {
      FedIsAsFar(Put(h, mapping[0].1, inputs[mapping[0].0], shard).value, mapping[1..], inputs, shard);
    }
  }

  /** The session that a call addresses, before and after it, with the inputs that the call was to set. */
  ghost predicate FailedOn(w: Wiring, before: Sessions, e: Event, after: Sessions, h: Handler, h': Handler) {
    && Located(w, before, e) && NodeFailure(w, before, e, after)
    && var key := SessionKey(e.meta, w.gatherFrom).value;
       && h == SessionFor(w, before, e.meta).value.handler
       && key in after && h' == after[key].handler
  }

  ghost predicate InputsRefused(w: Wiring, e: Event, h: Handler)
    requires Keyed(e.meta) && ShardId(e.meta, w.gatherFrom).Ok? && e.dep < |w.deps|
  {
    Feed(h, w.deps[e.dep], e.inputs, ShardId(e.meta, w.gatherFrom).value).Err?
  }

  /**
    When a session is ready after a failed call: if its inputs were refused, exactly when its counter was zero
    before; if the consolidation failed, always, unless it was used already.
   */
  lemma ReadyAfterFailure(w: Wiring, before: Sessions, e: Event, after: Sessions, h: Handler, h': Handler)
    requires FailedOn(w, before, e, after, h, h')
    ensures Ready(h') <==> !h.used && (InputsRefused(w, e, h) ==> h.remaining == 0)
    ensures InputsRefused(w, e, h) ==> h'.remaining == h.remaining
  {
    var mapping, shard := w.deps[e.dep], ShardId(e.meta, w.gatherFrom).value;
    hide Stored, SessionFor, SessionKey, ShardId, PartlyConsolidated, Blames;
    FedAsFarKeeps(h, mapping, e.inputs, shard);
    if Feed(h, mapping, e.inputs, shard).Ok? {
      FedIsAsFar(h, mapping, e.inputs, shard);
    }
    hide Feed, FedAsFar;
  }

  /**
    A session that a failed call has created, so that nothing has been delivered to it, is ready exactly when the
    number of pairs it expects is a multiple of 2^32.
   */
  lemma NewSessionAfterFailure(w: Wiring, before: Sessions, e: Event, after: Sessions, h: Handler, h': Handler,
                               root: Metadata, details: CollapseDetails)
    requires FailedOn(w, before, e, after, h, h') && w.gatherFrom != {} && InputsRefused(w, e, h)
    requires Collapse(e.meta, w.gatherFrom) == Ok((root, details)) && details.names != []
    requires SessionKey(e.meta, w.gatherFrom).value !in before
    ensures Ready(h') <==> |w.deps| * Product(details.sizes) % INT_VALUES == 0
  {
    assert h == Create(|w.deps|, details);
    ReadyAfterFailure(w, before, e, after, h, h');
  }

  /** A node that gathers `names` in one input from one dependency. */
  function GatherOne(names: seq<string>): Wiring {
    Wiring(Elems(names), [[("out", "in")]])
  }

  /**
    Three levels of 4096, 4096 and 256 shards.  The first call of `setInputs` for them lacks the output and fails;
    the session it has created is ready, without any input.
   */
  lemma ReadyWithoutInputs(names: seq<string>, splits: seq<Split>, meta: Metadata, after: Sessions)
    requires |names| == 3 && Valid(meta) && Spawned(ROOT, splits, meta)
    requires Names(splits) == names && SplitSizes(splits) == [4096, 4096, 256]
    requires NodeFailure(GatherOne(names), map[], Event(0, meta, map[]), after)
    ensures "" in after && after[""].meta == ROOT && Ready(after[""].handler)
    ensures after[""].handler.inputs == map[] && after[""].handler.shards == map[]
  {
    var w, e, before: Sessions := GatherOne(names), Event(0, meta, map[]), map[];
    var details := CollapseDetails(names, SplitSizes(splits));
    CollapseUndoesSpawning(ROOT, splits, meta);
    KeyOfCollapsed(meta, w.gatherFrom);
    ShardIdAcceptsExactly(meta, w.gatherFrom);
    assert names[0] in w.gatherFrom;
    assert SessionKey(meta, w.gatherFrom) == Ok("");
    var h := Create(1, details);
    assert SessionFor(w, before, meta) == Some(Session(ROOT, h));
    var shard := ShardId(meta, w.gatherFrom).value;
    assert Feed(h, w.deps[0], map[], shard) == Err(MissingInput);
    assert FedAsFar(h, w.deps[0], map[], shard) == h;
    GatherBound.ReadyWhenCreated(names);
  }
}
