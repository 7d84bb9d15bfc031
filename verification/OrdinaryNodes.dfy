/**
  Every run of a node that does not gather (src/node.cpp:82-195, src/nodeinputhandler.cpp:26-55): what its sessions
  hold, when they are ready, and which calls they accept.
 */
module OrdinaryNodes {
  import opened Integers
  import opened Wrappers
  import opened Collections
  import opened SessionMetadata
  import opened SessionKeys
  import opened ShardIds
  import opened Blobs
  import opened InputHandlers
  import opened GatherRuns
  import opened PipelineNode

  // ----- one delivery to an ordinary handler -----

  ghost predicate Free(h: Handler, mapping: Mapping, inputs: map<string, Blob>) {
    forall i :: 0 <= i < |mapping| ==> mapping[i].0 in inputs && mapping[i].1 !in h.inputs
  }

  lemma {:induction false} FeedsExactly(h: Handler, mapping: Mapping, inputs: map<string, Blob>)
    requires h.kind.Plain? && DistinctTargets(mapping)
    ensures Feed(h, mapping, inputs, 0).Ok? <==> Free(h, mapping, inputs)
    decreases |mapping|
  {
    if mapping != [] && mapping[0].0 in inputs && mapping[0].1 !in h.inputs {
      var next := Put(h, mapping[0].1, inputs[mapping[0].0], 0).value;
      FeedsExactly(next, mapping[1..], inputs);
      assert forall i :: 1 <= i < |mapping| ==> mapping[i] == mapping[1..][i - 1];
      assert forall i :: 1 <= i < |mapping| ==> (mapping[i].1 in next.inputs <==> mapping[i].1 in h.inputs);
    }
  }

  /** The mapped inputs are added, each with the blob of its output. */
  ghost predicate Extended(before: map<string, Blob>, mapping: Mapping, inputs: map<string, Blob>,
                           after: map<string, Blob>) {
    && (forall name :: name in after <==> name in before || Targets(mapping, name))
    && (forall name :: name in before ==> name in after && after[name] == before[name])
    && (forall i :: 0 <= i < |mapping| ==>
          mapping[i].0 in inputs && mapping[i].1 in after && after[mapping[i].1] == inputs[mapping[i].0])
  }

  lemma {:induction false} FeedExtends(h: Handler, mapping: Mapping, inputs: map<string, Blob>)
    requires h.kind.Plain? && DistinctTargets(mapping) && Feed(h, mapping, inputs, 0).Ok?
    ensures var after := Feed(h, mapping, inputs, 0).value;
            after == h.(inputs := after.inputs) && Extended(h.inputs, mapping, inputs, after.inputs)
    decreases |mapping|
  {
    if mapping != [] {
      var next := Put(h, mapping[0].1, inputs[mapping[0].0], 0).value;
      FeedExtends(next, mapping[1..], inputs);
      var after := Feed(h, mapping, inputs, 0).value;
      forall name ensures Targets(mapping, name) <==> name == mapping[0].1 || Targets(mapping[1..], name) {
        TargetsSplit(mapping, name);
      }
      forall i | 0 <= i < |mapping| ensures mapping[i].0 in inputs && mapping[i].1 in after.inputs {
        if i > 0 {
          assert mapping[i] == mapping[1..][i - 1];
        }
      }
      forall i | 0 <= i < |mapping| ensures after.inputs[mapping[i].1] == inputs[mapping[i].0] {
        if i > 0 {
          assert mapping[i] == mapping[1..][i - 1];
        }
      }
    }
  }

  // ----- runs -----

  ghost predicate Sent(w: Wiring, events: seq<Event>, key: string, i: int) {
    0 <= i < |events| && Addressed(w, events[i], key) && events[i].dep < |w.deps|
  }

  /** The dependencies that have delivered to a session. */
  ghost function From(w: Wiring, events: seq<Event>, key: string): set<nat> {
    set i | 0 <= i < |events| && Sent(w, events, key, i) :: events[i].dep
  }

  /** The mapped inputs of the deliveries, each with the blob it was delivered. */
  ghost predicate Holds(w: Wiring, events: seq<Event>, key: string, inputs: map<string, Blob>) {
    && (forall name :: name in inputs <==> Mapped(w, events, key, name))
    && (forall i :: Sent(w, events, key, i) ==> Brought(w.deps[events[i].dep], events[i].inputs, inputs))
  }

  ghost predicate Brought(mapping: Mapping, outputs: map<string, Blob>, inputs: map<string, Blob>) {
    forall k :: 0 <= k < |mapping| ==>
      mapping[k].0 in outputs && mapping[k].1 in inputs && inputs[mapping[k].1] == outputs[mapping[k].0]
  }

  ghost predicate HasSent(w: Wiring, events: seq<Event>, key: string, d: nat) {
    exists i :: Sent(w, events, key, i) && events[i].dep == d
  }

  lemma HasSentExactly(w: Wiring, events: seq<Event>, key: string, d: nat)
    ensures HasSent(w, events, key, d) <==> d in From(w, events, key)
  {
  }

  ghost predicate Once(w: Wiring, events: seq<Event>, key: string) {
    forall i, j :: Sent(w, events, key, i) && Sent(w, events, key, j) && i < j ==> events[i].dep != events[j].dep
  }

  ghost predicate Follows(w: Wiring, events: seq<Event>, key: string, h: Handler) {
    && h.kind.Plain? && !h.used
    && h.remaining == |w.deps| - |From(w, events, key)|
    && Holds(w, events, key, h.inputs)
  }

  /** What is true of the session under `key` after the events. */
  ghost predicate Tracks(w: Wiring, events: seq<Event>, key: string, sessions: Sessions) {
    && Once(w, events, key)
    && From(w, events, key) <= Range(|w.deps|)
    && (key in sessions <==> From(w, events, key) != {})
    && (key in sessions ==> Follows(w, events, key, sessions[key].handler))
  }

  lemma EventsBefore(w: Wiring, events: seq<Event>, key: string)
    requires events != []
    ensures var k := |events| - 1;
            && (forall i :: 0 <= i < k ==> (Sent(w, events[..k], key, i) <==> Sent(w, events, key, i)))
            && From(w, events, key)
               == From(w, events[..k], key) + (if Sent(w, events, key, k) then {events[k].dep} else {})
  {
    var k := |events| - 1;
    var init := events[..k];
    forall d ensures d in From(w, events, key)
             <==> d in From(w, init, key) || (Sent(w, events, key, k) && d == events[k].dep) {
      if d in From(w, init, key) {
        var i :| 0 <= i < |init| && Sent(w, init, key, i) && init[i].dep == d;
        assert Sent(w, events, key, i) && events[i].dep == d;
      }
      if d in From(w, events, key) {
        var i :| 0 <= i < |events| && Sent(w, events, key, i) && events[i].dep == d;
        assert i < k ==> Sent(w, init, key, i) && init[i].dep == d;
      }
    }
  }

  lemma FromGrows(w: Wiring, events: seq<Event>, key: string)
    requires events != []
    ensures var k := |events| - 1;
            From(w, events, key) == From(w, events[..k],
                key) + (if Sent(w, events, key, k) then {events[k].dep} else {})
  {
    EventsBefore(w, events, key);
  }

  lemma NothingSent(w: Wiring, events: seq<Event>, key: string)
    requires From(w, events, key) == {}
    ensures Holds(w, events, key, map[])
  {
    SentFrom(w, events, key);
  }

  lemma SentFrom(w: Wiring, events: seq<Event>, key: string)
    ensures forall i :: Sent(w, events, key, i) ==> events[i].dep in From(w, events, key)
  {
  }

  /** The handler that an event is delivered to. */
  ghost function HandlerFor(w: Wiring, sessions: Sessions, key: string): Handler {
    if key in sessions then sessions[key].handler else Create(|w.deps|, CollapseDetails([], []))
  }

  lemma HandlerFollows(w: Wiring, events: seq<Event>, key: string, sessions: Sessions)
    requires Tracks(w, events, key, sessions) && |w.deps| < INT_VALUES
    ensures Follows(w, events, key, HandlerFor(w, sessions, key))
  {
    if key !in sessions {
      NothingSent(w, events, key);
    }
  }

  /** To whom an event goes, and as which shard. */
  lemma Addressee(w: Wiring, e: Event, key: string)
    requires w.gatherFrom == {} && Keyed(e.meta)
    ensures SessionKey(e.meta, w.gatherFrom) == Ok(Key(e.meta)) && ShardId(e.meta, w.gatherFrom) == Ok(0)
    ensures Addressed(w, e, key) <==> key == Key(e.meta)
  {
    KeyIgnoringNothing(e.meta);
  }

  lemma SessionForOrdinary(w: Wiring, sessions: Sessions, meta: Metadata)
    requires w.gatherFrom == {} && Keyed(meta)
    ensures SessionFor(w, sessions, meta).Some?
    ensures SessionFor(w, sessions, meta).value.handler == HandlerFor(w, sessions, Key(meta))
  {
    KeyIgnoringNothing(meta);
  }

  /** Whether a session takes a delivery, in terms of what it has been sent. */
  lemma FreeExactly(w: Wiring, events: seq<Event>, key: string, h: Handler, d: nat, inputs: map<string, Blob>)
    requires WellWired(w.deps) && d < |w.deps| && Follows(w, events, key, h)
    ensures Free(h, w.deps[d], inputs) <==>
              d !in From(w, events, key) && forall k :: 0 <= k < |w.deps[d]| ==> w.deps[d][k].0 in inputs
  {
    var mapping := w.deps[d];
    if d in From(w, events, key) {
      var i :| 0 <= i < |events| && Sent(w, events, key, i) && events[i].dep == d;
      assert Brought(mapping, events[i].inputs, h.inputs);
      assert mapping[0].1 in h.inputs;
    } else {
      forall k | 0 <= k < |mapping| ensures mapping[k].1 !in h.inputs {
        assert Targets(mapping, mapping[k].1);
        assert forall i :: Sent(w, events, key, i) ==> events[i].dep in From(w, events, key);
      }
    }
  }

  lemma HoldsMore(w: Wiring, events: seq<Event>, key: string, before: map<string, Blob>, after: map<string, Blob>)
    requires events != [] && Sent(w, events, key, |events| - 1)
    requires Holds(w, events[..|events| - 1], key, before)
    requires Extended(before, w.deps[events[|events| - 1].dep], events[|events| - 1].inputs, after)
    ensures Holds(w, events, key, after)
  {
    NamesMore(w, events, key, before, after);
    var k := |events| - 1;
    var init, e := events[..k], events[k];
    EventsBefore(w, events, key);
    SentBounds(w, events, key);
    SentBounds(w, init, key);
    hide Sent, Targets;
    forall i | Sent(w, events, key, i) ensures Brought(w.deps[events[i].dep], events[i].inputs, after) {
      if i < k {
        assert Sent(w, init, key, i) && events[i] == init[i];
        assert Brought(w.deps[init[i].dep], init[i].inputs, before);
      }
    }
  }

  /** Some delivery has brought the input. */
  ghost predicate Mapped(w: Wiring, events: seq<Event>, key: string, name: string) {
    exists i :: Sent(w, events, key, i) && Targets(w.deps[events[i].dep], name)
  }

  lemma MappedBefore(w: Wiring, events: seq<Event>, key: string, name: string)
    requires events != []
    ensures var k := |events| - 1;
            Mapped(w, events, key, name) <==>
              || Mapped(w, events[..k], key, name)
              || (Sent(w, events, key, k) && Targets(w.deps[events[k].dep], name))
  {
    var k := |events| - 1;
    var init := events[..k];
    EventsBefore(w, events, key);
    SentBounds(w, events, key);
    SentBounds(w, init, key);
    hide Sent, Targets;
    if Mapped(w, events, key, name) {
      var i :| Sent(w, events, key, i) && Targets(w.deps[events[i].dep], name);
      assert i < k ==> Sent(w, init, key, i) && events[i] == init[i];
    }
    if Mapped(w, init, key, name) {
      var i :| Sent(w, init, key, i) && Targets(w.deps[init[i].dep], name);
      assert Sent(w, events, key, i) && events[i] == init[i];
    }
  }

  lemma NamesMore(w: Wiring, events: seq<Event>, key: string, before: map<string, Blob>, after: map<string, Blob>)
    requires events != [] && Sent(w, events, key, |events| - 1)
    requires Holds(w, events[..|events| - 1], key, before)
    requires Extended(before, w.deps[events[|events| - 1].dep], events[|events| - 1].inputs, after)
    ensures forall name :: name in after <==> Mapped(w, events, key, name)
  {
    hide Sent, Targets, Mapped, Brought;
    forall name ensures name in after <==> Mapped(w, events, key, name) {
      MappedBefore(w, events, key, name);
    }
  }

  lemma SentBounds(w: Wiring, events: seq<Event>, key: string)
    ensures forall i :: Sent(w, events, key, i) ==> 0 <= i < |events| && events[i].dep < |w.deps|
  {
  }

  /** What a successful delivery does to an ordinary handler. */
  lemma OrdinaryDelivery(h: Handler, mapping: Mapping, inputs: map<string, Blob>, after: Handler)
    requires h.kind.Plain? && DistinctTargets(mapping) && Delivery(h, mapping, inputs, 0, after)
    ensures Free(h, mapping, inputs) && Extended(h.inputs, mapping, inputs, after.inputs)
    ensures after.kind == h.kind && after.used == h.used && after.remaining == Decremented(h.remaining)
  {
    FeedsExactly(h, mapping, inputs);
    FeedExtends(h, mapping, inputs);
    hide Free, Extended, Feed;
  }

  /** A delivery to the session. */
  lemma DeliveryTracked(w: Wiring, events: seq<Event>, key: string, h: Handler, after: Handler)
    requires WellWired(w.deps) && |w.deps| < INT_VALUES && events != []
    requires Sent(w, events, key, |events| - 1) && Follows(w, events[..|events| - 1], key, h)
    requires From(w, events[..|events| - 1], key) <= Range(|w.deps|)
    requires var e := events[|events| - 1]; Delivery(h, w.deps[e.dep], e.inputs, 0, after)
    ensures events[|events| - 1].dep !in From(w, events[..|events| - 1], key)
    ensures Follows(w, events, key, after)
  {
    var k := |events| - 1;
    var e, seen := events[k], From(w, events[..k], key);
    assert e.dep < |w.deps| && DistinctTargets(w.deps[e.dep]);
    hide Holds, Free, Extended, From, WellWired, Sent, Delivery;
    OrdinaryDelivery(h, w.deps[e.dep], e.inputs, after);
    FreeExactly(w, events[..k], key, h, e.dep, e.inputs);
    FollowsMore(w, events, key, h, after);
  }

  lemma FollowsMore(w: Wiring, events: seq<Event>, key: string, h: Handler, after: Handler)
    requires |w.deps| < INT_VALUES && events != [] && Sent(w, events, key, |events| - 1)
    requires Follows(w, events[..|events| - 1], key, h) && From(w, events[..|events| - 1], key) <= Range(|w.deps|)
    requires events[|events| - 1].dep !in From(w, events[..|events| - 1], key)
    requires Extended(h.inputs, w.deps[events[|events| - 1].dep], events[|events| - 1].inputs, after.inputs)
    requires after.kind == h.kind && after.used == h.used && after.remaining == Decremented(h.remaining)
    ensures Follows(w, events, key, after)
  {
    hide Holds, Extended, From;
    var d, seen := events[|events| - 1].dep, From(w, events[..|events| - 1], key);
    assert d < |w.deps|;
    hide Sent;
    FromGrows(w, events, key);
    HoldsMore(w, events, key, h.inputs, after.inputs);
    MoreDependencies(seen, |w.deps|, d);
  }

  lemma MoreDependencies(seen: set<nat>, count: nat, d: nat)
    requires seen <= Range(count) && d < count && d !in seen && count < INT_VALUES
    ensures |seen| < count && |seen + {d}| == |seen| + 1 && Decremented(count - |seen|) == count - |seen| - 1
  {
    SubsetCardinality(seen + {d}, Range(count));
  }

  lemma OnceMore(w: Wiring, events: seq<Event>, key: string)
    requires events != [] && Once(w, events[..|events| - 1], key)
    requires Sent(w, events, key, |events| - 1) ==> events[|events| - 1].dep !in From(w, events[..|events| - 1], key)
    ensures Once(w, events, key)
  {
    var k := |events| - 1;
    EventsBefore(w, events, key);
    forall i, j | Sent(w, events, key, i) && Sent(w, events, key, j) && i < j ensures events[i].dep != events[j].dep {
      assert Sent(w, events[..k], key, i);
      if j < k {
        assert Sent(w, events[..k], key, j);
      } else {
        assert events[i].dep in From(w, events[..k], key);
      }
    }
  }

  /** What a successful call does to the sessions of an ordinary node. */
  lemma OrdinaryStep(w: Wiring, before: Sessions, e: Event, after: Sessions) returns (h: Handler)
    requires w.gatherFrom == {} && NodeStep(w, before, e, after)
    ensures Keyed(e.meta) && e.dep < |w.deps| && Key(e.meta) in after && after[Key(e.meta)].handler == h
    ensures Delivery(HandlerFor(w, before, Key(e.meta)), w.deps[e.dep], e.inputs, 0, h)
    ensures forall key :: key != Key(e.meta) ==>
              (key in after <==> key in before) && (key in before ==> after[key] == before[key])
  {
    h :| Delivered(w, before, e, h) && after == After(w, before, e, h);
    Addressee(w, e, Key(e.meta));
    SessionForOrdinary(w, before, e.meta);
    hide SessionFor, Delivery, SessionKey, ShardId, Key;
  }

  lemma StepTracked(w: Wiring, events: seq<Event>, key: string, before: Sessions, after: Sessions)
    requires w.gatherFrom == {} && WellWired(w.deps) && |w.deps| < INT_VALUES && events != []
    requires Tracks(w, events[..|events| - 1], key, before) && NodeStep(w, before, events[|events| - 1], after)
    ensures Tracks(w, events, key, after)
  {
    hide NodeStep, Delivery, WellWired, Tracks;
    var k := |events| - 1;
    var e := events[k];
    var h := OrdinaryStep(w, before, e, after);
    Addressee(w, e, key);
    if key == Key(e.meta) {
      DeliveredTracks(w, events, key, before, after, h);
    } else {
      OtherTracks(w, events, key, before, after);
    }
  }

  lemma DeliveredTracks(w: Wiring, events: seq<Event>, key: string, before: Sessions, after: Sessions, h: Handler)
    requires WellWired(w.deps) && |w.deps| < INT_VALUES && events != []
    requires Tracks(w, events[..|events| - 1], key, before) && Sent(w, events, key, |events| - 1)
    requires key in after && after[key].handler == h
    requires var e := events[|events| - 1]; Delivery(HandlerFor(w, before, key), w.deps[e.dep], e.inputs, 0, h)
    ensures Tracks(w, events, key, after)
  {
    var k := |events| - 1;
    HandlerFollows(w, events[..k], key, before);
    hide Follows, Delivery, WellWired, From, Once;
    assert events[k].dep in Range(|w.deps|);
    hide Sent;
    DeliveryTracked(w, events, key, HandlerFor(w, before, key), h);
    OnceMore(w, events, key);
    FromGrows(w, events, key);
  }

  lemma OtherTracks(w: Wiring, events: seq<Event>, key: string, before: Sessions, after: Sessions)
    requires events != [] && Tracks(w, events[..|events| - 1], key, before) && !Sent(w, events, key, |events| - 1)
    requires (key in after <==> key in before) && (key in before ==> after[key] == before[key])
    ensures Tracks(w, events, key, after)
  {
    hide Follows, From, Once, Sent;
    OnceMore(w, events, key);
    FromGrows(w, events, key);
    if key in before {
      StillFollows(w, events, key, before[key].handler);
    }
  }

  lemma StillFollows(w: Wiring, events: seq<Event>, key: string, h: Handler)
    requires events != [] && !Sent(w, events, key, |events| - 1) && Follows(w, events[..|events| - 1], key, h)
    ensures Follows(w, events, key, h)
  {
    EventsBefore(w, events, key);
    hide Holds, Sent;
    StillHolds(w, events, key, h.inputs);
  }

  lemma StillHolds(w: Wiring, events: seq<Event>, key: string, inputs: map<string, Blob>)
    requires events != [] && !Sent(w, events, key, |events| - 1) && Holds(w, events[..|events| - 1], key, inputs)
    ensures Holds(w, events, key, inputs)
  {
    var k := |events| - 1;
    var init := events[..k];
    EventsBefore(w, events, key);
    SentBounds(w, events, key);
    SentBounds(w, init, key);
    hide Sent, Brought, Targets, Mapped;
    forall i | Sent(w, events, key, i) ensures Brought(w.deps[events[i].dep], events[i].inputs, inputs) {
      assert i != k && Sent(w, init, key, i) && events[i] == init[i];
    }
    forall name ensures name in inputs <==> Mapped(w, events, key, name) {
      MappedBefore(w, events, key, name);
    }
  }

  lemma {:induction false} RunTracked(w: Wiring, events: seq<Event>, states: seq<Sessions>, key: string)
    requires w.gatherFrom == {} && WellWired(w.deps) && |w.deps| < INT_VALUES && NodeRun(w, events, states)
    ensures Tracks(w, events, key, states[|events|])
  {
    if events != [] {
      var k := |events| - 1;
      InitialRun(w, events, states);
      RunTracked(w, events[..k], states[..k + 1], key);
      assert NodeStep(w, states[k], events[k], states[k + 1]);
      StepTracked(w, events, key, states[k], states[k + 1]);
    }
  }

  // ----- the theorems -----

  /**
    Over every run of an ordinary node each dependency delivers to a session at most once; the session is ready
    exactly when every one of them has; and its inputs are the mapped ones, each with the blob delivered for it.
   */
  lemma OrdinarySession(w: Wiring, events: seq<Event>, states: seq<Sessions>, key: string)
    requires w.gatherFrom == {} && WellWired(w.deps) && |w.deps| < INT_VALUES && NodeRun(w, events, states)
    requires key in states[|events|]
    ensures Ready(states[|events|][key].handler) <==>
              forall d: nat :: d < |w.deps| ==> HasSent(w, events, key, d)
    ensures Holds(w, events, key, states[|events|][key].handler.inputs) && Once(w, events, key)
  {
    RunTracked(w, events, states, key);
    hide Holds, Once, NodeRun, HasSent, From, WellWired;
    var seen, all := From(w, events, key), Range(|w.deps|);
    SubsetCardinality(seen, all);
    forall d: nat ensures HasSent(w, events, key, d) <==> d in seen {
      HasSentExactly(w, events, key, d);
    }
    assert |seen| == |all| <==> seen == all;
  }

  /** A complete session has exactly the inputs of the node. */
  lemma CompleteSession(w: Wiring, events: seq<Event>, states: seq<Sessions>, key: string)
    requires w.gatherFrom == {} && WellWired(w.deps) && |w.deps| < INT_VALUES && NodeRun(w, events, states)
    requires key in states[|events|] && Ready(states[|events|][key].handler)
    ensures forall name :: name in states[|events|][key].handler.inputs <==> IsInput(w.deps, name)
  {
    OrdinarySession(w, events, states, key);
    var inputs := states[|events|][key].handler.inputs;
    forall d: nat, name | d < |w.deps| && Targets(w.deps[d], name) ensures name in inputs {
      assert HasSent(w, events, key, d);
    }
    hide Targets, NodeRun;
  }

  /** A call is accepted exactly when it brings every mapped output and its dependency has not delivered before. */
  lemma AcceptedExactly(w: Wiring, events: seq<Event>, states: seq<Sessions>, e: Event)
    requires w.gatherFrom == {} && WellWired(w.deps) && |w.deps| < INT_VALUES && NodeRun(w, events, states)
    requires Keyed(e.meta) && e.dep < |w.deps|
    ensures Accepts(w, states[|events|], e) <==>
              && (forall k :: 0 <= k < |w.deps[e.dep]| ==> w.deps[e.dep][k].0 in e.inputs)
              && !HasSent(w, events, Key(e.meta), e.dep)
  {
    var key, sessions := Key(e.meta), states[|events|];
    RunTracked(w, events, states, key);
    Addressee(w, e, key);
    SessionForOrdinary(w, sessions, e.meta);
    HandlerFollows(w, events, key, sessions);
    var h := HandlerFor(w, sessions, key);
    FeedsExactly(h, w.deps[e.dep], e.inputs);
    FreeExactly(w, events, key, h, e.dep, e.inputs);
    if Free(h, w.deps[e.dep], e.inputs) {
      FeedExtends(h, w.deps[e.dep], e.inputs);
    }
    hide Free, Extended, Follows, Feed, Tracks;
    HasSentExactly(w, events, key, e.dep);
  }
}
