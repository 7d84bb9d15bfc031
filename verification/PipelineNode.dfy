/**
  How a node collects its inputs: `Node::setInputs`, `Node::getNodeSession` and
  `Node::getReadySessions` (src/node.cpp:82-195).  A node holds one session per collapsed key.
 */
module PipelineNode {
  import opened Integers
  import opened Wrappers
  import opened SessionMetadata
  import opened SessionKeys
  import opened ShardIds
  import opened Blobs
  import opened InputHandlers
  import opened GatherRuns

  datatype Session = Session(meta: Metadata, handler: Handler)

  /** `gatherFrom` is empty for a node that does not gather; `deps` holds one mapping per previous node. */
  datatype Wiring = Wiring(gatherFrom: set<string>, deps: seq<Mapping>)

  /** One call of `setInputs(dependency, inputs, metadata)`. */
  datatype Event = Event(dep: nat, meta: Metadata, inputs: map<string, Blob>)

  type Sessions = map<string, Session>

  function NewSession(w: Wiring, meta: Metadata): Option<Session>
    requires Keyed(meta)
  {
    if w.gatherFrom == {} then Some(Session(meta, Create(|w.deps|, CollapseDetails([], []))))
    else
      match Collapse(meta, w.gatherFrom)
      case Err(_) => None
      case Ok((rest, details)) => Some(Session(rest, Create(|w.deps|, details)))
  }

  /** The session a metadata belongs to, existing or to be created. */
  function SessionFor(w: Wiring, sessions: Sessions, meta: Metadata): Option<Session>
    requires Keyed(meta)
  {
    match SessionKey(meta, w.gatherFrom)
    case Err(_) => None
    case Ok(key) => if key in sessions then Some(sessions[key]) else NewSession(w, meta)
  }

  function ArrivalOf(w: Wiring, e: Event): Arrival
    requires Keyed(e.meta) && ShardId(e.meta, w.gatherFrom).Ok?
  {
    Arrival(e.dep, ShardId(e.meta, w.gatherFrom).value, e.inputs)
  }

  ghost predicate Located(w: Wiring, sessions: Sessions, e: Event) {
    Keyed(e.meta) && SessionFor(w, sessions, e.meta).Some? && ShardId(e.meta, w.gatherFrom).Ok? && e.dep < |w.deps|
  }

  /** `h` is the input handler of the addressed session once the event has been delivered. */
  ghost predicate Delivered(w: Wiring, sessions: Sessions, e: Event, h: Handler)
    requires Located(w, sessions, e)
  {
    Arrives(SessionFor(w, sessions, e.meta).value.handler, w.deps, ArrivalOf(w, e), h)
  }

  ghost function After(w: Wiring, sessions: Sessions, e: Event, h: Handler): Sessions
    requires Located(w, sessions, e)
  {
    sessions[SessionKey(e.meta, w.gatherFrom).value := Session(SessionFor(w, sessions, e.meta).value.meta, h)]
  }

  /** The state after a successful call. */
  ghost predicate NodeStep(w: Wiring, before: Sessions, e: Event, after: Sessions) {
    Located(w, before, e) && exists h :: Delivered(w, before, e, h) && after == After(w, before, e, h)
  }

  ghost predicate Accepts(w: Wiring, before: Sessions, e: Event) {
    Located(w, before, e)
        && AcceptsDelivery(SessionFor(w, before, e.meta).value.handler, w.deps[e.dep], e.inputs, ArrivalOf(w, e).shard)
  }

  ghost predicate AcceptsDelivery(h: Handler, mapping: Mapping, inputs: map<string, Blob>, shard: nat) {
    Feed(h, mapping, inputs, shard).Ok? && NotifyOk(Feed(h, mapping, inputs, shard).value)
  }

  /** What a failed delivery leaves: the inputs before the failing one stored, or a consolidation broken off. */
  ghost predicate FailedDelivery(h: Handler, mapping: Mapping, inputs: map<string, Blob>, shard: nat, after: Handler) {
    if Feed(h, mapping, inputs, shard).Err? then after == FedAsFar(h, mapping, inputs, shard)
    else exists status :: BrokenOff(Feed(h, mapping, inputs, shard).value, after, status)
  }

  /** The state after a failed call: without a session to address nothing changes, otherwise the session is there. */
  ghost predicate NodeFailure(w: Wiring, before: Sessions, e: Event, after: Sessions)
    requires Keyed(e.meta) && e.dep < |w.deps|
  {
    var found := SessionFor(w, before, e.meta);
    if found.None? then after == before
    else if ShardId(e.meta, w.gatherFrom).Err? then after
        == before[SessionKey(e.meta, w.gatherFrom).value := found.value]
    else exists h ::
           && FailedDelivery(found.value.handler, w.deps[e.dep], e.inputs, ArrivalOf(w, e).shard, h)
           && after == After(w, before, e, h)
  }

  // ----- the node object -----

  /** A node session: its metadata and its input handler. */
  datatype NodeSession = NodeSession(metadata: Metadata, handler: InputHandler)

  class Node {
    const wiring: Wiring
    var nodeSessions: map<string, NodeSession>

    constructor (wiring: Wiring)
      ensures this.wiring == wiring && Valid() && State() == map[]
    {
      this.wiring := wiring;
      nodeSessions := map[];
    }

    ghost function Handlers(): set<InputHandler>
      reads this
    {
      set k | k in nodeSessions :: nodeSessions[k].handler
    }

    /** Every session has an input handler of its own. */
    ghost predicate Valid()
      reads this
    {
      forall k, l :: k in nodeSessions && l in nodeSessions && nodeSessions[k].handler == nodeSessions[l].handler ==>
               k == l
    }

    ghost function State(): Sessions
      reads this, Handlers()
    {
      map k | k in nodeSessions :: Session(nodeSessions[k].metadata, nodeSessions[k].handler.Abs())
    }

    /** Finds or creates the session; `None` stands for the null pointer. */
    method GetNodeSession(meta: Metadata) returns (found: Option<NodeSession>)
      requires Valid() && Keyed(meta) && |meta.levels| < SIZE_VALUES && |wiring.gatherFrom| < SIZE_VALUES
      requires |wiring.deps| < INT_VALUES
      modifies this
      ensures Valid()
      ensures found.Some? <==> SessionFor(wiring, old(State()), meta).Some?
      ensures found.None? ==> nodeSessions == old(nodeSessions)
      ensures found.Some? ==>
                && SessionKey(meta, wiring.gatherFrom).Ok?
                && nodeSessions == old(nodeSessions)[SessionKey(meta, wiring.gatherFrom).value := found.value]
                && Session(found.value.metadata, found.value.handler.Abs())
                     == SessionFor(wiring, old(State()), meta).value
                && State() == old(State())[SessionKey(meta, wiring.gatherFrom).value :=
                                             SessionFor(wiring, old(State()), meta).value]
                && (found.value.handler in old(Handlers()) || fresh(found.value.handler))
    {
      hide SessionKey, Collapse, Create;
      var key := GetSessionKey(meta, wiring.gatherFrom);
      if key.Err? {
        return None;
      }
      if key.value in nodeSessions {
        return Some(nodeSessions[key.value]);
      }
      var rest, details := meta, CollapseDetails([], []);
      if |wiring.gatherFrom| > 0 {
        var collapsed := GetCollapsedSessionMetadata(meta, wiring.gatherFrom);
        if collapsed.Err? {
          return None;
        }
        rest, details := collapsed.value.0, collapsed.value.1;
      }
      var handler := new InputHandler(|wiring.deps|, details);
      nodeSessions := nodeSessions[key.value := NodeSession(rest, handler)];
      return Some(NodeSession(rest, handler));
    }

    /** Lines 94-135.  Accepted means, among the rest, that nothing is copied outside a consolidated blob. */
    method SetInputs(e: Event) returns (status: Status)
      requires Valid() && Keyed(e.meta) && |e.meta.levels| < SIZE_VALUES && |wiring.gatherFrom| < SIZE_VALUES
      requires |wiring.deps| < INT_VALUES && e.dep < |wiring.deps|
      requires (forall name :: name in e.inputs ==> WellFormed(e.inputs[name]))
      requires forall key :: key in State() ==> Sane(State()[key].handler)
      modifies this, Handlers()
      ensures Valid()
      ensures status.OK? <==> Accepts(wiring, old(State()), e)
      ensures status.OK? ==> NodeStep(wiring, old(State()), e, State())
      ensures !status.OK? ==> NodeFailure(wiring, old(State()), e, State())
    {
      hide SessionKey, ShardId, Collapse, Create, Feed, NotifyOk, Notified, Sane;
      ghost var start := State();
      SessionSane(wiring, start, e.meta);
      var found := GetNodeSession(e.meta);
      if found.None? {
        return InternalError;
      }
      var shardId := GetShardId(e.meta, wiring.gatherFrom);
      if shardId.Err? {
        return InternalError;
      }
      ghost var key := SessionKey(e.meta, wiring.gatherFrom).value;
      assert State() == start[key := SessionFor(wiring, start, e.meta).value];
      hide Node.State, Node.Valid, Node.Handlers;
      status := DeliverTo(key, found.value.handler, wiring.deps[e.dep], e.inputs, shardId.value);
      UpdateTwice(start, key, SessionFor(wiring, start, e.meta).value,
          Session(found.value.metadata, found.value.handler.Abs()));
      assert State() == After(wiring, start, e, found.value.handler.Abs());
      if status.OK? {
        StepByDelivery(wiring, start, e, found.value.handler.Abs());
      }
    }

    /** A delivery changes the one session it goes to. */
    method DeliverTo(ghost key: string, handler: InputHandler, mapping: Mapping, inputs: map<string, Blob>, shard: nat)
      returns (status: Status)
      requires Valid() && key in nodeSessions && nodeSessions[key].handler == handler
      requires Sane(handler.Abs()) && (forall name :: name in inputs ==> WellFormed(inputs[name]))
      modifies handler
      ensures status.OK? <==> AcceptsDelivery(old(handler.Abs()), mapping, inputs, shard)
      ensures status.OK? ==> Delivery(old(handler.Abs()), mapping, inputs, shard, handler.Abs())
      ensures !status.OK? ==> FailedDelivery(old(handler.Abs()), mapping, inputs, shard, handler.Abs())
      ensures State() == old(State())[key := Session(nodeSessions[key].metadata, handler.Abs())]
    {
      status := Deliver(handler, mapping, inputs, shard);
      forall k | k in nodeSessions && k != key
        ensures nodeSessions[k].handler.Abs() == old(nodeSessions[k].handler.Abs())
      {
        assert nodeSessions[k].handler != nodeSessions[key].handler;
      }
    }

    /** Lines 186-195. */
    method GetReadySessions() returns (ready: set<string>)
      ensures forall k :: k in ready <==> k in State() && Ready(State()[k].handler)
    {
      ready := {};
      var pending := nodeSessions.Keys;
      while pending != {}
        invariant pending <= nodeSessions.Keys
        invariant forall k :: k in ready <==> k in State() && k !in pending && Ready(State()[k].handler)
        decreases |pending|
      {
        var k :| k in pending;
        var isReady := nodeSessions[k].handler.IsReady();
        if isReady {
          ready := ready + {k};
        }
        pending := pending - {k};
      }
    }
  }

  lemma SessionSane(w: Wiring, sessions: Sessions, meta: Metadata)
    requires Keyed(meta) && forall key :: key in sessions ==> Sane(sessions[key].handler)
    ensures SessionFor(w, sessions, meta).Some? ==> Sane(SessionFor(w, sessions, meta).value.handler)
  {
  }

  lemma StepByDelivery(w: Wiring, sessions: Sessions, e: Event, h: Handler)
    requires Located(w, sessions, e)
    requires Delivery(SessionFor(w, sessions, e.meta).value.handler, w.deps[e.dep], e.inputs, ArrivalOf(w, e).shard, h)
    ensures NodeStep(w, sessions, e, After(w, sessions, e, h))
  {
    assert Delivered(w, sessions, e, h);
  }

  lemma UpdateTwice(sessions: Sessions, key: string, first: Session, second: Session)
    ensures sessions[key := first][key := second] == sessions[key := second]
  {
  }

  /** Lines 110-134: all mapped inputs of one dependency, then the notification. */
  method Deliver(handler: InputHandler, mapping: Mapping, inputs: map<string, Blob>, shard: nat)
    returns (status: Status)
    requires Sane(handler.Abs()) && (forall name :: name in inputs ==> WellFormed(inputs[name]))
    modifies handler
    ensures status.OK? <==> AcceptsDelivery(old(handler.Abs()), mapping, inputs, shard)
    ensures status.OK? ==> Delivery(old(handler.Abs()), mapping, inputs, shard, handler.Abs())
    ensures !status.OK? ==> FailedDelivery(old(handler.Abs()), mapping, inputs, shard, handler.Abs())
  {
    hide BrokenOff, NotifyOk, Notified;
    var i := 0;
    while i < |mapping|
      invariant 0 <= i <= |mapping|
      invariant Sane(handler.Abs())
      invariant Feed(old(handler.Abs()), mapping, inputs, shard) == Feed(handler.Abs(), mapping[i..], inputs, shard)
      invariant FedAsFar(old(handler.Abs()), mapping, inputs, shard)
                  == FedAsFar(handler.Abs(), mapping[i..], inputs, shard)
    {
      var (output, input) := mapping[i];
      assert mapping[i..][1..] == mapping[i + 1..];
      if output !in inputs {
        return MissingInput;
      }
      PutSane(handler.Abs(), input, inputs[output], shard);
      status := handler.SetInput(input, inputs[output], shard);
      if !status.OK? {
        return;
      }
      i := i + 1;
    }
    assert mapping[i..] == [];
    status := handler.NotifyFinishedDependency();
  }

  lemma PutSane(h: Handler, name: string, blob: Blob, shard: nat)
    requires Sane(h) && WellFormed(blob)
    ensures Put(h, name, blob, shard).Ok? ==> Sane(Put(h, name, blob, shard).value)
  {
    var after := Put(h, name, blob, shard);
    if after.Ok? {
      forall n | n in after.value.shards ensures AllWellFormed(after.value.shards[n]) {
        if n in h.shards {
          assert AllWellFormed(h.shards[n]);
        }
      }
    }
  }

  // ----- runs of a node -----

  ghost predicate NodeRun(w: Wiring, events: seq<Event>, states: seq<Sessions>) {
    && |states| == |events| + 1
    && states[0] == map[]
    && forall i :: 0 <= i < |events| ==> NodeStep(w, states[i], events[i], states[i + 1])
  }

  /** A session is always filed under its own key. */
  ghost predicate FiledByKey(sessions: Sessions) {
    forall key :: key in sessions ==> Keyed(sessions[key].meta) && Key(sessions[key].meta) == key
  }

  lemma StepFiledByKey(w: Wiring, before: Sessions, e: Event, after: Sessions)
    requires FiledByKey(before) && Valid(e.meta) && NodeStep(w, before, e, after)
    ensures FiledByKey(after)
  {
    if w.gatherFrom == {} {
      KeyIgnoringNothing(e.meta);
    } else if Collapse(e.meta, w.gatherFrom).Ok? {
      KeyOfCollapsed(e.meta, w.gatherFrom);
    }
  }

  /** The map key under which a node keeps a session is that session's own key, in every run. */
  lemma {:induction false} SessionsFiledByKey(w: Wiring, events: seq<Event>, states: seq<Sessions>, n: nat)
    requires NodeRun(w, events, states) && n <= |events|
    requires forall i :: 0 <= i < |events| ==> Valid(events[i].meta)
    ensures FiledByKey(states[n])
  {
    if n > 0 {
      SessionsFiledByKey(w, events, states, n - 1);
      var k := n - 1;
      assert NodeStep(w, states[k], events[k], states[k + 1]);
      StepFiledByKey(w, states[k], events[k], states[n]);
    }
  }

  /** Event `e` is addressed to the session with the given key. */
  ghost predicate Addressed(w: Wiring, e: Event, key: string) {
    Keyed(e.meta) && SessionKey(e.meta, w.gatherFrom) == Ok(key)
  }

  ghost function Picked(w: Wiring, events: seq<Event>, key: string): seq<Arrival> {
    if events == [] then []
    else
      var k := |events| - 1;
      var e := events[k];
      Picked(w, events[..k], key)
      + if Addressed(w, e, key) && ShardId(e.meta, w.gatherFrom).Ok? then [ArrivalOf(w, e)] else []
  }

  /** The events of one session agree on what they collapse to. */
  ghost predicate Agree(w: Wiring, events: seq<Event>, root: Metadata, details: CollapseDetails)
    requires Keyed(root)
  {
    && w.gatherFrom != {}
    && forall i :: 0 <= i < |events| && Addressed(w, events[i], Key(root)) ==>
         Collapse(events[i].meta, w.gatherFrom) == Ok((root, details))
  }

  /** The handler state that a session has after its first arrivals, or would be created with. */
  ghost predicate SessionAt(w: Wiring, sessions: Sessions, root: Metadata, count: nat, h: Handler)
    requires Keyed(root)
  {
    if count == 0 then Key(root) !in sessions
    else Key(root) in sessions && sessions[Key(root)] == Session(root, h)
  }

  /**
    Sessions do not interfere: what a node holds for one session is a run of that session's own
    deliveries, however the deliveries of other sessions are interleaved with them.
   */
  lemma {:induction false} SessionRun(w: Wiring, events: seq<Event>, states: seq<Sessions>, root: Metadata,
                                      details: CollapseDetails)
    returns (handlers: seq<Handler>)
    requires NodeRun(w, events, states) && Keyed(root) && Agree(w, events, root, details)
    ensures IsRun(w.deps, details, Picked(w, events, Key(root)), handlers)
    ensures SessionAt(w, states[|events|], root, |Picked(w, events, Key(root))|, handlers[|handlers| - 1])
  {
    if events == [] {
      handlers := [Create(|w.deps|, details)];
    } else {
      var k := |events| - 1;
      InitialRun(w, events, states);
      AgreeInit(w, events, root, details);
      var before := SessionRun(w, events[..k], states[..k + 1], root, details);
      assert NodeStep(w, states[k], events[k], states[k + 1]);
      handlers := SessionRunStep(w, events, states[k], states[k + 1], root, details, before);
    }
  }

  lemma AgreeInit(w: Wiring, events: seq<Event>, root: Metadata, details: CollapseDetails)
    requires Keyed(root) && Agree(w, events, root, details) && events != []
    ensures Agree(w, events[..|events| - 1], root, details)
  {
    var init := events[..|events| - 1];
    assert forall i :: 0 <= i < |init| ==> init[i] == events[i];
  }

  lemma SessionRunStep(w: Wiring, events: seq<Event>, state: Sessions, next: Sessions, root: Metadata,
                       details: CollapseDetails, before: seq<Handler>)
    returns (handlers: seq<Handler>)
    requires events != [] && Keyed(root) && Agree(w, events, root, details)
    requires NodeStep(w, state, events[|events| - 1], next)
    requires IsRun(w.deps, details, Picked(w, events[..|events| - 1], Key(root)), before)
    requires SessionAt(w, state, root, |Picked(w, events[..|events| - 1], Key(root))|, before[|before| - 1])
    ensures IsRun(w.deps, details, Picked(w, events, Key(root)), handlers)
    ensures SessionAt(w, next, root, |Picked(w, events, Key(root))|, handlers[|handlers| - 1])
  {
    hide SessionKey, ShardId, Collapse, Create, Feed, NotifyOk, Notified;
    var e := events[|events| - 1];
    var earlier := Picked(w, events[..|events| - 1], Key(root));
    handlers := before;
    if Addressed(w, e, Key(root)) {
      SessionStep(w, state, e, next, root, details, |earlier|, before[|before| - 1]);
      var after := next[Key(root)].handler;
      RunExtend(w.deps, details, earlier, before, ArrivalOf(w, e), after);
      handlers := before + [after];
    } else {
      assert Picked(w, events, Key(root)) == earlier;
    }
  }

  lemma InitialRun(w: Wiring, events: seq<Event>, states: seq<Sessions>)
    requires NodeRun(w, events, states) && events != []
    ensures NodeRun(w, events[..|events| - 1], states[..|events|])
  {
    var k := |events| - 1;
    forall i | 0 <= i < k ensures NodeStep(w, states[..k + 1][i], events[..k][i], states[..k + 1][i + 1]) {
      assert NodeStep(w, states[i], events[i], states[i + 1]);
    }
  }

  lemma SessionStep(w: Wiring, before: Sessions, e: Event, after: Sessions, root: Metadata, details: CollapseDetails,
                    count: nat, h: Handler)
    requires Keyed(root) && NodeStep(w, before, e, after) && w.gatherFrom != {}
    requires Addressed(w, e, Key(root)) && Collapse(e.meta, w.gatherFrom) == Ok((root, details))
    requires SessionAt(w, before, root, count, h) && (count == 0 ==> h == Create(|w.deps|, details))
    ensures Key(root) in after && after[Key(root)].meta == root
    ensures Arrives(h, w.deps, ArrivalOf(w, e), after[Key(root)].handler)
  {
  }

  lemma RunExtend(deps: seq<Mapping>, details: CollapseDetails, arrivals: seq<Arrival>, handlers: seq<Handler>,
                  a: Arrival, after: Handler)
    requires IsRun(deps, details, arrivals, handlers) && Arrives(handlers[|arrivals|], deps, a, after)
    ensures IsRun(deps, details, arrivals + [a], handlers + [after])
  {
    var all := arrivals + [a];
    assert all[..|all| - 1] == arrivals;
    RunAppend(deps, details, all, handlers, after);
  }
}
