/**
  The input handlers of a node session: the ordinary one (src/nodeinputhandler.cpp) and the
  gathering one (src/gathernodeinputhandler.cpp), chosen by `createNodeInputHandler`
  (src/nodesession.cpp:35-41).  `Handler` is the abstract state; class `InputHandler` follows
  the code, its virtual calls resolved by `kind`.
 */
module InputHandlers {
  import opened Integers
  import opened Wrappers
  import opened MixedRadix
  import opened SessionMetadata
  import opened Blobs

  datatype Status =
    | OK
    | InternalError
    | MissingInput
    | ShardForOrdinaryInput
    | SameInputTwice
    | InvalidPrecision
    | InconsistentShards
    | ShardMissing
    | Undefined    // a shard was written outside the consolidated blob

  datatype Kind = Plain | Gather(sizes: seq<nat>)

  datatype Handler = Handler(kind: Kind, inputs: map<string, Blob>, remaining: nat, used: bool,
                             shards: map<string, map<nat, Blob>>)

  function Create(inputsCount: nat, details: CollapseDetails): Handler {
    if |details.names| == 0
    then Handler(Plain, map[], inputsCount, false, map[])
    else Handler(Gather(details.sizes), map[], inputsCount * Product(details.sizes) % INT_VALUES, false, map[])
  }

  function Stored(h: Handler, name: string): map<nat, Blob> {
    if name in h.shards then h.shards[name] else map[]
  }

  function Put(h: Handler, name: string, blob: Blob, shard: nat): Result<Handler, Status> {
    match h.kind
    case Plain =>
      if shard > 0 then Err(ShardForOrdinaryInput)
      else if name in h.inputs then Err(SameInputTwice)
      else Ok(h.(inputs := h.inputs[name := blob]))
    case Gather(_) =>
      if shard in Stored(h, name) then Err(InternalError)
      else Ok(h.(shards := h.shards[name := Stored(h, name)[shard := blob]]))
  }

  predicate Ready(h: Handler) {
    !h.used && h.remaining == 0
  }

  /** The unsigned decrement of `remainingDependencies`. */
  function Decremented(remaining: nat): nat {
    (remaining + INT_VALUES - 1) % INT_VALUES
  }

  predicate Finishes(h: Handler) {
    h.kind.Gather? && Decremented(h.remaining) == 0
  }

  /** Notification succeeds unless it triggers a consolidation that some input's shards do not allow. */
  ghost predicate NotifyOk(h: Handler) {
    Finishes(h) ==> forall name :: name in h.shards ==> Consolidatable(h.kind.sizes, h.shards[name])
  }

  /** The state after a successful notification. */
  ghost predicate Notified(h: Handler, after: Handler) {
    && after == h.(remaining := Decremented(h.remaining), inputs := after.inputs)
    && (!Finishes(h) ==> after.inputs == h.inputs)
    && (Finishes(h) ==>
          && (forall name :: name in after.inputs <==> name in h.inputs || name in h.shards)
          && (forall name :: name in h.inputs ==> after.inputs[name] == h.inputs[name])
          && (forall name :: name in h.shards && name !in h.inputs ==>
                IsConsolidated(h.kind.sizes, h.shards[name], after.inputs[name])))
  }

  /** Where a failed notification leaves off: some inputs are consolidated, the rest is as after a success. */
  ghost predicate BrokenOff(h: Handler, after: Handler, status: Status) {
    && Finishes(h)
    && after == h.(remaining := Decremented(h.remaining), inputs := after.inputs)
    && PartlyConsolidated(h.kind.sizes, h.shards, h.inputs, after.inputs)
    && exists name :: name in h.shards && Blames(status, h.kind.sizes, h.shards[name])
  }

  ghost predicate PartlyConsolidated(sizes: seq<nat>, storage: map<string, map<nat, Blob>>,
                                     inputs: map<string, Blob>, result: map<string, Blob>) {
    && (forall name :: name in inputs ==> name in result && result[name] == inputs[name])
    && (forall name :: name in result && name !in inputs ==>
          name in storage && IsConsolidated(sizes, storage[name], result[name]))
  }

  /** The shards of one input are the reason for the status. */
  ghost predicate Blames(status: Status, sizes: seq<nat>, shards: map<nat, Blob>) {
    match status
    case ShardMissing => 0 !in shards
    case InvalidPrecision => 0 in shards && !Supported(shards[0].precision)
    case InconsistentShards =>
      && 0 in shards
      && exists s :: s in shards && (shards[s].precision != shards[0].precision || shards[s].dims != shards[0].dims)
    case Undefined => 0 in shards && exists s :: s in shards && !InBuffer(sizes, |shards[0].bytes|, s)
    case _ => false
  }

  /** The blobs that are stored have the bytes of their dims. */
  ghost predicate Sane(h: Handler) {
    forall name :: name in h.shards ==> AllWellFormed(h.shards[name])
  }

  class InputHandler {
    const kind: Kind
    var inputBlobs: map<string, Blob>
    var remainingDependencies: nat
    var isUsed: bool
    var shardsStorage: map<string, map<nat, Blob>>

    ghost function Abs(): Handler
      reads this
    {
      Handler(kind, inputBlobs, remainingDependencies, isUsed, shardsStorage)
    }

    /** For a gathering handler the dependency count is multiplied up, in 32 bits, by every collapsed size. */
    constructor (inputsCount: nat, details: CollapseDetails)
      requires inputsCount < INT_VALUES
      ensures Abs() == Create(inputsCount, details)
    {
      kind := if |details.names| == 0 then Plain else Gather(details.sizes);
      inputBlobs, shardsStorage, isUsed := map[], map[], false;
      remainingDependencies := inputsCount;
      new;
      if |details.names| > 0 {
        var i := 0;
        ghost var sizes := details.sizes;
        assert sizes[..0] == [];
        while i < |details.sizes|
          invariant 0 <= i <= |sizes|
          invariant remainingDependencies == inputsCount * Product(sizes[..i]) % INT_VALUES
          invariant inputBlobs == map[] && shardsStorage == map[] && !isUsed
        {
          ProductStep(inputsCount, sizes, i);
          remainingDependencies := remainingDependencies * details.sizes[i] % INT_VALUES;
          i := i + 1;
        }
        assert sizes[..i] == sizes;
      }
    }

    method SetInput(name: string, blob: Blob, shard: nat) returns (status: Status)
      modifies this
      ensures status.OK? <==> Put(old(Abs()), name, blob, shard).Ok?
      ensures status.OK? ==> Abs() == Put(old(Abs()), name, blob, shard).value
      ensures !status.OK? ==> Abs() == old(Abs()) && status == Put(old(Abs()), name, blob, shard).error
      ensures kind.Plain? ==> (status.OK? <==> shard == 0 && name !in old(inputBlobs))
      ensures kind.Gather? ==> (status.OK? <==> shard !in Stored(old(Abs()), name))
      ensures status.OK? && kind.Plain? ==> inputBlobs == old(inputBlobs)[name := blob]
      ensures status.OK? && kind.Gather? ==>
                shardsStorage == old(shardsStorage)[name := Stored(old(Abs()), name)[shard := blob]]
    {
      if kind.Plain? {
        if shard > 0 {
          return ShardForOrdinaryInput;
        }
        if name in inputBlobs {
          return SameInputTwice;
        }
        inputBlobs := inputBlobs[name := blob];
      } else if name !in shardsStorage {
        shardsStorage := shardsStorage[name := map[shard := blob]];
      } else {
        if shard in shardsStorage[name] {
          return InternalError;
        }
        var shardMap: map<nat, Blob> := shardsStorage[name];
        shardsStorage := shardsStorage[name := shardMap[shard := blob]];
      }
      return OK;
    }

    method NotifyFinishedDependency() returns (status: Status)
      requires Sane(Abs())
      modifies this
      ensures status.OK? <==> NotifyOk(old(Abs()))
      ensures status.OK? ==> Notified(old(Abs()), Abs())
      ensures !status.OK? ==> BrokenOff(old(Abs()), Abs(), status)
    {
      remainingDependencies := (remainingDependencies + INT_VALUES - 1) % INT_VALUES;
      if kind.Plain? || remainingDependencies > 0 {
        return OK;
      }
      status, inputBlobs := ConsolidateInputs(kind.sizes, shardsStorage, inputBlobs);
    }

    method IsReady() returns (ready: bool)
      ensures ready == Ready(Abs())
    {
      if isUsed {
        return false;
      }
      return remainingDependencies == 0;
    }

    method GetInputs() returns (inputs: map<string, Blob>)
      modifies this`isUsed
      ensures inputs == inputBlobs && Abs() == old(Abs()).(used := true) && !Ready(Abs())
    {
      isUsed := true;
      return inputBlobs;
    }

    method ClearInputs()
      modifies this`inputBlobs
      ensures Abs() == old(Abs()).(inputs := map[])
    {
      inputBlobs := map[];
    }
  }

  ghost predicate AllWellFormed(shards: map<nat, Blob>) {
    forall s :: s in shards ==> WellFormed(shards[s])
  }

  /** Lines 61-95: one consolidated blob per input, inserted unless the input is already there. */
  method ConsolidateInputs(sizes: seq<nat>, storage: map<string, map<nat, Blob>>, inputs: map<string, Blob>)
    returns (status: Status, result: map<string, Blob>)
    requires forall name :: name in storage ==> AllWellFormed(storage[name])
    ensures status.OK? <==> forall name :: name in storage ==> Consolidatable(sizes, storage[name])
    ensures status.OK? ==> forall name :: name in result <==> name in inputs || name in storage
    ensures PartlyConsolidated(sizes, storage, inputs, result)
    ensures !status.OK? ==> exists name :: name in storage && Blames(status, sizes, storage[name])
  {
    hide Consolidatable, IsConsolidated, Blames, AllWellFormed;
    result := inputs;
    var pending := storage.Keys;
    while pending != {}
      invariant pending <= storage.Keys
      invariant forall name :: name in storage && name !in pending ==> Consolidatable(sizes, storage[name])
      invariant forall name :: name in result <==> name in inputs || (name in storage && name !in pending)
      invariant PartlyConsolidated(sizes, storage, inputs, result)
      decreases |pending|
    {
      var name :| name in pending;
      var whole;
      status, whole := Consolidate(sizes, storage[name]);
      if !status.OK? {
        return;
      }
      if name !in result {
        result := result[name := whole];
      }
      pending := pending - {name};
    }
    status := OK;
  }

  lemma ProductStep(n: nat, sizes: seq<nat>, i: nat)
    requires i < |sizes|
    ensures (n * Product(sizes[..i]) % INT_VALUES) * sizes[i] % INT_VALUES == n * Product(sizes[..i + 1]) % INT_VALUES
  {
    assert sizes[..i + 1] == sizes[..i] + [sizes[i]];
    ProductConcat(sizes[..i], [sizes[i]]);
    assert [sizes[i]][1..] == [];
    MulAssociative(n, Product(sizes[..i]), sizes[i]);
    ModMul(n * Product(sizes[..i]), sizes[i]);
  }

  /** One input's shards written into a fresh, uninitialised buffer at their offsets, in any order. */
  method Consolidate(sizes: seq<nat>, shards: map<nat, Blob>) returns (status: Status, whole: Blob)
    requires AllWellFormed(shards)
    ensures status.OK? <==> Consolidatable(sizes, shards)
    ensures status.OK? ==> IsConsolidated(sizes, shards, whole)
    ensures !status.OK? ==> Blames(status, sizes, shards)
  {
    whole := Blob(Other, [], []);
    if 0 !in shards {
      return ShardMissing, whole;
    }
    var first := shards[0];
    if !Supported(first.precision) {
      return InvalidPrecision, whole;
    }
    ConsolidatedSize(first, sizes);
    hide Consolidatable, IsConsolidated, Blames, AllWritten, Supported, Fits;
    var buffer := new Byte[Product(sizes) * |first.bytes|];
    status := WriteShards(buffer, sizes, shards);
    if status.OK? {
      whole := Blob(first.precision, sizes + first.dims, buffer[..]);
      AllFit(sizes, shards, whole);
    }
  }

  /** Lines 80-93. */
  method WriteShards(buffer: array<Byte>, sizes: seq<nat>, shards: map<nat, Blob>) returns (status: Status)
    requires AllWellFormed(shards) && 0 in shards && buffer.Length == Product(sizes) * |shards[0].bytes|
    modifies buffer
    ensures status.OK? ==> forall s :: s in shards ==> Fits(sizes, shards[0], s, shards[s])
    ensures status.OK? ==> AllWritten(buffer[..], shards, shards.Keys)
    ensures !status.OK? ==> !Consolidatable(sizes, shards) && Blames(status, sizes, shards)
  {
    hide Consolidatable, Blames, AllWritten, Product;
    var first, step, pending := shards[0], |shards[0].bytes|, shards.Keys;
    AllWrittenNothing(buffer[..], shards);
    while pending != {}
      invariant pending <= shards.Keys
      invariant forall s :: s in shards && s !in pending ==> Fits(sizes, first, s, shards[s])
      invariant AllWritten(buffer[..], shards, shards.Keys - pending)
      decreases |pending|
    {
      var s :| s in pending;
      if shards[s].precision != first.precision || shards[s].dims != first.dims {
        Unfit(sizes, shards, s, InconsistentShards);
        return InconsistentShards;
      }
      if s * step + step > buffer.Length {
        Unfit(sizes, shards, s, Undefined);
        return Undefined;
      }
      WriteShard(buffer, shards, s, step, shards.Keys - pending);
      assert (shards.Keys - pending) + {s} == shards.Keys - (pending - {s});
      pending := pending - {s};
    }
    assert shards.Keys - {} == shards.Keys;
    return OK;
  }

  lemma AllWrittenNothing(buffer: seq<Byte>, shards: map<nat, Blob>)
    ensures AllWritten(buffer, shards, shards.Keys - shards.Keys)
  {
  }

  lemma AllFit(sizes: seq<nat>, shards: map<nat, Blob>, whole: Blob)
    requires 0 in shards && Supported(shards[0].precision)
    requires forall s :: s in shards ==> Fits(sizes, shards[0], s, shards[s])
    requires whole.precision == shards[0].precision && whole.dims == sizes + shards[0].dims && WellFormed(whole)
    requires AllWritten(whole.bytes, shards, shards.Keys)
    ensures Consolidatable(sizes, shards) && IsConsolidated(sizes, shards, whole)
  {
  }

  lemma Unfit(sizes: seq<nat>, shards: map<nat, Blob>, s: nat, status: Status)
    requires 0 in shards && s in shards
    requires if status.InconsistentShards?
             then shards[s].precision != shards[0].precision || shards[s].dims != shards[0].dims
             else status.Undefined? && !InBuffer(sizes, |shards[0].bytes|, s)
    ensures !Consolidatable(sizes, shards) && Blames(status, sizes, shards)
  {
  }

  predicate Fits(sizes: seq<nat>, first: Blob, s: nat, shard: Blob) {
    shard.precision == first.precision && shard.dims == first.dims && InBuffer(sizes, |first.bytes|, s)
  }

  /** Writes one shard at its offset; the shards written before stay intact. */
  method WriteShard(buffer: array<Byte>, shards: map<nat, Blob>, s: nat, step: nat, ghost done: set<nat>)
    requires s in shards && s !in done && done <= shards.Keys
    requires s * step + step <= buffer.Length && |shards[s].bytes| == step
    requires forall t :: t in done ==> |shards[t].bytes| == step
    requires AllWritten(buffer[..], shards, done)
    modifies buffer
    ensures AllWritten(buffer[..], shards, done + {s})
  {
    ghost var before := buffer[..];
    CopyInto(buffer, s * step, shards[s].bytes);
    forall t | t in done ensures Written(buffer[..], t, shards[t].bytes) {
      assert Written(before, t, shards[t].bytes);
      OtherChunkKept(before, buffer[..], s, t, step);
    }
  }

  ghost predicate AllWritten(buffer: seq<Byte>, shards: map<nat, Blob>, done: set<nat>) {
    forall s :: s in done && s in shards ==> Written(buffer, s, shards[s].bytes)
  }

  lemma ConsolidatedSize(first: Blob, sizes: seq<nat>)
    requires WellFormed(first)
    ensures ByteSize(first.precision, sizes + first.dims) == Product(sizes) * |first.bytes|
  {
    ProductConcat(sizes, first.dims);
    MulAssociative(Product(sizes), Product(first.dims), ElementSize(first.precision));
  }

  /** Chunks of different shards do not overlap. */
  lemma OtherChunkKept(a: seq<Byte>, b: seq<Byte>, s: nat, t: nat, step: nat)
    requires |a| == |b| && s != t
    requires s * step + step <= |a| && t * step + step <= |a|
    requires forall x :: 0 <= x < |a| && !(s * step <= x < s * step + step) ==> b[x] == a[x]
    ensures Chunk(b, t, step) == Chunk(a, t, step)
  {
    if s < t {
      ChunkBounds(s, t, step);
    } else {
      ChunkBounds(t, s, step);
    }
  }

  /** `memcpy` into the consolidated blob. */
  method CopyInto(buffer: array<Byte>, offset: nat, bytes: seq<Byte>)
    requires offset + |bytes| <= buffer.Length
    modifies buffer
    ensures buffer[offset..offset + |bytes|] == bytes
    ensures forall x :: 0 <= x < buffer.Length && !(offset <= x < offset + |bytes|) ==> buffer[x] == old(buffer[x])
  {
    var i := 0;
    while i < |bytes|
      invariant 0 <= i <= |bytes|
      invariant forall x :: 0 <= x < i ==> buffer[offset + x] == bytes[x]
      invariant forall x :: 0 <= x < buffer.Length && !(offset <= x < offset + i) ==> buffer[x] == old(buffer[x])
    {
      buffer[offset + i] := bytes[i];
      i := i + 1;
    }
  }
}
