/** `Node::demultiplyOutputs` and `Node::createShardedBlob` (src/node.cpp:197-275). */
module Demultiplexer {
  import opened Wrappers
  import opened Collections
  import opened MixedRadix
  import opened SessionMetadata
  import opened SessionKeys
  import opened Blobs

  const DEMULTIPLY_LIMIT: nat := 10_000

  /** `Undefined`: the code goes on with a blob, a dimension or a shard that is not there. */
  datatype DemultiplyStatus =
    | Demultiplied
    | Undefined
    | InternalError
    | TooLargeDimension
    | WrongNumberOfDimensions
    | WrongDimensionSize
    | NoResults

  datatype SessionResult = SessionResult(meta: Metadata, blobs: map<string, Blob>)

  /** The `SessionResults` map that the call rewrites in place. */
  class SessionOutputs {
    var entries: map<string, SessionResult>

    constructor (entries: map<string, SessionResult>)
      ensures this.entries == entries
    {
      this.entries := entries;
    }
  }

  // ----- keys of the subsessions -----

  ghost predicate CanSplit(meta: Metadata, name: string) {
    Valid(meta) && name != "" && name !in meta.details
  }

  function SubKey(meta: Metadata, name: string, i: nat): (k: string)
    requires Keyed(meta)
  {
    Join(Part(name, i), Key(meta))
  }

  lemma SubKeyIsKey(meta: Metadata, name: string, i: nat, n: nat)
    requires CanSplit(meta, name)
    ensures Keyed(Subsession(meta, name, i, n))
    ensures Key(Subsession(meta, name, i, n)) == SubKey(meta, name, i)
  {
    var s, k := Subsession(meta, name, i, n), |meta.levels|;
    assert Elems(s.levels) == Elems(meta.levels) + {name};
    assert s.levels[..k] == meta.levels && Ids(s)[..k] == Ids(meta);
  }

  /** Subsessions get keys of their own, all different from the parent's. */
  lemma SubKeysDiffer(meta: Metadata, name: string, i: nat, j: nat)
    requires Keyed(meta)
    ensures SubKey(meta, name, i) != Key(meta)
    ensures SubKey(meta, name, i) == SubKey(meta, name, j) ==> i == j
  {
    if SubKey(meta, name, i) == SubKey(meta, name, j) {
      ConcatAssociative(name + "_", Decimal(i), Tail(Key(meta)));
      ConcatAssociative(name + "_", Decimal(j), Tail(Key(meta)));
      KeyPartsInjective(name + "_", i, Key(meta), j, Key(meta));
    }
  }

  // ----- one shard -----

  ghost predicate Splittable(blob: Blob) {
    WellFormed(blob) && blob.dims != []
  }

  lemma StepFits(blob: Blob, n: nat, i: nat)
    requires i < n
    ensures i * Step(blob, n) + Step(blob, n) <= |blob.bytes|
  {
    ChunkBounds(i, n, Step(blob, n));
    DivisionIdentity(|blob.bytes|, n);
  }

  /**
    What shard `i` of `n` looks like: the blob without its first dimension.  Its bytes are the `i`-th step
    of the blob when a step is a shard; otherwise they are whatever the allocation left there.
   */
  ghost predicate IsPiece(blob: Blob, n: nat, i: nat, piece: Blob)
    requires blob.dims != [] && i < n
  {
    && piece.precision == blob.precision
    && piece.dims == blob.dims[1..]
    && WellFormed(piece)
    && (ByteSize(piece.precision, piece.dims) == Step(blob, n) ==>
          (StepFits(blob, n, i); piece.bytes == Chunk(blob.bytes, i, Step(blob, n))))
  }

  /** The pieces are the shards of the tensor when its first dimension is the number of pieces. */
  lemma PieceIsShard(blob: Blob, n: nat, i: nat, piece: Blob)
    requires Splittable(blob) && i < n && IsPiece(blob, n, i, piece) && blob.dims[0] == n
    ensures i < Product(blob.dims[..1]) && piece == Shard(blob, 1, i)
  {
    OneDim(blob.dims);
    StepIsShardSize(blob);
  }

  /** `whole` is a consolidation of the `n` pieces of a blob. */
  ghost predicate ConsolidatesPieces(blob: Blob, n: nat, pieces: map<nat, Blob>, whole: Blob)
    requires blob.dims != []
  {
    && Complete(pieces, n)
    && (forall i: nat :: i < n ==> IsPiece(blob, n, i, pieces[i]))
    && IsConsolidated([n], pieces, whole)
  }

  /**
    In dynamic mode nothing compares the first dimensions of the blobs (lines 226-227), so one of them may differ
    from the number of pieces.  Consolidating the pieces gives the blob back exactly when it does not.
   */
  lemma PiecesRestoreExactly(blob: Blob, n: nat, pieces: map<nat, Blob>, whole: Blob)
    requires Splittable(blob) && n > 0 && ConsolidatesPieces(blob, n, pieces, whole)
    ensures whole == blob <==> blob.dims[0] == n
  {
    assert IsPiece(blob, n, 0, pieces[0]);
    if whole == blob {
      assert blob.dims[0] == ([n] + pieces[0].dims)[0];
    }
    if blob.dims[0] == n {
      assert blob.dims[..1] == [n];
      OneDim(blob.dims);
      forall i | i in pieces ensures pieces[i] == Shard(blob, 1, i) {
        PieceIsShard(blob, n, i, pieces[i]);
      }
      ConsolidationRestores(blob, 1, pieces, whole);
    }
  }

  /** `None` is the null pointer that an unsupported precision leaves. */
  method CreateShardedBlob(blob: Blob, n: nat, i: nat) returns (ok: bool, piece: Option<Blob>)
    requires Splittable(blob) && i < n
    ensures ok <==> Supported(blob.precision) && ByteSize(blob.precision, blob.dims[1..]) == Step(blob, n)
    ensures piece.Some? <==> Supported(blob.precision)
    ensures piece.Some? ==> IsPiece(blob, n, i, piece.value)
  {
    if !Supported(blob.precision) {
      return false, None;
    }
    var step := |blob.bytes| / n;
    var size := ByteSize(blob.precision, blob.dims[1..]);
    var memory := new Byte[size];
    if size != step {
      return false, Some(Blob(blob.precision, blob.dims[1..], memory[..]));
    }
    StepFits(blob, n, i);
    return true, Some(Blob(blob.precision, blob.dims[1..], blob.bytes[i * step..i * step + step]));
  }

  // ----- the whole map -----

  /** The first complaint of the loop over the blobs, in iteration order. */
  function LoopStatus(order: seq<string>, blobs: map<string, Blob>, count: nat, n: nat): (r: DemultiplyStatus)
    requires forall name :: name in order ==> name in blobs
    ensures !r.InternalError? && !r.TooLargeDimension?
  {
    if order == [] then Demultiplied
    else if !BlobStatus(blobs[order[0]], count, n).Demultiplied? then BlobStatus(blobs[order[0]], count, n)
    else LoopStatus(order[1..], blobs, count, n)
  }

  /** What the loop says of one blob. */
  function BlobStatus(blob: Blob, count: nat, n: nat): (r: DemultiplyStatus)
    ensures !r.InternalError? && !r.TooLargeDimension?
  {
    if |blob.dims| < 3 then WrongNumberOfDimensions
    else if count != 0 && blob.dims[0] != count then WrongDimensionSize
    else if n == 0 then NoResults
    else if !Supported(blob.precision) then Undefined
    else Demultiplied
  }

  /** How many blobs have been demultiplied when that loop stops. */
  function Leading(order: seq<string>, blobs: map<string, Blob>, count: nat, n: nat): (k: nat)
    requires forall name :: name in order ==> name in blobs
    ensures k <= |order| && (k == |order| <==> LoopStatus(order, blobs, count, n).Demultiplied?)
  {
    if order == [] || !BlobStatus(blobs[order[0]], count, n).Demultiplied? then 0
    else 1 + Leading(order[1..], blobs, count, n)
  }

  /** The number of pieces, read from the first blob before anything is checked. */
  function FirstCount(order: seq<string>, blobs: map<string, Blob>): Option<nat>
    requires forall b :: b in order ==> b in blobs
  {
    if order == [] || blobs[order[0]].dims == [] then None else Some(blobs[order[0]].dims[0])
  }

  function StatusOf(meta: Metadata, name: string, count: Option<nat>, order: seq<string>,
                    blobs: map<string, Blob>): DemultiplyStatus
    requires forall b :: b in order ==> b in blobs
  {
    var n := FirstCount(order, blobs);
    if count.None? then InternalError
    else if n.None? then Undefined
    else if n.value > DEMULTIPLY_LIMIT then TooLargeDimension
    else if Subsessions(meta, name, n.value).Err? then InternalError
    else LoopStatus(order, blobs, count.value, n.value)
  }

  /** Two blobs with first dimensions 2 and 3 are demultiplied in dynamic mode, and the second is not to be had back. */
  lemma DynamicModeLosesData(bytes: seq<Byte>, pieces: map<nat, Blob>, whole: Blob)
    requires |bytes| == 3
    ensures var a, b := Blob(U8, [2, 1, 1], bytes[..2]), Blob(U8, [3, 1, 1], bytes);
            && WellFormed(a) && WellFormed(b)
            && StatusOf(ROOT, "node", Some(0), ["a", "b"], map["a" := a, "b" := b]) == Demultiplied
            && (ConsolidatesPieces(b, 2, pieces, whole) ==> whole != b)
  {
    var a, b := Blob(U8, [2, 1, 1], bytes[..2]), Blob(U8, [3, 1, 1], bytes);
    assert a.dims[1..] == [1, 1] && b.dims[1..] == [1, 1] && [1, 1][1..] == [1] && [1][1..] == [];
    assert Product([]) == 1 && Product([1]) == 1 && Product([1, 1]) == 1;
    var order, blobs := ["a", "b"], map["a" := a, "b" := b];
    assert order[1..] == ["b"] && ["b"][1..] == [];
    assert LoopStatus(["b"], blobs, 0, 2) == Demultiplied;
    if ConsolidatesPieces(b, 2, pieces, whole) {
      PiecesRestoreExactly(b, 2, pieces, whole);
    }
  }

  /** A blob that the loop gets past. */
  ghost predicate Acceptable(blob: Blob, count: nat) {
    && |blob.dims| >= 3 && blob.precision != I64 && blob.precision != Other
    && (count == 0 || blob.dims[0] == count)
  }

  /** When outputs are demultiplied. */
  lemma DemultipliedExactly(meta: Metadata, name: string, count: Option<nat>, order: seq<string>,
                            blobs: map<string, Blob>)
    requires forall b :: b in order <==> b in blobs
    ensures StatusOf(meta, name, count, order, blobs) == Demultiplied <==>
              && count.Some? && order != [] && blobs[order[0]].dims != []
              && 0 < blobs[order[0]].dims[0] <= 10_000
              && name != "" && name !in meta.details
              && forall b :: b in blobs ==> Acceptable(blobs[b], count.value)
  {
    if count.Some? && FirstCount(order, blobs).Some? {
      var n := FirstCount(order, blobs).value;
      LoopGetsThrough(order, blobs, count.value, n);
      assert order[0] in blobs;
    }
  }

  lemma {:induction false} LoopGetsThrough(order: seq<string>, blobs: map<string, Blob>, count: nat, n: nat)
    requires forall b :: b in order ==> b in blobs
    ensures LoopStatus(order, blobs, count, n) == Demultiplied <==>
              order == [] || (n > 0 && forall b :: b in order ==> Acceptable(blobs[b], count))
    decreases |order|
  {
    if order != [] {
      LoopGetsThrough(order[1..], blobs, count, n);
      assert order == [order[0]] + order[1..];
    }
  }

  /**
    When they are not, the reason is the first there is: no count; nothing to take the number of pieces from; too many
    pieces; a name that cannot be used; or the first blob that the loop does not get past.
   */
  lemma RefusedBecause(meta: Metadata, name: string, count: Option<nat>, order: seq<string>, blobs: map<string, Blob>)
    requires forall b :: b in order ==> b in blobs
    ensures var status := StatusOf(meta, name, count, order, blobs);
            if count.None? then status == InternalError
            else if order == [] || blobs[order[0]].dims == [] then status == Undefined
            else if blobs[order[0]].dims[0] > 10_000 then status == TooLargeDimension
            else if name == "" || name in meta.details then status == InternalError
            else status != Demultiplied ==>
                exists k :: Offends(order, blobs, count.value, blobs[order[0]].dims[0], k, status)
  {
    if count.Some? && FirstCount(order, blobs).Some? {
      var n := FirstCount(order, blobs).value;
      if !LoopStatus(order, blobs, count.value, n).Demultiplied? {
        var k := FirstOffender(order, blobs, count.value, n);
      }
    }
  }

  /** Blob `k` is the first one that is not acceptable, and this is what is wrong with it. */
  ghost predicate Offends(order: seq<string>, blobs: map<string, Blob>, count: nat, n: nat, k: int,
                          status: DemultiplyStatus)
    requires forall b :: b in order ==> b in blobs
  {
    && 0 <= k < |order|
    && (forall j :: 0 <= j < k ==> Acceptable(blobs[order[j]], count))
    && var blob := blobs[order[k]];
       match status
       case WrongNumberOfDimensions => |blob.dims| < 3
       case WrongDimensionSize => |blob.dims| >= 3 && count != 0 && blob.dims[0] != count
       case NoResults => k == 0 && n == 0 && |blob.dims| >= 3 && (count == 0 || blob.dims[0] == count)
       case Undefined => |blob.dims| >= 3 && (count == 0 || blob.dims[0] == count)
           && (blob.precision == I64 || blob.precision == Other)
       case _ => false
  }

  lemma {:induction false} FirstOffender(order: seq<string>, blobs: map<string, Blob>, count: nat, n: nat)
    returns (k: nat)
    requires forall b :: b in order ==> b in blobs
    requires !LoopStatus(order, blobs, count, n).Demultiplied?
    ensures Offends(order, blobs, count, n, k, LoopStatus(order, blobs, count, n))
    decreases |order|
  {
    k := 0;
    if BlobStatus(blobs[order[0]], count, n).Demultiplied? {
      var rest := FirstOffender(order[1..], blobs, count, n);
      k := rest + 1;
      assert forall j :: 0 < j < k ==> order[j] == order[1..][j - 1];
    }
  }

  /**
    Fixed mode loses nothing: with a count other than 0 a successful demultiplication makes that many subsessions, and
    the pieces of every blob are its shards.
   */
  lemma FixedModeLosesNothing(meta: Metadata, name: string, count: nat, order: seq<string>, blobs: map<string, Blob>,
                              e: map<string, SessionResult>)
    requires Valid(meta) && (forall b :: b in order <==> b in blobs)
             && (forall b :: b in blobs ==> WellFormed(blobs[b]))
    requires StatusOf(meta, name, Some(count), order, blobs) == Demultiplied && count != 0
    requires Split(e, meta, name, blobs, blobs[order[0]].dims[0])
    ensures blobs[order[0]].dims[0] == count
    ensures forall i: nat, b :: i < count && b in blobs ==>
              && SubKey(meta, name, i) in e && b in e[SubKey(meta, name, i)].blobs
              && blobs[b].dims != [] && i < Product(blobs[b].dims[..1])
                 && e[SubKey(meta, name, i)].blobs[b] == Shard(blobs[b], 1, i)
  {
    DemultipliedExactly(meta, name, Some(count), order, blobs);
    assert Acceptable(blobs[order[0]], count);
    forall i: nat, b | i < count && b in blobs
      ensures SubKey(meta, name, i) in e && b in e[SubKey(meta, name, i)].blobs
      ensures blobs[b].dims != [] && i < Product(blobs[b].dims[..1])
      ensures e[SubKey(meta, name, i)].blobs[b] == Shard(blobs[b], 1, i)
    {
      assert Entry(e, meta, name, blobs, count, i, blobs.Keys);
      assert Acceptable(blobs[b], count);
      PieceIsShard(blobs[b], count, i, e[SubKey(meta, name, i)].blobs[b]);
    }
  }

  /** Subsession `i` has been given the pieces of the blobs in `done`, and does not exist before the first. */
  ghost predicate Entry(e: map<string, SessionResult>, meta: Metadata, name: string, blobs: map<string, Blob>, n: nat,
                        i: nat, done: set<string>)
    requires Keyed(meta) && i < n
  {
    var key := SubKey(meta, name, i);
    if done == {} then key !in e
    else
      && key in e
      && e[key].meta == Subsession(meta, name, i, n)
      && e[key].blobs.Keys == done
      && forall b :: b in done && b in blobs && blobs[b].dims != [] ==> IsPiece(blobs[b], n, i, e[key].blobs[b])
  }

  ghost predicate OnlySubsessions(e: map<string, SessionResult>, meta: Metadata, name: string, n: nat)
    requires Keyed(meta)
  {
    forall key :: key in e ==> key == Key(meta) || exists i: nat :: i < n && key == SubKey(meta, name, i)
  }

  /** The successful outcome: one entry per subsession, holding one piece of every blob, and nothing else. */
  ghost predicate Split(e: map<string, SessionResult>, meta: Metadata, name: string, blobs: map<string, Blob>, n: nat)
    requires Keyed(meta)
  {
    && Key(meta) !in e
    && OnlySubsessions(e, meta, name, n)
    && forall i: nat :: i < n ==> Entry(e, meta, name, blobs, n, i, blobs.Keys)
  }

  function WithPiece(e: map<string, SessionResult>, key: string, meta: Metadata, blobName: string,
                     piece: Blob): map<string, SessionResult> {
    if key !in e then e[key := SessionResult(meta, map[blobName := piece])]
    else if blobName in e[key].blobs then e
    else e[key := SessionResult(e[key].meta, e[key].blobs[blobName := piece])]
  }

  /** Lines 251-256: find the subsession's entry or make it. */
  method AddPiece(outputs: SessionOutputs, meta: Metadata, blobName: string, piece: Blob)
    requires Keyed(meta)
    modifies outputs
    ensures outputs.entries == WithPiece(old(outputs.entries), Key(meta), meta, blobName, piece)
  {
    KeyIgnoringNothing(meta);
    var key := GetSessionKey(meta, {});
    if key.value !in outputs.entries {
      outputs.entries := outputs.entries[key.value := SessionResult(meta, map[blobName := piece])];
    } else {
      var found := outputs.entries[key.value];
      if blobName !in found.blobs {
        outputs.entries := outputs.entries[key.value := SessionResult(found.meta, found.blobs[blobName := piece])];
      }
    }
  }

  /** Subsessions below `i` have the pieces in `more`, the others those in `done`; the parent is untouched. */
  ghost predicate Progress(e: map<string, SessionResult>, meta: Metadata, name: string, blobs: map<string, Blob>,
                           n: nat,
                           i: nat, done: set<string>, more: set<string>, parent: SessionResult)
    requires Keyed(meta)
  {
    && (forall j: nat :: j < i && j < n ==> Entry(e, meta, name, blobs, n, j, more))
    && (forall j: nat :: i <= j < n ==> Entry(e, meta, name, blobs, n, j, done))
    && OnlySubsessions(e, meta, name, n)
    && Key(meta) in e && e[Key(meta)] == parent
  }

  /** The loop over the blobs ends early and leaves what it has done. */
  predicate BreaksOff(status: DemultiplyStatus) {
    status.WrongNumberOfDimensions? || status.WrongDimensionSize? || status.Undefined?
  }

  /** Every subsession has exactly the pieces of the blobs in `done`; the parent's entry is still there. */
  ghost predicate PartlySplit(e: map<string, SessionResult>, meta: Metadata, name: string, blobs: map<string, Blob>,
                              n: nat, done: set<string>)
    requires Keyed(meta)
  {
    Progress(e, meta, name, blobs, n, n, {}, done, SessionResult(meta, blobs))
  }

  lemma ProgressStep(e: map<string, SessionResult>, meta: Metadata, name: string, blobs: map<string, Blob>, n: nat,
                     i: nat, done: set<string>, blobName: string, parent: SessionResult, piece: Blob)
    requires Keyed(meta) && i < n && blobName !in done && blobName in blobs && blobs[blobName].dims != []
    requires IsPiece(blobs[blobName], n, i, piece)
    requires Progress(e, meta, name, blobs, n, i, done, done + {blobName}, parent)
    ensures Progress(WithPiece(e, SubKey(meta, name, i), Subsession(meta, name, i, n), blobName, piece),
                     meta, name, blobs, n, i + 1, done, done + {blobName}, parent)
  {
    EntriesAfterPiece(e, meta, name, blobs, blobName, n, i, done, piece);
    SubKeysDiffer(meta, name, i, i);
  }

  /** Lines 243-257: one blob cut into pieces for all subsessions. */
  method SplitBlob(outputs: SessionOutputs, meta: Metadata, name: string, blobs: map<string, Blob>, blobName: string,
                   metas: seq<Metadata>, ghost done: set<string>, ghost parent: SessionResult)
    returns (ok: bool)
    requires CanSplit(meta, name) && blobName in blobs && blobName !in done && Splittable(blobs[blobName])
    requires forall i :: 0 <= i < |metas| ==> metas[i] == Subsession(meta, name, i, |metas|)
    requires Progress(outputs.entries, meta, name, blobs, |metas|, 0, done, done + {blobName}, parent)
    modifies outputs
    ensures ok <==> |metas| == 0 || Supported(blobs[blobName].precision)
    ensures ok ==> Progress(outputs.entries, meta, name, blobs, |metas|, |metas|, done, done + {blobName}, parent)
    ensures !ok ==> outputs.entries == old(outputs.entries)
  {
    var i, n := 0, |metas|;
    while i < n
      invariant 0 <= i <= n
      invariant i > 0 ==> Supported(blobs[blobName].precision)
      invariant i == 0 ==> outputs.entries == old(outputs.entries)
      invariant Progress(outputs.entries, meta, name, blobs, n, i, done, done + {blobName}, parent)
    {
      var whole, piece := CreateShardedBlob(blobs[blobName], n, i);
      if piece.None? {
        return false;
      }
      SubKeyIsKey(meta, name, i, n);
      ProgressStep(outputs.entries, meta, name, blobs, n, i, done, blobName, parent, piece.value);
      AddPiece(outputs, metas[i], blobName, piece.value);
      i := i + 1;
    }
    return true;
  }

  lemma EntriesAfterPiece(e: map<string, SessionResult>, meta: Metadata, name: string, blobs: map<string, Blob>,
                          blobName: string, n: nat, i: nat, done: set<string>, piece: Blob)
    requires Keyed(meta) && i < n && blobName !in done && blobName in blobs && blobs[blobName].dims != []
    requires IsPiece(blobs[blobName], n, i, piece) && Entry(e, meta, name, blobs, n, i, done)
    ensures var after := WithPiece(e, SubKey(meta, name, i), Subsession(meta, name, i, n), blobName, piece);
            && Entry(after, meta, name, blobs, n, i, done + {blobName})
            && (forall j: nat, s :: j < n && j != i && Entry(e, meta, name, blobs, n, j, s) ==>
                                      Entry(after, meta, name, blobs, n, j, s))
            && (OnlySubsessions(e, meta, name, n) ==> OnlySubsessions(after, meta, name, n))
  {
    var after := WithPiece(e, SubKey(meta, name, i), Subsession(meta, name, i, n), blobName, piece);
    forall j: nat, s | j < n && j != i && Entry(e, meta, name, blobs, n, j, s)
      ensures Entry(after, meta, name, blobs, n, j, s)
    {
      SubKeysDiffer(meta, name, i, j);
    }
  }

  /**
    `meta` and `blobs` are the one entry the map holds, and `order` is the iteration order of the unordered
    blob map.
   */
  method DemultiplyOutputs(name: string, count: Option<nat>, outputs: SessionOutputs, meta: Metadata,
                           blobs: map<string, Blob>, order: seq<string>)
    returns (status: DemultiplyStatus)
    requires Valid(meta) && outputs.entries == map[Key(meta) := SessionResult(meta, blobs)]
    requires Distinct(order) && (forall b :: b in order <==> b in blobs)
    requires forall b :: b in blobs ==> WellFormed(blobs[b])
    modifies outputs
    ensures status == StatusOf(meta, name, count, order, blobs)
    ensures status.Demultiplied? ==>
              FirstCount(order, blobs).Some?
                  && Split(outputs.entries, meta, name, blobs, FirstCount(order, blobs).value)
    ensures status.NoResults? ==> outputs.entries == map[]
    ensures status.InternalError? || status.TooLargeDimension? ==> outputs.entries == old(outputs.entries)
    ensures status.Undefined? && FirstCount(order, blobs).None? ==> outputs.entries == old(outputs.entries)
    ensures count.Some? && FirstCount(order, blobs).Some? && BreaksOff(status) ==>
              var n := FirstCount(order, blobs).value;
              var k := Leading(order, blobs, count.value, n);
              k < |order| && PartlySplit(outputs.entries, meta, name, blobs, n, Elems(order[..k]))
  {
    if count.None? {
      return InternalError;
    }
    if |order| == 0 || |blobs[order[0]].dims| == 0 {
      return Undefined;
    }
    var n := blobs[order[0]].dims[0];
    if n > DEMULTIPLY_LIMIT {
      return TooLargeDimension;
    }
    var metas := GenerateSubsessions(meta, name, n);
    if metas.Err? {
      return InternalError;
    }
    status := SplitAll(outputs, meta, name, count.value, blobs, order, metas.value);
  }

  lemma StartProgress(meta: Metadata, name: string, blobs: map<string, Blob>, n: nat)
    requires Keyed(meta)
    ensures Progress(map[Key(meta) := SessionResult(meta, blobs)], meta, name, blobs, n, n, {}, {},
              SessionResult(meta, blobs))
  {
    forall i: nat | i < n ensures SubKey(meta, name, i) != Key(meta) {
      SubKeysDiffer(meta, name, i, i);
    }
  }

  /** All subsessions have the pieces in `done`: the last of one round, the first of the next. */
  lemma ProgressRound(e: map<string, SessionResult>, meta: Metadata, name: string, blobs: map<string, Blob>, n: nat,
                      before: set<string>, done: set<string>, after: set<string>, parent: SessionResult)
    requires Keyed(meta)
    ensures Progress(e, meta, name, blobs, n, n, before, done, parent)
            <==> Progress(e, meta, name, blobs, n, 0, done, after, parent)
  {
    hide Entry, OnlySubsessions;
  }

  /** Lines 218-260. */
  method SplitAll(outputs: SessionOutputs, meta: Metadata, name: string, count: nat, blobs: map<string, Blob>,
                  order: seq<string>, metas: seq<Metadata>)
    returns (status: DemultiplyStatus)
    requires CanSplit(meta, name) && outputs.entries == map[Key(meta) := SessionResult(meta, blobs)]
    requires order != [] && Distinct(order) && (forall b :: b in order <==> b in blobs)
    requires forall b :: b in blobs ==> WellFormed(blobs[b])
    requires forall i :: 0 <= i < |metas| ==> metas[i] == Subsession(meta, name, i, |metas|)
    modifies outputs
    ensures status == LoopStatus(order, blobs, count, |metas|)
    ensures status.Demultiplied? ==> Split(outputs.entries, meta, name, blobs, |metas|)
    ensures status.NoResults? ==> outputs.entries == map[]
    ensures BreaksOff(status) ==>
              var k := Leading(order, blobs, count, |metas|);
              k < |order| && PartlySplit(outputs.entries, meta, name, blobs, |metas|, Elems(order[..k]))
  {
    var n := |metas|;
    StartProgress(meta, name, blobs, n);
    var k := 0;
    assert Elems(order) == blobs.Keys;
    assert Elems(order[..0]) == {} && order[0..] == order;
    hide PartlySplit, Split, Subsession, LoopStatus, Leading, BlobStatus, Progress, CanSplit, Elems, Distinct;
    while k < |order|
      invariant 0 <= k <= |order| && (n == 0 ==> k == 0)
      invariant LoopStatus(order, blobs, count, n) == LoopStatus(order[k..], blobs, count, n)
      invariant Leading(order, blobs, count, n) == k + Leading(order[k..], blobs, count, n)
      invariant PartlySplit(outputs.entries, meta, name, blobs, n, Elems(order[..k]))
      invariant k == 0 ==> outputs.entries == map[Key(meta) := SessionResult(meta, blobs)]
    {
      LoopRound(order, blobs, count, n, k);
      ElemsNext(order, k);
      status := SplitNext(outputs, meta, name, count, blobs, order[k], metas, Elems(order[..k]));
      if !status.Demultiplied? {
        return;
      }
      k := k + 1;
    }
    assert order[..k] == order && order[k..] == [];
    EndOfLoop(blobs, count, n);
    DropParent(outputs.entries, meta, name, blobs, n);
    outputs.entries := outputs.entries - {Key(meta)};
    return Demultiplied;
  }

  /** One round: lines 219-257. */
  method SplitNext(outputs: SessionOutputs, meta: Metadata, name: string, count: nat, blobs: map<string, Blob>,
                   blobName: string, metas: seq<Metadata>, ghost done: set<string>)
    returns (status: DemultiplyStatus)
    requires CanSplit(meta, name) && blobName in blobs && blobName !in done && WellFormed(blobs[blobName])
    requires forall i :: 0 <= i < |metas| ==> metas[i] == Subsession(meta, name, i, |metas|)
    requires PartlySplit(outputs.entries, meta, name, blobs, |metas|, done)
    requires |metas| == 0 ==> outputs.entries == map[Key(meta) := SessionResult(meta, blobs)]
    modifies outputs
    ensures status == BlobStatus(blobs[blobName], count, |metas|)
    ensures status.Demultiplied? ==> PartlySplit(outputs.entries, meta, name, blobs, |metas|, done + {blobName})
    ensures status.NoResults? ==> outputs.entries == map[]
    ensures BreaksOff(status) ==> outputs.entries == old(outputs.entries)
  {
    var n := |metas|;
    var dims := blobs[blobName].dims;
    ghost var parent := SessionResult(meta, blobs);
    if |dims| < 3 {
      return WrongNumberOfDimensions;
    }
    if count != 0 && dims[0] != count {
      return WrongDimensionSize;
    }
    if n == 0 {
      outputs.entries := outputs.entries - {Key(meta)};
      return NoResults;
    }
    hide Progress, Subsession;
    ProgressRound(outputs.entries, meta, name, blobs, n, {}, done, done + {blobName}, parent);
    var ok := SplitBlob(outputs, meta, name, blobs, blobName, metas, done, parent);
    if !ok {
      return Undefined;
    }
    ProgressRound(outputs.entries, meta, name, blobs, n, done, done + {blobName}, {}, parent);
    ProgressRound(outputs.entries, meta, name, blobs, n, {}, done + {blobName}, {}, parent);
    return Demultiplied;
  }

  lemma EndOfLoop(blobs: map<string, Blob>, count: nat, n: nat)
    ensures LoopStatus([], blobs, count, n) == Demultiplied
  {
  }

  /** One round of the loop, seen from the blobs that are left. */
  lemma LoopRound(order: seq<string>, blobs: map<string, Blob>, count: nat, n: nat, k: nat)
    requires k < |order| && forall name :: name in order ==> name in blobs
    ensures var status := BlobStatus(blobs[order[k]], count, n);
            && (!status.Demultiplied? ==>
                  LoopStatus(order[k..], blobs, count, n) == status && Leading(order[k..], blobs, count, n) == 0)
            && (status.Demultiplied? ==>
                  && LoopStatus(order[k..], blobs, count, n) == LoopStatus(order[k + 1..], blobs, count, n)
                  && Leading(order[k..], blobs, count, n) == 1 + Leading(order[k + 1..], blobs, count, n))
  {
    assert order[k..][1..] == order[k + 1..];
  }

  lemma DropParent(e: map<string, SessionResult>, meta: Metadata, name: string, blobs: map<string, Blob>, n: nat)
    requires Keyed(meta) && PartlySplit(e, meta, name, blobs, n, blobs.Keys)
    ensures Split(e - {Key(meta)}, meta, name, blobs, n)
  {
    var rest := e - {Key(meta)};
    forall i: nat | i < n ensures Entry(rest, meta, name, blobs, n, i, blobs.Keys) {
      SubKeysDiffer(meta, name, i, i);
      assert Entry(e, meta, name, blobs, n, i, blobs.Keys);
    }
  }
}
