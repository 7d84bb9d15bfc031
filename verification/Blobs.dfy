/**
  Tensors as dims and bytes, their shards along the outermost dimensions, and the three ways
  the server cuts or rebuilds them: copied shards (src/node.cpp:263-275), shard views
  (src/entry_node.cpp:91-118) and consolidation (src/gathernodeinputhandler.cpp:61-95).
 */
module Blobs {
  import opened MixedRadix

  type Byte = bv8

  /** `I64` and `Other` are the precisions that `createSharedBlob` refuses (src/ov_utils.cpp:52-62). */
  datatype Precision = FP32 | FP16 | I32 | I16 | I8 | U8 | U16 | I64 | Other

  predicate Supported(p: Precision) {
    !p.I64? && !p.Other?
  }

  function ElementSize(p: Precision): (n: nat)
    ensures n > 0
  {
    match p
    case FP32 | I32 => 4
    case FP16 | I16 | U16 => 2
    case I8 | U8 | Other => 1
    case I64 => 8
  }

  datatype Blob = Blob(precision: Precision, dims: seq<nat>, bytes: seq<Byte>)

  function ByteSize(p: Precision, dims: seq<nat>): nat {
    Product(dims) * ElementSize(p)
  }

  predicate WellFormed(b: Blob) {
    |b.bytes| == ByteSize(b.precision, b.dims)
  }

  // ----- chunks of equal size -----

  lemma ChunkBounds(i: nat, n: nat, step: nat)
    requires i < n
    ensures i * step + step == (i + 1) * step <= n * step
  {
    var k := n - i - 1;
    assert n * step == (i + 1) * step + k * step;
  }

  function Chunk(bytes: seq<Byte>, i: nat, step: nat): (r: seq<Byte>)
    requires i * step + step <= |bytes|
    ensures |r| == step
  {
    bytes[i * step..i * step + step]
  }

  /** Chunks of equal size cover a buffer: two buffers with the same chunks are equal. */
  lemma ChunksDetermine(a: seq<Byte>, b: seq<Byte>, n: nat, step: nat)
    requires |a| == |b| == n * step
    requires forall i: nat :: i < n && i * step + step <= |a| ==> Chunk(a, i, step) == Chunk(b, i, step)
    ensures a == b
  {
    forall x | 0 <= x < |a| ensures a[x] == b[x] {
      assert step > 0 by {
        assert n * 0 == 0;
      }
      var i, r := x / step, x % step;
      DivisionIdentity(x, step);
      QuotientBelow(x, n, step);
      ChunkBounds(i, n, step);
      assert Chunk(a, i, step)[r] == a[i * step + r];
      assert Chunk(b, i, step)[r] == b[i * step + r];
    }
  }

  lemma SliceOfSlice(bytes: seq<Byte>, p: nat, q: nat, u: nat, w: nat)
    requires p + q <= |bytes| && u + w <= q
    ensures bytes[p..p + q][u..u + w] == bytes[p + u..p + u + w]
  {
    var a, b := bytes[p..p + q][u..u + w], bytes[p + u..p + u + w];
    forall x | 0 <= x < w ensures a[x] == b[x] {
      assert a[x] == bytes[p..p + q][u + x];
    }
    assert |a| == |b|;
  }

  lemma ChunkOfChunk(bytes: seq<Byte>, i: nat, n: nat, s: nat, step: nat)
    requires s < n && i * (n * step) + n * step <= |bytes|
    ensures s * step + step <= n * step
    ensures (i * n + s) * step + step <= |bytes|
    ensures Chunk(Chunk(bytes, i, n * step), s, step) == Chunk(bytes, i * n + s, step)
  {
    ChunkBounds(s, n, step);
    MulAssociative(i, n, step);
    assert (i * n + s) * step == (i * n) * step + s * step;
    SliceOfSlice(bytes, i * (n * step), n * step, s * step, step);
  }

  // ----- shards -----

  /** The shard of `b` at position `s` of its `k` outermost dimensions. */
  function Shard(b: Blob, k: nat, s: nat): (r: Blob)
    requires WellFormed(b) && k <= |b.dims| && s < Product(b.dims[..k])
    ensures WellFormed(r)
  {
    ShardBounds(b, k, s);
    Blob(b.precision, b.dims[k..], Chunk(b.bytes, s, ByteSize(b.precision, b.dims[k..])))
  }

  lemma SizeSplits(p: Precision, dims: seq<nat>, k: nat)
    requires k <= |dims|
    ensures ByteSize(p, dims) == Product(dims[..k]) * ByteSize(p, dims[k..])
  {
    assert dims == dims[..k] + dims[k..];
    ProductConcat(dims[..k], dims[k..]);
    MulAssociative(Product(dims[..k]), Product(dims[k..]), ElementSize(p));
  }

  lemma ShardBounds(b: Blob, k: nat, s: nat)
    requires WellFormed(b) && k <= |b.dims| && s < Product(b.dims[..k])
    ensures s * ByteSize(b.precision, b.dims[k..]) + ByteSize(b.precision, b.dims[k..]) <= |b.bytes|
  {
    SizeSplits(b.precision, b.dims, k);
    ChunkBounds(s, Product(b.dims[..k]), ByteSize(b.precision, b.dims[k..]));
  }

  /** Sharding a shard: the positions compose in row-major order. */
  lemma ShardOfShard(b: Blob, i: nat, k: nat, s: nat)
    requires WellFormed(b) && k + 1 <= |b.dims|
    requires i < Product(b.dims[..1]) && s < Product(b.dims[1..][..k])
    ensures i * Product(b.dims[1..][..k]) + s < Product(b.dims[..k + 1])
    ensures Shard(Shard(b, 1, i), k, s) == Shard(b, k + 1, i * Product(b.dims[1..][..k]) + s)
  {
    var rest, n := b.dims[1..], Product(b.dims[1..][..k]);
    var step := ByteSize(b.precision, rest[k..]);
    assert b.dims[..k + 1][1..] == rest[..k] && b.dims[k + 1..] == rest[k..];
    OneDim(b.dims);
    DigitBound(i, b.dims[0], s, n);
    SizeSplits(b.precision, rest, k);
    ShardBounds(b, 1, i);
    ChunkOfChunk(b.bytes, i, n, s, step);
  }

  lemma OneDim(dims: seq<nat>)
    requires dims != []
    ensures Product(dims[..1]) == dims[0]
  {
    assert dims[..1][1..] == [];
  }

  /** The shard reached by following one id per demultiplication. */
  function NestedShard(b: Blob, ids: seq<nat>): (r: Blob)
    requires WellFormed(b) && |ids| <= |b.dims| && Digits(ids, b.dims[..|ids|])
    ensures WellFormed(r)
    decreases |ids|
  {
    if ids == [] then b
    else
      OneDim(b.dims);
      NestedDigits(ids, b.dims);
      NestedShard(Shard(b, 1, ids[0]), ids[1..])
  }

  lemma NestedDigits(ids: seq<nat>, dims: seq<nat>)
    requires 0 < |ids| <= |dims| && Digits(ids, dims[..|ids|])
    ensures Digits(ids[1..], dims[1..][..|ids| - 1])
  {
    var inner := dims[1..][..|ids| - 1];
    forall i | 0 <= i < |ids| - 1 ensures ids[1..][i] < inner[i] {
      assert inner[i] == dims[..|ids|][i + 1];
    }
  }

  /** Following ids level by level lands on the chunk at their row-major index. */
  lemma {:induction false} NestedShardIsChunk(b: Blob, ids: seq<nat>)
    requires WellFormed(b) && |ids| <= |b.dims| && Digits(ids, b.dims[..|ids|])
    ensures RowMajor(ids, b.dims[..|ids|]) < Product(b.dims[..|ids|])
    ensures NestedShard(b, ids) == Shard(b, |ids|, RowMajor(ids, b.dims[..|ids|]))
    decreases |ids|
  {
    var k := |ids|;
    RowMajorInRange(ids, b.dims[..k]);
    if ids == [] {
      WholeShard(b);
    } else {
      OneDim(b.dims);
      NestedDigits(ids, b.dims);
      var first := Shard(b, 1, ids[0]);
      NestedShardIsChunk(first, ids[1..]);
      assert b.dims[..k][1..] == b.dims[1..][..k - 1];
      ShardOfShard(b, ids[0], k - 1, RowMajor(ids[1..], first.dims[..k - 1]));
    }
  }

  lemma WholeShard(b: Blob)
    requires WellFormed(b)
    ensures Product(b.dims[..0]) == 1 && Shard(b, 0, 0) == b
  {
    assert b.dims[0..] == b.dims;
    assert b.bytes[0..|b.bytes|] == b.bytes;
  }

  // ----- consolidation -----

  ghost predicate Complete(shards: map<nat, Blob>, count: nat) {
    forall s: nat :: s in shards <==> s < count
  }

  /** What the consolidation loop gets through: shard 0 exists, all shards look like it, and all fit the buffer. */
  ghost predicate Consolidatable(sizes: seq<nat>, shards: map<nat, Blob>) {
    && 0 in shards
    && Supported(shards[0].precision)
    && (forall s :: s in shards ==> shards[s].precision == shards[0].precision && shards[s].dims == shards[0].dims)
    && (forall s :: s in shards ==> InBuffer(sizes, |shards[0].bytes|, s))
  }

  /** The bytes written for shard `s` are inside the consolidated blob; the code does not check this. */
  predicate InBuffer(sizes: seq<nat>, step: nat, s: nat) {
    s * step + step <= Product(sizes) * step
  }

  /** `whole` holds every shard at its place under `sizes`. */
  ghost predicate IsConsolidated(sizes: seq<nat>, shards: map<nat, Blob>, whole: Blob) {
    && 0 in shards
    && whole.precision == shards[0].precision
    && whole.dims == sizes + shards[0].dims
    && WellFormed(whole)
    && forall s :: s in shards ==> Written(whole.bytes, s, shards[s].bytes)
  }

  ghost predicate Written(buffer: seq<Byte>, s: nat, bytes: seq<Byte>) {
    s * |bytes| + |bytes| <= |buffer| && Chunk(buffer, s, |bytes|) == bytes
  }

  /** Consolidating all shards of a tensor can only give that tensor back. */
  lemma ConsolidationRestores(b: Blob, k: nat, shards: map<nat, Blob>, whole: Blob)
    requires WellFormed(b) && k <= |b.dims| && Complete(shards, Product(b.dims[..k]))
    requires forall s :: s in shards ==> shards[s] == Shard(b, k, s)
    requires IsConsolidated(b.dims[..k], shards, whole)
    ensures whole == b
  {
    var count, step := Product(b.dims[..k]), ByteSize(b.precision, b.dims[k..]);
    assert b.dims[..k] + b.dims[k..] == b.dims;
    SizeSplits(b.precision, b.dims, k);
    forall s: nat | s < count && s * step + step <= |whole.bytes|
      ensures Chunk(whole.bytes, s, step) == Chunk(b.bytes, s, step)
    {
      assert shards[s] == Shard(b, k, s);
    }
    ChunksDetermine(whole.bytes, b.bytes, count, step);
  }

  lemma ShardsConsolidatable(b: Blob, k: nat, shards: map<nat, Blob>)
    requires WellFormed(b) && k <= |b.dims| && Supported(b.precision) && 0 in shards
    requires forall s :: s in shards ==> s < Product(b.dims[..k]) && shards[s] == Shard(b, k, s)
    ensures Consolidatable(b.dims[..k], shards)
  {
    assert shards[0] == Shard(b, k, 0);
    var step := ByteSize(b.precision, b.dims[k..]);
    forall s | s in shards ensures InBuffer(b.dims[..k], step, s) {
      ChunkBounds(s, Product(b.dims[..k]), step);
    }
  }

  /** Shards of a tensor, all of them or not, can be consolidated to that tensor. */
  lemma ShardsConsolidateTo(b: Blob, k: nat, shards: map<nat, Blob>)
    requires WellFormed(b) && k <= |b.dims| && 0 in shards
    requires forall s :: s in shards ==> s < Product(b.dims[..k]) && shards[s] == Shard(b, k, s)
    ensures IsConsolidated(b.dims[..k], shards, b)
  {
    assert shards[0] == Shard(b, k, 0);
    assert b.dims[..k] + b.dims[k..] == b.dims;
    forall s | s in shards ensures Written(b.bytes, s, shards[s].bytes) {
      ShardBounds(b, k, s);
    }
  }

  // ----- copied shards and shard views -----

  /** Bytes per shard as computed at line 243 of src/node.cpp. */
  function Step(b: Blob, count: nat): nat
    requires count > 0
  {
    |b.bytes| / count
  }

  /** When the outermost dimension is the shard count, the step is exactly a shard's size. */
  lemma StepIsShardSize(b: Blob)
    requires WellFormed(b) && b.dims != [] && b.dims[0] > 0
    ensures Step(b, b.dims[0]) == ByteSize(b.precision, b.dims[1..])
  {
    SizeSplits(b.precision, b.dims, 1);
    OneDim(b.dims);
    DivModUnique(ByteSize(b.precision, b.dims[1..]), 0, b.dims[0]);
    assert |b.bytes| == ByteSize(b.precision, b.dims[1..]) * b.dims[0];
  }

  /** Byte offset of the view at `pointer + i * step / sizeof(T)`. */
  function ViewOffset(b: Blob, count: nat, i: nat): nat
    requires count > 0
  {
    (i * Step(b, count) / ElementSize(b.precision)) * ElementSize(b.precision)
  }

  /** The zero-copy view of the entry node shows the same bytes as a copied shard, within the tensor. */
  lemma ViewIsShard(b: Blob, i: nat)
    requires WellFormed(b) && b.dims != [] && i < b.dims[0]
    ensures i < Product(b.dims[..1])
    ensures var size := ByteSize(b.precision, b.dims[1..]);
            && ViewOffset(b, b.dims[0], i) + size <= |b.bytes|
            && Blob(b.precision, b.dims[1..], b.bytes[ViewOffset(b, b.dims[0], i)..][..size]) == Shard(b, 1, i)
  {
    OneDim(b.dims);
    StepIsShardSize(b);
    ShardBounds(b, 1, i);
    var es, n := ElementSize(b.precision), Product(b.dims[1..]);
    var size := n * es;
    assert i * size == (i * n) * es by {
      MulAssociative(i, n, es);
    }
    DivModUnique(i * n, 0, es);
    assert ViewOffset(b, b.dims[0], i) == i * size;
    assert b.bytes[i * size..][..size] == b.bytes[i * size..i * size + size];
  }
}
