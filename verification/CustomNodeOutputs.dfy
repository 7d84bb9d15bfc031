/**
  The outputs of a custom node (src/customnodesession.cpp:41-235).  The library hands over an array of
  tensors whose buffers must each be given back once: by the scope guard of the conversion, by the blob that
  took the buffer over, or, for the array, at the end.  Addresses are naturals, 0 is null.
 */
module CustomNodeOutputs {
  import opened Wrappers
  import opened Integers
  import opened MixedRadix
  import opened Collections

  datatype TensorPrecision = UNSPECIFIED | FP32 | FP16 | U8 | I8 | I16 | U16 | I32

  /** `shape` is what `dims` points to. */
  datatype Tensor = Tensor(name: Option<string>, data: nat, dataBytes: nat, dims: nat, shape: seq<nat>,
                           precision: TensorPrecision)

  /** A blob reads and finally releases the library's buffer. */
  datatype OutputBlob = OutputBlob(data: nat, dims: seq<nat>, precision: TensorPrecision)

  datatype Status =
    OK | EXECUTION_FAILED | OUTPUTS_CORRUPTED | OUTPUTS_CORRUPTED_COUNT | OUTPUT_MISSING_NAME
    | INVALID_PRECISION | INVALID_SHAPE | INVALID_CONTENT_SIZE | OV_INTERNAL_DESERIALIZATION_ERROR

  // ----- the size check -----

  function Bytes(p: TensorPrecision): nat {
    match p
    case UNSPECIFIED => 0
    case FP32 => 4
    case I32 => 4
    case FP16 => 2
    case I16 => 2
    case U16 => 2
    case U8 => 1
    case I8 => 1
  }

  /** Line 180: the initial value 1 makes the accumulator an `int`, though the factors are `size_t`. */
  function Accumulate(shape: seq<nat>): int {
    if shape == [] then 1 else
      var k := |shape| - 1;
      ToInt(ToSize(ToSize(Accumulate(shape[..k])) * shape[k]))
  }

  function ExpectedBytes(shape: seq<nat>, p: TensorPrecision): nat {
    ToSize(ToSize(Accumulate(shape)) * Bytes(p))
  }

  predicate Congruent(a: int, b: int) {
    (a - b) % INT_VALUES == 0
  }

  lemma MultipleCongruent(a: int, b: int, k: int)
    requires a == b + k * INT_VALUES
    ensures Congruent(a, b)
  {
  }

  lemma CongruentToInt(a: int, b: int)
    requires Congruent(a, b)
    ensures ToInt(a) == ToInt(b)
  {
    var k := (a - b) / INT_VALUES;
    assert a - b == k * INT_VALUES;
    assert a % INT_VALUES - b % INT_VALUES == (k - a / INT_VALUES + b / INT_VALUES) * INT_VALUES;
    assert a % INT_VALUES == b % INT_VALUES;
  }

  lemma CongruentChain(a: int, b: int, c: int)
    requires Congruent(a, b) && Congruent(b, c)
    ensures Congruent(a, c)
  {
    MultipleCongruent(a, c, (a - b) / INT_VALUES + (b - c) / INT_VALUES);
  }

  lemma ToIntCongruent(a: int)
    ensures Congruent(ToInt(a), a)
  {
  }

  lemma ToSizeCongruent(a: int)
    ensures Congruent(ToSize(a), a)
  {
    MultipleCongruent(ToSize(a), a, -(a / SIZE_VALUES) * INT_VALUES);
  }

  lemma CongruentTimes(a: int, b: int, x: int)
    requires Congruent(a, b)
    ensures Congruent(a * x, b * x)
  {
    var k := (a - b) / INT_VALUES;
    assert a == b + k * INT_VALUES;
    assert a * x == b * x + (k * x) * INT_VALUES;
    MultipleCongruent(a * x, b * x, k * x);
  }

  lemma ProductLast(shape: seq<nat>)
    requires shape != []
    ensures Product(shape) == Product(shape[..|shape| - 1]) * shape[|shape| - 1]
  {
    var k := |shape| - 1;
    ProductConcat(shape[..k], [shape[k]]);
    assert shape == shape[..k] + [shape[k]];
    assert Product([shape[k]]) == shape[k] * Product([]);
  }

  /** Whatever the intermediate overflows, the accumulator ends as the product truncated to an `int`. */
  lemma {:induction false} AccumulateTruncates(shape: seq<nat>)
    ensures Accumulate(shape) == ToInt(Product(shape))
  {
    if shape != [] {
      var k := |shape| - 1;
      var a, p, x := Accumulate(shape[..k]), Product(shape[..k]), shape[k];
      AccumulateTruncates(shape[..k]);
      ProductLast(shape);
      hide Congruent, ToInt, ToSize;
      ToIntCongruent(p);
      ToSizeCongruent(a);
      CongruentChain(ToSize(a), a, p);
      CongruentTimes(ToSize(a), p, x);
      ToSizeCongruent(ToSize(a) * x);
      CongruentChain(ToSize(ToSize(a) * x), ToSize(a) * x, p * x);
      CongruentToInt(ToSize(ToSize(a) * x), p * x);
    }
  }

  /** An element count truncated to an `int`, widened again and multiplied by an element size. */
  lemma TruncatedBytes(n: nat, size: nat)
    requires size == 1 || size == 2 || size == 4
    ensures ToSize(ToSize(ToInt(n)) * size) == n * size
            <==> n <= INT_MAX || SIZE_VALUES / size - INT_MAX - 1 <= n < SIZE_VALUES / size
  {
    var low, high := n % INT_VALUES, n / INT_VALUES;
    if low <= INT_MAX {
      SmallBytes(n, size);
    } else {
      var back := INT_VALUES - low;
      WrappedBytes(back, size);
      assert ToInt(n) == -back;
      assert n + back == (high + 1) * INT_VALUES;
      NearTheEnd(n, back, high, size);
    }
  }

  lemma SmallBytes(n: nat, size: nat)
    requires (size == 1 || size == 2 || size == 4) && n % INT_VALUES <= INT_MAX
    ensures ToSize(ToSize(ToInt(n)) * size) == n * size <==> n <= INT_MAX
    ensures n > INT_MAX ==> !(SIZE_VALUES / size - INT_MAX - 1 <= n < SIZE_VALUES / size)
  {
    var low := n % INT_VALUES;
    assert ToSize(ToInt(n)) == low;
    if size == 1 {
      assert ToSize(low * 1) == low;
      BelowAMultiple(n, INT_VALUES);
    } else if size == 2 {
      assert ToSize(low * 2) == low * 2;
      BelowAMultiple(n, 0x8000_0000);
    } else {
      assert ToSize(low * 4) == low * 4;
      BelowAMultiple(n, 0x4000_0000);
    }
  }

  lemma BelowAMultiple(n: nat, k: int)
    requires n % INT_VALUES <= INT_MAX
    ensures !(k * INT_VALUES - INT_MAX - 1 <= n < k * INT_VALUES)
  {
    assert n == (n / INT_VALUES) * INT_VALUES + n % INT_VALUES;
  }

  lemma NearTheEnd(n: nat, back: int, high: nat, size: nat)
    requires (size == 1 || size == 2 || size == 4) && 0 < back <= INT_MAX + 1 && n + back == (high + 1) * INT_VALUES
    ensures SIZE_VALUES - back * size == n * size <==> SIZE_VALUES / size - INT_MAX - 1 <= n < SIZE_VALUES / size
  {
    if size == 1 {
      assert SIZE_VALUES / size == INT_VALUES * INT_VALUES;
    } else if size == 2 {
      assert SIZE_VALUES / size == 0x8000_0000 * INT_VALUES;
    } else {
      assert SIZE_VALUES / size == 0x4000_0000 * INT_VALUES;
    }
  }

  lemma WrappedBytes(back: int, size: nat)
    requires (size == 1 || size == 2 || size == 4) && 0 < back <= INT_MAX + 1
    ensures ToSize(ToSize(-back) * size) == SIZE_VALUES - back * size
  {
    assert ToSize(-back) == SIZE_VALUES - back;
    if size == 1 {
    } else if size == 2 {
      assert ToSize(-back) * size == SIZE_VALUES + (SIZE_VALUES - back * 2);
    } else {
      assert ToSize(-back) * size == 3 * SIZE_VALUES + (SIZE_VALUES - back * 4);
    }
  }

  /**
    The length the check expects is the true one exactly when the element count fits an `int`, or is so close
    below the end of the address space that sign extension happens to give it back.
   */
  lemma ExpectedBytesExactly(shape: seq<nat>, p: TensorPrecision)
    requires !p.UNSPECIFIED?
    ensures ExpectedBytes(shape, p) == Product(shape) * Bytes(p)
            <==> Product(shape) <= INT_MAX
                 || SIZE_VALUES / Bytes(p) - INT_MAX - 1 <= Product(shape) < SIZE_VALUES / Bytes(p)
  {
    AccumulateTruncates(shape);
    TruncatedBytes(Product(shape), Bytes(p));
  }

  // ----- buffers -----

  function One(address: nat): multiset<nat> {
    if address == 0 then multiset{} else multiset{address}
  }

  /** The buffers handed over with some tensors. */
  function Buffers(tensors: seq<Tensor>): multiset<nat> {
    if tensors == [] then multiset{} else
      var k := |tensors| - 1;
      Buffers(tensors[..k]) + (One(tensors[k].dims) + One(tensors[k].data))
  }

  /** The names under which a blob that owns `address` is stored. */
  function Holders(blobs: map<string, OutputBlob>, address: nat): set<string> {
    set n | n in blobs && blobs[n].data == address
  }

  // ----- the verdict on one tensor -----

  /** `made` says whether the engine makes the blob without throwing. */
  function Check(t: Tensor, made: bool): Status {
    if t.precision.UNSPECIFIED? then INVALID_PRECISION
    else if t.dims == 0 || |t.shape| == 0 then INVALID_SHAPE
    else if t.data == 0 || t.dataBytes != ExpectedBytes(t.shape, t.precision) then INVALID_CONTENT_SIZE
    else if !made then OV_INTERNAL_DESERIALIZATION_ERROR
    else OK
  }

  /**
    What acceptance says about the length: an accepted tensor has exactly the bytes of its shape if and only if
    the element count fits an `int` or is just below the end of the address space.
   */
  lemma AcceptedLengthExactly(t: Tensor, made: bool)
    requires Check(t, made).OK?
    ensures var count, end := Product(t.shape), SIZE_VALUES / Bytes(t.precision);
            && (t.dataBytes == count * Bytes(t.precision) <==> count <= INT_MAX || end - INT_MAX - 1 <= count < end)
  {
    ExpectedBytesExactly(t.shape, t.precision);
  }

  /**
    Acceptance in numbers: the blob can be made, there are dimensions and data, and the length is that of the product
    of the dimensions, truncated to an `int`, in elements of 4, 2 or 1 bytes.
   */
  lemma AcceptedExactly(t: Tensor, made: bool)
    ensures var count := ToInt(Product(t.shape));
            Check(t, made).OK? <==>
              && made && t.dims != 0 && t.shape != [] && t.data != 0
              && (|| (t.precision in {FP32, I32} && t.dataBytes == ToSize(ToSize(count) * 4))
                  || (t.precision in {FP16, I16, U16} && t.dataBytes == ToSize(ToSize(count) * 2))
                  || (t.precision in {U8, I8} && t.dataBytes == ToSize(ToSize(count))))
  {
    AccumulateTruncates(t.shape);
    hide ToInt;
  }

  /** Which check refuses a tensor: the first that it does not pass. */
  lemma RefusedBecause(t: Tensor, made: bool)
    ensures Check(t, made) == INVALID_PRECISION <==> t.precision == UNSPECIFIED
    ensures Check(t, made) == INVALID_SHAPE <==> t.precision != UNSPECIFIED && (t.dims == 0 || t.shape == [])
    ensures Check(t, made) == OV_INTERNAL_DESERIALIZATION_ERROR <==> !made && Check(t, true).OK?
    ensures Check(t, made) == INVALID_CONTENT_SIZE <==>
              t.precision != UNSPECIFIED && t.dims != 0 && t.shape != [] && !Check(t, true).OK?
  {
    hide ExpectedBytes;
  }

  /** 2^32 elements over a buffer of no bytes are accepted; 2^31 elements with all their bytes are refused. */
  lemma LengthCheckFails(name: Option<string>, data: nat, dims: nat)
    requires data != 0 && dims != 0
    ensures Check(Tensor(name, data, 0, dims, [65536, 65536], FP32), true).OK?
    ensures Check(Tensor(name, data, 0x2_0000_0000, dims, [65536, 32768], FP32), true) == INVALID_CONTENT_SIZE
    ensures Product([65536, 65536]) * Bytes(FP32) == 0x4_0000_0000
            && Product([65536, 32768]) * Bytes(FP32) == 0x2_0000_0000
  {
    assert [65536, 65536][1..] == [65536] && [65536, 32768][1..] == [32768] && [65536][1..] == [] && [32768][1..] == [];
    assert Product([65536]) == 65536 && Product([32768]) == 32768;
    AccumulateTruncates([65536, 65536]);
    AccumulateTruncates([65536, 32768]);
    assert ToInt(0x1_0000_0000) == 0 && ToInt(0x8000_0000) == -0x8000_0000;
  }

  predicate Good(t: Tensor, made: bool) {
    t.name.Some? && Check(t, made).OK?
  }

  /** The tensor at `i` is the first good one under its name. */
  ghost predicate FirstOfName(tensors: seq<Tensor>, made: nat -> bool, i: nat)
    requires i < |tensors|
  {
    && Good(tensors[i], made(i))
    && forall j :: 0 <= j < i && tensors[j].name == tensors[i].name ==> !Good(tensors[j], made(j))
  }

  /** A missing name anywhere decides; otherwise the first failure does. */
  ghost predicate IsVerdict(status: Status, tensors: seq<Tensor>, made: nat -> bool) {
    if exists i :: 0 <= i < |tensors| && tensors[i].name.None? then status == OUTPUT_MISSING_NAME
    else if forall i :: 0 <= i < |tensors| ==> Check(tensors[i], made(i)).OK? then status == OK
    else exists i :: 0 <= i < |tensors| && status == Check(tensors[i], made(i)) != OK
                     && forall j :: 0 <= j < i ==> Check(tensors[j], made(j)).OK?
  }

  /** The library's side: every address given to `release`. */
  class NodeLibrary {
    var released: multiset<nat>

    constructor ()
      ensures released == multiset{}
    {
      released := multiset{};
    }

    method Release(address: nat)
      modifies this
      ensures released == old(released) + multiset{address}
    {
      released := released + multiset{address};
    }
  }

  /** The scope guard of `createBlob`, whose destructor is `Destroy`. */
  class TensorResourcesGuard {
    const tensor: Tensor
    const library: NodeLibrary
    var persistData: bool

    constructor (tensor: Tensor, library: NodeLibrary)
      ensures this.tensor == tensor && this.library == library && !persistData
    {
      this.tensor, this.library, persistData := tensor, library, false;
    }

    method SetPersistData()
      modifies this
      ensures persistData
    {
      persistData := true;
    }

    method Destroy()
      modifies library
      ensures library.released
              == old(library.released) + (if persistData then multiset{} else One(tensor.data)) + One(tensor.dims)
    {
      if tensor.data != 0 && !persistData {
        library.Release(tensor.data);
      }
      if tensor.dims != 0 {
        library.Release(tensor.dims);
      }
    }
  }

  class CustomNodeSession {
    var resultBlobs: map<string, OutputBlob>

    constructor ()
      ensures resultBlobs == map[]
    {
      resultBlobs := map[];
    }

    /** The blob owns the data buffer exactly when it is returned; everything else has been released. */
    method CreateBlob(t: Tensor, made: bool, library: NodeLibrary) returns (status: Status, blob: Option<OutputBlob>)
      modifies library
      ensures status == Check(t, made)
      ensures blob == if status.OK? then Some(OutputBlob(t.data, t.shape, t.precision)) else None
      ensures library.released == old(library.released) + One(t.dims) + (if blob.Some? then multiset{} else One(t.data))
    {
      var guard := new TensorResourcesGuard(t, library);
      status, blob := Convert(t, made, guard);
      guard.Destroy();
    }

    method Convert(t: Tensor, made: bool, guard: TensorResourcesGuard)
      returns (status: Status, blob: Option<OutputBlob>)
      requires guard.tensor == t && !guard.persistData
      modifies guard
      ensures status == Check(t, made)
      ensures blob == if status.OK? then Some(OutputBlob(t.data, t.shape, t.precision)) else None
      ensures guard.persistData == blob.Some?
    {
      blob := None;
      if t.precision.UNSPECIFIED? {
        return INVALID_PRECISION, None;
      }
      if t.dims == 0 || |t.shape| == 0 {
        return INVALID_SHAPE, None;
      }
      if t.data == 0 || t.dataBytes != ExpectedBytes(t.shape, t.precision) {
        return INVALID_CONTENT_SIZE, None;
      }
      if !made {
        return OV_INTERNAL_DESERIALIZATION_ERROR, None;
      }
      blob := Some(OutputBlob(t.data, t.shape, t.precision));
      guard.SetPersistData();
      status := OK;
    }

    /** The destructor of a blob gives its buffer back through the allocator. */
    method DestroyBlob(blob: OutputBlob, library: NodeLibrary)
      modifies library
      ensures library.released == old(library.released) + multiset{blob.data}
    {
      library.Release(blob.data);
    }

    /** Line 102: `emplace` keeps a blob stored before under the same name, and the new one is destroyed. */
    method Emplace(name: string, blob: OutputBlob, library: NodeLibrary)
      modifies this, library
      ensures resultBlobs == if name in old(resultBlobs) then old(resultBlobs) else old(resultBlobs)[name := blob]
      ensures Accounted(old(library.released), old(resultBlobs), library.released, resultBlobs, multiset{blob.data})
    {
      hide Accounted, Holders;
      ghost var r, b := library.released, resultBlobs;
      if name in resultBlobs {
        DestroyBlob(blob, library);
        ReleasedAccounted(r, library.released, b, multiset{blob.data});
      } else {
        StoredAccounted(r, b, name, blob);
        resultBlobs := resultBlobs[name := blob];
      }
    }

    /** One round of the loop: the tensor's buffers are released, except a data buffer that a stored blob owns. */
    method TakeOutput(t: Tensor, made: bool, library: NodeLibrary, before: Status) returns (status: Status)
      modifies this, library
      ensures Accounted(old(library.released), old(resultBlobs), library.released, resultBlobs,
                One(t.dims) + One(t.data))
      ensures resultBlobs == AfterOutput(old(resultBlobs), t, made)
      ensures status == NextStatus(before, t, made)
    {
      hide Accounted, Holders, Check, One;
      ghost var r, b := library.released, resultBlobs;
      var result, blob := CreateBlob(t, made, library);
      DataNotNull(t, made);
      if t.name.None? {
        if blob.Some? {
          DestroyBlob(blob.value, library);
        }
        ReleasedInTurn(r, library.released, b, One(t.dims), One(t.data));
        return OUTPUT_MISSING_NAME;
      }
      if !result.OK? {
        ReleasedInTurn(r, library.released, b, One(t.dims), One(t.data));
        return if before.OK? then result else before;
      }
      ReleasedAccounted(r, library.released, b, One(t.dims));
      ghost var r1 := library.released;
      Emplace(t.name.value, blob.value, library);
      AccountedChain(r, b, r1, b, library.released, resultBlobs, One(t.dims), One(t.data));
      return before;
    }

    /**
      When the library has succeeded, every buffer it handed over has been released once, or is owned by one
      stored blob.  When it has failed nothing is touched.
     */
    method Execute(result: int, outputs: nat, count: int, tensors: seq<Tensor>, made: nat -> bool, library: NodeLibrary)
      returns (status: Status)
      requires outputs != 0 && count > 0 ==> |tensors| == count
      modifies this, library
      ensures result != 0 ==>
                status == EXECUTION_FAILED && library.released == old(library.released)
                && resultBlobs == old(resultBlobs)
      ensures result == 0 && outputs == 0 ==>
                status == OUTPUTS_CORRUPTED && library.released == old(library.released)
                && resultBlobs == old(resultBlobs)
      ensures result == 0 && outputs != 0 && count <= 0 ==>
                status == OUTPUTS_CORRUPTED_COUNT && library.released == old(library.released) + multiset{outputs}
                    && resultBlobs == old(resultBlobs)
      ensures result == 0 && outputs != 0 && count > 0 ==>
                && Accounted(old(library.released), old(resultBlobs), library.released, resultBlobs,
                     Buffers(tensors) + multiset{outputs})
                && Stored(old(resultBlobs), resultBlobs, tensors, made)
                && IsVerdict(status, tensors, made)
    {
      if result != 0 {
        return EXECUTION_FAILED;
      }
      if outputs == 0 {
        return OUTPUTS_CORRUPTED;
      }
      if count <= 0 {
        library.Release(outputs);
        return OUTPUTS_CORRUPTED_COUNT;
      }
      status := OK;
      var i := 0;
      ReleasedAccounted(library.released, library.released, resultBlobs, Buffers(tensors[..0]));
      assert IsVerdict(OK, tensors[..0], made) && Stored(resultBlobs, resultBlobs, tensors[..0], made);
      hide Accounted, Stored, IsVerdict, Buffers, AfterOutput, NextStatus;
      while i < count
        invariant 0 <= i <= count
        invariant Accounted(old(library.released), old(resultBlobs), library.released, resultBlobs,
                    Buffers(tensors[..i]))
        invariant Stored(old(resultBlobs), resultBlobs, tensors[..i], made)
        invariant IsVerdict(status, tensors[..i], made)
      {
        BuffersStep(tensors, i);
        StoredStep(old(resultBlobs), resultBlobs, tensors, made, i);
        VerdictStep(status, tensors, made, i);
        ghost var r, b := library.released, resultBlobs;
        status := TakeOutput(tensors[i], made(i), library, status);
        AccountedChain(old(library.released), old(resultBlobs), r, b, library.released, resultBlobs,
                       Buffers(tensors[..i]), One(tensors[i].dims) + One(tensors[i].data));
        i := i + 1;
      }
      assert tensors[..i] == tensors;
      ghost var r, b := library.released, resultBlobs;
      library.Release(outputs);
      ReleasedAccounted(r, library.released, b, multiset{outputs});
      AccountedChain(old(library.released), old(resultBlobs), r, b, library.released, b, Buffers(tensors),
          multiset{outputs});
    }

    /** The session's end: the stored blobs are destroyed. */
    method Destroy(library: NodeLibrary)
      modifies this, library
      ensures resultBlobs == map[]
      ensures Accounted(old(library.released), old(resultBlobs), library.released, map[], multiset{})
    {
      while resultBlobs != map[]
        invariant Accounted(old(library.released), old(resultBlobs), library.released, resultBlobs, multiset{})
        decreases |resultBlobs|
      {
        var name :| name in resultBlobs;
        var blob := resultBlobs[name];
        ghost var rest := resultBlobs - {name};
        HoldersAdd(rest, name, blob);
        assert rest[name := blob] == resultBlobs;
        DestroyBlob(blob, library);
        resultBlobs := resultBlobs - {name};
      }
    }
  }

  function AfterOutput(blobs: map<string, OutputBlob>, t: Tensor, made: bool): map<string, OutputBlob> {
    if Good(t, made)
        && t.name.value !in blobs then blobs[t.name.value := OutputBlob(t.data, t.shape, t.precision)] else blobs
  }

  function NextStatus(before: Status, t: Tensor, made: bool): Status {
    if t.name.None? then OUTPUT_MISSING_NAME else if before.OK? then Check(t, made) else before
  }

  /** For every address: releases and owning blobs together went up by what was handed over. */
  ghost predicate Accounted(released0: multiset<nat>, blobs0: map<string, OutputBlob>, released: multiset<nat>,
                            blobs: map<string, OutputBlob>, owed: multiset<nat>) {
    forall a: nat :: released[a] + |Holders(blobs, a)| == released0[a] + |Holders(blobs0, a)| + owed[a]
  }

  lemma AccountedChain(r0: multiset<nat>, b0: map<string, OutputBlob>, r1: multiset<nat>, b1: map<string, OutputBlob>,
                       r2: multiset<nat>, b2: map<string, OutputBlob>,
                       x: multiset<nat>, y: multiset<nat>)
    requires Accounted(r0, b0, r1, b1, x) && Accounted(r1, b1, r2, b2, y)
    ensures Accounted(r0, b0, r2, b2, x + y)
  {
    hide Holders;
  }

  lemma ReleasedAccounted(r0: multiset<nat>, r1: multiset<nat>, blobs: map<string, OutputBlob>, owed: multiset<nat>)
    requires r1 == r0 + owed
    ensures Accounted(r0, blobs, r1, blobs, owed)
  {
  }

  lemma ReleasedInTurn(r0: multiset<nat>, r1: multiset<nat>, blobs: map<string, OutputBlob>, x: multiset<nat>,
                       y: multiset<nat>)
    requires r1 == r0 + x + y
    ensures Accounted(r0, blobs, r1, blobs, x + y)
  {
    assert r1 == r0 + (x + y);
    ReleasedAccounted(r0, r1, blobs, x + y);
  }

  lemma StoredAccounted(released: multiset<nat>, blobs: map<string, OutputBlob>, name: string, blob: OutputBlob)
    requires name !in blobs
    ensures Accounted(released, blobs, released, blobs[name := blob], multiset{blob.data})
  {
    HoldersAdd(blobs, name, blob);
  }

  /** A blob is made only of a buffer that is there. */
  lemma DataNotNull(t: Tensor, made: bool)
    ensures Check(t, made).OK? ==> One(t.data) == multiset{t.data}
  {
  }

  lemma HoldersAdd(blobs: map<string, OutputBlob>, name: string, blob: OutputBlob)
    requires name !in blobs
    ensures forall a: nat :: |Holders(blobs[name := blob], a)|
              == |Holders(blobs, a)| + (if a == blob.data then 1 else 0)
  {
    forall a: nat ensures |Holders(blobs[name := blob], a)| == |Holders(blobs, a)| + (if a == blob.data then 1 else 0) {
      var more := blobs[name := blob];
      if a == blob.data {
        assert Holders(more, a) == Holders(blobs, a) + {name};
      } else {
        assert Holders(more, a) == Holders(blobs, a);
      }
    }
  }

  lemma BuffersStep(tensors: seq<Tensor>, i: nat)
    requires i < |tensors|
    ensures Buffers(tensors[..i + 1]) == Buffers(tensors[..i]) + (One(tensors[i].dims) + One(tensors[i].data))
  {
    assert tensors[..i + 1][..i] == tensors[..i];
  }

  /** What was stored stays; of the new outputs the first good one under each unused name is stored. */
  ghost predicate Stored(before: map<string, OutputBlob>, after: map<string, OutputBlob>, tensors: seq<Tensor>,
                         made: nat -> bool) {
    && (forall n :: n in before ==> n in after && after[n] == before[n])
    && (forall n :: n in after && n !in before ==> HasSource(tensors, made, n))
    && (forall i :: 0 <= i < |tensors| && FirstOfName(tensors, made, i) && tensors[i].name.value !in before ==>
          && tensors[i].name.value in after
          && after[tensors[i].name.value] == OutputBlob(tensors[i].data, tensors[i].shape, tensors[i].precision))
  }

  /** Every stored name that is new has a good tensor. */
  ghost predicate HasSource(tensors: seq<Tensor>, made: nat -> bool, name: string) {
    exists i :: 0 <= i < |tensors| && Good(tensors[i], made(i)) && tensors[i].name == Some(name)
  }

  lemma SourceStays(tensors: seq<Tensor>, made: nat -> bool, i: nat, name: string)
    requires i < |tensors| && HasSource(tensors[..i], made, name)
    ensures HasSource(tensors[..i + 1], made, name)
  {
    hide Good;
    var j :| 0 <= j < i && Good(tensors[..i][j], made(j)) && tensors[..i][j].name == Some(name);
    assert tensors[..i + 1][j] == tensors[..i][j];
  }

  lemma SourceAdded(tensors: seq<Tensor>, made: nat -> bool, i: nat)
    requires i < |tensors| && Good(tensors[i], made(i))
    ensures HasSource(tensors[..i + 1], made, tensors[i].name.value)
  {
    assert tensors[..i + 1][i] == tensors[i];
  }

  lemma FirstHasNoSource(tensors: seq<Tensor>, made: nat -> bool, i: nat)
    requires i < |tensors| && FirstOfName(tensors[..i + 1], made, i)
    ensures Good(tensors[i], made(i)) && !HasSource(tensors[..i], made, tensors[i].name.value)
  {
    hide Check;
    var longer := tensors[..i + 1];
    assert longer[i] == tensors[i];
    assert forall j :: 0 <= j < i ==> longer[j] == tensors[..i][j];
  }

  lemma FirstBefore(tensors: seq<Tensor>, made: nat -> bool, i: nat, j: nat)
    requires j < i < |tensors| && FirstOfName(tensors[..i + 1], made, j)
    ensures FirstOfName(tensors[..i], made, j) && tensors[..i][j] == tensors[..i + 1][j] && tensors[..i][j].name.Some?
  {
    hide Check;
    assert forall k :: 0 <= k < i ==> tensors[..i][k] == tensors[..i + 1][k];
  }

  lemma StoredStep(before: map<string, OutputBlob>, after: map<string, OutputBlob>, tensors: seq<Tensor>,
                   made: nat -> bool, i: nat)
    requires i < |tensors| && Stored(before, after, tensors[..i], made)
    ensures Stored(before, AfterOutput(after, tensors[i], made(i)), tensors[..i + 1], made)
  {
    var shorter, longer, t := tensors[..i], tensors[..i + 1], tensors[i];
    var next := AfterOutput(after, t, made(i));
    forall n | n in next && n !in before ensures HasSource(longer, made, n) {
      if n in after {
        SourceStays(tensors, made, i, n);
      } else {
        SourceAdded(tensors, made, i);
      }
    }
    hide Check, HasSource;
    forall j | 0 <= j < |longer| && FirstOfName(longer, made, j) && longer[j].name.value !in before
      ensures longer[j].name.value in next
      ensures next[longer[j].name.value] == OutputBlob(longer[j].data, longer[j].shape, longer[j].precision)
    {
      if j < i {
        FirstBefore(tensors, made, i, j);
        hide FirstOfName, Good;
      } else {
        FirstHasNoSource(tensors, made, i);
      }
    }
  }

  lemma VerdictStep(status: Status, tensors: seq<Tensor>, made: nat -> bool, i: nat)
    requires i < |tensors| && IsVerdict(status, tensors[..i], made)
    ensures IsVerdict(NextStatus(status, tensors[i], made(i)), tensors[..i + 1], made)
  {
    hide Check;
    var shorter, longer, t := tensors[..i], tensors[..i + 1], tensors[i];
    assert longer == shorter + [t];
    if exists k :: 0 <= k < |shorter| && shorter[k].name.None? {
      var k :| 0 <= k < |shorter| && shorter[k].name.None?;
      assert longer[k].name.None?;
    } else if t.name.None? {
      assert longer[i].name.None?;
    } else if !status.OK? {
      var k :| 0 <= k < |shorter| && status == Check(shorter[k], made(k)) != OK
               && forall j :: 0 <= j < k ==> Check(shorter[j], made(j)).OK?;
      assert status == Check(longer[k], made(k)) && forall j :: 0 <= j < k ==> Check(longer[j], made(j)).OK?;
    } else if !Check(t, made(i)).OK? {
      assert longer[i] == t && forall j :: 0 <= j < i ==> Check(longer[j], made(j)).OK?;
    }
  }

  /**
    Exactly once: over the life of a session, from an empty one to its end, the addresses released are the
    buffers handed over, each as often as it was handed over.
   */
  method ExecuteAndDestroy(outputs: nat, tensors: seq<Tensor>, made: nat -> bool, library: NodeLibrary)
    returns (status: Status)
    requires outputs != 0 && |tensors| > 0
    modifies library
    ensures library.released == old(library.released) + Buffers(tensors) + multiset{outputs}
    ensures IsVerdict(status, tensors, made)
  {
    var session := new CustomNodeSession();
    status := session.Execute(0, outputs, |tensors|, tensors, made, library);
    ghost var r, b := library.released, session.resultBlobs;
    session.Destroy(library);
    AccountedChain(old(library.released), map[], r, b, library.released, map[], Buffers(tensors) + multiset{outputs},
        multiset{});
    ReleasedExactly(old(library.released), library.released, Buffers(tensors) + multiset{outputs} + multiset{});
  }

  lemma ReleasedExactly(before: multiset<nat>, after: multiset<nat>, owed: multiset<nat>)
    requires Accounted(before, map[], after, map[], owed)
    ensures after == before + owed
  {
    forall a: nat ensures after[a] == (before + owed)[a] {
      assert Holders(map[], a) == {};
    }
  }

  /** A buffer that a stored blob reads has not been released, if the library's buffers are all different. */
  lemma StoredDataIsAlive(released: multiset<nat>, blobs: map<string, OutputBlob>, owed: multiset<nat>, name: string)
    requires Accounted(multiset{}, map[], released, blobs, owed) && (forall a: nat :: owed[a] <= 1)
    requires name in blobs
    ensures blobs[name].data !in released
    ensures forall other :: other in blobs && other != name ==> blobs[other].data != blobs[name].data
  {
    var a := blobs[name].data;
    assert name in Holders(blobs, a);
    assert Holders(map[], a) == {};
    assert |Holders(blobs, a)| >= 1;
    forall other | other in blobs && other != name ensures blobs[other].data != a {
      if blobs[other].data == a {
        assert {name, other} <= Holders(blobs, a);
        SubsetCardinality({name, other}, Holders(blobs, a));
      }
    }
  }
}
