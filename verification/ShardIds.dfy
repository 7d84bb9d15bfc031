/** `getShardId` (src/nodesessionmetadata.cpp:152-196): the position of a shard in the gathered tensor. */
module ShardIds {
  import opened Integers
  import opened Wrappers
  import opened Collections
  import opened MixedRadix
  import opened SessionMetadata

  function Last<T>(s: seq<T>, k: nat): (r: seq<T>)
    requires k <= |s|
    ensures |r| == k
  {
    s[|s| - k..]
  }

  function ShardId(m: Metadata, names: set<string>): Result<nat, Error>
    requires Keyed(m)
  {
    if names == {} then Ok(0)
    else if |names| > |m.levels| then Err(TooManyLevels)
    else if !LifoAccepts(m.levels, names) then Err(NotLifo)
    else Ok(Index32(Last(Ids(m), |names|), Last(Sizes(m), |names|)))
  }

  lemma ModAdd(a: nat, b: nat)
    ensures (a % INT_VALUES + b % INT_VALUES) % INT_VALUES == (a + b) % INT_VALUES
  {
  }

  method GetShardId(m: Metadata, names: set<string>) returns (r: Result<nat, Error>)
    requires Keyed(m) && |m.levels| < SIZE_VALUES
    ensures r == ShardId(m, names)
    ensures r.Err? ==> r.error == if |names| > |m.levels| then TooManyLevels else NotLifo
  {
    if |names| == 0 {
      return Ok(0);
    }
    if |names| > |m.levels| {
      return Err(TooManyLevels);
    }
    var accepted := LifoLoop(m.levels, names);
    if !accepted {
      return Err(NotLifo);
    }
    var shardId := FoldIds(Ids(m), Sizes(m), |names|);
    return Ok(shardId);
  }

  /** The loop at lines 187-194, in 32-bit unsigned arithmetic, computes the row-major index modulo 2^32. */
  method FoldIds(ids: seq<nat>, sizes: seq<nat>, count: nat) returns (shardId: nat)
    requires count <= |ids| == |sizes|
    ensures shardId == Index32(Last(ids, count), Last(sizes, count))
  {
    var multiplyFactor, i := 1, 0;
    shardId := 0;
    while i < count
      invariant 0 <= i <= count
      invariant multiplyFactor == Product(Last(sizes, i)) % INT_VALUES
      invariant shardId == Index32(Last(ids, i), Last(sizes, i))
    {
      var id, sessionSize := ids[|ids| - 1 - i], sizes[|ids| - 1 - i];
      LoopStep(ids, sizes, i);
      shardId := (shardId + multiplyFactor * id % INT_VALUES) % INT_VALUES;
      multiplyFactor := multiplyFactor * sessionSize % INT_VALUES;
      i := i + 1;
    }
  }

  lemma LoopStep(ids: seq<nat>, sizes: seq<nat>, i: nat)
    requires |ids| == |sizes| && i < |ids|
    ensures var id, size := ids[|ids| - 1 - i], sizes[|ids| - 1 - i];
            var factor := Product(Last(sizes, i)) % INT_VALUES;
            && factor * size % INT_VALUES == Product(Last(sizes, i + 1)) % INT_VALUES
            && (Index32(Last(ids, i), Last(sizes, i)) + factor * id % INT_VALUES) % INT_VALUES
               == Index32(Last(ids, i + 1), Last(sizes, i + 1))
  {
    var id, size := ids[|ids| - 1 - i], sizes[|ids| - 1 - i];
    var p := Product(Last(sizes, i));
    assert Last(ids, i + 1)[1..] == Last(ids, i) && Last(sizes, i + 1)[1..] == Last(sizes, i);
    ModMul(p, size);
    ModMul(p, id);
    ModAdd(RowMajor(Last(ids, i), Last(sizes, i)), p * id);
    assert p * id == id * p && p * size == size * p;
  }

  lemma LastDigits(m: Metadata, k: nat)
    requires Valid(m) && k <= |m.levels|
    ensures Digits(Last(Ids(m), k), Last(Sizes(m), k))
  {
  }

  lemma SmallIndex(ids: seq<nat>, sizes: seq<nat>)
    requires Digits(ids, sizes) && Product(sizes) <= INT_VALUES
    ensures Index32(ids, sizes) == RowMajor(ids, sizes) < Product(sizes)
  {
    RowMajorInRange(ids, sizes);
  }

  /**
    On metadata accepted for collapse the shard id is the linear index under the collapsed sizes
    in their stored order, as long as those sizes multiply to at most 2^32.
   */
  lemma ShardIdIsRowMajor(m: Metadata, names: set<string>)
    requires Valid(m) && Collapse(m, names).Ok?
    ensures |names| <= |m.levels|
    ensures Collapse(m, names).value.1.sizes == Last(Sizes(m), |names|)
    ensures ShardId(m, names) == Ok(Index32(Last(Ids(m), |names|), Last(Sizes(m), |names|)))
    ensures Product(Last(Sizes(m), |names|)) <= INT_VALUES ==>
              && ShardId(m, names) == Ok(RowMajor(Last(Ids(m), |names|), Last(Sizes(m), |names|)))
              && ShardId(m, names).value < Product(Last(Sizes(m), |names|))
  {
    CollapseKeepsOuter(m, names);
    LastDigits(m, |names|);
    if Product(Last(Sizes(m), |names|)) <= INT_VALUES {
      SmallIndex(Last(Ids(m), |names|), Last(Sizes(m), |names|));
    }
  }

  /**
    Onto and one-to-one: every index below the product is the shard id of exactly one id tuple,
    and this fails as soon as the product passes 2^32.
   */
  lemma ShardIdsAreABijection(sizes: seq<nat>, x: nat)
    requires x < Product(sizes)
    ensures Product(sizes) <= INT_VALUES ==>
              && Digits(Unrank(x, sizes), sizes)
              && Index32(Unrank(x, sizes), sizes) == x
              && forall a :: Digits(a, sizes) && Index32(a, sizes) == x ==> a == Unrank(x, sizes)
    ensures Index32Injective(sizes) <==> Product(sizes) <= INT_VALUES
  {
    RowMajorOfUnrank(x, sizes);
    Index32InjectiveExactly(sizes);
  }

  /** Unlike a collapse, a shard id is given for any set as large as the level list, whatever it names. */
  lemma ShardIdAcceptsExactly(m: Metadata, names: set<string>)
    requires Valid(m)
    ensures ShardId(m, names).Ok? <==> names == {} || |names| == |m.levels| || Collapse(m, names).Ok?
  {
    if |names| < |m.levels| && names != {} && LifoAccepts(m.levels, names) {
      InnermostMembers(m, |names|);
      LifoContains(m.levels, names);
      SubsetCardinality(Innermost(m, |names|), names);
    }
    CollapseAcceptsExactly(m, names);
  }

  /** A session under one level is given a shard id for a level it does not have, where a collapse is refused. */
  lemma ShardIdOfUnknownLevel(level: string, other: string)
    requires level != "" && other != level
    ensures var m := Subsession(ROOT, level, 0, 1);
            && Valid(m) && ShardId(m, {other}).Ok? && Collapse(m, {other}) == Err(UnknownName)
  {
    var m := Subsession(ROOT, level, 0, 1);
    SubsessionValid(ROOT, level, 0, 1);
    ShardIdAcceptsExactly(m, {other});
  }
}
