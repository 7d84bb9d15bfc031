/**
  Mixed-radix numbers: the arithmetic behind shard ids.  A tuple of subsession ids is
  one digit per level, the outermost level first, and a level's size is its radix.
 */
module MixedRadix {
  import opened Integers

  function Product(sizes: seq<nat>): nat {
    if sizes == [] then 1 else sizes[0] * Product(sizes[1..])
  }

  predicate Digits(ids: seq<nat>, sizes: seq<nat>) {
    |ids| == |sizes| && forall i :: 0 <= i < |ids| ==> ids[i] < sizes[i]
  }

  /** Position of `ids` in a row-major array whose dimensions are `sizes`. */
  function RowMajor(ids: seq<nat>, sizes: seq<nat>): nat
    requires |ids| == |sizes|
  {
    if ids == [] then 0 else ids[0] * Product(sizes[1..]) + RowMajor(ids[1..], sizes[1..])
  }

  /** The digits of `x`, most significant first. */
  function Unrank(x: nat, sizes: seq<nat>): seq<nat>
    requires x < Product(sizes)
  {
    if sizes == [] then []
    else
      var p := Product(sizes[1..]);
      TailProductPositive(sizes);
      [x / p] + Unrank(x % p, sizes[1..])
  }

  lemma TailProductPositive(sizes: seq<nat>)
    requires sizes != [] && Product(sizes) > 0
    ensures Product(sizes[1..]) > 0
  {
  }

  lemma {:induction false} ProductConcat(a: seq<nat>, b: seq<nat>)
    ensures Product(a + b) == Product(a) * Product(b)
  {
    if a == [] {
      assert a + b == b;
    } else {
      assert (a + b)[1..] == a[1..] + b;
      ProductConcat(a[1..], b);
      MulAssociative(a[0], Product(a[1..]), Product(b));
    }
  }

  lemma MulAssociative(a: int, b: int, c: int)
    ensures a * (b * c) == (a * b) * c
  {
  }

  lemma AtLeastOnce(k: int, p: nat)
    ensures k >= 1 ==> k * p >= p
    ensures k <= -1 ==> k * p + p <= 0
  {
    if k >= 1 {
      assert k * p == p + (k - 1) * p;
    } else if k <= -1 {
      assert k * p == (k + 1) * p - p;
    }
  }

  lemma DivModUnique(q: nat, r: nat, p: nat)
    requires r < p
    ensures (q * p + r) / p == q && (q * p + r) % p == r
  {
    var x := q * p + r;
    var d, m := x / p, x % p;
    assert x == p * d + m;
    var k := d - q;
    assert k * p == r - m by {
      assert k * p == d * p - q * p;
    }
    AtLeastOnce(k, p);
  }

  lemma QuotientBelow(x: nat, n: nat, p: nat)
    requires p > 0 && x < n * p
    ensures x / p < n
  {
    var d := x / p;
    assert x == p * d + x % p;
    AtLeastOnce(d - n + 1, p);
    assert (d - n + 1) * p == d * p - n * p + p;
  }

  lemma DigitBound(a: nat, n: nat, r: nat, p: nat)
    requires a < n && r < p
    ensures a * p + r < n * p
  {
    var k := n - a;
    AtLeastOnce(k, p);
    assert n * p == a * p + k * p;
  }

  /** Ids below their sizes give an index below the product. */
  lemma {:induction false} RowMajorInRange(ids: seq<nat>, sizes: seq<nat>)
    requires Digits(ids, sizes)
    ensures RowMajor(ids, sizes) < Product(sizes)
  {
    if ids != [] {
      RowMajorInRange(ids[1..], sizes[1..]);
      DigitBound(ids[0], sizes[0], RowMajor(ids[1..], sizes[1..]), Product(sizes[1..]));
    }
  }

  /** Unranking undoes ranking. */
  lemma {:induction false} UnrankOfRowMajor(ids: seq<nat>, sizes: seq<nat>)
    requires Digits(ids, sizes)
    ensures RowMajor(ids, sizes) < Product(sizes)
    ensures Unrank(RowMajor(ids, sizes), sizes) == ids
  {
    RowMajorInRange(ids, sizes);
    if ids != [] {
      var p := Product(sizes[1..]);
      RowMajorInRange(ids[1..], sizes[1..]);
      UnrankOfRowMajor(ids[1..], sizes[1..]);
      DivModUnique(ids[0], RowMajor(ids[1..], sizes[1..]), p);
      assert ids == [ids[0]] + ids[1..];
    }
  }

  lemma {:induction false} UnrankDigits(x: nat, sizes: seq<nat>)
    requires x < Product(sizes)
    ensures Digits(Unrank(x, sizes), sizes)
  {
    assert Digits([], []);
    hide Digits;
    if sizes != [] {
      var p := Product(sizes[1..]);
      TailProductPositive(sizes);
      UnrankDigits(x % p, sizes[1..]);
      QuotientBelow(x, sizes[0], p);
      assert Unrank(x, sizes) == [x / p] + Unrank(x % p, sizes[1..]);
      DigitsCons(x / p, Unrank(x % p, sizes[1..]), sizes);
    }
  }

  lemma DigitsCons(id: nat, ids: seq<nat>, sizes: seq<nat>)
    requires sizes != [] && id < sizes[0] && Digits(ids, sizes[1..])
    ensures Digits([id] + ids, sizes)
  {
  }

  /** Ranking undoes unranking, and unranked digits are below their radix. */
  lemma {:induction false} RowMajorOfUnrank(x: nat, sizes: seq<nat>)
    requires x < Product(sizes)
    ensures Digits(Unrank(x, sizes), sizes)
    ensures RowMajor(Unrank(x, sizes), sizes) == x
  {
    UnrankDigits(x, sizes);
    if sizes != [] {
      var p := Product(sizes[1..]);
      TailProductPositive(sizes);
      RowMajorOfUnrank(x % p, sizes[1..]);
      var u := Unrank(x, sizes);
      assert u[0] == x / p && u[1..] == Unrank(x % p, sizes[1..]);
      DivisionIdentity(x, p);
    }
  }

  lemma DivisionIdentity(x: nat, p: nat)
    requires p > 0
    ensures x == (x / p) * p + x % p
  {
  }

  lemma RowMajorInjective(a: seq<nat>, b: seq<nat>, sizes: seq<nat>)
    requires Digits(a, sizes) && Digits(b, sizes)
    requires RowMajor(a, sizes) == RowMajor(b, sizes)
    ensures a == b
  {
    UnrankOfRowMajor(a, sizes);
    UnrankOfRowMajor(b, sizes);
  }

  lemma ModMul(a: nat, b: nat)
    ensures ((a % INT_VALUES) * b) % INT_VALUES == (a * b) % INT_VALUES
  {
    var q, r := a / INT_VALUES, a % INT_VALUES;
    var k := q * b;
    assert a * b == r * b + k * INT_VALUES by {
      assert a == q * INT_VALUES + r;
      assert (q * INT_VALUES) * b == (q * b) * INT_VALUES;
    }
    MulModZero(r * b, k);
  }

  lemma MulModZero(x: nat, k: nat)
    ensures (x + k * INT_VALUES) % INT_VALUES == x % INT_VALUES
  {
  }

  /** The index as a 32-bit unsigned value. */
  function Index32(ids: seq<nat>, sizes: seq<nat>): nat
    requires |ids| == |sizes|
  {
    RowMajor(ids, sizes) % INT_VALUES
  }

  ghost predicate Index32Injective(sizes: seq<nat>) {
    forall a, b :: Digits(a, sizes) && Digits(b, sizes) && Index32(a, sizes) == Index32(b, sizes) ==> a == b
  }

  /** 32-bit shard ids tell shards apart exactly when the shards number at most 2^32. */
  lemma Index32InjectiveExactly(sizes: seq<nat>)
    ensures Index32Injective(sizes) <==> Product(sizes) <= INT_VALUES
  {
    if Product(sizes) <= INT_VALUES {
      forall a, b | Digits(a, sizes) && Digits(b, sizes) && Index32(a, sizes) == Index32(b, sizes)
        ensures a == b
      {
        RowMajorInRange(a, sizes);
        RowMajorInRange(b, sizes);
        RowMajorInjective(a, b, sizes);
      }
    } else {
      var a, b := Unrank(0, sizes), Unrank(INT_VALUES, sizes);
      RowMajorOfUnrank(0, sizes);
      RowMajorOfUnrank(INT_VALUES, sizes);
      assert Index32(a, sizes) == Index32(b, sizes);
      assert a != b;
    }
  }
}
