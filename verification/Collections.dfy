/** Facts about sequences and finite sets that several components share. */
module Collections {

  ghost predicate Distinct<T>(s: seq<T>) {
    forall i, j :: 0 <= i < j < |s| ==> s[i] != s[j]
  }

  function Elems<T>(s: seq<T>): set<T> {
    set x | x in s
  }

  lemma EmptyElems<T>(s: seq<T>)
    ensures Elems(s) == {} <==> s == []
  {
    if s != [] {
      assert s[0] in Elems(s);
    }
  }

  /** One more element of a list. */
  lemma ElemsNext<T>(s: seq<T>, i: nat)
    requires i < |s|
    ensures Elems(s[..i + 1]) == Elems(s[..i]) + {s[i]} && Elems(s[..i]) <= Elems(s) && s[i] in Elems(s)
    ensures Distinct(s) ==> s[i] !in Elems(s[..i])
  {
    assert s[..i + 1] == s[..i] + [s[i]];
  }

  lemma {:induction false} DistinctCardinality<T>(s: seq<T>)
    requires Distinct(s)
    ensures |Elems(s)| == |s|
  {
    if s != [] {
      var k := |s| - 1;
      DistinctCardinality(s[..k]);
      assert Elems(s) == Elems(s[..k]) + {s[k]};
      assert s[k] !in Elems(s[..k]);
    }
  }

  lemma SubsetCardinality<T>(a: set<T>, b: set<T>)
    requires a <= b
    ensures |a| <= |b|
    ensures |a| == |b| ==> a == b
  {
    assert b == a + (b - a);
    assert |b| == |a| + |b - a|;
    if |a| == |b| {
      assert b - a == {};
    }
  }

  /** The first `n` naturals. */
  function Range(n: nat): (r: set<nat>)
    ensures forall i: int :: i in r <==> 0 <= i < n
    ensures |r| == n
  {
    if n == 0 then {} else Range(n - 1) + {n - 1}
  }

  function Row(i: nat, b: nat): (r: set<(nat, nat)>)
    ensures forall p :: p in r <==> p.0 == i && p.1 < b
    ensures |r| == b
  {
    if b == 0 then {} else
      var shorter := Row(i, b - 1);
      assert (i, b - 1) !in shorter;
      shorter + {(i, b - 1)}
  }

  /** All pairs below `(a, b)`; there are `a * b` of them. */
  function Pairs(a: nat, b: nat): (r: set<(nat, nat)>)
    ensures forall p :: p in r <==> p.0 < a && p.1 < b
    ensures |r| == a * b
  {
    if a == 0 then {} else
      var rest, row := Pairs(a - 1, b), Row(a - 1, b);
      assert rest !! row;
      assert a * b == (a - 1) * b + b;
      rest + row
  }
}
