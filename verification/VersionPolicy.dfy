/**
  Version lists: sorting, the sorted merges of the standard library that the manager uses, and the
  version policies (src/model_version_policy.cpp:35-61, src/model_version_policy.hpp:69-96).
 */
module VersionPolicy {
  import opened Collections

  ghost predicate Sorted(s: seq<nat>) {
    forall i, j :: 0 <= i < j < |s| ==> s[i] <= s[j]
  }

  /** Strictly ascending: sorted without duplicates. */
  ghost predicate Ascending(s: seq<nat>) {
    forall i, j :: 0 <= i < j < |s| ==> s[i] < s[j]
  }

  lemma AscendingDistinct(s: seq<nat>)
    requires Ascending(s)
    ensures Distinct(s)
  {
  }

  // ----- std::sort -----

  function Insert(s: seq<nat>, x: nat): seq<nat> {
    if s == [] || x <= s[0] then [x] + s else [s[0]] + Insert(s[1..], x)
  }

  lemma {:induction false} InsertKeeps(s: seq<nat>, x: nat)
    ensures multiset(Insert(s, x)) == multiset(s) + multiset{x}
  {
    if s != [] && x > s[0] {
      InsertKeeps(s[1..], x);
      assert s == [s[0]] + s[1..];
    }
  }

  lemma {:induction false} InsertSorted(s: seq<nat>, x: nat)
    requires Sorted(s)
    ensures Sorted(Insert(s, x))
  {
    if s != [] && x > s[0] {
      var rest := Insert(s[1..], x);
      InsertSorted(s[1..], x);
      InsertKeeps(s[1..], x);
      forall j | 0 <= j < |rest| ensures s[0] <= rest[j] {
        assert rest[j] in multiset(rest);
        assert rest[j] == x || rest[j] in s[1..];
      }
    }
  }

  function Sort(s: seq<nat>): seq<nat> {
    if s == [] then [] else Insert(Sort(s[1..]), s[0])
  }

  lemma {:induction false} SortCorrect(s: seq<nat>)
    ensures Sorted(Sort(s)) && multiset(Sort(s)) == multiset(s)
  {
    if s != [] {
      SortCorrect(s[1..]);
      InsertSorted(Sort(s[1..]), s[0]);
      InsertKeeps(Sort(s[1..]), s[0]);
      assert s == [s[0]] + s[1..];
    }
  }

  lemma MultisetDistinct(s: seq<nat>, t: seq<nat>)
    requires multiset(s) == multiset(t) && Distinct(s)
    ensures Distinct(t) && Elems(t) == Elems(s)
  {
    forall x ensures x in t <==> x in s {
      assert x in multiset(s) <==> x in multiset(t);
    }
    forall x ensures multiset(s)[x] <= 1 {
      CountAtMostOne(s, x);
    }
    forall i, j | 0 <= i < j < |t| ensures t[i] != t[j] {
      if t[i] == t[j] {
        CountTwice(t, i, j);
      }
    }
  }

  lemma {:induction false} CountAtMostOne(s: seq<nat>, x: nat)
    requires Distinct(s)
    ensures multiset(s)[x] <= 1
  {
    if s != [] {
      var k := |s| - 1;
      CountAtMostOne(s[..k], x);
      assert s == s[..k] + [s[k]];
      if s[k] == x {
        assert x !in s[..k];
      }
    }
  }

  lemma CountTwice(s: seq<nat>, i: nat, j: nat)
    requires i < j < |s| && s[i] == s[j]
    ensures multiset(s)[s[i]] >= 2
  {
    assert s == s[..i] + [s[i]] + s[i + 1..j] + [s[j]] + s[j + 1..];
  }

  /** Sorting distinct versions gives the same set, ascending. */
  lemma SortDistinct(s: seq<nat>)
    requires Distinct(s)
    ensures Ascending(Sort(s)) && Elems(Sort(s)) == Elems(s)
  {
    SortCorrect(s);
    MultisetDistinct(s, Sort(s));
  }

  // ----- std::set_intersection and std::set_difference -----

  lemma NotAfter(b: seq<nat>, j: nat, x: nat)
    requires Sorted(b) && j < |b| && x < b[j]
    ensures x !in b[j..]
  {
  }

  method SetIntersection(a: seq<nat>, b: seq<nat>) returns (r: seq<nat>)
    requires Ascending(a) && Sorted(b)
    ensures Ascending(r) && Elems(r) == Elems(a) * Elems(b)
  {
    r := [];
    var i, j := 0, 0;
    while i < |a| && j < |b|
      invariant 0 <= i <= |a| && 0 <= j <= |b|
      invariant Ascending(r) && (forall k :: 0 <= k < |r| && i < |a| ==> r[k] < a[i])
      invariant forall x :: x in r <==> x in a[..i] && x in b
      invariant forall x :: x in a[i..] && x in b ==> x in b[j..]
      decreases |a| - i + |b| - j
    {
      assert a[i..] == [a[i]] + a[i + 1..] && b[j..] == [b[j]] + b[j + 1..];
      assert a[..i + 1] == a[..i] + [a[i]];
      if a[i] < b[j] {
        NotAfter(b, j, a[i]);
        i := i + 1;
      } else if b[j] < a[i] {
        j := j + 1;
      } else {
        r := r + [a[i]];
        i, j := i + 1, j + 1;
      }
    }
    forall x ensures x in Elems(r) <==> x in Elems(a) * Elems(b) {
      assert a == a[..i] + a[i..];
      assert x in a <==> x in a[..i] || x in a[i..];
    }
    assert Elems(r) == Elems(a) * Elems(b);
  }

  method SetDifference(a: seq<nat>, b: seq<nat>) returns (r: seq<nat>)
    requires Ascending(a) && Sorted(b)
    ensures Ascending(r) && Elems(r) == Elems(a) - Elems(b)
  {
    r := [];
    var i, j := 0, 0;
    while i < |a|
      invariant 0 <= i <= |a| && 0 <= j <= |b|
      invariant Ascending(r) && (forall k :: 0 <= k < |r| && i < |a| ==> r[k] < a[i])
      invariant forall x :: x in r <==> x in a[..i] && x !in b
      invariant forall x :: x in a[i..] && x in b ==> x in b[j..]
      decreases |a| - i + |b| - j
    {
      assert a[i..] == [a[i]] + a[i + 1..];
      assert a[..i + 1] == a[..i] + [a[i]];
      if j == |b| {
        r := r + [a[i]];
        i := i + 1;
      } else {
        assert b[j..] == [b[j]] + b[j + 1..];
        if a[i] < b[j] {
          NotAfter(b, j, a[i]);
          r := r + [a[i]];
          i := i + 1;
        } else {
          if b[j] >= a[i] {
            i := i + 1;
          }
          j := j + 1;
        }
      }
    }
    assert a[..i] == a;
    assert forall x :: x in Elems(r) <==> x in Elems(a) - Elems(b);
    assert Elems(r) == Elems(a) - Elems(b);
  }

  // ----- std::binary_search and std::remove -----

  /** Where the search for `x` between `low` and `high` ends. */
  function LowerBound(s: seq<nat>, x: nat, low: nat, high: nat): (r: nat)
    requires low <= high <= |s|
    ensures low <= r <= high
    decreases high - low
  {
    if low == high then low else
      var mid := (low + high) / 2;
      if s[mid] < x then LowerBound(s, x, mid + 1, high) else LowerBound(s, x, low, mid)
  }

  function Found(s: seq<nat>, x: nat): bool {
    var k := LowerBound(s, x, 0, |s|);
    k < |s| && !(x < s[k])
  }

  lemma {:induction false} LowerBoundNotBelow(s: seq<nat>, x: nat, low: nat, high: nat)
    requires low <= high <= |s|
    ensures var k := LowerBound(s, x, low, high); k < high ==> x <= s[k]
    decreases high - low
  {
    if low < high {
      var mid := (low + high) / 2;
      if s[mid] < x {
        LowerBoundNotBelow(s, x, mid + 1, high);
      } else {
        LowerBoundNotBelow(s, x, low, mid);
      }
    }
  }

  /** One level of the search: who goes left and who goes right. */
  lemma SearchSplits(s: seq<nat>, low: nat, high: nat, i: nat)
    requires low < high <= |s| && low <= i < high && LowerBound(s, s[i], low, high) == i
    ensures var mid := (low + high) / 2;
            if i <= mid then s[i] <= s[mid] && LowerBound(s, s[i], low, mid) == i
            else s[mid] < s[i] && LowerBound(s, s[i], mid + 1, high) == i
  {
  }

  /** If the search leads every element to its own place, the elements are in order. */
  lemma {:induction false} SearchOrders(s: seq<nat>, low: nat, high: nat)
    requires low <= high <= |s|
    requires forall i :: low <= i < high ==> LowerBound(s, s[i], low, high) == i
    ensures forall i, j :: low <= i < j < high ==> s[i] < s[j]
    decreases high - low
  {
    hide LowerBound;
    if low < high {
      var mid := (low + high) / 2;
      forall i | low <= i < mid ensures LowerBound(s, s[i], low, mid) == i && s[i] < s[mid] {
        SearchSplits(s, low, high, i);
        SearchSplits(s, low, high, mid);
      }
      forall i | mid < i < high ensures LowerBound(s, s[i], mid + 1, high) == i && s[mid] < s[i] {
        SearchSplits(s, low, high, i);
      }
      SearchOrders(s, low, mid);
      SearchOrders(s, mid + 1, high);
    }
  }

  lemma {:induction false} AscendingFound(s: seq<nat>, i: nat, low: nat, high: nat)
    requires Ascending(s) && low <= i < high <= |s|
    ensures LowerBound(s, s[i], low, high) == i
    decreases high - low
  {
    var mid := (low + high) / 2;
    if mid < i {
      AscendingFound(s, i, mid + 1, high);
    } else if i < mid {
      AscendingFound(s, i, low, mid);
    } else {
      AscendingEnd(s, i, low, mid);
    }
  }

  lemma {:induction false} AscendingEnd(s: seq<nat>, i: nat, low: nat, high: nat)
    requires Ascending(s) && low <= high == i < |s|
    ensures LowerBound(s, s[i], low, high) == i
    decreases high - low
  {
    if low < high {
      AscendingEnd(s, i, (low + high) / 2 + 1, high);
    }
  }

  /**
    The binary search finds every version of a list without duplicates exactly when the list is ascending; in
    any other order some version that is there would not be found, and not be removed.
   */
  lemma FindsAllExactlyWhenAscending(s: seq<nat>)
    requires Distinct(s)
    ensures (forall x :: x in s ==> Found(s, x)) <==> Ascending(s)
  {
    if Ascending(s) {
      forall x | x in s ensures Found(s, x) {
        var i :| 0 <= i < |s| && s[i] == x;
        AscendingFound(s, i, 0, |s|);
      }
    }
    if forall x :: x in s ==> Found(s, x) {
      forall i | 0 <= i < |s| ensures LowerBound(s, s[i], 0, |s|) == i {
        assert Found(s, s[i]);
        LowerBoundNotBelow(s, s[i], 0, |s|);
      }
      SearchOrders(s, 0, |s|);
    }
  }

  lemma FoundIsMember(s: seq<nat>, x: nat)
    requires Ascending(s)
    ensures Found(s, x) <==> x in s
  {
    FindsAllExactlyWhenAscending(s);
    LowerBoundNotBelow(s, x, 0, |s|);
  }

  /** Directories named "10" and "9" are listed in that order, and version 10 is then not found. */
  lemma NameOrderHidesVersion()
    ensures Distinct([10, 9]) && !Found([10, 9], 10)
  {
    assert LowerBound([10, 9], 10, 0, 2) == LowerBound([10, 9], 10, 2, 2);
  }

  method BinarySearch(s: seq<nat>, x: nat) returns (found: bool)
    ensures found == Found(s, x)
  {
    var low, high := 0, |s|;
    while low < high
      invariant 0 <= low <= high <= |s|
      invariant LowerBound(s, x, 0, |s|) == LowerBound(s, x, low, high)
    {
      var mid := (low + high) / 2;
      if s[mid] < x {
        low := mid + 1;
      } else {
        high := mid;
      }
    }
    found := low < |s| && !(x < s[low]);
  }

  function Without(s: seq<nat>, x: nat): seq<nat> {
    if s == [] then []
    else if s[0] == x then Without(s[1..], x)
    else [s[0]] + Without(s[1..], x)
  }

  lemma {:induction false} WithoutCorrect(s: seq<nat>, x: nat)
    ensures Elems(Without(s, x)) == Elems(s) - {x}
    ensures Distinct(s) ==> Distinct(Without(s, x))
    ensures Ascending(s) ==> Ascending(Without(s, x))
  {
    if s != [] {
      WithoutCorrect(s[1..], x);
      var rest := Without(s[1..], x);
      assert s == [s[0]] + s[1..];
      assert forall y :: y in rest <==> y in Elems(rest);
      assert Elems(s) == {s[0]} + Elems(s[1..]);
      if s[0] != x {
        assert Elems(Without(s, x)) == {s[0]} + Elems(rest);
        forall k | 0 <= k < |rest| ensures rest[k] in s[1..] {
          assert rest[k] in Elems(rest);
        }
      }
    }
  }

  // ----- policies -----

  datatype Policy = All | Specific(versions: seq<nat>) | Latest(count: nat)

  function Above(s: set<nat>, v: nat): set<nat> {
    set w | w in s && w > v
  }

  /** The versions a policy serves out of a set of versions. */
  function Served(p: Policy, s: set<nat>): set<nat> {
    match p
    case All => s
    case Specific(versions) => s * Elems(versions)
    case Latest(count) => set v | v in s && |Above(s, v)| < count
  }

  /**
    All serves everything; a specific policy what it names; and the latest N are as many as there are up to N, each
    above everything left out.
   */
  method Filter(p: Policy, versions: seq<nat>) returns (r: seq<nat>)
    requires Distinct(versions)
    ensures Distinct(r) && Elems(r) == Served(p, Elems(versions))
    ensures p.All? ==> r == versions
    ensures p.Specific? ==> forall v :: v in r <==> v in versions && v in p.versions
    ensures p.Latest? ==>
              && (forall v :: v in r ==> v in versions)
              && |r| == (if p.count < |versions| then p.count else |versions|)
              && (forall v, w :: v in r && w in versions && w !in r ==> w < v)
  {
    match p
    case All => r := versions;
    case Specific(specific) =>
      SortDistinct(versions);
      SortCorrect(specific);
      r := SetIntersection(Sort(versions), Sort(specific));
      assert Elems(Sort(specific)) == Elems(specific) by {
        forall x ensures x in Sort(specific) <==> x in specific {
          assert x in multiset(Sort(specific)) <==> x in multiset(specific);
        }
      }
      forall v ensures v in r <==> v in versions && v in specific {
        assert v in r <==> v in Elems(r);
        assert v in Elems(r) <==> v in Elems(versions) && v in Elems(specific);
      }
    case Latest(count) =>
      r := FilterLatest(count, versions);
      LatestOnList(count, versions, r);
  }

  /** Line 56 sorts in descending order; the list is read from its far end. */
  method FilterLatest(count: nat, versions: seq<nat>) returns (r: seq<nat>)
    requires Distinct(versions)
    ensures Distinct(r) && Elems(r) == Served(Latest(count), Elems(versions))
  {
    SortDistinct(versions);
    var sorted := Sort(versions);
    r := [];
    var i := 0;
    while i < count && i < |sorted|
      invariant 0 <= i <= count && i <= |sorted|
      invariant |r| == i && forall k :: 0 <= k < i ==> r[k] == sorted[|sorted| - 1 - k]
    {
      r := r + [sorted[|sorted| - 1 - i]];
      i := i + 1;
    }
    LastAreLatest(sorted, i, count);
    assert Elems(r) == Elems(sorted[|sorted| - i..]) by {
      forall x ensures x in r <==> x in sorted[|sorted| - i..] {
        if x in r {
          var k :| 0 <= k < i && r[k] == x;
          assert x == sorted[|sorted| - i..][i - 1 - k];
        }
        if x in sorted[|sorted| - i..] {
          var k :| 0 <= k < i && sorted[|sorted| - i..][k] == x;
          assert x == r[i - 1 - k];
        }
      }
    }
  }

  lemma RankFromEnd(s: seq<nat>, k: nat)
    requires Ascending(s) && k < |s|
    ensures |Above(Elems(s), s[k])| == |s| - 1 - k
  {
    var tail := s[k + 1..];
    DistinctCardinality(tail);
    forall x ensures x in Above(Elems(s), s[k]) <==> x in Elems(tail) {
      if x in Above(Elems(s), s[k]) {
        var i :| 0 <= i < |s| && s[i] == x;
        assert x == tail[i - k - 1];
      }
    }
    assert Above(Elems(s), s[k]) == Elems(tail);
  }

  lemma LastAreLatest(s: seq<nat>, n: nat, count: nat)
    requires Ascending(s) && n <= |s| && n <= count && (n == count || n == |s|)
    ensures Elems(s[|s| - n..]) == Served(Latest(count), Elems(s))
  {
    forall x ensures x in s[|s| - n..] <==> x in Served(Latest(count), Elems(s)) {
      if x in s {
        var k :| 0 <= k < |s| && s[k] == x;
        RankFromEnd(s, k);
        if k >= |s| - n {
          assert s[|s| - n..][k - (|s| - n)] == x;
        }
      }
    }
  }

  /** The latest `count` of a set: as many as there are up to `count`, and nothing left out is above any of them. */
  lemma LatestOfSet(count: nat, list: seq<nat>)
    requires Ascending(list)
    ensures var served := Served(Latest(count), Elems(list));
            && served <= Elems(list)
            && |served| == (if count < |list| then count else |list|)
            && forall v, w :: v in served && w in Elems(list) && w !in served ==> w < v
  {
    var n := if count < |list| then count else |list|;
    var tail := list[|list| - n..];
    LastAreLatest(list, n, count);
    DistinctCardinality(tail);
    forall v, w | v in Elems(tail) && w in Elems(list) && w !in Elems(tail) ensures w < v {
      var i :| 0 <= i < n && tail[i] == v;
      var j :| 0 <= j < |list| && list[j] == w;
      assert tail == list[|list| - n..];
    }
  }

  lemma LatestOnList(count: nat, versions: seq<nat>, r: seq<nat>)
    requires Distinct(versions) && Distinct(r) && Elems(r) == Served(Latest(count), Elems(versions))
    ensures forall v :: v in r ==> v in versions
    ensures |r| == (if count < |versions| then count else |versions|)
    ensures forall v, w :: v in r && w in versions && w !in r ==> w < v
  {
    var list := Sort(versions);
    SortDistinct(versions);
    LatestOfSet(count, list);
    DistinctCardinality(versions);
    DistinctCardinality(list);
    DistinctCardinality(r);
    hide Served;
    forall v | v in r ensures v in versions {
      assert v in Elems(r);
    }
    forall v, w | v in r && w in versions && w !in r ensures w < v {
      assert v in Elems(r) && w in Elems(versions) && w !in Elems(r);
    }
  }

  lemma AboveShrinks(s: set<nat>, t: set<nat>, v: nat)
    requires t <= s
    ensures |Above(t, v)| <= |Above(s, v)|
  {
    SubsetCardinality(Above(t, v), Above(s, v));
  }

  /** A policy serves only what is there, and goes on serving a version when others disappear. */
  lemma ServedMonotone(p: Policy, s: set<nat>, t: set<nat>)
    requires t <= s
    ensures Served(p, s) <= s
    ensures forall v :: v in Served(p, s) && v in t ==> v in Served(p, t)
  {
    if p.Latest? {
      forall v | v in Served(p, s) && v in t ensures v in Served(p, t) {
        AboveShrinks(s, t, v);
      }
    }
  }

  /** If everything served survives, dropping the rest changes nothing. */
  lemma ServedSurvivors(p: Policy, s: seq<nat>, t: set<nat>)
    requires Ascending(s) && t <= Elems(s) && Served(p, Elems(s)) <= t
    ensures Served(p, t) == Served(p, Elems(s))
  {
    ServedMonotone(p, Elems(s), t);
    if p.Latest? {
      forall v | v in Served(p, t) ensures v in Served(p, Elems(s)) {
        LatestKept(p.count, s, t, v);
      }
    }
  }

  lemma LatestKept(count: nat, s: seq<nat>, t: set<nat>, v: nat)
    requires Ascending(s) && t <= Elems(s) && Served(Latest(count), Elems(s)) <= t && v in Served(Latest(count), t)
    ensures v in Served(Latest(count), Elems(s))
  {
    var k :| 0 <= k < |s| && s[k] == v;
    RankFromEnd(s, k);
    if |s| - 1 - k >= count {
      var last := s[|s| - count..];
      LastAreLatest(s, count, count);
      DistinctCardinality(last);
      assert Elems(last) <= Above(t, v);
      SubsetCardinality(Elems(last), Above(t, v));
    }
  }
}
