/**
  The order of the available versions (src/modelmanager.cpp:901-909, 1027-1061): the manager's pass does on a list
  what it should do on the set of its versions, whatever the circumstances, exactly when the list is ascending.
 */
module VersionOrder {
  import opened Collections
  import opened VersionPolicy
  import opened ModelConfigs
  import opened VersionDiff
  import opened Reconciliation
  import opened VersionLists

  /** The pass with configuration `c`, under the given policy, blacklist and outcomes of loads. */
  function EnvWith(c: ModelConfig, p: Policy, blacklist: set<nat>, loads: nat -> bool): Env {
    Env(c.(policy := p), blacklist, loads)
  }

  /** Both the registered versions and the outcome are those of the pass on the set. */
  ghost predicate Agrees(vs: Versions, avail: seq<nat>, e: Env) {
    && ListReconcile(vs, avail, e) == Reconcile(vs, Elems(avail), e)
    && ListOutcome(vs, avail, e) == OutcomeOf(vs, Elems(avail), e)
  }

  ghost predicate LoopAgrees(vs: Versions, avail: seq<nat>, e: Env) {
    AsSets(ListLoop(vs, avail, {}, [], true, e)) == StartLoop(vs, Elems(avail), {}, true, e)
  }

  // ----- a version that is missed -----

  /** A version that the policy falls back to on the set, and the list-level pass never registers. */
  ghost predicate Stranded(avail: seq<nat>, e: Env, v: nat) {
    && v in AvailableSet(Reconcile(map[], Elems(avail), e))
    && v !in ListLoop(map[], avail, {}, [], true, e).vs
  }

  lemma StrandedDisagrees(avail: seq<nat>, e: Env, v: nat)
    requires Stranded(avail, e, v)
    ensures !Agrees(map[], avail, e) && !LoopAgrees(map[], avail, e)
  {
    var none: Versions := map[];
    var l, s := ListLoop(none, avail, {}, [], true, e), StartLoop(none, Elems(avail), {}, true, e);
    FinishedKeys(s, e);
    ListFinishKeys(l, e);
    hide ListLoop, StartLoop, Finish, ListFinish;
    assert v in s.vs.Keys && v !in ListFinish(l, e).Keys;
  }

  lemma ListFinishKeys(l: ListStarted, e: Env)
    ensures ListFinish(l, e).Keys == l.vs.Keys
  {
    hide LeftAfter, Retires;
    assert Reloaded(l.vs, l.reload, e).Keys == l.vs.Keys;
  }

  /** The served versions when the policy asks for those from the `i`-th lowest on. */
  lemma LatestFrom(list: seq<nat>, i: nat)
    requires Ascending(list) && i < |list|
    ensures Served(Latest(|list| - i), Elems(list)) == Elems(list[i..])
  {
    LastAreLatest(list, |list| - i, |list| - i);
  }

  /**
    A version that is not found, and is not the lowest: when only it fails, and the policy asks for the versions
    from it on, the next lower one is not tried.
   */
  lemma MissedAboveLowest(c: ModelConfig, avail: seq<nat>, x: nat) returns (p: Policy, loads: nat -> bool, v: nat)
    requires Distinct(avail) && x in avail && !Found(avail, x) && exists w :: w in avail && w < x
    ensures Stranded(avail, EnvWith(c, p, {}, loads), v)
  {
    var list := AscendingList(Elems(avail));
    assert x in Elems(list);
    var i :| 0 <= i < |list| && list[i] == x;
    var w :| w in avail && w < x;
    assert w in Elems(list) && i > 0;
    v := list[i - 1];
    p, loads := Latest(|list| - i), y => y != x;
    var e := EnvWith(c, p, {}, loads);
    MissedRound(avail, list, i, e);
    FallbackOnSet(list, i, e);
  }

  lemma MissedRound(avail: seq<nat>, list: seq<nat>, i: nat, e: Env)
    requires Ascending(list) && Elems(list) == Elems(avail) && 0 < i < |list| && !Found(avail, list[i])
    requires e.config.policy == Latest(|list| - i) && e.blacklist == {} && forall y :: e.loads(y) <==> y != list[i]
    ensures list[i - 1] !in ListLoop(map[], avail, {}, [], true, e).vs
  {
    var none: Versions := map[];
    var x, start := list[i], Elems(list[i..]);
    LatestFrom(list, i);
    assert x in start && list[i - 1] !in start;
    assert Starts(none, Elems(avail), e) == start;
    assert Failing(start, e) == {x};
    OneRemoved(avail, x);
    var vs := Added(none, start, e);
    assert Starts(vs, Elems(avail), e) == {};
    LoopRetries(none, avail, {}, [], true, e, {x});
    hide ListLoop, Starts, Reloads, Served;
    LoopEnds(vs, avail, {} + {x}, Ordered({x}), false, e);
  }

  lemma FallbackOnSet(list: seq<nat>, i: nat, e: Env)
    requires Ascending(list) && 0 < i < |list|
    requires e.config.policy == Latest(|list| - i) && e.blacklist == {} && forall y :: e.loads(y) <==> y != list[i]
    ensures list[i - 1] in AvailableSet(Reconcile(map[], Elems(list), e))
  {
    var good := set v | v in Elems(list) && e.loads(v);
    PolicyFallbackFromEmpty(Elems(list), e);
    RankFromEnd(list, i);
    assert Above(good, list[i - 1]) == Above(Elems(list), list[i]);
    assert list[i - 1] in good;
  }

  // ----- only the lowest is missed -----

  /** The search that ends at the first element for it does so for anything no element before its end is below. */
  lemma {:induction false} FirstIsLowest(s: seq<nat>, low: nat, x: nat, high: nat)
    requires 0 < high <= |s| && s[0] != low && LowerBound(s, s[0], 0, high) == 0
    requires forall k :: 0 <= k < |s| && s[k] != low ==> x <= s[k]
    requires low < s[0]
    ensures LowerBound(s, x, 0, high) == 0
    decreases high
  {
    var mid := high / 2;
    assert s[mid] >= s[0];
    if mid > 0 {
      FirstIsLowest(s, low, x, mid);
    }
  }

  /** If the lowest version is out of place and the others are found, the list begins with the second lowest. */
  lemma BeginsWithSecond(s: seq<nat>, list: seq<nat>)
    requires Distinct(s) && Ascending(list) && Elems(list) == Elems(s) && |list| > 1 && s != [] && s[0] != list[0]
    requires Found(s, s[0]) && Found(s, list[1])
    ensures s[0] == list[1]
  {
    var low, x := list[0], list[1];
    assert s[0] in Elems(list);
    LowerBoundNotBelow(s, s[0], 0, |s|);
    var k := LowerBound(s, s[0], 0, |s|);
    assert s[k] == s[0] && k == 0;
    forall j | 0 <= j < |s| && s[j] != low ensures x <= s[j] {
      assert s[j] in Elems(list);
    }
    FirstIsLowest(s, low, x, |s|);
  }

  /** The list while all but the lowest version fail: it begins with the second lowest and still has the lowest. */
  ghost predicate Waiting(avail: seq<nat>, low: nat, second: nat) {
    && Distinct(avail) && avail != [] && avail[0] == second && low < second && low in avail
    && forall y :: y in avail && y != low ==> second <= y
  }

  /** The version tried in a round, and the list after it. */
  lemma WaitingRound(vs: Versions, avail: seq<nat>, low: nat, second: nat, e: Env) returns (top: nat)
    requires Waiting(avail, low, second) && low !in vs
    requires e.config.policy == Latest(1) && e.blacklist == {} && forall y :: e.loads(y) <==> y == low
    ensures Starts(vs, Elems(avail), e) == {top} - vs.Keys && top != low && Failing({top}, e) == {top}
    ensures Waiting(Removed(avail, [top]), low, second)
  {
    var list := AscendingList(Elems(avail));
    assert second in Elems(avail) && low in Elems(list) && second in Elems(list);
    assert |list| > 1;
    var k := |list| - 1;
    top := list[k];
    LatestFrom(list, k);
    assert list[k..] == [top];
    assert top != low && top in Elems(avail);
    forall y | y in avail ensures y <= top {
      assert y in Elems(list);
    }
    WaitingStays(avail, low, second, top);
  }

  lemma WaitingStays(avail: seq<nat>, low: nat, second: nat, top: nat)
    requires Waiting(avail, low, second) && top in avail && top != low && forall y :: y in avail ==> y <= top
    ensures Waiting(Removed(avail, [top]), low, second)
  {
    OneRemoved(avail, top);
    if top == second {
      assert forall y :: y in avail ==> y == low || y == second;
      assert |avail| == 2 && avail[1] == low by {
        DistinctCardinality(avail);
        assert Elems(avail) == {low, second};
      }
      assert LowerBound(avail, second, 0, 2) == LowerBound(avail, second, 2, 2);
      assert !Found(avail, second);
    } else {
      WithoutCorrect(avail, top);
      var rest := Without(avail, top);
      assert avail[0] != top && rest[0] == second;
      assert forall y :: y in rest <==> y in Elems(rest);
      assert low in Elems(avail);
    }
  }

  lemma {:induction false} LowestIsNotTried(vs: Versions, avail: seq<nat>, failed: set<nat>, last: seq<nat>, ok: bool,
                                            e: Env,
                                            low: nat, second: nat)
    requires Waiting(avail, low, second) && low !in vs
    requires e.config.policy == Latest(1) && e.blacklist == {} && forall y :: e.loads(y) <==> y == low
    ensures low !in ListLoop(vs, avail, failed, last, ok, e).vs
    decreases |Elems(avail) - vs.Keys|, 1
  {
    hide ListLoop, Starts, Reloads, Waiting, Added, Failing, Removed;
    var top := WaitingRound(vs, avail, low, second, e);
    var start := Starts(vs, Elems(avail), e);
    if top in vs {
      assert start == {};
      LoopEnds(vs, avail, failed, last, ok, e);
    } else {
      assert start == {top};
      LowestAfterTry(vs, avail, failed, last, ok, e, low, second, top);
    }
  }

  /** One more round, in which `top` fails. */
  lemma {:induction false} LowestAfterTry(vs: Versions, avail: seq<nat>, failed: set<nat>, last: seq<nat>, ok: bool,
                                          e: Env, low: nat, second: nat, top: nat)
    requires low !in vs && top != low && Failing({top}, e) == {top} && Starts(vs, Elems(avail), e) == {top}
    requires e.config.policy == Latest(1) && e.blacklist == {} && forall y :: e.loads(y) <==> y == low
    requires Waiting(Removed(avail, [top]), low, second)
    ensures low !in ListLoop(vs, avail, failed, last, ok, e).vs
    decreases |Elems(avail) - vs.Keys|, 0
  {
    TopAdded(vs, top, e, low);
    OneRemoved(avail, top);
    hide ListLoop, Starts, Reloads, Waiting, Added, Failing, Removed;
    var rest, more := Removed(avail, [top]), Added(vs, {top}, e);
    RemovedKeeps(avail, [top]);
    FewerToTry(vs, Elems(avail), e, Elems(rest));
    LoopRetries(vs, avail, failed, last, ok, e, {top});
    LowestIsNotTried(more, rest, failed + {top}, [top], false, e, low, second);
  }

  lemma TopAdded(vs: Versions, top: nat, e: Env, low: nat)
    requires top != low && low !in vs
    ensures low !in Added(vs, {top}, e)
  {
  }

  /** When only the lowest version loads and the latest one is asked for, the lowest is not tried. */
  lemma MissedLowest(c: ModelConfig, avail: seq<nat>, low: nat, second: nat)
    returns (p: Policy, loads: nat -> bool, v: nat)
    requires Waiting(avail, low, second)
    ensures Stranded(avail, EnvWith(c, p, {}, loads), v)
  {
    p, loads, v := Latest(1), y => y == low, low;
    var e := EnvWith(c, p, {}, loads);
    LowestIsNotTried(map[], avail, {}, [], true, e, low, second);
    PolicyFallbackFromEmpty(Elems(avail), e);
    var good := set w | w in Elems(avail) && e.loads(w);
    assert good == {low};
    assert Above(good, low) == {};
  }

  // ----- the theorem -----

  /** On a list that is not ascending some circumstances strand a version. */
  lemma DisorderStrands(c: ModelConfig, avail: seq<nat>) returns (p: Policy, loads: nat -> bool, v: nat)
    requires Distinct(avail) && !Ascending(avail)
    ensures Stranded(avail, EnvWith(c, p, {}, loads), v)
  {
    var list := AscendingList(Elems(avail));
    DistinctCardinality(avail);
    AscendingDistinct(list);
    DistinctCardinality(list);
    FindsAllExactlyWhenAscending(avail);
    var x :| x in avail && !Found(avail, x);
    assert |list| > 1;
    assert list[0] in Elems(avail) && list[1] in Elems(avail) && avail[0] in Elems(list);
    if !Found(avail, list[1]) {
      p, loads, v := MissedAboveLowest(c, avail, list[1]);
    } else if avail[0] != list[0] && !Found(avail, avail[0]) {
      p, loads, v := MissedAboveLowest(c, avail, avail[0]);
    } else if x != list[0] {
      assert x in Elems(list);
      p, loads, v := MissedAboveLowest(c, avail, x);
    } else {
      forall y | y in avail ensures x <= y {
        assert y in Elems(list);
      }
      LowestFoundFirst(avail, x);
      BeginsWithSecond(avail, list);
      SecondWaits(avail, list);
      p, loads, v := MissedLowest(c, avail, list[0], list[1]);
    }
  }

  lemma SecondWaits(avail: seq<nat>, list: seq<nat>)
    requires Distinct(avail) && Ascending(list) && Elems(list) == Elems(avail) && |list| > 1 && avail != []
    requires avail[0] == list[1]
    ensures Waiting(avail, list[0], list[1])
  {
    assert list[0] in Elems(avail);
    forall y | y in avail && y != list[0] ensures list[1] <= y {
      assert y in Elems(list);
    }
  }

  /** The lowest version is found when the list begins with it. */
  lemma {:induction false} LowestEndsFirst(s: seq<nat>, low: nat, high: nat)
    requires high <= |s| && forall k :: 0 <= k < |s| ==> low <= s[k]
    ensures LowerBound(s, low, 0, high) == 0
    decreases high
  {
    if high > 0 {
      LowestEndsFirst(s, low, high / 2);
    }
  }

  lemma LowestFoundFirst(avail: seq<nat>, low: nat)
    requires low in avail && !Found(avail, low) && forall y :: y in avail ==> low <= y
    ensures avail[0] != low
  {
    forall k | 0 <= k < |avail| ensures low <= avail[k] {
      assert avail[k] in avail;
    }
    LowestEndsFirst(avail, low, |avail|);
  }

  /**
    The pass on a list of distinct versions is the pass on their set for all registered versions, policies,
    blacklists and outcomes of loads if and only if the list is ascending; and so is the retry loop alone.
   */
  lemma PassAgreesExactly(c: ModelConfig, avail: seq<nat>)
    requires Distinct(avail)
    ensures (forall vs, p, blacklist, loads :: Agrees(vs, avail, EnvWith(c, p, blacklist, loads))) <==> Ascending(avail)
    ensures (forall vs, p, blacklist, loads :: LoopAgrees(vs, avail, EnvWith(c, p, blacklist, loads)))
              <==> Ascending(avail)
  {
    if Ascending(avail) {
      forall vs, p, blacklist, loads
        ensures Agrees(vs, avail, EnvWith(c, p, blacklist, loads))
        ensures LoopAgrees(vs, avail, EnvWith(c, p, blacklist, loads))
      {
        var e := EnvWith(c, p, blacklist, loads);
        AscendingReconciles(vs, avail, e);
        AscendingLoopFinds(vs, avail, e);
        FindingLoop(vs, avail, {}, [], true, e);
      }
    } else {
      var p, loads, v := DisorderStrands(c, avail);
      StrandedDisagrees(avail, EnvWith(c, p, {}, loads), v);
    }
  }
}
