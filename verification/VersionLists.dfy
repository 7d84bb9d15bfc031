/**
  The manager's pass on the list of available versions as it is given (src/modelmanager.cpp:901-909, 1027-1061).
  A version that failed is taken off the list only if the binary search finds it.
 */
module VersionLists {
  import opened Collections
  import opened VersionPolicy
  import opened VersionDiff
  import opened Reconciliation

  // ----- the list of a set -----

  lemma {:induction false} AscendingUnique(a: seq<nat>, b: seq<nat>)
    requires Ascending(a) && Ascending(b) && Elems(a) == Elems(b)
    ensures a == b
    decreases |a|
  {
    if a == [] {
      EmptyElems(b);
    } else {
      assert a[0] in Elems(b) && b != [];
      assert b[0] in Elems(a);
      assert a[0] == b[0];
      TailElems(a);
      TailElems(b);
      AscendingUnique(a[1..], b[1..]);
      assert a == [a[0]] + a[1..] && b == [b[0]] + b[1..];
    }
  }

  lemma TailElems(a: seq<nat>)
    requires Ascending(a) && a != []
    ensures Elems(a[1..]) == Elems(a) - {a[0]}
  {
    assert a == [a[0]] + a[1..];
  }

  lemma ListExists(s: set<nat>)
    ensures exists list: seq<nat> :: Ascending(list) && Elems(list) == s
  {
    var list := AscendingList(s);
  }

  /** The elements of a set in ascending order. */
  ghost function Ordered(s: set<nat>): (list: seq<nat>)
    ensures Ascending(list) && Elems(list) == s
  {
    ListExists(s);
    var list: seq<nat> :| Ascending(list) && Elems(list) == s;
    list
  }

  // ----- taking failed versions off -----

  /** Each failed version is searched for in what is left, and removed if it is found. */
  function Removed(avail: seq<nat>, failed: seq<nat>): seq<nat> {
    if failed == [] then avail
    else
      var k := |failed| - 1;
      var r := Removed(avail, failed[..k]);
      if Found(r, failed[k]) then Without(r, failed[k]) else r
  }

  /** Every one of them is found. */
  ghost predicate FindsEach(avail: seq<nat>, failed: seq<nat>) {
    forall i :: 0 <= i < |failed| ==> Found(Removed(avail, failed[..i]), failed[i])
  }

  lemma {:induction false} RemovedKeeps(avail: seq<nat>, failed: seq<nat>)
    ensures Elems(Removed(avail, failed)) <= Elems(avail)
    ensures Elems(avail) - Elems(failed) <= Elems(Removed(avail, failed))
    ensures Distinct(avail) ==> Distinct(Removed(avail, failed))
    ensures Ascending(avail) ==> Ascending(Removed(avail, failed))
  {
    if failed != [] {
      var k := |failed| - 1;
      RemovedKeeps(avail, failed[..k]);
      WithoutCorrect(Removed(avail, failed[..k]), failed[k]);
      assert failed == failed[..k] + [failed[k]];
    }
  }

  /** Everything that is found is gone afterwards. */
  lemma {:induction false} FoundAreRemoved(avail: seq<nat>, failed: seq<nat>)
    requires FindsEach(avail, failed)
    ensures Elems(Removed(avail, failed)) == Elems(avail) - Elems(failed)
  {
    hide Found, Without;
    if failed != [] {
      var k := |failed| - 1;
      FindsEachInit(avail, failed);
      FoundAreRemoved(avail, failed[..k]);
      WithoutCorrect(Removed(avail, failed[..k]), failed[k]);
      ElemsLast(failed);
    }
  }

  lemma FindsEachInit(avail: seq<nat>, failed: seq<nat>)
    requires failed != [] && FindsEach(avail, failed)
    ensures FindsEach(avail, failed[..|failed| - 1])
    ensures Found(Removed(avail, failed[..|failed| - 1]), failed[|failed| - 1])
  {
    hide Found, Removed;
    var k := |failed| - 1;
    forall i | 0 <= i < k ensures Found(Removed(avail, failed[..k][..i]), failed[..k][i]) {
      assert failed[..k][..i] == failed[..i];
    }
  }

  lemma ElemsLast(s: seq<nat>)
    requires s != []
    ensures Elems(s) == Elems(s[..|s| - 1]) + {s[|s| - 1]}
  {
    assert s == s[..|s| - 1] + [s[|s| - 1]];
  }

  /** A version that is on the list and is not found stays on it. */
  lemma {:induction false} MissedStays(avail: seq<nat>, failed: seq<nat>, i: nat, k: nat)
    requires Distinct(failed) && i < k <= |failed| && failed[i] in avail
    requires !Found(Removed(avail, failed[..i]), failed[i])
    ensures failed[i] in Removed(avail, failed[..k])
  {
    hide Found, Without;
    var v, before := failed[i], Removed(avail, failed[..k - 1]);
    assert failed[..k][..k - 1] == failed[..k - 1];
    if k == i + 1 {
      RemovedKeeps(avail, failed[..i]);
      assert v !in failed[..i];
      assert v in Elems(before);
    } else {
      MissedStays(avail, failed, i, k - 1);
      WithoutCorrect(before, failed[k - 1]);
      assert v in Elems(before) && v != failed[k - 1];
      assert v in Elems(Without(before, failed[k - 1]));
    }
  }

  lemma {:induction false} AscendingFindsEach(avail: seq<nat>, failed: seq<nat>)
    requires Ascending(avail) && Distinct(failed) && Elems(failed) <= Elems(avail)
    ensures FindsEach(avail, failed)
  {
    forall i | 0 <= i < |failed| ensures Found(Removed(avail, failed[..i]), failed[i]) {
      RemovedKeeps(avail, failed[..i]);
      assert failed[i] in Elems(failed) && failed[i] !in failed[..i];
      assert failed[i] in Elems(Removed(avail, failed[..i]));
      FoundIsMember(Removed(avail, failed[..i]), failed[i]);
    }
  }

  /** One failed version. */
  lemma OneRemoved(avail: seq<nat>, x: nat)
    ensures Ordered({x}) == [x]
    ensures Removed(avail, [x]) == if Found(avail, x) then Without(avail, x) else avail
  {
    AscendingUnique(Ordered({x}), [x]);
    assert [x][..0] == [];
  }

  // ----- the retry loop -----

  /** Where the loop ends; `last` is what the last loads have left in `versionsFailed`. */
  datatype ListStarted =
    ListStarted(vs: Versions, avail: seq<nat>, failed: set<nat>, last: seq<nat>, reload: set<nat>, ok: bool)

  ghost function ListLoop(vs: Versions, avail: seq<nat>, failed: set<nat>, last: seq<nat>, ok: bool,
                          e: Env): ListStarted
    decreases |Elems(avail) - vs.Keys|
  {
    var start, reload := Starts(vs, Elems(avail), e), Reloads(vs, Elems(avail), e);
    if start == {} then ListStarted(vs, avail, failed, last, reload, ok)
    else
      var bad := Failing(start, e);
      if bad == {} then ListStarted(Added(vs, start, e), avail, failed, [], reload, true)
      else
        var rest := Removed(avail, Ordered(bad));
        RemovedKeeps(avail, Ordered(bad));
        FewerToTry(vs, Elems(avail), e, Elems(rest));
        ListLoop(Added(vs, start, e), rest, failed + bad, Ordered(bad), false, e)
  }

  /** Every failing version that the loop tries is found. */
  ghost predicate LoopFinds(vs: Versions, avail: seq<nat>, e: Env)
    decreases |Elems(avail) - vs.Keys|
  {
    var start := Starts(vs, Elems(avail), e);
    var bad := Failing(start, e);
    if start == {} || bad == {} then true
    else
      var rest := Removed(avail, Ordered(bad));
      RemovedKeeps(avail, Ordered(bad));
      FewerToTry(vs, Elems(avail), e, Elems(rest));
      FindsEach(avail, Ordered(bad)) && LoopFinds(Added(vs, start, e), rest, e)
  }

  function AsSets(l: ListStarted): Started {
    Started(l.vs, Elems(l.avail), l.failed, l.reload, l.ok)
  }

  lemma {:induction false} FindingLoop(vs: Versions, avail: seq<nat>, failed: set<nat>, last: seq<nat>, ok: bool,
                                       e: Env)
    requires LoopFinds(vs, avail, e)
    ensures AsSets(ListLoop(vs, avail, failed, last, ok, e)) == StartLoop(vs, Elems(avail), failed, ok, e)
    decreases |Elems(avail) - vs.Keys|
  {
    hide Starts, Reloads, Added, Failing;
    var start := Starts(vs, Elems(avail), e);
    var bad := Failing(start, e);
    if start != {} && bad != {} {
      var rest := Removed(avail, Ordered(bad));
      RemovedKeeps(avail, Ordered(bad));
      FewerToTry(vs, Elems(avail), e, Elems(rest));
      FoundAreRemoved(avail, Ordered(bad));
      FindingLoop(Added(vs, start, e), rest, failed + bad, Ordered(bad), false, e);
    }
  }

  /** What is registered and on the list stays on it, and what has failed stays failed. */
  lemma {:induction false} LoopKeeps(vs: Versions, avail: seq<nat>, failed: set<nat>, last: seq<nat>, ok: bool, e: Env,
                                     v: nat)
    requires v in vs && v in avail && v in failed
    ensures v in ListLoop(vs, avail, failed, last, ok, e).avail && v in ListLoop(vs, avail, failed, last, ok, e).failed
    decreases |Elems(avail) - vs.Keys|
  {
    var start := Starts(vs, Elems(avail), e);
    var bad := Failing(start, e);
    assert v !in bad;
    AddedKeeps(vs, start, e);
    hide Starts, Reloads, Added, Failing;
    if start != {} && bad != {} {
      var rest := Removed(avail, Ordered(bad));
      RemovedKeeps(avail, Ordered(bad));
      assert v in Elems(avail) - bad;
      FewerToTry(vs, Elems(avail), e, Elems(rest));
      LoopKeeps(Added(vs, start, e), rest, failed + bad, Ordered(bad), false, e, v);
    }
  }

  lemma AddedKeeps(vs: Versions, start: set<nat>, e: Env)
    ensures vs.Keys + start == Added(vs, start, e).Keys
  {
  }

  lemma MissedOne(avail: seq<nat>, list: seq<nat>) returns (v: nat)
    requires Ascending(list) && Elems(list) <= Elems(avail) && !FindsEach(avail, list)
    ensures v in list && v in Removed(avail, list)
  {
    hide Found, Removed;
    var i :| 0 <= i < |list| && !Found(Removed(avail, list[..i]), list[i]);
    v := list[i];
    assert v in Elems(list);
    AscendingDistinct(list);
    MissedStays(avail, list, i, |list|);
    assert list[..|list|] == list;
  }

  /** A failing version that is not found ends up both failed and available. */
  lemma {:induction false} MissingLoop(vs: Versions, avail: seq<nat>, failed: set<nat>, last: seq<nat>, ok: bool,
                                       e: Env)
    returns (v: nat)
    requires Distinct(avail) && !LoopFinds(vs, avail, e)
    ensures v in ListLoop(vs, avail, failed, last, ok, e).avail && v in ListLoop(vs, avail, failed, last, ok, e).failed
    decreases |Elems(avail) - vs.Keys|
  {
    var start := Starts(vs, Elems(avail), e);
    var bad := Failing(start, e);
    ServedMonotone(e.config.policy, Elems(avail), Elems(avail));
    assert bad <= start <= Elems(avail);
    AddedKeeps(vs, start, e);
    hide Starts, Reloads, Added, Failing, Served, FindsEach, Removed, Ascending;
    var list := Ordered(bad);
    var rest := Removed(avail, list);
    RemovedKeeps(avail, list);
    FewerToTry(vs, Elems(avail), e, Elems(rest));
    if FindsEach(avail, list) {
      v := MissingLoop(Added(vs, start, e), rest, failed + bad, list, false, e);
    } else {
      v := MissedOne(avail, list);
      assert v in Elems(list);
      LoopKeeps(Added(vs, start, e), rest, failed + bad, list, false, e, v);
    }
  }

  /**
    The loop on the list is the loop on sets exactly when every failing version it tries is found.
   */
  lemma LoopExactly(vs: Versions, avail: seq<nat>, e: Env)
    requires Distinct(avail)
    ensures AsSets(ListLoop(vs, avail, {}, [], true, e)) == StartLoop(vs, Elems(avail), {}, true, e)
            <==> LoopFinds(vs, avail, e)
  {
    if LoopFinds(vs, avail, e) {
      FindingLoop(vs, avail, {}, [], true, e);
    } else {
      var v := MissingLoop(vs, avail, {}, [], true, e);
      PassFinishes(vs, Elems(avail), e);
      hide StartLoop, ListLoop;
    }
  }

  lemma {:induction false} AscendingLoopFinds(vs: Versions, avail: seq<nat>, e: Env)
    requires Ascending(avail)
    ensures LoopFinds(vs, avail, e)
    decreases |Elems(avail) - vs.Keys|
  {
    var start := Starts(vs, Elems(avail), e);
    var bad := Failing(start, e);
    ServedMonotone(e.config.policy, Elems(avail), Elems(avail));
    assert bad <= start <= Elems(avail);
    hide Starts, Reloads, Added, Failing, Served;
    if start != {} && bad != {} {
      var rest := Removed(avail, Ordered(bad));
      RemovedKeeps(avail, Ordered(bad));
      FewerToTry(vs, Elems(avail), e, Elems(rest));
      AscendingDistinct(Ordered(bad));
      AscendingFindsEach(avail, Ordered(bad));
      AscendingLoopFinds(Added(vs, start, e), rest, e);
    }
  }

  // ----- the whole pass -----

  /** The versions left on the list after the reloads. */
  ghost function LeftAfter(l: ListStarted, e: Env): seq<nat> {
    Removed(l.avail, l.last + Ordered(Failing(l.reload, e)))
  }

  ghost function ListFinish(l: ListStarted, e: Env): Versions {
    var vs := Reloaded(l.vs, l.reload, e);
    var all := l.failed + Failing(l.reload, e);
    var retire := Retires(vs, Elems(LeftAfter(l, e)), e);
    Dropped(Dropped(vs, retire - all, true), retire * all, false)
  }

  ghost function ListReconcile(vs: Versions, avail: seq<nat>, e: Env): Versions {
    ListFinish(ListLoop(vs, avail, {}, [], true, e), e)
  }

  ghost function ListOutcome(vs: Versions, avail: seq<nat>, e: Env): Outcome {
    var l := ListLoop(vs, avail, {}, [], true, e);
    if !l.ok || Failing(l.reload, e) != {} then Failure
    else if Quiet(vs, Elems(avail), e) then OK else OKReloaded
  }

  /** Every version whose reload fails comes off the list. */
  ghost predicate ReloadsRemoved(vs: Versions, avail: seq<nat>, e: Env) {
    var l := ListLoop(vs, avail, {}, [], true, e);
    Failing(l.reload, e) !! Elems(LeftAfter(l, e))
  }

  lemma {:induction false} LoopList(vs: Versions, avail: seq<nat>, failed: set<nat>, last: seq<nat>, ok: bool, e: Env)
    requires Elems(last) <= failed
    ensures var l := ListLoop(vs, avail, failed, last, ok, e);
            && Elems(l.last) <= l.failed
            && (Ascending(avail) ==> Ascending(l.avail))
    decreases |Elems(avail) - vs.Keys|
  {
    var start := Starts(vs, Elems(avail), e);
    var bad := Failing(start, e);
    hide Starts, Reloads, Added, Failing;
    if start != {} && bad != {} {
      var rest := Removed(avail, Ordered(bad));
      RemovedKeeps(avail, Ordered(bad));
      FewerToTry(vs, Elems(avail), e, Elems(rest));
      LoopList(Added(vs, start, e), rest, failed + bad, Ordered(bad), false, e);
    }
  }

  lemma {:induction false} AscendingRemoved(avail: seq<nat>, failed: seq<nat>)
    requires Ascending(avail)
    ensures Elems(Removed(avail, failed)) == Elems(avail) - Elems(failed)
  {
    if failed != [] {
      var k := |failed| - 1;
      AscendingRemoved(avail, failed[..k]);
      var r := Removed(avail, failed[..k]);
      RemovedKeeps(avail, failed[..k]);
      FoundIsMember(r, failed[k]);
      WithoutCorrect(r, failed[k]);
      ElemsLast(failed);
      assert failed[k] in r <==> failed[k] in Elems(r);
    }
  }

  /** On an ascending list the pass is the set-level one. */
  lemma AscendingReconciles(vs: Versions, avail: seq<nat>, e: Env)
    requires Ascending(avail)
    ensures ListReconcile(vs, avail, e) == Reconcile(vs, Elems(avail), e)
    ensures ListOutcome(vs, avail, e) == OutcomeOf(vs, Elems(avail), e)
    ensures ReloadsRemoved(vs, avail, e)
  {
    var l, s := ListLoop(vs, avail, {}, [], true, e), StartLoop(vs, Elems(avail), {}, true, e);
    AscendingLoopFinds(vs, avail, e);
    FindingLoop(vs, avail, {}, [], true, e);
    LoopList(vs, avail, {}, [], true, e);
    PassFinishes(vs, Elems(avail), e);
    hide ListLoop, StartLoop, LoopFinds;
    var bad := Failing(l.reload, e);
    AscendingRemoved(l.avail, l.last + Ordered(bad));
    ElemsConcat(l.last, Ordered(bad));
    assert Elems(l.avail) == s.avail && s.avail !! s.failed && Elems(l.last) <= s.failed;
    hide Removed, Finished, Tracked, Ascending, Finish, ListFinish, Failing;
    assert Elems(LeftAfter(l, e)) == s.avail - bad;
    SameFinish(l, s, e);
  }

  lemma SameFinish(l: ListStarted, s: Started, e: Env)
    requires AsSets(l) == s && Elems(LeftAfter(l, e)) == s.avail - Failing(s.reload, e)
    ensures ListFinish(l, e) == Finish(s, e)
  {
    hide Retires, Dropped, Reloaded, Failing, LeftAfter;
  }

  lemma ElemsConcat(a: seq<nat>, b: seq<nat>)
    ensures Elems(a + b) == Elems(a) + Elems(b)
  {
  }

  // ----- directories named "10" and "9" -----

  lemma LoopEnds(vs: Versions, avail: seq<nat>, failed: set<nat>, last: seq<nat>, ok: bool, e: Env)
    requires Starts(vs, Elems(avail), e) == {}
    ensures ListLoop(vs, avail, failed, last, ok, e)
            == ListStarted(vs, avail, failed, last, Reloads(vs, Elems(avail), e), ok)
  {
  }

  lemma LoopRetries(vs: Versions, avail: seq<nat>, failed: set<nat>, last: seq<nat>, ok: bool, e: Env, bad: set<nat>)
    requires Starts(vs, Elems(avail), e) != {} && bad == Failing(Starts(vs, Elems(avail), e), e) != {}
    ensures ListLoop(vs, avail, failed, last, ok, e)
            == ListLoop(Added(vs, Starts(vs, Elems(avail), e), e), Removed(avail, Ordered(bad)), failed + bad,
                        Ordered(bad), false, e)
  {
  }

  lemma OneServed(e: Env)
    requires e.config.policy == Latest(1)
    ensures Served(Latest(1), {9, 10}) == {10} && Served(Latest(1), {9}) == {9}
  {
    var s: set<nat> := {9, 10};
    assert Above(s, 9) == {10} && Above(s, 10) == {} && Above({9}, 9) == {};
  }

  /**
    They are listed in that order.  When the policy asks for the latest version and only 9 loads, 10 is searched
    for in vain: it stays on the list, 9 is never tried, and the pass ends with nothing available.
   */
  lemma NameOrderStrandsFallback(e: Env)
    requires e.config.policy == Latest(1) && e.blacklist == {} && e.loads(9) && !e.loads(10)
    ensures AvailableSet(ListReconcile(map[], [10, 9], e)) == {} && ListOutcome(map[], [10, 9], e) == Failure
    ensures Served(e.config.policy, Loadable(map[], Elems([10, 9]), e)) == {9}
  {
    var none: Versions := map[];
    var vs: Versions, list: seq<nat>, ten: set<nat> := map[10 := LoadedAs(e, 10)], [10, 9], {10};
    StrandedLoop(none, vs, list, ten, e);
    StrandedFinish(vs, e, ListStarted(vs, list, ten, [10], ten, false));
    OneServed(e);
    assert Loadable(none, {9, 10}, e) == {9};
    hide ListLoop, ListFinish, Served, AvailableSet;
  }

  lemma StrandedLoop(none: Versions, vs: Versions, list: seq<nat>, ten: set<nat>, e: Env)
    requires e.config.policy == Latest(1) && e.blacklist == {} && !e.loads(10)
    requires none == map[] && vs == map[10 := LoadedAs(e, 10)] && list == [10, 9] && ten == {10}
    ensures Elems(list) == {9, 10}
            && ListLoop(none, list, {}, [], true, e) == ListStarted(vs, list, ten, [10], ten, false)
    ensures Failing(ten, e) == ten
  {
    StrandedStart(none, list, ten, e);
    StrandedDiff(vs, list, ten, e);
    hide Starts, Reloads, Added, Removed, Failing, Served, LoadedAs, ListLoop;
    LoopRetries(none, list, {}, [], true, e, ten);
    assert {} + ten == ten;
    LoopEnds(vs, list, ten, [10], false, e);
  }

  lemma StrandedStart(none: Versions, list: seq<nat>, ten: set<nat>, e: Env)
    requires e.config.policy == Latest(1) && e.blacklist == {} && !e.loads(10)
    requires none == map[] && list == [10, 9] && ten == {10}
    ensures Elems(list) == {9, 10} && Ordered(ten) == [10] && Removed(list, [10]) == list
    ensures Starts(none, Elems(list), e) == ten && Failing(ten, e) == ten
    ensures Added(none, ten, e) == map[10 := LoadedAs(e, 10)]
  {
    OneServed(e);
    assert Elems(list) == {9, 10};
    AscendingUnique(Ordered(ten), [10]);
    NameOrderHidesVersion();
    assert [10][..0] == [];
  }

  lemma StrandedDiff(vs: Versions, list: seq<nat>, ten: set<nat>, e: Env)
    requires e.config.policy == Latest(1) && e.blacklist == {} && !e.loads(10) && vs == map[10 := LoadedAs(e, 10)]
    requires list == [10, 9] && ten == {10}
    ensures Starts(vs, Elems(list), e) == {} && Reloads(vs, Elems(list), e) == ten && Retires(vs, Elems(list), e) == {}
  {
    OneServed(e);
    assert Elems(list) == {9, 10};
    hide Served;
    assert Wanted(ten, vs, {}) == ten;
    assert NeedsReload(vs[10], e.config);
  }

  lemma StrandedFinish(vs: Versions, e: Env, l: ListStarted)
    requires e.config.policy == Latest(1) && e.blacklist == {} && !e.loads(10)
    requires vs == map[10 := LoadedAs(e, 10)] && l == ListStarted(vs, [10, 9], {10}, [10], {10}, false)
    ensures AvailableSet(ListFinish(l, e)) == {}
  {
    StrandedStart(map[], l.avail, l.reload, e);
    StrandedDiff(vs, l.avail, l.reload, e);
    RemovedTwice(l.avail, [10]);
    FailedUnavailable(vs, l.reload, e);
    hide Served, Retires, Removed, Reloaded, Starts, Reloads, Added, Failing, ListFinish, LoadedAs, AvailableSet;
    assert l.last + [10] == [10] + [10];
    assert LeftAfter(l, e) == l.avail;
    NothingRetired(l, e);
  }

  lemma FailedUnavailable(vs: Versions, ten: set<nat>, e: Env)
    requires vs == map[10 := LoadedAs(e, 10)] && ten == {10} && !e.loads(10)
    ensures Reloaded(vs, ten, e) == vs && AvailableSet(vs) == {}
  {
  }

  lemma NothingRetired(l: ListStarted, e: Env)
    requires Retires(Reloaded(l.vs, l.reload, e), Elems(LeftAfter(l, e)), e) == {}
    ensures ListFinish(l, e) == Reloaded(l.vs, l.reload, e)
  {
    var vs := Reloaded(l.vs, l.reload, e);
    hide Retires, Reloaded, LeftAfter;
    assert Dropped(Dropped(vs, {}, true), {}, false) == vs;
  }

  /** Searching again for what was not found does not find it either. */
  lemma RemovedTwice(avail: seq<nat>, failed: seq<nat>)
    requires |failed| == 1 && Removed(avail, failed) == avail
    ensures Removed(avail, failed + failed) == avail
  {
    var twice := failed + failed;
    assert twice[..1] == failed && failed[..0] == [];
  }
}
