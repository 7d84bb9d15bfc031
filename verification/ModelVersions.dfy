/**
  The versions of a model as an object (src/model.cpp:83-285) and the manager's pass over it
  (src/modelmanager.cpp:997-1089), proved against the set algebra of the pass.
 */
module ModelVersions {
  import L = InstanceLifecycle
  import opened Collections
  import opened Integers
  import opened VersionPolicy
  import opened ModelConfigs
  import opened VersionDiff
  import opened Reconciliation
  import opened VersionLists

  // ----- the default version -----

  /** `d` is the highest available version other than `ignored`, or 0 when there is none. */
  ghost predicate IsDefault(d: nat, vs: Versions, ignored: int) {
    && (d == 0 || (d in vs && d != ignored && Available(vs[d])))
    && forall v :: v in vs && v > 0 && v != ignored && Available(vs[v]) ==> v <= d
  }

  ghost predicate DefaultRight(d: nat, vs: Versions) {
    IsDefault(d, vs, 0)
  }

  /** Taking out one version after choosing a default that ignores it leaves the default right. */
  lemma DropKeepsDefault(d: nat, vs: Versions, v: nat, retired: bool)
    requires v in vs && ToInt(v) == v && IsDefault(d, vs, v)
    ensures DefaultRight(d, Dropped(vs, {v}, retired))
  {
  }

  /**
    The parameter is an `int`, so a version beyond its range is ignored under another number.  The default is
    right afterwards exactly when the number is the version's own, or the highest available version before was
    neither the version nor that number.
   */
  lemma DefaultAfterDropExactly(before: nat, d: nat, vs: Versions, v: nat, retired: bool)
    requires v in vs && v > 0 && DefaultRight(before, vs) && IsDefault(d, vs, ToInt(v))
    ensures DefaultRight(d, Dropped(vs, {v}, retired))
            <==> ToInt(v) == v || before == 0 || (before != v && before != ToInt(v))
  {
    var after := Dropped(vs, {v}, retired);
    if ToInt(v) == v {
      DropKeepsDefault(d, vs, v, retired);
    } else if before == v {
      assert d == v;
    } else if before == ToInt(v) && before != 0 {
      assert before in after && Available(after[before]);
      assert d != before;
    } else {
      assert d == before;
    }
  }

  /** Such a version exists: retiring it leaves the model pointing at a version that has ended. */
  lemma DefaultStaleBeyondInt(vs: Versions, i: Instance)
    requires vs == map[0x8000_0000 := i] && Available(i)
    ensures IsDefault(0x8000_0000, vs, ToInt(0x8000_0000))
    ensures !DefaultRight(0x8000_0000, Dropped(vs, {0x8000_0000}, true))
  {
    assert ToInt(0x8000_0000) == -0x8000_0000;
  }

  // ----- the default version while versions are reloaded -----

  /**
    What the default is chosen from while `done` has been reloaded, lowest first: a failed reload does not
    look at the default, so a version that failed last is still there as it was before.
   */
  ghost predicate InPlay(vs: Versions, done: set<nat>, e: Env, w: nat) {
    && w in vs
    && if w !in done then Available(vs[w])
       else e.loads(w) || (Available(vs[w]) && forall u :: u in done && u > w ==> !e.loads(u))
  }

  ghost predicate IsTop(d: nat, vs: Versions, done: set<nat>, e: Env) {
    && (d == 0 || InPlay(vs, done, e, d))
    && forall w :: w > 0 && InPlay(vs, done, e, w) ==> w <= d
  }

  lemma TopAtFirst(d: nat, vs: Versions, e: Env)
    requires DefaultRight(d, vs)
    ensures IsTop(d, vs, {}, e)
  {
  }

  lemma TopAfterFailure(d: nat, vs: Versions, done: set<nat>, e: Env, v: nat)
    requires IsTop(d, vs, done, e) && v !in done && !e.loads(v) && forall u :: u in done ==> u < v
    ensures IsTop(d, vs, done + {v}, e)
  {
    forall w ensures InPlay(vs, done + {v}, e, w) <==> InPlay(vs, done, e, w) {
    }
  }

  lemma TopAfterSuccess(d: nat, vs: Versions, done: set<nat>, e: Env, v: nat)
    requires v in vs && e.loads(v) && v !in done && done <= vs.Keys && forall u :: u in done ==> u < v
    requires DefaultRight(d, Reloaded(vs, done + {v}, e))
    ensures IsTop(d, vs, done + {v}, e)
  {
    var now := Reloaded(vs, done + {v}, e);
    forall w ensures InPlay(vs, done + {v}, e, w) <==> w in now && Available(now[w]) {
      if w in done {
        assert v in done + {v} && v > w;
      }
    }
  }

  lemma TopAfterOne(d: nat, after: nat, vs: Versions, done: set<nat>, e: Env, v: nat)
    requires IsTop(d, vs, done, e) && v in vs && v !in done && done <= vs.Keys && forall u :: u in done ==> u < v
    requires if e.loads(v) then DefaultRight(after, Reloaded(vs, done + {v}, e)) else after == d
    ensures IsTop(after, vs, done + {v}, e)
  {
    if e.loads(v) {
      TopAfterSuccess(after, vs, done, e, v);
    } else {
      TopAfterFailure(d, vs, done, e, v);
    }
  }

  /** The highest version that was available or has been reloaded well is one whose reload failed. */
  ghost predicate TopFails(vs: Versions, reload: set<nat>, e: Env, v: nat) {
    && v > 0 && v in Failing(reload, e) && v in vs && Available(vs[v])
    && forall w :: w in vs && (Available(vs[w]) || (w in reload && e.loads(w))) ==> w <= v
  }

  ghost predicate DefaultFails(vs: Versions, reload: set<nat>, e: Env) {
    exists v: nat :: TopFails(vs, reload, e, v)
  }

  /** After the reloads the default is right unless the top version failed. */
  lemma TopIsDefaultExactly(d: nat, vs: Versions, reload: set<nat>, e: Env)
    requires IsTop(d, vs, reload, e) && reload <= vs.Keys
    ensures DefaultRight(d, Reloaded(vs, reload, e)) <==> !DefaultFails(vs, reload, e)
  {
    var now := Reloaded(vs, reload, e);
    forall w | w in now && Available(now[w]) ensures InPlay(vs, reload, e, w) {
    }
    if DefaultFails(vs, reload, e) {
      var v: nat :| TopFails(vs, reload, e, v);
      assert InPlay(vs, reload, e, v);
      assert d == v && !Available(now[v]);
    } else if d > 0 && !Available(now[d]) {
      forall w | w in vs && (Available(vs[w]) || (w in reload && e.loads(w))) ensures w <= d {
        if !InPlay(vs, reload, e, w) {
          var u :| u in reload && u > w && e.loads(u);
          assert InPlay(vs, reload, e, u);
        }
      }
      assert TopFails(vs, reload, e, d);
    }
  }

  /** Those of a list that do not load, in its order. */
  function FailingOf(list: seq<nat>, e: Env): seq<nat> {
    if list == [] then []
    else
      var k := |list| - 1;
      FailingOf(list[..k], e) + if e.loads(list[k]) then [] else [list[k]]
  }

  lemma FailingStep(list: seq<nat>, i: nat, e: Env)
    requires i < |list|
    ensures FailingOf(list[..i + 1], e) == FailingOf(list[..i], e) + if e.loads(list[i]) then [] else [list[i]]
  {
    assert list[..i + 1][..i] == list[..i];
  }

  lemma {:induction false} FailingOfElems(list: seq<nat>, e: Env)
    ensures Elems(FailingOf(list, e)) == Failing(Elems(list), e)
  {
    if list != [] {
      var k := |list| - 1;
      FailingOfElems(list[..k], e);
      ElemsLast(list);
      ElemsConcat(FailingOf(list[..k], e), if e.loads(list[k]) then [] else [list[k]]);
    }
  }

  lemma {:induction false} FailingOfOrdered(list: seq<nat>, e: Env)
    requires Ascending(list)
    ensures FailingOf(list, e) == Ordered(Failing(Elems(list), e))
  {
    FailingOfAscending(list, e);
    FailingOfElems(list, e);
    AscendingUnique(FailingOf(list, e), Ordered(Failing(Elems(list), e)));
  }

  lemma {:induction false} FailingOfAscending(list: seq<nat>, e: Env)
    requires Ascending(list)
    ensures Ascending(FailingOf(list, e))
  {
    if list != [] {
      var k := |list| - 1;
      FailingOfAscending(list[..k], e);
      FailingOfElems(list[..k], e);
      var init := FailingOf(list[..k], e);
      forall i | 0 <= i < |init| ensures init[i] < list[k] {
        assert init[i] in Elems(init);
        assert init[i] in Elems(list[..k]);
      }
    }
  }

  class Model {
    var modelVersions: Versions
    var defaultVersion: nat

    constructor ()
      ensures modelVersions == map[] && defaultVersion == 0 && DefaultRight(defaultVersion, modelVersions)
    {
      modelVersions, defaultVersion := map[], 0;
    }

    method UpdateDefaultVersion(ignoredVersion: int)
      modifies this`defaultVersion
      ensures IsDefault(defaultVersion, modelVersions, ignoredVersion)
    {
      ghost var vs := modelVersions;
      var newDefault := 0;
      var pending := modelVersions.Keys;
      while pending != {}
        invariant pending <= modelVersions.Keys
        invariant newDefault == 0 || (newDefault in vs && newDefault != ignoredVersion && Available(vs[newDefault]))
        invariant forall v ::
                    v in vs && v !in pending && v > 0 && v != ignoredVersion && Available(vs[v]) ==> v <= newDefault
        decreases |pending|
      {
        var version :| version in pending;
        if version != ignoredVersion && version > newDefault && Available(modelVersions[version]) {
          newDefault := version;
        }
        pending := pending - {version};
      }
      defaultVersion := newDefault;
    }

    /** The version is registered before it is loaded, whatever the outcome. */
    method AddVersion(version: nat, e: Env) returns (ok: bool)
      modifies this
      ensures ok == e.loads(version)
      ensures modelVersions == Added(old(modelVersions), {version}, e)
      ensures ok ==> DefaultRight(defaultVersion, modelVersions)
      ensures !ok ==> defaultVersion == old(defaultVersion)
    {
      if version !in modelVersions {
        modelVersions := modelVersions[version := LoadedAs(e, version)];
      }
      assert modelVersions == Added(old(modelVersions), {version}, e);
      if !e.loads(version) {
        return false;
      }
      UpdateDefaultVersion(0);
      return true;
    }

    method AddVersions(start: seq<nat>, e: Env) returns (ok: bool, failed: seq<nat>)
      requires forall v :: v in start ==> v !in modelVersions
      modifies this
      ensures modelVersions == Added(old(modelVersions), Elems(start), e)
      ensures failed == FailingOf(start, e) && (ok <==> failed == [])
      ensures DefaultRight(old(defaultVersion), old(modelVersions)) ==> DefaultRight(defaultVersion, modelVersions)
    {
      ok, failed := true, [];
      var i := 0;
      assert Added(modelVersions, Elems(start[..0]), e) == modelVersions;
      hide Added, DefaultRight, FailingOf;
      while i < |start|
        invariant 0 <= i <= |start|
        invariant modelVersions == Added(old(modelVersions), Elems(start[..i]), e)
        invariant failed == FailingOf(start[..i], e) && (ok <==> failed == [])
        invariant DefaultRight(old(defaultVersion), old(modelVersions)) ==> DefaultRight(defaultVersion, modelVersions)
      {
        var version := start[i];
        AddedStep(old(modelVersions), start, i, e);
        FailingStep(start, i, e);
        ghost var before, d := modelVersions, defaultVersion;
        var good := AddVersion(version, e);
        if !good {
          FailedLoadKeepsDefault(d, before, version, e);
          failed := failed + [version];
          ok := false;
        }
        i := i + 1;
      }
      assert start[..i] == start;
    }

    /** Only a success looks at the default. */
    method ReloadVersion(version: nat, e: Env) returns (ok: bool)
      modifies this
      ensures ok == e.loads(version)
      ensures modelVersions == old(modelVersions)[version := LoadedAs(e, version)]
      ensures if ok then DefaultRight(defaultVersion, modelVersions) else defaultVersion == old(defaultVersion)
    {
      modelVersions := modelVersions[version := LoadedAs(e, version)];
      if !e.loads(version) {
        return false;
      }
      UpdateDefaultVersion(0);
      return true;
    }

    method ReloadVersions(reload: seq<nat>, e: Env, failedBefore: seq<nat>) returns (ok: bool, failed: seq<nat>)
      requires forall v :: v in reload ==> v in modelVersions
      modifies this
      ensures modelVersions == Reloaded(old(modelVersions), Elems(reload), e)
      ensures failed == failedBefore + FailingOf(reload, e) && (ok <==> FailingOf(reload, e) == [])
      ensures Ascending(reload) && DefaultRight(old(defaultVersion), old(modelVersions)) ==>
                IsTop(defaultVersion, old(modelVersions), Elems(reload), e)
    {
      ok, failed := true, failedBefore;
      var i := 0;
      assert Elems(reload[..0]) == {} && Reloaded(modelVersions, {}, e) == modelVersions;
      if DefaultRight(defaultVersion, modelVersions) {
        TopAtFirst(defaultVersion, modelVersions, e);
      }
      assert Elems(reload) <= modelVersions.Keys;
      hide Reloaded, DefaultRight, FailingOf, LoadedAs, IsTop, Ascending, Elems;
      while i < |reload|
        invariant 0 <= i <= |reload|
        invariant modelVersions == Reloaded(old(modelVersions), Elems(reload[..i]), e)
        invariant failed == failedBefore + FailingOf(reload[..i], e) && (ok <==> FailingOf(reload[..i], e) == [])
        invariant Ascending(reload) && DefaultRight(old(defaultVersion), old(modelVersions)) ==>
                    IsTop(defaultVersion, old(modelVersions), Elems(reload[..i]), e)
      {
        var version := reload[i];
        ReloadedStep(old(modelVersions), reload, i, e);
        FailingStep(reload, i, e);
        ghost var done := Elems(reload[..i]);
        ElemsUpTo(reload, i);
        ghost var d := defaultVersion;
        var good := ReloadVersion(version, e);
        if !good {
          failed := failed + [version];
          ok := false;
        }
        if Ascending(reload) && DefaultRight(old(defaultVersion), old(modelVersions)) {
          TopAfterOne(d, defaultVersion, old(modelVersions), done, e, version);
        }
        i := i + 1;
      }
      assert reload[..i] == reload;
    }

    /** `retireVersions` and, with `retired` false, `cleanupFailedLoad`. */
    method DropVersions(gone: seq<nat>, retired: bool)
      requires forall v :: v in gone ==> v in modelVersions
      modifies this
      ensures modelVersions == Dropped(old(modelVersions), Elems(gone), retired)
      ensures gone == [] ==> defaultVersion == old(defaultVersion)
      ensures gone != [] && (forall v :: v in gone ==> ToInt(v) == v) ==> DefaultRight(defaultVersion, modelVersions)
    {
      var i := 0;
      assert Dropped(modelVersions, Elems(gone[..0]), retired) == modelVersions;
      while i < |gone|
        invariant 0 <= i <= |gone|
        invariant modelVersions == Dropped(old(modelVersions), Elems(gone[..i]), retired)
        invariant i == 0 ==> defaultVersion == old(defaultVersion)
        invariant i > 0 && (forall v :: v in gone ==> ToInt(v) == v) ==> DefaultRight(defaultVersion, modelVersions)
      {
        var version := gone[i];
        DroppedStep(old(modelVersions), gone, i, retired);
        UpdateDefaultVersion(ToInt(version));
        if ToInt(version) == version {
          DropKeepsDefault(defaultVersion, modelVersions, version, retired);
        }
        modelVersions := Dropped(modelVersions, {version}, retired);
        i := i + 1;
      }
      assert gone[..i] == gone;
    }

    method RetireAllVersions()
      modifies this
      ensures modelVersions == Dropped(old(modelVersions), old(modelVersions).Keys, true)
      ensures DefaultRight(old(defaultVersion), old(modelVersions)) ==> defaultVersion == 0
    {
      var pending := modelVersions.Keys;
      ghost var all := modelVersions.Keys;
      assert Dropped(modelVersions, all - pending, true) == modelVersions;
      while pending != {}
        invariant pending <= all && modelVersions == Dropped(old(modelVersions), all - pending, true)
        invariant DefaultRight(old(defaultVersion), old(modelVersions)) ==> DefaultRight(defaultVersion, modelVersions)
        decreases |pending|
      {
        var version :| version in pending;
        DroppedUnion(old(modelVersions), all - pending, {version}, true);
        assert all - pending + {version} == all - (pending - {version});
        modelVersions := Dropped(modelVersions, {version}, true);
        UpdateDefaultVersion(0);
        pending := pending - {version};
      }
      assert all - {} == all;
    }
  }

  lemma ElemsUpTo(list: seq<nat>, i: nat)
    requires i < |list|
    ensures Elems(list[..i + 1]) == Elems(list[..i]) + {list[i]} && Elems(list[..i]) <= Elems(list)
    ensures Ascending(list) ==> list[i] !in Elems(list[..i]) && forall u :: u in Elems(list[..i]) ==> u < list[i]
  {
    ElemsNext(list, i);
  }

  lemma AddedStep(vs: Versions, start: seq<nat>, i: nat, e: Env)
    requires i < |start|
    ensures Added(Added(vs, Elems(start[..i]), e), {start[i]}, e) == Added(vs, Elems(start[..i + 1]), e)
  {
    assert start[..i + 1] == start[..i] + [start[i]];
    assert Elems(start[..i + 1]) == Elems(start[..i]) + {start[i]};
  }

  lemma FailedLoadKeepsDefault(d: nat, vs: Versions, v: nat, e: Env)
    requires !e.loads(v)
    ensures DefaultRight(d, vs) ==> DefaultRight(d, Added(vs, {v}, e))
  {
  }

  lemma ReloadedStep(vs: Versions, reload: seq<nat>, i: nat, e: Env)
    requires i < |reload| && reload[i] in vs
    ensures Reloaded(vs, Elems(reload[..i]), e)[reload[i] := LoadedAs(e, reload[i])]
              == Reloaded(vs, Elems(reload[..i + 1]), e)
  {
    assert reload[..i + 1] == reload[..i] + [reload[i]];
    assert Elems(reload[..i + 1]) == Elems(reload[..i]) + {reload[i]};
  }

  lemma DroppedUnion(vs: Versions, a: set<nat>, b: set<nat>, retired: bool)
    ensures Dropped(Dropped(vs, a, retired), b, retired) == Dropped(vs, a + b, retired)
  {
  }

  lemma DroppedStep(vs: Versions, gone: seq<nat>, i: nat, retired: bool)
    requires i < |gone|
    ensures Dropped(Dropped(vs, Elems(gone[..i]), retired), {gone[i]}, retired)
              == Dropped(vs, Elems(gone[..i + 1]), retired)
  {
    assert gone[..i + 1] == gone[..i] + [gone[i]];
    assert Elems(gone[..i + 1]) == Elems(gone[..i]) + {gone[i]};
    DroppedUnion(vs, Elems(gone[..i]), {gone[i]}, retired);
  }

  // ----- the manager's pass -----

  /** Lines 1031-1037 and 1052-1058. */
  method RemoveFailed(available: seq<nat>, failed: seq<nat>) returns (r: seq<nat>)
    ensures r == Removed(available, failed)
  {
    r := available;
    var i := 0;
    while i < |failed|
      invariant 0 <= i <= |failed|
      invariant r == Removed(available, failed[..i])
    {
      assert failed[..i + 1][..i] == failed[..i];
      var found := BinarySearch(r, failed[i]);
      if found {
        r := Without(r, failed[i]);
      }
      i := i + 1;
    }
    assert failed[..i] == failed;
  }

  /** Lines 1062-1064. */
  method SplitFailed(retire: seq<nat>, failed: set<nat>) returns (rest: seq<nat>, cleanup: seq<nat>)
    ensures Elems(rest) == Elems(retire) - failed && Elems(cleanup) == Elems(retire) * failed
  {
    rest, cleanup := [], [];
    var i := 0;
    while i < |retire|
      invariant 0 <= i <= |retire|
      invariant Elems(rest) == Elems(retire[..i]) - failed && Elems(cleanup) == Elems(retire[..i]) * failed
    {
      assert retire[..i + 1] == retire[..i] + [retire[i]];
      assert Elems(retire[..i + 1]) == Elems(retire[..i]) + {retire[i]};
      if retire[i] in failed {
        assert Elems(cleanup + [retire[i]]) == Elems(cleanup) + {retire[i]};
        cleanup := cleanup + [retire[i]];
      } else {
        assert Elems(rest + [retire[i]]) == Elems(rest) + {retire[i]};
        rest := rest + [retire[i]];
      }
      i := i + 1;
    }
    assert retire[..i] == retire;
  }

  /** The policy's choice and the diff against the registered versions. */
  method Diff(model: Model, available: seq<nat>, e: Env) returns (start: seq<nat>, reload: seq<nat>, retire: seq<nat>)
    requires Distinct(available)
    ensures Ascending(start) && Ascending(reload)
    ensures Elems(start) == Starts(model.modelVersions, Elems(available), e)
    ensures Elems(reload) == Reloads(model.modelVersions, Elems(available), e)
    ensures Elems(retire) == Retires(model.modelVersions, Elems(available), e)
  {
    var requested := Filter(e.config.policy, available);
    start, reload, retire := GetVersionsToChange(e.config, model.modelVersions, requested, e.blacklist);
  }

  lemma StartsAreNew(vs: Versions, avail: set<nat>, e: Env, start: seq<nat>, reload: seq<nat>)
    requires Elems(start) == Starts(vs, avail, e) && Elems(reload) == Reloads(vs, avail, e)
    ensures forall v :: v in start ==> v !in vs
    ensures forall v :: v in reload ==> v in vs
  {
    assert forall v :: v in start ==> v in Elems(start);
    assert forall v :: v in reload ==> v in Elems(reload);
  }

  /**
    Lines 1021-1043.  The loop ends for any distinct available versions: each failing round registers what it
    tried, found by the search or not.
   */
  method StartPhase(model: Model, available: seq<nat>, e: Env)
    returns (avail: seq<nat>, reload: seq<nat>, failed: seq<nat>, allFailed: set<nat>, ok: bool, reloadNeeded: bool)
    requires Distinct(available)
    modifies model
    ensures Distinct(avail) && Ascending(reload) && forall v :: v in reload ==> v in model.modelVersions
    ensures reloadNeeded <==> !Quiet(old(model.modelVersions), Elems(available), e)
    ensures ListLoop(old(model.modelVersions), available, {}, [], true, e)
            == ListStarted(model.modelVersions, avail, allFailed, failed, Elems(reload), ok)
    ensures DefaultRight(old(model.defaultVersion), old(model.modelVersions)) ==>
              DefaultRight(model.defaultVersion, model.modelVersions)
  {
    hide Starts, Reloads, Retires, Added, Failing, DefaultRight, Removed;
    avail, failed, allFailed, ok := available, [], {}, true;
    var start, retire;
    start, reload, retire := Diff(model, avail, e);
    EmptyElems(start);
    EmptyElems(reload);
    EmptyElems(retire);
    reloadNeeded := |start| > 0 || |reload| > 0 || |retire| > 0;
    while |start| > 0
      invariant Distinct(avail) && Ascending(start) && Ascending(reload)
      invariant Elems(start) == Starts(model.modelVersions, Elems(avail), e)
      invariant Elems(reload) == Reloads(model.modelVersions, Elems(avail), e)
      invariant ListLoop(old(model.modelVersions), available, {}, [], true, e)
                == ListLoop(model.modelVersions, avail, allFailed, failed, ok, e)
      invariant DefaultRight(old(model.defaultVersion), old(model.modelVersions)) ==>
                  DefaultRight(model.defaultVersion, model.modelVersions)
      decreases |Elems(avail) - model.modelVersions.Keys|
    {
      ghost var vs, tried := model.modelVersions, Elems(avail);
      EmptyElems(start);
      StartsAreNew(vs, tried, e, start, reload);
      ok, failed := model.AddVersions(start, e);
      EmptyElems(failed);
      FailingOfOrdered(start, e);
      AddedKeeps(vs, Elems(start), e);
      if ok {
        break;
      }
      RemovedKeeps(avail, failed);
      avail := RemoveFailed(avail, failed);
      FewerToTry(vs, tried, e, Elems(avail));
      allFailed := allFailed + Elems(failed);
      start, reload, retire := Diff(model, avail, e);
    }
    EmptyElems(start);
    if start == [] {
      StartsAreNew(model.modelVersions, Elems(avail), e, start, reload);
    }
  }

  /** A failed reload that has come off the list is cleaned up, which corrects the default. */
  lemma FailedReloadsAreCleanedUp(l: ListStarted, e: Env)
    requires l.reload <= l.vs.Keys && Failing(l.reload, e) !! Elems(LeftAfter(l, e))
    ensures Failing(l.reload, e)
            <= Retires(Reloaded(l.vs, l.reload, e), Elems(LeftAfter(l, e)), e) * (l.failed + Failing(l.reload, e))
  {
    ServedMonotone(e.config.policy, Elems(LeftAfter(l, e)), Elems(LeftAfter(l, e)));
    hide Served, LeftAfter;
  }

  lemma NothingFails(e: Env)
    ensures Failing({}, e) == {} && Ordered({}) == []
  {
    EmptyElems(Ordered({}));
  }

  lemma DroppedNothing(vs: Versions, retired: bool)
    ensures Dropped(vs, {}, retired) == vs
  {
  }

  lemma DroppedKeys(vs: Versions, gone: set<nat>, retired: bool)
    ensures Dropped(vs, gone, retired).Keys == vs.Keys
  {
  }

  lemma DiffRegistered(vs: Versions, avail: set<nat>, e: Env, retire: seq<nat>, rest: seq<nat>, cleanup: seq<nat>)
    requires Elems(retire) == Retires(vs, avail, e) && Elems(rest) <= Elems(retire) && Elems(cleanup) <= Elems(retire)
    ensures forall v :: v in rest || v in cleanup ==> v in vs
  {
    forall v | v in rest || v in cleanup ensures v in vs {
      assert v in Elems(rest) || v in Elems(cleanup);
    }
  }

  /** Every version fits the `int` it is passed as. */
  ghost predicate FitInt(versions: set<nat>) {
    forall v :: v in versions ==> ToInt(v) == v
  }

  /** Some version is retired or cleaned up in the end, or the version that the default should be has not failed. */
  ghost predicate DefaultKept(l: ListStarted, e: Env) {
    Retires(Reloaded(l.vs, l.reload, e), Elems(LeftAfter(l, e)), e) != {} || !DefaultFails(l.vs, l.reload, e)
  }

  /** Lines 1045-1082. */
  method FinishPhase(model: Model, available: seq<nat>, reload: seq<nat>, failedBefore: seq<nat>, failedSoFar: set<nat>,
                     okSoFar: bool, e: Env, ghost l: ListStarted)
    returns (ok: bool)
    requires Distinct(available) && Elems(failedBefore) <= failedSoFar
    requires Ascending(reload) && forall v :: v in reload ==> v in model.modelVersions
    requires l == ListStarted(model.modelVersions, available, failedSoFar, failedBefore, Elems(reload), okSoFar)
    modifies model
    ensures model.modelVersions == ListFinish(l, e)
    ensures ok <==> okSoFar && Failing(Elems(reload), e) == {}
    ensures DefaultRight(old(model.defaultVersion), old(model.modelVersions))
            && FitInt(old(model.modelVersions).Keys) ==>
              (DefaultRight(model.defaultVersion, model.modelVersions) <==> DefaultKept(l, e))
  {
    hide Failing, DefaultRight, Reloads, Starts, Removed, Retires, IsTop, DefaultFails;
    ghost var right := DefaultRight(model.defaultVersion, model.modelVersions);
    var failed, allFailed, avail := failedBefore, failedSoFar, available;
    ok := okSoFar;
    ghost var bad := Failing(l.reload, e);
    assert Reloaded(model.modelVersions, {}, e) == model.modelVersions;
    EmptyElems(reload);
    NothingFails(e);
    FailingOfOrdered(reload, e);
    EmptyElems(FailingOf(reload, e));
    if right {
      TopAtFirst(model.defaultVersion, model.modelVersions, e);
    }
    if |reload| > 0 {
      var good;
      good, failed := model.ReloadVersions(reload, e, failed);
      ok := ok && good;
    }
    assert l.reload <= l.vs.Keys;
    if right {
      TopIsDefaultExactly(model.defaultVersion, l.vs, l.reload, e);
    }
    assert failed == l.last + Ordered(bad);
    RemovedKeeps(avail, failed);
    avail := RemoveFailed(avail, failed);
    assert avail == LeftAfter(l, e);
    ElemsConcat(l.last, Ordered(bad));
    allFailed := allFailed + Elems(failed);
    assert allFailed == l.failed + bad;
    var start, again, retire := Diff(model, avail, e);
    var rest, cleanup := SplitFailed(retire, allFailed);
    DiffRegistered(model.modelVersions, Elems(avail), e, retire, rest, cleanup);
    assert Elems(retire) == Elems(rest) + Elems(cleanup);
    ghost var vs := model.modelVersions;
    FinishInTwo(l, e, vs, Elems(rest), Elems(cleanup));
    hide Reloaded, Dropped, LeftAfter, ListFinish, Ascending;
    EmptyElems(rest);
    EmptyElems(cleanup);
    DroppedNothing(vs, true);
    if |rest| > 0 {
      model.DropVersions(rest, true);
    }
    assert model.modelVersions == Dropped(vs, Elems(rest), true);
    DroppedKeys(vs, Elems(rest), true);
    DroppedNothing(model.modelVersions, false);
    if |cleanup| > 0 {
      model.DropVersions(cleanup, false);
    }
  }

  lemma FinishInTwo(l: ListStarted, e: Env, vs: Versions, rest: set<nat>, cleanup: set<nat>)
    requires vs == Reloaded(l.vs, l.reload, e)
    requires rest == Retires(vs, Elems(LeftAfter(l, e)), e) - (l.failed + Failing(l.reload, e))
    requires cleanup == Retires(vs, Elems(LeftAfter(l, e)), e) * (l.failed + Failing(l.reload, e))
    ensures ListFinish(l, e) == Dropped(Dropped(vs, rest, true), cleanup, false)
    ensures vs.Keys == l.vs.Keys
  {
  }

  /** The loop registers available versions only. */
  lemma {:induction false} LoopRegisters(vs: Versions, avail: seq<nat>, failed: set<nat>, last: seq<nat>, ok: bool,
                                         e: Env)
    ensures ListLoop(vs, avail, failed, last, ok, e).vs.Keys <= vs.Keys + Elems(avail)
    decreases |Elems(avail) - vs.Keys|
  {
    var start := Starts(vs, Elems(avail), e);
    var bad := Failing(start, e);
    ServedMonotone(e.config.policy, Elems(avail), Elems(avail));
    assert start <= Elems(avail);
    AddedKeeps(vs, start, e);
    hide Starts, Reloads, Added, Failing, Served;
    if start != {} && bad != {} {
      var rest := Removed(avail, Ordered(bad));
      RemovedKeeps(avail, Ordered(bad));
      FewerToTry(vs, Elems(avail), e, Elems(rest));
      LoopRegisters(Added(vs, start, e), rest, failed + bad, Ordered(bad), false, e);
    }
  }

  lemma LoopReloads(vs: Versions, avail: seq<nat>, e: Env)
    ensures ListLoop(vs, avail, {}, [], true, e).reload <= ListLoop(vs, avail, {}, [], true, e).vs.Keys
  {
    LoopReloadsFrom(vs, avail, {}, [], true, e);
  }

  lemma {:induction false} LoopReloadsFrom(vs: Versions, avail: seq<nat>, failed: set<nat>, last: seq<nat>, ok: bool,
                                           e: Env)
    ensures ListLoop(vs, avail, failed, last, ok, e).reload <= ListLoop(vs, avail, failed, last, ok, e).vs.Keys
    decreases |Elems(avail) - vs.Keys|
  {
    var start := Starts(vs, Elems(avail), e);
    var bad := Failing(start, e);
    AddedKeeps(vs, start, e);
    assert Reloads(vs, Elems(avail), e) <= vs.Keys;
    hide Starts, Reloads, Added, Failing;
    if start != {} && bad != {} {
      var rest := Removed(avail, Ordered(bad));
      RemovedKeeps(avail, Ordered(bad));
      FewerToTry(vs, Elems(avail), e, Elems(rest));
      LoopReloadsFrom(Added(vs, start, e), rest, failed + bad, Ordered(bad), false, e);
    }
  }

  /** The default stays right when every version whose reload failed has come off the list, as on ascending lists. */
  lemma RemovedReloadsKeepDefault(vs: Versions, avail: seq<nat>, e: Env)
    requires ReloadsRemoved(vs, avail, e)
    ensures DefaultKept(ListLoop(vs, avail, {}, [], true, e), e)
  {
    var l := ListLoop(vs, avail, {}, [], true, e);
    LoopReloads(vs, avail, e);
    FailedReloadsAreCleanedUp(l, e);
    hide ListLoop, Retires, LeftAfter;
    if DefaultFails(l.vs, l.reload, e) {
      var v: nat :| TopFails(l.vs, l.reload, e, v);
      assert v in Failing(l.reload, e);
    }
  }

  /**
    Versions 9 and 10 are available and are reloaded with another configuration; 10 fails and is not found on the
    list 10, 9.  It is not cleaned up, and it remains the default.
   */
  lemma DefaultLeftOnFailed(vs: Versions, list: seq<nat>, e: Env, old9: ModelConfig, old10: ModelConfig)
    requires e.config.policy == All && e.blacklist == {} && e.loads(9) && !e.loads(10)
    requires list == [10, 9] && Essence(old9) != Essence(e.config) && Essence(old10) != Essence(e.config)
    requires vs == map[9 := Instance(L.Status(L.AVAILABLE, false), old9),
               10 := Instance(L.Status(L.AVAILABLE, false), old10)]
    ensures DefaultRight(10, vs)
    ensures !DefaultKept(ListLoop(vs, list, {}, [], true, e), e)
  {
    var both: set<nat> := {9, 10};
    assert Elems(list) == both;
    BothReloaded(vs, both, e, old9, old10);
    LeftInPlace(list, both, e);
    hide ListLoop, LeftAfter, Removed, Starts, Reloads, Failing, Retires, Reloaded, DefaultRight;
    LoopEnds(vs, list, {}, [], true, e);
    assert ListLoop(vs, list, {}, [], true, e) == ListStarted(vs, list, {}, [], both, true);
  }

  lemma BothReloaded(vs: Versions, both: set<nat>, e: Env, old9: ModelConfig, old10: ModelConfig)
    requires e.config.policy == All && e.blacklist == {} && e.loads(9) && !e.loads(10) && both == {9, 10}
    requires Essence(old9) != Essence(e.config) && Essence(old10) != Essence(e.config)
    requires vs == map[9 := Instance(L.Status(L.AVAILABLE, false), old9),
               10 := Instance(L.Status(L.AVAILABLE, false), old10)]
    ensures Starts(vs, both, e) == {} && Reloads(vs, both, e) == both
    ensures Retires(Reloaded(vs, both, e), both, e) == {}
    ensures DefaultRight(10, vs) && DefaultFails(vs, both, e)
  {
    hide Essence;
    assert vs.Keys == both;
    assert NeedsReload(vs[9], e.config) && NeedsReload(vs[10], e.config);
    assert TopFails(vs, both, e, 10);
  }

  lemma LeftInPlace(list: seq<nat>, both: set<nat>, e: Env)
    requires e.loads(9) && !e.loads(10) && list == [10, 9] && both == {9, 10}
    ensures Failing(both, e) == {10}
    ensures forall vs :: LeftAfter(ListStarted(vs, list, {}, [], both, true), e) == list
  {
    assert Failing(both, e) == {10};
    OneRemoved(list, 10);
    NameOrderHidesVersion();
    hide Removed, Failing, Found, LowerBound;
    assert [] + [10] == [10];
  }

  /** The manager's pass, for distinct available versions in any order. */
  method ReloadModelWithVersions(model: Model, available: seq<nat>, e: Env, loaderMissing: bool)
    returns (outcome: Outcome)
    requires Distinct(available)
    modifies model
    ensures loaderMissing ==>
              outcome == OK
                  && model.modelVersions == Dropped(old(model.modelVersions), old(model.modelVersions).Keys, true)
    ensures !loaderMissing ==>
              && model.modelVersions == ListReconcile(old(model.modelVersions), available, e)
              && outcome == ListOutcome(old(model.modelVersions), available, e)
    ensures DefaultRight(old(model.defaultVersion), old(model.modelVersions))
            && FitInt(old(model.modelVersions).Keys + Elems(available))
            ==>
              (DefaultRight(model.defaultVersion, model.modelVersions) <==>
                 loaderMissing || DefaultKept(ListLoop(old(model.modelVersions), available, {}, [], true, e), e))
  {
    if loaderMissing {
      model.RetireAllVersions();
      return OK;
    }
    hide ListLoop, ListFinish, DefaultRight;
    var avail, reload, failed, allFailed, ok, reloadNeeded := StartPhase(model, available, e);
    ghost var l := ListLoop(old(model.modelVersions), available, {}, [], true, e);
    LoopList(old(model.modelVersions), available, {}, [], true, e);
    LoopRegisters(old(model.modelVersions), available, {}, [], true, e);
    ok := FinishPhase(model, avail, reload, failed, allFailed, ok, e, l);
    outcome := if !ok then Failure else if reloadNeeded then OKReloaded else OK;
  }
}
