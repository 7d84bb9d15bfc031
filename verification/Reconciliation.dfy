/**
  One reconciliation pass of a model (src/modelmanager.cpp:997-1089), as set algebra over its registered
  versions.  Whether a version loads is an arbitrary but fixed predicate.
 */
module Reconciliation {
  import opened Collections
  import opened VersionPolicy
  import opened ModelConfigs
  import opened VersionDiff
  import L = InstanceLifecycle

  /** What one pass is given: configuration, the custom loader's blacklist and which versions load. */
  datatype Env = Env(config: ModelConfig, blacklist: set<nat>, loads: nat -> bool)

  // ----- effects on the version map -----

  /** An instance after `loadModel` or `reloadModel(config)`. */
  function LoadedAs(e: Env, v: nat): Instance {
    Instance(if e.loads(v) then L.Status(L.AVAILABLE, false) else L.Status(L.LOADING, true), e.config)
  }

  function Added(vs: Versions, start: set<nat>, e: Env): Versions {
    map v | v in vs.Keys + start :: if v in vs then vs[v] else LoadedAs(e, v)
  }

  function Reloaded(vs: Versions, reload: set<nat>, e: Env): Versions {
    map v | v in vs :: if v in reload then LoadedAs(e, v) else vs[v]
  }

  /** `retireModel` ends an instance; `cleanupFailedLoad` leaves it failed. */
  function Dropped(vs: Versions, gone: set<nat>, retired: bool): Versions {
    map v | v in vs :: if v in gone
        then Instance(if retired then L.Status(L.END, false) else L.Status(L.LOADING, true), vs[v].config) else vs[v]
  }

  function AvailableSet(vs: Versions): set<nat> {
    set v | v in vs && Available(vs[v])
  }

  // ----- the pass -----

  function Failing(s: set<nat>, e: Env): set<nat> {
    set v | v in s && !e.loads(v)
  }

  function Starts(vs: Versions, avail: set<nat>, e: Env): set<nat> {
    ToStart(Served(e.config.policy, avail), vs, e.blacklist)
  }

  function Reloads(vs: Versions, avail: set<nat>, e: Env): set<nat> {
    ToReload(Served(e.config.policy, avail), vs, e.config, e.blacklist)
  }

  function Retires(vs: Versions, avail: set<nat>, e: Env): set<nat> {
    ToRetire(Served(e.config.policy, avail), vs, e.blacklist)
  }

  /** Where lines 1021-1043 end: `reload` is the list of the last diff, `ok` the status of the last loads. */
  datatype Started = Started(vs: Versions, avail: set<nat>, failed: set<nat>, reload: set<nat>, ok: bool)

  /** A version is registered before it is loaded, so every round leaves fewer versions to try. */
  lemma FewerToTry(vs: Versions, avail: set<nat>, e: Env, less: set<nat>)
    requires Starts(vs, avail, e) != {} && less <= avail
    ensures |less - Added(vs, Starts(vs, avail, e), e).Keys| < |avail - vs.Keys|
  {
    var start := Starts(vs, avail, e);
    ServedMonotone(e.config.policy, avail, avail);
    var before, after := avail - vs.Keys, less - Added(vs, start, e).Keys;
    assert after <= before;
    var v :| v in start;
    assert v in before && v !in after;
    SubsetCardinality(after, before);
  }

  function StartLoop(vs: Versions, avail: set<nat>, failed: set<nat>, ok: bool, e: Env): Started
    decreases |avail - vs.Keys|
  {
    var start, reload := Starts(vs, avail, e), Reloads(vs, avail, e);
    if start == {} then Started(vs, avail, failed, reload, ok)
    else
      var bad := Failing(start, e);
      if bad == {} then Started(Added(vs, start, e), avail, failed, reload, true)
      else
        FewerToTry(vs, avail, e, avail - bad);
        StartLoop(Added(vs, start, e), avail - bad, failed + bad, false, e)
  }

  function Finish(s: Started, e: Env): Versions {
    var vs := Reloaded(s.vs, s.reload, e);
    var bad := Failing(s.reload, e);
    var retire := Retires(vs, s.avail - bad, e);
    Dropped(Dropped(vs, retire - (s.failed + bad), true), retire * (s.failed + bad), false)
  }

  function Reconcile(vs: Versions, avail: set<nat>, e: Env): Versions {
    Finish(StartLoop(vs, avail, {}, true, e), e)
  }

  /** The pass finds nothing to do. */
  predicate Quiet(vs: Versions, avail: set<nat>, e: Env) {
    Starts(vs, avail, e) == {} && Reloads(vs, avail, e) == {} && Retires(vs, avail, e) == {}
  }

  datatype Outcome = OK | OKReloaded | Failure

  function OutcomeOf(vs: Versions, avail: set<nat>, e: Env): Outcome {
    var s := StartLoop(vs, avail, {}, true, e);
    if !s.ok || Failing(s.reload, e) != {} then Failure
    else if Quiet(vs, avail, e) then OK else OKReloaded
  }

  // ----- the retry loop -----

  /** What the retry loop keeps, seen from the versions `vs0` and `avail0` it began with. */
  ghost predicate Tracked(vs0: Versions, avail0: set<nat>, vs: Versions, avail: set<nat>, failed: set<nat>, e: Env) {
    && avail == avail0 - failed
    && vs0.Keys <= vs.Keys
    && (forall v :: v in failed ==> v in vs && v !in vs0 && !e.loads(v))
    && (forall v :: v in vs0 ==> vs[v] == vs0[v])
    && (forall v :: v in vs && v !in vs0 ==>
          && v in avail0 && vs[v] == LoadedAs(e, v)
          && (if e.loads(v) then v in Served(e.config.policy, avail) else v in failed))
  }

  lemma RoundTracked(vs0: Versions, avail0: set<nat>, vs: Versions, avail: set<nat>, failed: set<nat>, e: Env)
    requires Tracked(vs0, avail0, vs, avail, failed, e)
    ensures var start := Starts(vs, avail, e);
            Tracked(vs0, avail0, Added(vs, start, e), avail - Failing(start, e), failed + Failing(start, e), e)
  {
    var start := Starts(vs, avail, e);
    StartIgnoresBlacklist(Served(e.config.policy, avail), vs, e.blacklist);
    ServedMonotone(e.config.policy, avail, avail - Failing(start, e));
    hide Served, ToStart, Starts;
  }

  ghost predicate Finished(vs0: Versions, avail0: set<nat>, s: Started, e: Env) {
    && Tracked(vs0, avail0, s.vs, s.avail, s.failed, e)
    && Served(e.config.policy, s.avail) <= s.vs.Keys
    && (forall v :: v in s.reload <==>
          v in vs0 && v in Served(e.config.policy, s.avail) && v !in e.blacklist && NeedsReload(vs0[v], e.config))
  }

  /** What is to be reloaded does not depend on the round. */
  lemma ReloadsTracked(vs0: Versions, avail0: set<nat>, vs: Versions, avail: set<nat>, failed: set<nat>, e: Env)
    requires Tracked(vs0, avail0, vs, avail, failed, e)
    ensures forall v :: v in Reloads(vs, avail, e) <==>
              v in vs0 && v in Served(e.config.policy, avail) && v !in e.blacklist && NeedsReload(vs0[v], e.config)
  {
    ServedMonotone(e.config.policy, avail, avail);
    hide Served;
  }

  /** The last round: nothing is left to start, or everything loads. */
  lemma LastRound(vs0: Versions, avail0: set<nat>, vs: Versions, avail: set<nat>, failed: set<nat>, ok: bool, e: Env)
    requires Tracked(vs0, avail0, vs, avail, failed, e)
    requires Failing(Starts(vs, avail, e), e) == {}
    ensures Finished(vs0, avail0, Started(Added(vs, Starts(vs, avail, e), e), avail, failed, Reloads(vs, avail, e), ok),
              e)
  {
    var start := Starts(vs, avail, e);
    ReloadsTracked(vs0, avail0, vs, avail, failed, e);
    RoundTracked(vs0, avail0, vs, avail, failed, e);
    assert avail - Failing(start, e) == avail && failed + Failing(start, e) == failed;
    StartIgnoresBlacklist(Served(e.config.policy, avail), vs, e.blacklist);
    assert Served(e.config.policy, avail) <= Added(vs, start, e).Keys;
    hide Starts, Served, ToStart, Reloads, Tracked, Added, Failing;
  }

  lemma {:induction false} LoopFinishes(vs0: Versions, avail0: set<nat>, vs: Versions, avail: set<nat>,
                                        failed: set<nat>, ok: bool, e: Env)
    requires Tracked(vs0, avail0, vs, avail, failed, e)
    ensures Finished(vs0, avail0, StartLoop(vs, avail, failed, ok, e), e)
    decreases |avail - vs.Keys|
  {
    var start := Starts(vs, avail, e);
    var bad := Failing(start, e);
    hide Starts, Reloads, Tracked, Finished;
    if start == {} {
      assert Added(vs, {}, e) == vs;
      LastRound(vs0, avail0, vs, avail, failed, ok, e);
    } else if bad == {} {
      LastRound(vs0, avail0, vs, avail, failed, true, e);
    } else {
      RoundTracked(vs0, avail0, vs, avail, failed, e);
      FewerToTry(vs, avail, e, avail - bad);
      LoopFinishes(vs0, avail0, Added(vs, start, e), avail - bad, failed + bad, false, e);
    }
  }

  lemma PassFinishes(vs: Versions, avail: set<nat>, e: Env)
    ensures Finished(vs, avail, StartLoop(vs, avail, {}, true, e), e)
  {
    assert avail - {} == avail;
    LoopFinishes(vs, avail, vs, avail, {}, true, e);
  }

  // ----- what a pass leaves behind -----

  /** The versions still offered when the pass ends, and those that failed in it. */
  function StillOffered(s: Started, e: Env): set<nat> {
    s.avail - Failing(s.reload, e)
  }

  function FailedIn(s: Started, e: Env): set<nat> {
    s.failed + Failing(s.reload, e)
  }

  /** Each version after the pass: kept if it is still served, otherwise ended or left failed. */
  lemma FinishedVersion(vs0: Versions, avail0: set<nat>, s: Started, e: Env, v: nat)
    requires Finished(vs0, avail0, s, e) && v in s.vs
    ensures v in Finish(s, e)
    ensures v in Served(e.config.policy, StillOffered(s, e)) && v !in e.blacklist ==>
              Finish(s, e)[v] == if v in s.reload then LoadedAs(e, v) else s.vs[v]
    ensures !(v in Served(e.config.policy, StillOffered(s, e)) && v !in e.blacklist) ==>
              if v in FailedIn(s, e) then L.FailedLoading(Finish(s, e)[v].status) else Ending(Finish(s, e)[v])
    ensures v in FailedIn(s, e) ==> !(v in Served(e.config.policy, StillOffered(s, e)))
  {
    ServedMonotone(e.config.policy, StillOffered(s, e), StillOffered(s, e));
    hide Served;
  }

  lemma FinishedKeys(s: Started, e: Env)
    ensures Finish(s, e).Keys == s.vs.Keys
  {
    var vs := Reloaded(s.vs, s.reload, e);
    assert vs.Keys == s.vs.Keys;
    var bad := Failing(s.reload, e);
    var retire := Retires(vs, s.avail - bad, e);
    assert Dropped(vs, retire - (s.failed + bad), true).Keys == vs.Keys;
  }

  /** Every instance is available, ended or failed: nothing is left half-way. */
  ghost predicate Settled(vs: Versions) {
    forall v :: v in vs ==> Available(vs[v]) || Ending(vs[v]) || L.FailedLoading(vs[v].status)
  }

  lemma PassSettles(vs: Versions, avail: set<nat>, e: Env)
    requires Settled(vs)
    ensures Settled(Reconcile(vs, avail, e))
  {
    PassFinishes(vs, avail, e);
    var s := StartLoop(vs, avail, {}, true, e);
    var r := Finish(s, e);
    FinishedKeys(s, e);
    forall v | v in r ensures Available(r[v]) || Ending(r[v]) || L.FailedLoading(r[v].status) {
      FinishedVersion(vs, avail, s, e, v);
    }
  }

  /** The registered versions after a history of passes over an empty model. */
  function After(passes: seq<(set<nat>, Env)>): Versions {
    if passes == [] then map[] else
      var k := |passes| - 1;
      Reconcile(After(passes[..k]), passes[k].0, passes[k].1)
  }

  lemma {:induction false} HistorySettled(passes: seq<(set<nat>, Env)>)
    ensures Settled(After(passes))
  {
    if passes != [] {
      var k := |passes| - 1;
      HistorySettled(passes[..k]);
      PassSettles(After(passes[..k]), passes[k].0, passes[k].1);
    }
  }

  lemma AscendingList(s: set<nat>) returns (list: seq<nat>)
    ensures Ascending(list) && Elems(list) == s
    decreases |s|
  {
    if s == {} {
      list := [];
    } else {
      var x :| x in s;
      var rest := AscendingList(s - {x});
      assert x !in Elems(rest);
      InsertSorted(rest, x);
      InsertNew(rest, x);
      list := Insert(rest, x);
      assert forall y :: y in rest <==> y in Elems(rest);
      assert Elems(list) == Elems(rest) + {x};
    }
  }

  /** What can be offered: registered versions, and new ones that load. */
  function Loadable(vs: Versions, avail: set<nat>, e: Env): set<nat> {
    set v | v in avail && (v in vs || e.loads(v))
  }

  /** The retry loop settles on what the policy would have chosen had it known which new versions load. */
  lemma LoopServes(vs: Versions, avail: set<nat>, e: Env)
    ensures Served(e.config.policy, StartLoop(vs, avail, {}, true, e).avail)
              == Served(e.config.policy, Loadable(vs, avail, e))
  {
    PassFinishes(vs, avail, e);
    var s := StartLoop(vs, avail, {}, true, e);
    hide StartLoop;
    var t := Loadable(vs, avail, e);
    ServedMonotone(e.config.policy, s.avail, s.avail);
    assert t <= s.avail;
    forall v | v in Served(e.config.policy, s.avail) ensures v in t {
      assert v in s.vs && v in s.avail && v !in s.failed;
    }
    var list := AscendingList(s.avail);
    ServedSurvivors(e.config.policy, list, t);
  }

  /** What the policy picks among the registered versions and the new ones that load. */
  function Picked(vs: Versions, avail: set<nat>, e: Env): set<nat> {
    Served(e.config.policy, Loadable(vs, avail, e))
  }

  /** The registered versions that the pass reloads in vain. */
  function FailedReloads(vs: Versions, avail: set<nat>, e: Env): set<nat> {
    set v | v in vs && v in Picked(vs, avail, e) && v !in e.blacklist && NeedsReload(vs[v], e.config) && !e.loads(v)
  }

  lemma PassReloads(vs: Versions, avail: set<nat>, e: Env)
    ensures Failing(StartLoop(vs, avail, {}, true, e).reload, e) == FailedReloads(vs, avail, e)
  {
    PassFinishes(vs, avail, e);
    LoopServes(vs, avail, e);
    hide StartLoop, Served, Loadable, NeedsReload;
  }

  /**
    What is available after a pass.  Among the versions still served when the failures are known, those
    the loop had picked, and those that were available before and come in for a reload that failed.
   */
  lemma AvailableAfterPass(vs: Versions, avail: set<nat>, e: Env)
    requires Settled(vs)
    ensures var offered := StillOffered(StartLoop(vs, avail, {}, true, e), e);
            forall v :: v in AvailableSet(Reconcile(vs, avail, e)) <==>
              && v in Served(e.config.policy, offered) && v !in e.blacklist
              && (v in Picked(vs, avail, e) || (v in vs && Available(vs[v])))
  {
    PassFinishes(vs, avail, e);
    LoopServes(vs, avail, e);
    var s := StartLoop(vs, avail, {}, true, e);
    hide StartLoop;
    var r := Finish(s, e);
    FinishedKeys(s, e);
    ServedMonotone(e.config.policy, StillOffered(s, e), StillOffered(s, e));
    hide Served, Finish, Loadable;
    forall v
      ensures v in AvailableSet(r) <==>
                && v in Served(e.config.policy, StillOffered(s, e)) && v !in e.blacklist
                && (v in Picked(vs, avail, e) || (v in vs && Available(vs[v])))
    {
      if v in s.vs {
        FinishedVersion(vs, avail, s, e, v);
      }
    }
  }

  /**
    Policy fallback: a pass ends with exactly the versions available that the policy picks among the
    registered ones and the new ones that load, less the blacklisted, if and only if no reload fails.
   */
  lemma PolicyFallback(vs: Versions, avail: set<nat>, e: Env)
    requires Settled(vs)
    ensures AvailableSet(Reconcile(vs, avail, e)) == Picked(vs, avail, e) - e.blacklist
            <==> FailedReloads(vs, avail, e) == {}
  {
    AvailableAfterPass(vs, avail, e);
    PassReloads(vs, avail, e);
    LoopServes(vs, avail, e);
    var s := StartLoop(vs, avail, {}, true, e);
    ServedMonotone(e.config.policy, StillOffered(s, e), StillOffered(s, e));
    hide StartLoop, Served, Loadable, Reconcile, AvailableSet;
    if FailedReloads(vs, avail, e) == {} {
      assert StillOffered(s, e) == s.avail;
    } else {
      var v :| v in FailedReloads(vs, avail, e);
      assert v !in StillOffered(s, e);
      assert v in Picked(vs, avail, e) - e.blacklist;
    }
  }

  /** For a model without registered versions: the policy applied to the versions that load. */
  lemma PolicyFallbackFromEmpty(avail: set<nat>, e: Env)
    requires e.blacklist == {}
    ensures AvailableSet(Reconcile(map[], avail, e)) == Served(e.config.policy, set v | v in avail && e.loads(v))
  {
    PolicyFallback(map[], avail, e);
    assert FailedReloads(map[], avail, e) == {};
    assert Loadable(map[], avail, e) == set v | v in avail && e.loads(v);
    assert Served(e.config.policy, Loadable(map[], avail, e)) - {}
             == Served(e.config.policy, Loadable(map[], avail, e));
  }

  /** The same for each policy, in its own terms. */
  lemma FallbackForAll(avail: set<nat>, e: Env)
    requires e.blacklist == {} && e.config.policy == All
    ensures forall v :: v in AvailableSet(Reconcile(map[], avail, e)) <==> v in avail && e.loads(v)
  {
    PolicyFallbackFromEmpty(avail, e);
  }

  lemma FallbackForSpecific(avail: set<nat>, e: Env)
    requires e.blacklist == {} && e.config.policy.Specific?
    ensures forall v :: v in AvailableSet(Reconcile(map[], avail, e)) <==>
              v in avail && e.loads(v) && v in e.config.policy.versions
  {
    PolicyFallbackFromEmpty(avail, e);
  }

  /** As many of the versions that load as there are up to N, each above every other one that loads. */
  lemma FallbackForLatest(avail: set<nat>, e: Env)
    requires e.blacklist == {} && e.config.policy.Latest?
    ensures var good := set v | v in avail && e.loads(v);
            var served := AvailableSet(Reconcile(map[], avail, e));
            && served <= good
            && |served| == (if e.config.policy.count < |good| then e.config.policy.count else |good|)
            && forall v, w :: v in served && w in good && w !in served ==> w < v
  {
    PolicyFallbackFromEmpty(avail, e);
    var good := set v | v in avail && e.loads(v);
    var list := AscendingList(good);
    AscendingDistinct(list);
    DistinctCardinality(list);
    LatestOfSet(e.config.policy.count, list);
    hide Served, Reconcile;
  }

  /**
    A version that the pass has picked and that is available afterwards runs with the configuration of the pass,
    in all that the comparison of configurations looks at.
   */
  lemma PickedAreConfigured(vs: Versions, avail: set<nat>, e: Env, v: nat)
    requires v in AvailableSet(Reconcile(vs, avail, e)) && v in Picked(vs, avail, e)
    ensures Essence(Reconcile(vs, avail, e)[v].config) == Essence(e.config)
  {
    PassFinishes(vs, avail, e);
    LoopServes(vs, avail, e);
    var s := StartLoop(vs, avail, {}, true, e);
    FinishedKeys(s, e);
    hide StartLoop, Served, Loadable, Finish;
    FinishedVersion(vs, avail, s, e, v);
  }

  // ----- convergence -----

  /** In a pass in which every attempted load succeeds there is one round. */
  lemma OneRound(vs: Versions, avail: set<nat>, e: Env)
    requires Failing(Starts(vs, avail, e), e) == {}
    ensures StartLoop(vs, avail, {}, true, e)
            == Started(Added(vs, Starts(vs, avail, e), e), avail, {}, Reloads(vs, avail, e), true)
  {
    if Starts(vs, avail, e) == {} {
      assert Added(vs, {}, e) == vs;
    }
  }

  /** A pass that finds nothing to do changes nothing and reports no reload. */
  lemma QuietPass(vs: Versions, avail: set<nat>, e: Env)
    requires Quiet(vs, avail, e)
    ensures Reconcile(vs, avail, e) == vs && OutcomeOf(vs, avail, e) == OK
  {
    OneRound(vs, avail, e);
    assert Added(vs, {}, e) == vs;
    assert Reloaded(vs, {}, e) == vs;
    assert avail - Failing({}, e) == avail;
    assert Dropped(Dropped(vs, {}, true), {}, false) == vs;
    var s := StartLoop(vs, avail, {}, true, e);
    assert s == Started(vs, avail, {}, {}, true);
  }

  /**
    Convergence: after a pass in which every attempted load succeeds, the same pass again, whatever would
    load then, has nothing to start, reload or retire.
   */
  lemma Converges(vs: Versions, avail: set<nat>, e: Env, loads: nat -> bool)
    requires forall v :: v in Starts(vs, avail, e) || v in Reloads(vs, avail, e) ==> e.loads(v)
    ensures Quiet(Reconcile(vs, avail, e), avail, e.(loads := loads))
  {
    PassFinishes(vs, avail, e);
    var s := StartLoop(vs, avail, {}, true, e);
    OneRound(vs, avail, e);
    assert s.avail == avail && s.failed == {};
    hide StartLoop;
    var r := Finish(s, e);
    FinishedKeys(s, e);
    assert Failing(s.reload, e) == {};
    assert StillOffered(s, e) == avail;
    forall v | v in r
      ensures v in Served(e.config.policy, avail) && v !in e.blacklist ==> !NeedsReload(r[v], e.config)
      ensures !(v in Served(e.config.policy, avail) && v !in e.blacklist) ==> Ending(r[v])
    {
      FinishedVersion(vs, avail, s, e, v);
    }
    hide Finish, Served;
  }

  /** Without a blacklist the second pass is quiet exactly when every load of the first diff succeeds. */
  lemma ConvergesExactly(vs: Versions, avail: set<nat>, e: Env, loads: nat -> bool)
    requires e.blacklist == {}
    ensures Quiet(Reconcile(vs, avail, e), avail, e.(loads := loads))
            <==> forall v :: v in Starts(vs, avail, e) || v in Reloads(vs, avail, e) ==> e.loads(v)
  {
    if forall v :: v in Starts(vs, avail, e) || v in Reloads(vs, avail, e) ==> e.loads(v) {
      Converges(vs, avail, e, loads);
    } else {
      var v := FailedServed(vs, avail, e);
      assert v in Reloads(Reconcile(vs, avail, e), avail, e.(loads := loads));
    }
  }

  /** A version that failed is still there, failed, and the next pass tries it again. */
  lemma FailedServed(vs: Versions, avail: set<nat>, e: Env) returns (v: nat)
    requires exists w :: (w in Starts(vs, avail, e) || w in Reloads(vs, avail, e)) && !e.loads(w)
    ensures v in Served(e.config.policy, avail) && v in Reconcile(vs, avail, e)
    ensures L.FailedLoading(Reconcile(vs, avail, e)[v].status)
  {
    PassFinishes(vs, avail, e);
    var s := StartLoop(vs, avail, {}, true, e);
    var start := Starts(vs, avail, e);
    FinishedKeys(s, e);
    hide Served, Finish;
    if Failing(start, e) == {} {
      OneRound(vs, avail, e);
      v :| v in Reloads(vs, avail, e) && !e.loads(v);
    } else {
      v :| v in Failing(start, e);
      RoundTracked(vs, avail, vs, avail, {}, e);
      FailedStays(Added(vs, start, e), avail - Failing(start, e), {} + Failing(start, e), false, e);
    }
    FinishedVersion(vs, avail, s, e, v);
  }

  lemma {:induction false} FailedStays(vs: Versions, avail: set<nat>, failed: set<nat>, ok: bool, e: Env)
    ensures failed <= StartLoop(vs, avail, failed, ok, e).failed
    decreases |avail - vs.Keys|
  {
    var start := Starts(vs, avail, e);
    if start != {} && Failing(start, e) != {} {
      FewerToTry(vs, avail, e, avail - Failing(start, e));
      FailedStays(Added(vs, start, e), avail - Failing(start, e), failed + Failing(start, e), false, e);
    }
  }

  // ----- what a pass answers -----

  /** The versions found failed before do not matter to what the loop starts, nor does the earlier status. */
  lemma {:induction false} LoopForgets(vs: Versions, avail: set<nat>, failed: set<nat>, other: set<nat>, ok: bool,
                                       was: bool, e: Env)
    requires ok == was || Starts(vs, avail, e) != {}
    ensures var s, t := StartLoop(vs, avail, failed, ok, e), StartLoop(vs, avail, other, was, e);
            s.ok == t.ok && s.reload == t.reload
    decreases |avail - vs.Keys|
  {
    var start := Starts(vs, avail, e);
    var bad := Failing(start, e);
    hide Starts, Reloads, Added, Failing;
    if start != {} && bad != {} {
      FewerToTry(vs, avail, e, avail - bad);
      LoopForgets(Added(vs, start, e), avail - bad, failed + bad, other + bad, false, false, e);
    }
  }

  /** A reload that fails decides. */
  lemma FailedReloadFailsThePass(vs: Versions, avail: set<nat>, e: Env)
    requires FailedReloads(vs, avail, e) != {}
    ensures OutcomeOf(vs, avail, e) == Failure
  {
    PassReloads(vs, avail, e);
    hide StartLoop, FailedReloads;
  }

  /**
    The outcome otherwise.  If every version of the first diff loads, it says whether there was anything to do.  If
    not, it is a failure when no version is left to try instead, and else what a pass over the others answers.
   */
  lemma OutcomeByRounds(vs: Versions, avail: set<nat>, e: Env)
    requires FailedReloads(vs, avail, e) == {}
    ensures var bad := Failing(Starts(vs, avail, e), e);
            var next := Added(vs, Starts(vs, avail, e), e);
            if bad == {} then OutcomeOf(vs, avail, e) == if Quiet(vs, avail, e) then OK else OKReloaded
            else if Starts(next, avail - bad, e) == {} then OutcomeOf(vs, avail, e) == Failure
            else OutcomeOf(vs, avail, e) == OutcomeOf(next, avail - bad, e) != OK
  {
    PassReloads(vs, avail, e);
    var start := Starts(vs, avail, e);
    var bad := Failing(start, e);
    hide FailedReloads, Starts, Reloads, Retires, Added;
    if bad == {} {
      OneRound(vs, avail, e);
    } else {
      var next := Added(vs, start, e);
      FewerToTry(vs, avail, e, avail - bad);
      assert {} + bad == bad;
      assert StartLoop(vs, avail, {}, true, e) == StartLoop(next, avail - bad, bad, false, e);
      if Starts(next, avail - bad, e) != {} {
        LoopForgets(next, avail - bad, bad, {}, false, true, e);
        hide StartLoop;
      }
    }
  }
}
