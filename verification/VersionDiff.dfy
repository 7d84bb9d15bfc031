/** `ModelManager::getVersionsToChange` (src/modelmanager.cpp:748-834). */
module VersionDiff {
  import opened Collections
  import opened VersionPolicy
  import opened ModelConfigs
  import L = InstanceLifecycle

  /** What the manager sees of a registered version. */
  datatype Instance = Instance(status: L.Status, config: ModelConfig)

  type Versions = map<nat, Instance>

  predicate Available(i: Instance) {
    i.status.phase.AVAILABLE?
  }

  predicate Ending(i: Instance) {
    L.WillEndUnloaded(i.status.phase)
  }

  /** Ended, failed, or configured differently. */
  predicate NeedsReload(i: Instance, config: ModelConfig) {
    Ending(i) || L.FailedLoading(i.status) || Essence(i.config) != Essence(config)
  }

  // ----- as sets -----

  /** Registered versions that the custom loader has blacklisted are no longer requested. */
  function Wanted(requested: set<nat>, vs: Versions, blacklist: set<nat>): set<nat> {
    requested - (vs.Keys * blacklist)
  }

  function ToStart(requested: set<nat>, vs: Versions, blacklist: set<nat>): set<nat> {
    Wanted(requested, vs, blacklist) - vs.Keys
  }

  function ToReload(requested: set<nat>, vs: Versions, config: ModelConfig, blacklist: set<nat>): set<nat> {
    set v | v in vs && v in Wanted(requested, vs, blacklist) && NeedsReload(vs[v], config)
  }

  function ToRetire(requested: set<nat>, vs: Versions, blacklist: set<nat>): set<nat> {
    set v | v in vs && v !in Wanted(requested, vs, blacklist) && !Ending(vs[v])
  }

  /** Nothing is to be done in two ways at once. */
  lemma DiffIsDisjoint(requested: set<nat>, vs: Versions, config: ModelConfig, blacklist: set<nat>)
    ensures ToStart(requested, vs, blacklist) !! ToReload(requested, vs, config, blacklist)
    ensures ToStart(requested, vs, blacklist) !! ToRetire(requested, vs, blacklist)
    ensures ToReload(requested, vs, config, blacklist) !! ToRetire(requested, vs, blacklist)
  {
  }

  /** Blacklisting touches registered versions only, so it never keeps a new version from starting. */
  lemma StartIgnoresBlacklist(requested: set<nat>, vs: Versions, blacklist: set<nat>)
    ensures ToStart(requested, vs, blacklist) == requested - vs.Keys
  {
  }

  // ----- as computed -----

  /** The keys of the version map in its order. */
  method RegisteredVersions(vs: Versions) returns (r: seq<nat>)
    ensures Ascending(r) && Elems(r) == vs.Keys
  {
    r := [];
    var pending := vs.Keys;
    while pending != {}
      invariant pending <= vs.Keys && Sorted(r) && Distinct(r)
      invariant forall v :: v in r <==> v in vs.Keys && v !in pending
      decreases |pending|
    {
      var v :| v in pending;
      InsertSorted(r, v);
      InsertNew(r, v);
      r := Insert(r, v);
      pending := pending - {v};
    }
  }

  lemma InsertNew(s: seq<nat>, x: nat)
    requires Distinct(s) && x !in s
    ensures Distinct(Insert(s, x)) && forall y :: y in Insert(s, x) <==> y in s || y == x
  {
    var t := s + [x];
    InsertKeeps(s, x);
    assert multiset(t) == multiset(Insert(s, x));
    MultisetDistinct(t, Insert(s, x));
    forall y ensures y in Insert(s, x) <==> y in s || y == x {
      assert y in Elems(Insert(s, x)) <==> y in Elems(t);
    }
  }

  /** Lines 772-780. */
  method RemoveBlacklisted(requested: seq<nat>, registered: seq<nat>, blacklist: set<nat>) returns (r: seq<nat>)
    requires Ascending(requested)
    ensures Ascending(r) && Elems(r) == Elems(requested) - (Elems(registered) * blacklist)
  {
    r := requested;
    var i := 0;
    while i < |registered|
      invariant 0 <= i <= |registered| && Ascending(r)
      invariant forall v :: v in r <==> v in requested && !(v in registered[..i] && v in blacklist)
    {
      assert registered[..i + 1] == registered[..i] + [registered[i]];
      if registered[i] in blacklist {
        WithoutCorrect(r, registered[i]);
        assert forall v :: v in Without(r, registered[i]) <==> v in Elems(Without(r, registered[i]));
        r := Without(r, registered[i]);
      }
      i := i + 1;
    }
    assert registered[..i] == registered;
  }

  /** Lines 791-805 and 813-822: the elements that pass a test, in order. */
  method Select(candidates: seq<nat>, vs: Versions, config: ModelConfig, forReload: bool) returns (r: seq<nat>)
    requires Ascending(candidates) && forall v :: v in candidates ==> v in vs
    ensures Ascending(r)
    ensures forall v :: v in r
              <==> v in candidates && (if forReload then NeedsReload(vs[v], config) else !Ending(vs[v]))
  {
    r := [];
    var i := 0;
    while i < |candidates|
      invariant 0 <= i <= |candidates|
      invariant Ascending(r) && forall k :: 0 <= k < |r| && i < |candidates| ==> r[k] < candidates[i]
      invariant forall v :: v in r <==>
                  v in candidates[..i] && (if forReload then NeedsReload(vs[v], config) else !Ending(vs[v]))
    {
      var v := candidates[i];
      assert v in candidates;
      assert candidates[..i + 1] == candidates[..i] + [v];
      if (if forReload then NeedsReload(vs[v], config) else !Ending(vs[v])) {
        r := r + [v];
      }
      i := i + 1;
    }
    assert candidates[..i] == candidates;
  }

  /** For distinct requested versions the sorted merges compute exactly the set differences. */
  method GetVersionsToChange(config: ModelConfig, vs: Versions, requested: seq<nat>, blacklist: set<nat>)
    returns (start: seq<nat>, reload: seq<nat>, retire: seq<nat>)
    requires Distinct(requested)
    ensures Ascending(start) && Elems(start) == ToStart(Elems(requested), vs, blacklist)
    ensures Ascending(reload) && Elems(reload) == ToReload(Elems(requested), vs, config, blacklist)
    ensures Ascending(retire) && Elems(retire) == ToRetire(Elems(requested), vs, blacklist)
  {
    SortDistinct(requested);
    var registered := RegisteredVersions(vs);
    var wanted := RemoveBlacklisted(Sort(requested), registered, blacklist);
    ghost var target := Wanted(Elems(requested), vs, blacklist);
    assert Elems(wanted) == target;
    var both := SetIntersection(wanted, registered);
    assert forall v :: v in both <==> v in Elems(both);
    reload := Select(both, vs, config, true);
    var gone := SetDifference(registered, wanted);
    assert forall v :: v in gone <==> v in Elems(gone);
    retire := Select(gone, vs, config, false);
    start := SetDifference(wanted, registered);
    assert Elems(reload) == ToReload(Elems(requested), vs, config, blacklist);
    assert Elems(retire) == ToRetire(Elems(requested), vs, blacklist);
  }
}
