/**
  `NodeSessionMetadata` (src/nodesessionmetadata.cpp): the stack of demultiplexer levels
  that a node session lives under, with the id and size of the session at every level.
  Functions give the results; methods follow the loops of the code and refine them.
 */
module SessionMetadata {
  import opened Integers
  import opened Wrappers
  import opened Collections

  /** The `std::logic_error`s of the file, by cause. */
  datatype Error = EmptyName | NameInUse | EmptySet | UnknownName | NotLifo | TooManyLevels

  datatype Detail = Detail(id: nat, size: nat)

  /** `levels` is `sessionsLevels`, outermost first; `details` maps a level to its (id, size). */
  datatype Metadata = Metadata(levels: seq<string>, details: map<string, Detail>)

  datatype CollapseDetails = CollapseDetails(names: seq<string>, sizes: seq<nat>)

  /** The default-constructed metadata. */
  const ROOT := Metadata([], map[])

  predicate Keyed(m: Metadata) {
    m.details.Keys == Elems(m.levels)
  }

  ghost predicate Valid(m: Metadata) {
    && Keyed(m)
    && Distinct(m.levels)
    && "" !in m.levels
    && forall l :: l in m.details ==> m.details[l].id < m.details[l].size < INT_VALUES
  }

  function Ids(m: Metadata): (r: seq<nat>)
    requires Keyed(m)
    ensures |r| == |m.levels|
  {
    seq(|m.levels|, i requires 0 <= i < |m.levels| => m.details[m.levels[i]].id)
  }

  function Sizes(m: Metadata): (r: seq<nat>)
    requires Keyed(m)
    ensures |r| == |m.levels|
  {
    seq(|m.levels|, i requires 0 <= i < |m.levels| => m.details[m.levels[i]].size)
  }

  // ----- generateSubsessions -----

  function Subsession(m: Metadata, name: string, id: nat, size: nat): Metadata {
    Metadata(m.levels + [name], m.details[name := Detail(id, size)])
  }

  function Subsessions(m: Metadata, name: string, size: nat): Result<seq<Metadata>, Error> {
    if name == "" then Err(EmptyName)
    else if name in m.details then Err(NameInUse)
    else Ok(seq(size, (i: nat) => Subsession(m, name, i, size)))
  }

  method GenerateSubsessions(m: Metadata, name: string, size: nat) returns (r: Result<seq<Metadata>, Error>)
    ensures r == Subsessions(m, name, size)
    ensures r.Err? <==> name == "" || name in m.details
    ensures r.Err? ==> r.error == if name == "" then EmptyName else NameInUse
  {
    if name == "" {
      return Err(EmptyName);
    }
    if name in m.details {
      return Err(NameInUse);
    }
    var metas: seq<Metadata> := [];
    var counter := 0;
    while counter < size
      invariant 0 <= counter <= size && |metas| == counter
      invariant forall i :: 0 <= i < counter ==> metas[i] == Subsession(m, name, i, size)
    {
      metas := metas + [Metadata(m.levels + [name], m.details[name := Detail(counter, size)])];
      counter := counter + 1;
    }
    assert metas == Subsessions(m, name, size).value;
    return Ok(metas);
  }

  /** One demultiplication and the shard of it that was followed. */
  datatype Split = Split(name: string, size: nat, id: nat)

  /** `to` is reached from `from` by demultiplying once for every element of `splits`. */
  ghost predicate Spawned(from: Metadata, splits: seq<Split>, to: Metadata)
    decreases |splits|
  {
    if splits == [] then from == to
    else
      var s := splits[0];
      && s.id < s.size < INT_VALUES
      && Subsessions(from, s.name, s.size).Ok?
      && Spawned(Subsessions(from, s.name, s.size).value[s.id], splits[1..], to)
  }

  function Names(splits: seq<Split>): (r: seq<string>)
    ensures |r| == |splits|
  {
    seq(|splits|, i requires 0 <= i < |splits| => splits[i].name)
  }

  function SplitSizes(splits: seq<Split>): (r: seq<nat>)
    ensures |r| == |splits|
  {
    seq(|splits|, i requires 0 <= i < |splits| => splits[i].size)
  }

  lemma SubsessionValid(m: Metadata, name: string, id: nat, size: nat)
    requires Valid(m) && id < size < INT_VALUES && name != "" && name !in m.details
    ensures Valid(Subsession(m, name, id, size))
  {
    var s := Subsession(m, name, id, size);
    assert Elems(s.levels) == Elems(m.levels) + {name};
  }

  lemma {:induction false} SpawnedValid(from: Metadata, splits: seq<Split>, to: Metadata)
    requires Valid(from) && Spawned(from, splits, to)
    ensures Valid(to)
    decreases |splits|
  {
    if splits != [] {
      var s := splits[0];
      SubsessionValid(from, s.name, s.id, s.size);
      SpawnedValid(Subsession(from, s.name, s.id, s.size), splits[1..], to);
    }
  }

  lemma {:induction false} SpawnedLevels(from: Metadata, splits: seq<Split>, to: Metadata)
    requires Spawned(from, splits, to)
    ensures to.levels == from.levels + Names(splits)
    decreases |splits|
  {
    if splits != [] {
      var s := splits[0];
      SpawnedLevels(Subsession(from, s.name, s.id, s.size), splits[1..], to);
      assert Names(splits) == [s.name] + Names(splits[1..]);
    }
  }

  lemma {:induction false} SpawnedKeeps(from: Metadata, splits: seq<Split>, to: Metadata)
    requires Spawned(from, splits, to)
    ensures forall l :: l in from.details ==> l in to.details && to.details[l] == from.details[l]
    decreases |splits|
  {
    if splits != [] {
      var s := splits[0];
      SpawnedKeeps(Subsession(from, s.name, s.id, s.size), splits[1..], to);
    }
  }

  lemma SpawnedShape(from: Metadata, splits: seq<Split>, to: Metadata)
    requires Valid(from) && Spawned(from, splits, to)
    ensures Valid(to)
    ensures to.levels == from.levels + Names(splits)
    ensures forall l :: l in from.details ==> l in to.details && to.details[l] == from.details[l]
  {
    SpawnedValid(from, splits, to);
    SpawnedLevels(from, splits, to);
    SpawnedKeeps(from, splits, to);
  }

  lemma {:induction false} SpawnedDetail(from: Metadata, splits: seq<Split>, to: Metadata, i: nat)
    requires Valid(from) && Spawned(from, splits, to) && i < |splits|
    ensures splits[i].name in to.details
    ensures to.details[splits[i].name] == Detail(splits[i].id, splits[i].size)
    decreases |splits|
  {
    var s := splits[0];
    var next := Subsession(from, s.name, s.id, s.size);
    SubsessionValid(from, s.name, s.id, s.size);
    if i == 0 {
      SpawnedKeeps(next, splits[1..], to);
      assert s.name in next.details;
    } else {
      SpawnedDetail(next, splits[1..], to, i - 1);
    }
  }

  /** The metadata of the `j` outermost levels. */
  ghost function Outer(m: Metadata, j: nat): Metadata
    requires j <= |m.levels|
  {
    Metadata(m.levels[..j], map l | l in m.details && l in m.levels[..j] :: m.details[l])
  }

  lemma OuterValid(m: Metadata, j: nat)
    requires Valid(m) && j <= |m.levels|
    ensures Valid(Outer(m, j))
    ensures Ids(Outer(m, j)) == Ids(m)[..j] && Sizes(Outer(m, j)) == Sizes(m)[..j]
  {
    var o := Outer(m, j);
    assert forall l :: l in m.levels[..j] ==> l in m.levels;
    assert o.details.Keys == Elems(o.levels);
  }

  lemma OuterStep(m: Metadata, j: nat)
    requires Valid(m) && j < |m.levels|
    ensures m.levels[j] !in Outer(m, j).details
    ensures Outer(m, j + 1)
            == Subsession(Outer(m, j), m.levels[j], m.details[m.levels[j]].id, m.details[m.levels[j]].size)
  {
    assert m.levels[..j + 1] == m.levels[..j] + [m.levels[j]];
  }

  lemma {:induction false} SpawnedAppend(from: Metadata, splits: seq<Split>, mid: Metadata, last: Split, to: Metadata)
    requires Spawned(from, splits, mid) && Spawned(mid, [last], to)
    ensures Spawned(from, splits + [last], to)
    decreases |splits|
  {
    if splits == [] {
      assert splits + [last] == [last];
    } else {
      var s := splits[0];
      SpawnedAppend(Subsessions(from, s.name, s.size).value[s.id], splits[1..], mid, last, to);
      assert (splits + [last])[1..] == splits[1..] + [last];
    }
  }

  lemma SpawnedOnce(m: Metadata, s: Split)
    requires s.name != "" && s.name !in m.details && s.id < s.size < INT_VALUES
    ensures Spawned(m, [s], Subsession(m, s.name, s.id, s.size))
  {
    var to := Subsession(m, s.name, s.id, s.size);
    assert Spawned(to, [], to);
    assert [s][1..] == [];
  }

  lemma {:induction false} OuterSpawned(m: Metadata, j: nat) returns (splits: seq<Split>)
    requires Valid(m) && j <= |m.levels|
    ensures Spawned(ROOT, splits, Outer(m, j))
  {
    if j == 0 {
      splits := [];
      assert Outer(m, 0).details == map[];
    } else {
      var before := OuterSpawned(m, j - 1);
      splits := before + [LevelSplit(m, j - 1)];
      OuterSpawnedStep(m, j - 1, before);
    }
  }

  ghost function LevelSplit(m: Metadata, j: nat): Split
    requires Keyed(m) && j < |m.levels|
  {
    var name := m.levels[j];
    Split(name, m.details[name].size, m.details[name].id)
  }

  lemma OuterSpawnedStep(m: Metadata, j: nat, before: seq<Split>)
    requires Valid(m) && j < |m.levels| && Spawned(ROOT, before, Outer(m, j))
    ensures Spawned(ROOT, before + [LevelSplit(m, j)], Outer(m, j + 1))
  {
    OuterStep(m, j);
    SpawnedOnce(Outer(m, j), LevelSplit(m, j));
    SpawnedAppend(ROOT, before, Outer(m, j), LevelSplit(m, j), Outer(m, j + 1));
  }

  ghost predicate SpawnedFromRoot(splits: seq<Split>, m: Metadata) {
    Spawned(ROOT, splits, m)
  }

  /** `Valid` describes exactly the metadata that demultiplying from the empty one can build. */
  lemma ValidExactlyReachable(m: Metadata)
    ensures Valid(m) <==> exists splits :: SpawnedFromRoot(splits, m)
  {
    if Valid(m) {
      var splits := OuterSpawned(m, |m.levels|);
      OuterOfAll(m);
      assert SpawnedFromRoot(splits, m);
    } else if exists splits :: SpawnedFromRoot(splits, m) {
      var splits :| SpawnedFromRoot(splits, m);
      SpawnedShape(ROOT, splits, m);
    }
  }

  lemma OuterOfAll(m: Metadata)
    requires Valid(m)
    ensures Outer(m, |m.levels|) == m
  {
    assert m.levels[..|m.levels|] == m.levels;
    assert Outer(m, |m.levels|).details == m.details;
  }

  // ----- getCollapsedSessionMetadata -----

  /** What the last-in-first-out loops accept: nothing is looked at when every level is named. */
  predicate LifoAccepts(levels: seq<string>, names: set<string>) {
    |names| < |levels| ==> forall i :: |levels| - |names| <= i < |levels| ==> levels[i] in names
  }

  /**
    The loops at lines 116 and 160.  Their lower bound is `size_t` arithmetic: when as many names
    as levels are given it wraps to the largest value and the body never runs.
   */
  method LifoLoop(levels: seq<string>, names: set<string>) returns (accepted: bool)
    requires 0 < |levels| < SIZE_VALUES && |names| < SIZE_VALUES
    ensures accepted == LifoAccepts(levels, names)
  {
    var bound := (|levels| - 1 - |names|) % SIZE_VALUES;
    var i := |levels| - 1;
    while i > bound
      invariant bound == if |names| < |levels| then |levels| - 1 - |names| else bound
      invariant |names| < |levels| ==> bound <= i < |levels|
      invariant |names| >= |levels| ==> i == |levels| - 1 < bound
      invariant |names| < |levels| ==> forall k :: i < k < |levels| ==> levels[k] in names
    {
      if levels[i] !in names {
        return false;
      }
      i := i - 1;
    }
    return true;
  }

  function Kept(levels: seq<string>, names: set<string>): seq<string> {
    if levels == [] then []
    else
      var k := |levels| - 1;
      Kept(levels[..k], names) + if levels[k] in names then [] else [levels[k]]
  }

  function Dropped(levels: seq<string>, names: set<string>): seq<string> {
    if levels == [] then []
    else
      var k := |levels| - 1;
      Dropped(levels[..k], names) + if levels[k] in names then [levels[k]] else []
  }

  lemma {:induction false} DroppedMember(levels: seq<string>, names: set<string>)
    ensures forall l :: l in Dropped(levels, names) ==> l in levels
  {
    if levels != [] {
      DroppedMember(levels[..|levels| - 1], names);
    }
  }

  function SizesOf(m: Metadata, levels: seq<string>): (r: seq<nat>)
    requires forall l :: l in levels ==> l in m.details
    ensures |r| == |levels|
  {
    seq(|levels|, i requires 0 <= i < |levels| => m.details[levels[i]].size)
  }

  function Remaining(m: Metadata, names: set<string>): Metadata {
    Metadata(Kept(m.levels, names), map l | l in m.details && l !in names :: m.details[l])
  }

  function Collapsed(m: Metadata, names: set<string>): CollapseDetails
    requires Keyed(m)
  {
    DroppedMember(m.levels, names);
    var dropped := Dropped(m.levels, names);
    CollapseDetails(dropped, SizesOf(m, dropped))
  }

  function Collapse(m: Metadata, names: set<string>): Result<(Metadata, CollapseDetails), Error>
    requires Keyed(m)
  {
    if names == {} then Err(EmptySet)
    else if !(names <= m.details.Keys) then Err(UnknownName)
    else if !LifoAccepts(m.levels, names) then Err(NotLifo)
    else Ok((Remaining(m, names), Collapsed(m, names)))
  }

  method GetCollapsedSessionMetadata(m: Metadata, names: set<string>)
    returns (r: Result<(Metadata, CollapseDetails), Error>)
    requires Keyed(m) && |m.levels| < SIZE_VALUES && |names| < SIZE_VALUES
    ensures r == Collapse(m, names)
    ensures r.Err? ==>
              r.error == if names == {} then EmptySet else if names <= m.details.Keys then NotLifo else UnknownName
  {
    if |names| == 0 {
      return Err(EmptySet);
    }
    if exists n :: n in names && n !in m.details {
      return Err(UnknownName);
    }
    assert m.levels != [] by {
      var n :| n in names;
      assert n in m.details.Keys;
    }
    var accepted := LifoLoop(m.levels, names);
    if !accepted {
      return Err(NotLifo);
    }
    var rest, details := PartitionLevels(m, names);
    return Ok((rest, details));
  }

  /** Lines 123-139: the surviving details and levels, and the collapsed names with their sizes. */
  method PartitionLevels(m: Metadata, names: set<string>) returns (rest: Metadata, details: CollapseDetails)
    requires Keyed(m)
    ensures rest == Remaining(m, names) && details == Collapsed(m, names)
  {
    var kept: seq<string>, gone: seq<string>, sizes: seq<nat> := [], [], [];
    var i := 0;
    while i < |m.levels|
      invariant 0 <= i <= |m.levels|
      invariant kept == Kept(m.levels[..i], names) && gone == Dropped(m.levels[..i], names)
      invariant forall l :: l in gone ==> l in m.details
      invariant sizes == SizesOf(m, gone)
    {
      var level := m.levels[i];
      assert m.levels[..i + 1][..i] == m.levels[..i];
      if level in names {
        gone, sizes := gone + [level], sizes + [m.details[level].size];
      } else {
        kept := kept + [level];
      }
      i := i + 1;
    }
    assert m.levels[..i] == m.levels;
    rest := Metadata(kept, map l | l in m.details && l !in names :: m.details[l]);
    details := CollapseDetails(gone, sizes);
  }

  lemma {:induction false} FilterSplit(levels: seq<string>, names: set<string>, j: nat)
    requires j <= |levels|
    requires forall i :: 0 <= i < |levels| ==> (levels[i] in names <==> i >= j)
    ensures Kept(levels, names) == levels[..j] && Dropped(levels, names) == levels[j..]
  {
    if levels != [] {
      var k := |levels| - 1;
      if j == |levels| {
        FilterSplit(levels[..k], names, k);
      } else {
        FilterSplit(levels[..k], names, j);
        assert levels[j..] == levels[..k][j..] + [levels[k]];
        assert levels[..k][..j] == levels[..j];
      }
    }
  }

  /** The `k` innermost levels, as a set. */
  function Innermost(m: Metadata, k: nat): set<string>
    requires k <= |m.levels|
  {
    Elems(m.levels[|m.levels| - k..])
  }

  lemma InnermostMembers(m: Metadata, k: nat)
    requires Valid(m) && k <= |m.levels|
    ensures |Innermost(m, k)| == k && Innermost(m, k) <= m.details.Keys
    ensures forall i :: 0 <= i < |m.levels| ==> (m.levels[i] in Innermost(m, k) <==> i >= |m.levels| - k)
  {
    var tail := m.levels[|m.levels| - k..];
    DistinctCardinality(tail);
    forall i | |m.levels| - k <= i < |m.levels| ensures m.levels[i] in tail {
      assert m.levels[i] == tail[i - (|m.levels| - k)];
    }
  }

  lemma LifoMeansInnermost(m: Metadata, names: set<string>)
    requires Valid(m) && names <= m.details.Keys
    ensures |names| <= |m.levels|
    ensures LifoAccepts(m.levels, names) <==> names == Innermost(m, |names|)
  {
    DistinctCardinality(m.levels);
    SubsetCardinality(names, m.details.Keys);
    InnermostMembers(m, |names|);
    if LifoAccepts(m.levels, names) {
      if |names| == |m.levels| {
        assert m.levels[0..] == m.levels;
      } else {
        LifoContains(m.levels, names);
        SubsetCardinality(Innermost(m, |names|), names);
      }
    }
  }

  lemma LifoContains(levels: seq<string>, names: set<string>)
    requires |names| < |levels| && LifoAccepts(levels, names)
    ensures Elems(levels[|levels| - |names|..]) <= names
  {
  }

  /** A collapse is accepted exactly for the set of the last |names| levels, the full set included. */
  lemma CollapseAcceptsExactly(m: Metadata, names: set<string>)
    requires Valid(m)
    ensures Collapse(m, names).Ok? <==>
              names != {} && |names| <= |m.levels| && names == Innermost(m, |names|)
  {
    if names != {} && |names| <= |m.levels| && names == Innermost(m, |names|) {
      InnermostMembers(m, |names|);
    }
    if names <= m.details.Keys {
      LifoMeansInnermost(m, names);
    }
  }

  lemma RemainingIsOuter(m: Metadata, k: nat)
    requires Valid(m) && k <= |m.levels|
    ensures Remaining(m, Innermost(m, k)) == Outer(m, |m.levels| - k)
  {
    InnermostMembers(m, k);
    FilterSplit(m.levels, Innermost(m, k), |m.levels| - k);
    CollapsedDetails(m, Innermost(m, k), |m.levels| - k);
  }

  lemma SizesOfInner(m: Metadata, j: nat)
    requires Keyed(m) && j <= |m.levels|
    ensures forall l :: l in m.levels[j..] ==> l in m.details
    ensures SizesOf(m, m.levels[j..]) == Sizes(m)[j..]
  {
    assert forall l :: l in m.levels[j..] ==> l in Elems(m.levels);
  }

  lemma CollapsedIsInner(m: Metadata, k: nat)
    requires Valid(m) && k <= |m.levels|
    ensures Collapsed(m, Innermost(m, k))
            == CollapseDetails(m.levels[|m.levels| - k..], Sizes(m)[|m.levels| - k..])
  {
    InnermostMembers(m, k);
    FilterSplit(m.levels, Innermost(m, k), |m.levels| - k);
    SizesOfInner(m, |m.levels| - k);
  }

  /** It leaves the outer levels untouched and reports the collapsed sizes, outermost first. */
  lemma CollapseKeepsOuter(m: Metadata, names: set<string>)
    requires Valid(m) && Collapse(m, names).Ok?
    ensures |names| <= |m.levels| && names == Innermost(m, |names|)
    ensures var j := |m.levels| - |names|;
            Collapse(m, names) == Ok((Outer(m, j), CollapseDetails(m.levels[j..], Sizes(m)[j..])))
  {
    CollapseAcceptsExactly(m, names);
    RemainingIsOuter(m, |names|);
    CollapsedIsInner(m, |names|);
  }

  lemma CollapsedDetails(m: Metadata, names: set<string>, j: nat)
    requires Valid(m) && j <= |m.levels|
    requires forall i :: 0 <= i < |m.levels| ==> (m.levels[i] in names <==> i >= j)
    ensures (map l | l in m.details && l !in names :: m.details[l]) == Outer(m, j).details
  {
    forall l | l in m.details ensures l !in names <==> l in m.levels[..j] {
      var i :| 0 <= i < |m.levels| && m.levels[i] == l;
      if i < j {
        assert m.levels[..j][i] == l;
      }
    }
  }

  lemma SpawnedInnermost(from: Metadata, splits: seq<Split>, to: Metadata)
    requires Valid(from) && Spawned(from, splits, to)
    ensures Valid(to) && |to.levels| == |from.levels| + |splits|
    ensures to.levels[|from.levels|..] == Names(splits)
    ensures |Elems(Names(splits))| == |splits|
    ensures Elems(Names(splits)) == Innermost(to, |splits|)
  {
    SpawnedShape(from, splits, to);
    assert to.levels[|from.levels|..] == Names(splits);
    DistinctCardinality(Names(splits));
  }

  /** Collapsing undoes any chain of demultiplications and recovers its sizes in order. */
  lemma CollapseUndoesSpawning(from: Metadata, splits: seq<Split>, to: Metadata)
    requires Valid(from) && Spawned(from, splits, to) && splits != []
    ensures Valid(to)
    ensures Collapse(to, Elems(Names(splits))) == Ok((from, CollapseDetails(Names(splits), SplitSizes(splits))))
  {
    SpawnedInnermost(from, splits, to);
    var names := Elems(Names(splits));
    assert names != {};
    CollapseAcceptsExactly(to, names);
    CollapseKeepsOuter(to, names);
    SpawnedOuter(from, splits, to);
    SpawnedSizes(from, splits, to);
  }

  lemma OuterOfExtension(from: Metadata, to: Metadata)
    requires Keyed(from) && from.levels <= to.levels
    requires forall l :: l in from.details ==> l in to.details && to.details[l] == from.details[l]
    ensures Outer(to, |from.levels|) == from
  {
    var o := Outer(to, |from.levels|);
    assert o.levels == from.levels;
    assert forall l :: l in from.levels <==> l in from.details.Keys;
    assert o.details == from.details;
  }

  lemma SpawnedOuter(from: Metadata, splits: seq<Split>, to: Metadata)
    requires Valid(from) && Spawned(from, splits, to)
    ensures |to.levels| == |from.levels| + |splits|
    ensures Outer(to, |from.levels|) == from
  {
    SpawnedShape(from, splits, to);
    OuterOfExtension(from, to);
  }

  lemma SpawnedSizes(from: Metadata, splits: seq<Split>, to: Metadata)
    requires Valid(from) && Spawned(from, splits, to)
    ensures Valid(to) && |to.levels| == |from.levels| + |splits|
    ensures Sizes(to)[|from.levels|..] == SplitSizes(splits)
  {
    SpawnedShape(from, splits, to);
    var j := |from.levels|;
    forall i | 0 <= i < |splits| ensures Sizes(to)[j + i] == SplitSizes(splits)[i] {
      assert to.levels[j + i] == Names(splits)[i];
      SpawnedDetail(from, splits, to, i);
    }
  }
}
