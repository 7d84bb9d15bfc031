/**
  Session keys across level lists (src/nodesessionmetadata.cpp:74-96).  The levels are joined with the same
  underscore that stands between a level and its id, so different levels can print the same key.
 */
module KeyAmbiguity {
  import opened Integers
  import opened Collections
  import opened SessionMetadata
  import opened SessionKeys

  /** No other levels or ids print the key of `m`. */
  ghost predicate Identified(m: Metadata)
    requires Keyed(m)
  {
    forall n :: Valid(n) && Key(n) == Key(m) ==> n.levels == m.levels && Ids(n) == Ids(m)
  }

  /** A level name that reads like two levels with an id between them. */
  ghost predicate Composite(name: string) {
    exists a, d: nat, b :: ReadsAs(name, a, d, b)
  }

  predicate ReadsAs(name: string, a: string, d: nat, b: string) {
    a != "" && b != "" && a != b && d + 1 < INT_VALUES && name == a + "_" + Decimal(d) + "_" + b
  }

  /** Metadata with one level, or two, sized just large enough for the ids. */
  function One(name: string, id: nat): Metadata {
    Metadata([name], map[name := Detail(id, id + 1)])
  }

  function Two(outer: string, id: nat, inner: string, innerId: nat): Metadata {
    Metadata([outer, inner], map[outer := Detail(id, id + 1), inner := Detail(innerId, innerId + 1)])
  }

  lemma OneKey(name: string, id: nat)
    requires name != "" && id + 1 < INT_VALUES
    ensures Valid(One(name, id)) && Ids(One(name, id)) == [id] && Key(One(name, id)) == Part(name, id)
  {
    assert KeyText([name][..0], [id][..0]) == "";
    assert Key(One(name, id)) == Join(Part(name, id), "");
  }

  lemma TwoKey(outer: string, id: nat, inner: string, innerId: nat)
    requires outer != "" && inner != "" && outer != inner && id + 1 < INT_VALUES && innerId + 1 < INT_VALUES
    ensures Valid(Two(outer, id, inner, innerId))
    ensures Key(Two(outer, id, inner, innerId)) == Part(inner + "_" + Decimal(innerId) + "_" + outer, id)
  {
    var m := Two(outer, id, inner, innerId);
    assert m.levels == [outer, inner] && Elems(m.levels) == {outer, inner};
    assert Ids(m) == [id, innerId];
    MergedTwo(outer, id, inner, innerId);
    hide Decimal, Part, KeyText, Merged;
    MergedKey([outer, inner], [id, innerId]);
  }

  lemma MergedTwo(outer: string, id: nat, inner: string, innerId: nat)
    ensures Merged([outer, inner], [id, innerId]) == inner + "_" + Decimal(innerId) + "_" + outer
  {
    hide Decimal;
    assert [outer, inner][..1] == [outer] && [id, innerId][..1] == [id];
    assert Merged([outer], [id]) == outer;
  }

  /** For all names and ids: two levels print the same key as one level named after both. */
  lemma KeyAmbiguousAcrossLevels(outer: string, id: nat, inner: string, innerId: nat)
    requires outer != "" && inner != "" && outer != inner && id + 1 < INT_VALUES && innerId + 1 < INT_VALUES
    ensures var name := inner + "_" + Decimal(innerId) + "_" + outer;
            && Valid(One(name, id)) && Valid(Two(outer, id, inner, innerId))
            && Key(One(name, id)) == Key(Two(outer, id, inner, innerId))
  {
    OneKey(inner + "_" + Decimal(innerId) + "_" + outer, id);
    TwoKey(outer, id, inner, innerId);
  }

  /** The text of several levels up to the last id: the name under which one level prints the same key. */
  function Merged(levels: seq<string>, ids: seq<nat>): (name: string)
    requires 0 < |levels| == |ids|
    ensures |name| >= |levels[0]|
    decreases |levels|
  {
    var k := |levels| - 1;
    if k == 0 then levels[0] else Part(levels[k], ids[k]) + "_" + Merged(levels[..k], ids[..k])
  }

  lemma {:induction false} MergedKey(levels: seq<string>, ids: seq<nat>)
    requires 0 < |levels| == |ids|
    ensures KeyText(levels, ids) == Part(Merged(levels, ids), ids[0])
    decreases |levels|
  {
    hide Decimal, Join;
    var k := |levels| - 1;
    var head := Part(levels[k], ids[k]);
    if k == 0 {
      JoinNothing(head);
      assert KeyText(levels[..0], ids[..0]) == "";
    } else {
      var rest := Merged(levels[..k], ids[..k]);
      MergedKey(levels[..k], ids[..k]);
      assert KeyText(levels, ids) == Join(head, Part(rest, ids[0]));
      PartAfter(head, rest, ids[0]);
    }
  }

  lemma JoinNothing(a: string)
    ensures Join(a, "") == a
  {
  }

  lemma PartAfter(head: string, rest: string, id: nat)
    requires head != ""
    ensures Join(head, Part(rest, id)) == Part(head + "_" + rest, id)
  {
    var x := "_" + (rest + "_");
    ConcatAssociative("_", rest + "_", Decimal(id));
    ConcatAssociative(head, x, Decimal(id));
    ConcatAssociative(head, "_", rest + "_");
    ConcatAssociative(head + "_", rest, "_");
  }

  lemma LastNumber(a: string, x: nat, b: string, y: nat)
    requires Part(a, x) == Part(b, y)
    ensures a == b && x == y
  {
    var s, t := Decimal(x), Decimal(y);
    DecimalHasNoUnderscore(x);
    DecimalHasNoUnderscore(y);
    var whole := Part(a, x);
    assert whole[|a|] == '_' && whole[|b|] == '_';
    assert whole[|a| + 1..] == s && whole[|b| + 1..] == t;
    assert whole[..|a|] == a && whole[..|b|] == b;
    DecimalInjective(x, y);
  }

  /** Several levels read as the innermost, its id and the rest; or as all but the outermost, an id, and that. */
  lemma MergedReads(m: Metadata)
    requires Valid(m) && |m.levels| >= 2
    ensures Composite(Merged(m.levels, Ids(m)))
  {
    var k := |m.levels| - 1;
    var ids := Ids(m);
    var a, rest := m.levels[k], Merged(m.levels[..k], ids[..k]);
    assert m.levels[0] != "" && a != "" by {
      assert m.levels[0] in m.levels && a in m.levels;
    }
    var name := Merged(m.levels, ids);
    if a != rest {
      assert ReadsAs(name, a, ids[k], rest);
    } else {
      MergedEnds(m, k);
    }
  }

  lemma MergedEnds(m: Metadata, k: nat)
    requires Valid(m) && k == |m.levels| - 1 && k >= 1
    requires m.levels[k] == Merged(m.levels[..k], Ids(m)[..k])
    ensures Composite(Merged(m.levels, Ids(m)))
  {
    var ids, outer := Ids(m), m.levels[0];
    var name, d := Merged(m.levels, ids), ids[1];
    assert outer in m.levels && m.levels[1] in m.levels;
    if k > 1 {
      var front := MergedSplits(m.levels, ids);
      assert |front| > |m.levels[k]| >= |m.levels[..k][0]|;
      assert ReadsAs(name, front, d, outer);
    }
  }

  /** The text ends with the second outermost id and the outermost level. */
  lemma {:induction false} MergedSplits(levels: seq<string>, ids: seq<nat>) returns (front: string)
    requires 2 <= |levels| == |ids|
    ensures Merged(levels, ids) == front + "_" + Decimal(ids[1]) + "_" + levels[0]
    ensures |levels| == 2 ==> front == levels[1]
    ensures |levels| > 2 ==> |front| > |levels[|levels| - 1]|
    decreases |levels|
  {
    var k := |levels| - 1;
    if k == 1 {
      front := levels[1];
      assert Merged(levels[..1], ids[..1]) == levels[0];
    } else {
      var rest := MergedSplits(levels[..k], ids[..k]);
      front := Part(levels[k], ids[k]) + "_" + rest;
      assert Merged(levels[..k], ids[..k]) == rest + ("_" + Decimal(ids[1]) + "_" + levels[0]);
    }
  }

  lemma SeveralAreAmbiguous(m: Metadata)
    requires Valid(m) && |m.levels| >= 2
    ensures !Identified(m)
  {
    var ids := Ids(m);
    var name := Merged(m.levels, ids);
    assert m.levels[0] in m.levels && m.levels[0] in m.details;
    MergedKey(m.levels, ids);
    OneKey(name, ids[0]);
    assert Key(One(name, ids[0])) == Key(m);
  }

  lemma CompositeIsAmbiguous(m: Metadata)
    requires Valid(m) && |m.levels| == 1 && Composite(m.levels[0])
    ensures !Identified(m)
  {
    var a, d: nat, b :| ReadsAs(m.levels[0], a, d, b);
    var id := Ids(m)[0];
    assert m.levels[0] in m.details;
    MergedKey(m.levels, Ids(m));
    TwoKey(b, id, a, d);
    assert Key(Two(b, id, a, d)) == Key(m);
  }

  lemma PlainIsIdentified(m: Metadata, n: Metadata)
    requires Valid(m) && |m.levels| == 1 && !Composite(m.levels[0]) && Valid(n) && Key(n) == Key(m)
    ensures n.levels == m.levels && Ids(n) == Ids(m)
  {
    MergedKey(m.levels, Ids(m));
    assert n.levels != [] by {
      assert Key(m) != "";
    }
    MergedKey(n.levels, Ids(n));
    LastNumber(Merged(n.levels, Ids(n)), Ids(n)[0], m.levels[0], Ids(m)[0]);
    if |n.levels| >= 2 {
      MergedReads(n);
    }
  }

  /**
    When a key identifies its session among all sessions there can be: exactly when there are no levels, or one
    level whose name does not read like two levels with an id between them.
   */
  lemma KeyIdentifiesExactly(m: Metadata)
    requires Valid(m)
    ensures Identified(m) <==> m.levels == [] || (|m.levels| == 1 && !Composite(m.levels[0]))
  {
    if m.levels == [] {
      assert forall n :: Valid(n) && n.levels != [] ==> Key(n) != "";
    } else if |m.levels| >= 2 {
      SeveralAreAmbiguous(m);
    } else if Composite(m.levels[0]) {
      CompositeIsAmbiguous(m);
    } else {
      forall n | Valid(n) && Key(n) == Key(m) ensures n.levels == m.levels && Ids(n) == Ids(m) {
        PlainIsIdentified(m, n);
      }
    }
  }
}
