/** The printed session key (src/nodesessionmetadata.cpp:59-97). */
module SessionKeys {
  import opened Wrappers
  import opened SessionMetadata

  function Digit(d: nat): char
    requires d < 10
  {
    ('0' as int + d) as char
  }

  /** A number as `operator<<` prints it. */
  function Decimal(n: nat): (r: string)
    ensures |r| > 0 && (|r| == 1 <==> n < 10)
  {
    if n < 10 then [Digit(n)] else Decimal(n / 10) + [Digit(n % 10)]
  }

  function Part(level: string, id: nat): (r: string)
    ensures r != ""
  {
    level + "_" + Decimal(id)
  }

  /** Innermost level first, `level_id` joined by underscores. */
  function KeyText(levels: seq<string>, ids: seq<nat>): string
    requires |levels| == |ids|
  {
    if levels == [] then ""
    else
      var k := |levels| - 1;
      Join(Part(levels[k], ids[k]), KeyText(levels[..k], ids[..k]))
  }

  function Join(a: string, b: string): string {
    if a == "" then b else a + Tail(b)
  }

  function Tail(rest: string): (r: string)
    ensures r == "" || r[0] == '_'
  {
    if rest == "" then "" else "_" + rest
  }

  /** A key as it is printed: the inner level b at 12 of the outer level a at 3. */
  lemma PrintedKey()
    ensures KeyText(["a", "b"], [3, 12]) == "b_12_a_3"
  {
    assert Decimal(12) == Decimal(1) + [Digit(2)] == "12" && Decimal(3) == "3";
    assert ["a", "b"][..1] == ["a"] && [3, 12][..1] == [3] && ["a"][..0] == [] && [3][..0] == [];
    assert KeyText(["a"], [3]) == Join(Part("a", 3), "") == "a_3";
    assert KeyText(["a", "b"], [3, 12]) == Join("b_12", "a_3");
  }

  predicate LastIgnored(levels: seq<string>, ignored: set<string>) {
    forall i :: 0 <= i < |levels| && |levels| - |ignored| <= i ==> levels[i] in ignored
  }

  function Shown(levels: seq<string>, ignored: set<string>): (top: nat)
    ensures top <= |levels|
  {
    if |ignored| <= |levels| then |levels| - |ignored| else 0
  }

  function SessionKey(m: Metadata, ignored: set<string>): Result<string, Error>
    requires Keyed(m)
  {
    if m.details == map[] then Ok("")
    else if !(ignored <= m.details.Keys) then Err(UnknownName)
    else if !LastIgnored(m.levels, ignored) then Err(NotLifo)
    else
      Ok(KeyUpTo(m.levels, Ids(m), Shown(m.levels, ignored)))
  }

  /** The key of a session under its own name: nothing ignored. */
  function Key(m: Metadata): string
    requires Keyed(m)
  {
    KeyText(m.levels, Ids(m))
  }

  method GetSessionKey(m: Metadata, ignored: set<string>) returns (r: Result<string, Error>)
    requires Keyed(m)
    ensures r == SessionKey(m, ignored)
    ensures r.Err? ==> r.error == if ignored <= m.details.Keys then NotLifo else UnknownName
  {
    if |m.details| == 0 {
      return Ok("");
    }
    if exists n :: n in ignored && n !in m.details {
      return Err(UnknownName);
    }
    var text := PrintLevels(m.levels, Ids(m), ignored);
    match text
    case None => return Err(NotLifo);
    case Some(ss) => return Ok(ss);
  }

  /** The loop at lines 74-96. */
  method PrintLevels(levels: seq<string>, ids: seq<nat>, ignored: set<string>) returns (text: Option<string>)
    requires |levels| == |ids|
    ensures text.Some? <==> LastIgnored(levels, ignored)
    ensures text.Some? ==>
              text.value == KeyUpTo(levels, ids, Shown(levels, ignored))
  {
    ghost var top := Shown(levels, ignored);
    ghost var goal := KeyUpTo(levels, ids, top);
    var ss, j, i := "", 0, |levels| - 1;
    while i >= 0
      invariant -1 <= i < |levels| && j == |levels| - 1 - i
      invariant forall k :: i < k < |levels| && |levels| - |ignored| <= k ==> levels[k] in ignored
      invariant i + 1 >= top ==> ss == ""
      invariant i + 1 <= top ==> Join(ss, KeyUpTo(levels, ids, i + 1)) == goal
    {
      if |ignored| > 0 && |ignored| > j && levels[i] !in ignored {
        return None;
      }
      if j >= |ignored| {
        PrintStep(ss, levels, ids, i);
        ss := AppendPart(ss, levels[i], ids[i]);
      }
      i, j := i - 1, j + 1;
    }
    assert KeyUpTo(levels, ids, 0) == "";
    return Some(ss);
  }

  method AppendPart(text: string, level: string, id: nat) returns (ss: string)
    ensures ss == Join(text, Part(level, id))
  {
    ss := text;
    if |ss| > 0 {
      ss := ss + "_";
    }
    ss := ss + (level + "_" + Decimal(id));
  }

  function KeyUpTo(levels: seq<string>, ids: seq<nat>, i: nat): string
    requires i <= |levels| == |ids|
  {
    KeyText(levels[..i], ids[..i])
  }

  lemma PrintStep(ss: string, levels: seq<string>, ids: seq<nat>, i: nat)
    requires |levels| == |ids| && i < |levels|
    ensures Join(ss, KeyUpTo(levels, ids, i + 1)) == Join(Join(ss, Part(levels[i], ids[i])), KeyUpTo(levels, ids, i))
  {
    assert levels[..i + 1][..i] == levels[..i] && ids[..i + 1][..i] == ids[..i];
    assert KeyUpTo(levels, ids, i + 1) == Join(Part(levels[i], ids[i]), KeyUpTo(levels, ids, i));
    JoinAssociative(ss, Part(levels[i], ids[i]), KeyUpTo(levels, ids, i));
  }

  lemma JoinAssociative(a: string, b: string, c: string)
    ensures Join(a, Join(b, c)) == Join(Join(a, b), c)
  {
    if a != "" && b != "" {
      assert a + Tail(b) != "" && b + Tail(c) != "";
      ConcatAssociative(a, Tail(b), Tail(c));
      ConcatAssociative("_", b, Tail(c));
    }
  }

  lemma OuterKey(m: Metadata, j: nat)
    requires Valid(m) && j <= |m.levels|
    ensures Keyed(Outer(m, j)) && Key(Outer(m, j)) == KeyText(m.levels[..j], Ids(m)[..j])
  {
    OuterValid(m, j);
  }

  lemma InnermostIgnored(m: Metadata, k: nat)
    requires Valid(m) && k <= |m.levels|
    ensures LastIgnored(m.levels, Innermost(m, k)) && Shown(m.levels, Innermost(m, k)) == |m.levels| - k
    ensures Innermost(m, k) <= m.details.Keys
  {
    InnermostMembers(m, k);
  }

  /** The key keeps its meaning: ignoring an accepted set prints the key of the collapsed session. */
  lemma KeyOfCollapsed(m: Metadata, names: set<string>)
    requires Valid(m) && Collapse(m, names).Ok?
    ensures Keyed(Collapse(m, names).value.0)
    ensures SessionKey(m, names) == Ok(Key(Collapse(m, names).value.0))
  {
    CollapseKeepsOuter(m, names);
    OuterKey(m, |m.levels| - |names|);
    InnermostIgnored(m, |names|);
    assert m.details != map[];
  }

  lemma NoLevelsNoDetails(m: Metadata)
    requires Keyed(m)
    ensures m.details == map[] <==> m.levels == []
  {
    if m.levels != [] {
      assert m.levels[0] in m.details.Keys;
    } else {
      assert m.details.Keys == {};
    }
  }

  /** Keys are printed exactly for the empty set, the empty metadata and the collapsible sets. */
  lemma KeyAcceptsExactly(m: Metadata, names: set<string>)
    requires Valid(m)
    ensures SessionKey(m, names).Ok? <==> names == {} || m.levels == [] || Collapse(m, names).Ok?
  {
    NoLevelsNoDetails(m);
    if names <= m.details.Keys {
      LifoMeansInnermost(m, names);
      assert |names| == |m.levels| ==> LastIgnored(m.levels, names) by {
        InnermostMembers(m, |names|);
      }
      CollapseAcceptsExactly(m, names);
    }
  }

  lemma KeyIgnoringNothing(m: Metadata)
    requires Keyed(m)
    ensures SessionKey(m, {}) == Ok(Key(m))
  {
    NoLevelsNoDetails(m);
    assert m.levels[..|m.levels|] == m.levels && Ids(m)[..|m.levels|] == Ids(m);
  }

  // ----- the key identifies the session -----

  lemma {:induction false} DecimalHasNoUnderscore(n: nat)
    ensures '_' !in Decimal(n)
  {
    if n >= 10 {
      DecimalHasNoUnderscore(n / 10);
    }
  }

  lemma {:induction false} DecimalInjective(a: nat, b: nat)
    requires Decimal(a) == Decimal(b)
    ensures a == b
  {
    var s, t := Decimal(a), Decimal(b);
    var k := |s| - 1;
    assert s[k] == Digit(a % 10) && t[k] == Digit(b % 10);
    if a >= 10 {
      assert s[..k] == Decimal(a / 10) && t[..k] == Decimal(b / 10);
      DecimalInjective(a / 10, b / 10);
    }
  }

  function NumberLength(s: string): nat {
    if s == "" || s[0] == '_' then 0 else 1 + NumberLength(s[1..])
  }

  lemma {:induction false} NumberLengthOf(a: string, s: string)
    requires '_' !in a && (s == "" || s[0] == '_')
    ensures NumberLength(a + s) == |a|
  {
    if a == "" {
      assert a + s == s;
    } else {
      assert (a + s)[1..] == a[1..] + s;
      NumberLengthOf(a[1..], s);
    }
  }

  lemma NumberPrefix(a: string, s: string, b: string, t: string)
    requires a + s == b + t && '_' !in a && '_' !in b
    requires s == "" || s[0] == '_'
    requires t == "" || t[0] == '_'
    ensures a == b && s == t
  {
    NumberLengthOf(a, s);
    NumberLengthOf(b, t);
    assert (a + s)[..|a|] == a && (b + t)[..|b|] == b;
    assert (a + s)[|a|..] == s && (b + t)[|b|..] == t;
  }

  lemma TailInjective(a: string, b: string)
    requires Tail(a) == Tail(b)
    ensures a == b
  {
    if a != "" {
      assert a == Tail(a)[1..] && b == Tail(b)[1..];
    }
  }

  lemma SamePrefix(p: string, a: string, b: string)
    requires p + a == p + b
    ensures a == b
  {
    assert a == (p + a)[|p|..] && b == (p + b)[|p|..];
  }

  lemma KeyPartsInjective(head: string, x: nat, s: string, y: nat, t: string)
    requires head + (Decimal(x) + Tail(s)) == head + (Decimal(y) + Tail(t))
    ensures x == y && s == t
  {
    SamePrefix(head, Decimal(x) + Tail(s), Decimal(y) + Tail(t));
    DecimalHasNoUnderscore(x);
    DecimalHasNoUnderscore(y);
    NumberPrefix(Decimal(x), Tail(s), Decimal(y), Tail(t));
    DecimalInjective(x, y);
    TailInjective(s, t);
  }

  lemma KeyTextUnfold(levels: seq<string>, ids: seq<nat>)
    requires 0 < |levels| == |ids|
    ensures var k := |levels| - 1;
            KeyText(levels, ids) == (levels[k] + "_") + (Decimal(ids[k]) + Tail(KeyText(levels[..k], ids[..k])))
  {
    var k := |levels| - 1;
    ConcatAssociative(levels[k] + "_", Decimal(ids[k]), Tail(KeyText(levels[..k], ids[..k])));
  }

  lemma ConcatAssociative(a: string, b: string, c: string)
    ensures (a + b) + c == a + (b + c)
  {
  }

  /** For a fixed list of levels the printed key is injective in the ids. */
  lemma {:induction false} KeyTextInjective(levels: seq<string>, a: seq<nat>, b: seq<nat>)
    requires |a| == |b| == |levels|
    requires KeyText(levels, a) == KeyText(levels, b)
    ensures a == b
    decreases |levels|
  {
    if levels != [] {
      var k := |levels| - 1;
      KeyTextUnfold(levels, a);
      KeyTextUnfold(levels, b);
      KeyPartsInjective(levels[k] + "_", a[k], KeyText(levels[..k], a[..k]), b[k], KeyText(levels[..k], b[..k]));
      KeyTextInjective(levels[..k], a[..k], b[..k]);
      assert a == a[..k] + [a[k]] && b == b[..k] + [b[k]];
    }
  }

  /** Sessions of one node, whose levels and sizes agree, have equal keys only if they are equal. */
  lemma KeyIdentifiesSession(m: Metadata, n: Metadata)
    requires Valid(m) && Valid(n) && m.levels == n.levels && Sizes(m) == Sizes(n)
    requires Key(m) == Key(n)
    ensures m == n
  {
    KeyTextInjective(m.levels, Ids(m), Ids(n));
    forall l | l in m.details ensures m.details[l] == n.details[l] {
      var i :| 0 <= i < |m.levels| && m.levels[i] == l;
      assert Ids(m)[i] == Ids(n)[i] && Sizes(m)[i] == Sizes(n)[i];
    }
    assert m.details == n.details;
  }
}
