/** Exactly when groups collide under one-component templates (src/template.rs:159-265). */
module CollisionFamily {
  import opened Wrappers
  import Names
  import opened Texts
  import opened Templates
  import opened TemplateParsing
  import opened Interpolation
  import opened Collisions

  /** `pre{group}mid{name}post`. */
  function Part(pre: string, mid: string, post: string): seq<Piece> {
    Prepend(pre, [Level(0)] + Prepend(mid, [Name] + Prepend(post, [])))
  }

  function Pattern(pre: string, mid: string, post: string): Template {
    Template(Unparse(Part(pre, mid, post)), [Part(pre, mid, post)])
  }

  predicate Literals(pre: string, mid: string, post: string) {
    && BraceFree(pre) && BraceFree(mid) && BraceFree(post)
    && GoodText(pre) && GoodText(mid) && GoodText(post)
  }

  function Text(pre: string, g: string, mid: string, n: string, post: string): string {
    pre + (g + (mid + (n + post)))
  }

  lemma FillPart(pre: string, mid: string, post: string, g: string, n: string)
    ensures var ps := Part(pre, mid, post);
      Bound(ps, 1) && Fill(ps, [g], n) == Text(pre, g, mid, n, post)
  {
    FillPrepend(post, [], [g], n);
    FillCons(Name, Prepend(post, []), [g], n);
    FillPrepend(mid, [Name] + Prepend(post, []), [g], n);
    FillCons(Level(0), Prepend(mid, [Name] + Prepend(post, [])), [g], n);
    FillPrepend(pre, [Level(0)] + Prepend(mid, [Name] + Prepend(post, [])), [g], n);
    assert post + "" == post;
  }

  lemma PartIsNormal(pre: string, mid: string, post: string)
    requires Literals(pre, mid, post)
    ensures var ps := Part(pre, mid, post); Normal(ps) && Name in ps
  {
    NormalPrepend(post, []);
    NormalTail(Name, Prepend(post, []));
    NormalPrepend(mid, [Name] + Prepend(post, []));
    PrependKeepsName(mid, [Name] + Prepend(post, []));
    NormalTail(Level(0), Prepend(mid, [Name] + Prepend(post, [])));
    NormalPrepend(pre, [Level(0)] + Prepend(mid, [Name] + Prepend(post, [])));
    PrependKeepsName(pre, [Level(0)] + Prepend(mid, [Name] + Prepend(post, [])));
  }

  lemma UnparsePart(pre: string, mid: string, post: string)
    ensures Unparse(Part(pre, mid, post)) == Text(pre, GROUP_TEXT, mid, NAME_TEXT, post)
  {
    var inner := [Name] + Prepend(post, []);
    var outer := [Level(0)] + Prepend(mid, inner);
    UnparsePrepend(post, []);
    UnparsePrepend(mid, inner);
    UnparsePrepend(pre, outer);
    SpellFront(inner, "", PieceText);
    SpellFront(outer, "", PieceText);
    assert inner[1..] == Prepend(post, []) && outer[1..] == Prepend(mid, inner);
    SpellEnds(inner, outer, post, mid);
  }

  lemma SpellEnds(inner: seq<Piece>, outer: seq<Piece>, post: string, mid: string)
    requires inner == [Name] + Prepend(post, []) && outer == [Level(0)] + Prepend(mid, inner)
    requires Unparse(Prepend(post, [])) == post + Unparse([]) && Unparse(Prepend(mid, inner)) == mid + Unparse(inner)
    ensures Unparse(outer) == GROUP_TEXT + (mid + (NAME_TEXT + post))
  {
    assert inner[1..] == Prepend(post, []) && outer[1..] == Prepend(mid, inner);
    assert post + "" == post;
    assert Unparse(inner) == PieceText(Name) + post;
  }

  lemma TextIsGood(pre: string, g: string, mid: string, n: string, post: string)
    requires GoodText(pre) && GoodText(g) && GoodText(mid) && GoodText(n) && GoodText(post)
    ensures GoodText(Text(pre, g, mid, n, post))
  {
  }

  lemma TextLength(pre: string, g: string, mid: string, n: string, post: string)
    ensures |Text(pre, g, mid, n, post)| == |pre| + |g| + |mid| + |n| + |post|
  {
  }

  lemma TokensAreGood()
    ensures GoodText(GROUP_TEXT) && GoodText(NAME_TEXT) && |GROUP_TEXT| == 7 && |NAME_TEXT| == 6
  {
  }

  lemma LongIsPlain(c: string)
    requires |c| > 2
    ensures Plain(c)
  {
  }

  lemma PartText(pre: string, mid: string, post: string)
    requires Literals(pre, mid, post)
    ensures var c := Unparse(Part(pre, mid, post)); Plain(c) && GoodText(c)
  {
    TokensAreGood();
    UnparsePart(pre, mid, post);
    TextIsGood(pre, GROUP_TEXT, mid, NAME_TEXT, post);
    TextLength(pre, GROUP_TEXT, mid, NAME_TEXT, post);
    LongIsPlain(Unparse(Part(pre, mid, post)));
  }

  lemma PartIsGood(pre: string, mid: string, post: string)
    requires Literals(pre, mid, post)
    ensures var ps := Part(pre, mid, post); GoodPart(ps, true) && Name in ps
  {
    PartText(pre, mid, post);
    PartIsNormal(pre, mid, post);
    assert !Name.Literal?;
  }

  /** The pattern is a valid set template of depth one. */
  lemma PatternIsValid(pre: string, mid: string, post: string)
    requires Literals(pre, mid, post)
    ensures var t := Pattern(pre, mid, post); Valid(t, true) && AllBound(t.components, 1)
  {
    var ps := Part(pre, mid, post);
    PartIsGood(pre, mid, post);
    PartText(pre, mid, post);
    FillPart(pre, mid, post, "a", "a");
    OneComponent(ps);
  }

  lemma OneComponent(ps: seq<Piece>)
    requires GoodPart(ps, true) && GoodText(Unparse(ps)) && Name in ps && Bound(ps, 1)
    ensures var t := Template(Unparse(ps), [ps]); Valid(t, true) && AllBound(t.components, 1)
  {
    assert ps in [ps] && PartTexts([ps]) == [Unparse(ps)];
  }

  // ----- Paths of the pattern -----

  /** The path of member `n` in group `g`, unless it is too long for a component. */
  function Path(pre: string, mid: string, post: string, g: Names.Name, n: Names.Name): Option<string> {
    var c := Text(pre, g, mid, n, post);
    if |c| <= Names.MAX_NAME_LEN then Some(c) else None
  }

  lemma PatternBinds(pre: string, mid: string, post: string, g: Names.Name)
    requires Literals(pre, mid, post)
    ensures var t := Pattern(pre, mid, post); AllBound(t.components, 1) && AreNames([g]) && BindLevels(t, [g]).Ok?
  {
    var t := Pattern(pre, mid, post);
    PatternIsValid(pre, mid, post);
    PartIsGood(pre, mid, post);
    assert forall ps <- t.components :: ps == Part(pre, mid, post);
    BindFailsExactly(t.components, [g]);
  }

  /** Binding and interpolating the pattern gives that path. */
  lemma PatternPath(pre: string, mid: string, post: string, g: Names.Name, n: Names.Name)
    requires Literals(pre, mid, post)
    ensures var t := Pattern(pre, mid, post);
      && AllBound(t.components, 1) && BindLevels(t, [g]).Ok? && AllBound(BindLevels(t, [g]).value.components, 0)
      && var r, c := Interpolate(BindLevels(t, [g]).value, n), Path(pre, mid, post, g, n);
         if c.Some? then r == Ok(c.value) else r.Err?
  {
    var t := Pattern(pre, mid, post);
    PatternIsValid(pre, mid, post);
    PatternBinds(pre, mid, post, g);
    BindIsParseStable(t, [g], n);
    InterpolateIsExact(BindLevels(t, [g]).value, n);
    FillPart(pre, mid, post, g, n);
    OneText(Part(pre, mid, post), g, n);
  }

  lemma OneText(ps: seq<Piece>, g: Names.Name, n: Names.Name)
    requires Bound(ps, 1)
    ensures AllBound([ps], 1) && FillAll([ps], [g], n) == [Fill(ps, [g], n)]
    ensures AllShort([Fill(ps, [g], n)]) <==> |Fill(ps, [g], n)| <= Names.MAX_NAME_LEN
    ensures Join([Fill(ps, [g], n)]) == Fill(ps, [g], n)
  {
    var c := Fill(ps, [g], n);
    assert c in [c];
  }

  // ----- When two groups share a path -----

  /** Two groups of a set with this target, and a member of each, get the same path. */
  ghost predicate Collides(pre: string, mid: string, post: string)
    requires Literals(pre, mid, post)
  {
    exists g1: Names.Name, g2: Names.Name, n1: Names.Name, n2: Names.Name :: g1 != g2 && Together(pre, mid, post, g1, n1, g2, n2)
  }

  ghost predicate Together(pre: string, mid: string, post: string, g1: Names.Name, n1: Names.Name, g2: Names.Name, n2: Names.Name) {
    var t := Pattern(pre, mid, post);
    && AllBound(t.components, 1) && BindLevels(t, [g1]).Ok? && BindLevels(t, [g2]).Ok?
    && var b1, b2 := BindLevels(t, [g1]).value, BindLevels(t, [g2]).value;
       && AllBound(b1.components, 0) && AllBound(b2.components, 0)
       && Interpolate(b1, n1).Ok? && Interpolate(b1, n1) == Interpolate(b2, n2)
  }

  lemma TogetherMeans(pre: string, mid: string, post: string, g1: Names.Name, n1: Names.Name, g2: Names.Name, n2: Names.Name)
    requires Literals(pre, mid, post)
    ensures Together(pre, mid, post, g1, n1, g2, n2) <==>
      && |Text(pre, g1, mid, n1, post)| <= Names.MAX_NAME_LEN
      && Text(pre, g1, mid, n1, post) == Text(pre, g2, mid, n2, post)
  {
    PatternPath(pre, mid, post, g1, n1);
    PatternPath(pre, mid, post, g2, n2);
  }

  /** One group's name may run `d` bytes into the literal between: the literal then repeats
      itself after `d` bytes, and what it leaves over may start a name. */
  predicate Shifts(mid: string, d: nat) {
    && d > 0
    && (d <= |mid| ==> (forall i | 0 <= i < |mid| - d :: mid[i] == mid[i + d]) && mid[|mid| - d] != '.')
  }

  predicate CanCollide(pre: string, mid: string, post: string) {
    Allowed(mid) && exists d: nat | d <= Names.MAX_NAME_LEN :: Shifts(mid, d) && |pre| + |mid| + |post| + 2 + d <= Names.MAX_NAME_LEN
  }

  lemma SameMiddle(pre: string, mid: string, post: string, g1: string, n1: string, g2: string, n2: string)
    ensures Text(pre, g1, mid, n1, post) == Text(pre, g2, mid, n2, post) <==> g1 + (mid + n1) == g2 + (mid + n2)
  {
    TextParts(pre, mid, post, g1, n1);
    TextParts(pre, mid, post, g2, n2);
    var m1, m2 := g1 + (mid + n1), g2 + (mid + n2);
    if pre + (m1 + post) == pre + (m2 + post) {
      CancelFront(pre, m1 + post, pre, m2 + post);
      assert |m1| == |m2|;
      CancelFront(m1, post, m2, post);
    }
  }

  lemma TextParts(pre: string, mid: string, post: string, g: string, n: string)
    ensures Text(pre, g, mid, n, post) == pre + ((g + (mid + n)) + post)
  {
    assert g + (mid + (n + post)) == (g + (mid + n)) + post;
  }

  // ----- A collision shifts the literal -----

  /** The second group's name is longer: it runs into what the first has after its own. */
  lemma LongerRunsOn(g1: string, s1: string, g2: string, s2: string) returns (x: string)
    requires g1 + s1 == g2 + s2 && |g1| <= |g2|
    ensures g2 == g1 + x && s1 == x + s2
  {
    x := g2[|g1|..];
    assert g1 == (g1 + s1)[..|g1|] == (g2 + s2)[..|g1|] == g2[..|g1|];
    assert s1 == (g1 + s1)[|g1|..] == (g2 + s2)[|g1|..];
  }

  lemma ShiftedLiteral(mid: string, x: string, n1: Names.Name, n2: Names.Name)
    requires mid + n1 == x + (mid + n2) && x != ""
    ensures Shifts(mid, |x|)
  {
    var d, w := |x|, mid + n1;
    if d <= |mid| {
      forall i | 0 <= i < |mid| - d ensures mid[i] == mid[i + d] {
        assert w[i + d] == mid[i + d] && (x + (mid + n2))[i + d] == (mid + n2)[i] == mid[i];
      }
      assert w[|mid|] == n1[0] && (x + (mid + n2))[|mid|] == (mid + n2)[|mid| - d];
    }
  }

  /** Its bytes are bytes of the name that runs into it. */
  lemma {:induction false} ShiftedIsAllowed(mid: string, x: string, n1: string, n2: string, k: nat)
    requires mid + n1 == x + (mid + n2) && x != "" && Allowed(x) && k < |mid|
    ensures Names.IsAllowed(mid[k])
    decreases k
  {
    assert (mid + n1)[k] == mid[k];
    if k < |x| {
      assert (x + (mid + n2))[k] == x[k] && x[k] in x;
    } else {
      assert (x + (mid + n2))[k] == (mid + n2)[k - |x|] == mid[k - |x|];
      ShiftedIsAllowed(mid, x, n1, n2, k - |x|);
    }
  }

  lemma CollisionShifts(mid: string, g1: Names.Name, n1: Names.Name, g2: Names.Name, n2: Names.Name) returns (d: nat)
    requires g1 + (mid + n1) == g2 + (mid + n2) && g1 != g2 && |g1| <= |g2|
    ensures Allowed(mid) && Shifts(mid, d) && |n1| == |n2| + d
  {
    var x := LongerRunsOn(g1, mid + n1, g2, mid + n2);
    assert x == "" ==> g1 + x == g1;
    forall c <- x ensures Names.IsAllowed(c) {
      assert c in g2;
    }
    forall c <- mid ensures Names.IsAllowed(c) {
      var k :| 0 <= k < |mid| && mid[k] == c;
      ShiftedIsAllowed(mid, x, n1, n2, k);
    }
    ShiftedLiteral(mid, x, n1, n2);
    d := |x|;
    assert |mid + n1| == |x + (mid + n2)|;
  }

  lemma CollidingFits(pre: string, mid: string, post: string, g1: Names.Name, n1: Names.Name, g2: Names.Name, n2: Names.Name)
    requires |Text(pre, g1, mid, n1, post)| <= Names.MAX_NAME_LEN && g1 != g2 && |g1| <= |g2|
    requires Text(pre, g1, mid, n1, post) == Text(pre, g2, mid, n2, post)
    ensures CanCollide(pre, mid, post)
  {
    SameMiddle(pre, mid, post, g1, n1, g2, n2);
    var d := CollisionShifts(mid, g1, n1, g2, n2);
    TextLength(pre, g1, mid, n1, post);
    assert |pre| + |mid| + |post| + 2 + d <= Names.MAX_NAME_LEN;
  }

  // ----- A shift makes a collision -----

  function Filler(k: nat): string {
    seq(k, i requires 0 <= i < k => 'a')
  }

  /** What the second group's name has more than the first's, and what the first member's name then begins with. */
  function Extra(mid: string, d: nat): string
    requires Shifts(mid, d)
  {
    if d <= |mid| then mid[..d] else mid + Filler(d - |mid|)
  }

  function Rest(mid: string, d: nat): string
    requires Shifts(mid, d)
  {
    if d <= |mid| then mid[|mid| - d..] else Filler(d - |mid|) + mid
  }

  lemma ExtraRest(mid: string, d: nat)
    requires Shifts(mid, d)
    ensures mid + Rest(mid, d) == Extra(mid, d) + mid && |Extra(mid, d)| == d && |Rest(mid, d)| == d
  {
    if d <= |mid| {
      var a, b := mid + mid[|mid| - d..], mid[..d] + mid;
      forall k | 0 <= k < |a| ensures a[k] == b[k] {
        if d <= k < |mid| {
          assert mid[k - d] == mid[k - d + d];
        }
      }
    } else {
      assert mid + (Filler(d - |mid|) + mid) == mid + Filler(d - |mid|) + mid;
    }
  }

  lemma ExtraIsName(mid: string, d: nat)
    requires Shifts(mid, d) && Allowed(mid) && d + 1 <= Names.MAX_NAME_LEN
    ensures Names.ValidName("a" + Extra(mid, d)) && Names.ValidName(Rest(mid, d) + "b")
  {
    ExtraRest(mid, d);
    assert Allowed(Filler(if d > |mid| then d - |mid| else 0));
    assert forall c <- Extra(mid, d) :: Names.IsAllowed(c);
    assert forall c <- Rest(mid, d) :: Names.IsAllowed(c);
    assert Rest(mid, d)[0] != '.';
  }

  lemma ShiftCollides(pre: string, mid: string, post: string, d: nat)
    requires Literals(pre, mid, post) && Allowed(mid) && Shifts(mid, d) && |pre| + |mid| + |post| + 2 + d <= Names.MAX_NAME_LEN
    ensures Collides(pre, mid, post)
  {
    ExtraIsName(mid, d);
    ExtraRest(mid, d);
    var g1: Names.Name, g2: Names.Name, n1: Names.Name, n2: Names.Name := "a", "a" + Extra(mid, d), Rest(mid, d) + "b", "b";
    MiddleMeets(mid, Extra(mid, d), Rest(mid, d));
    SameMiddle(pre, mid, post, g1, n1, g2, n2);
    TextLength(pre, g1, mid, n1, post);
    TogetherMeans(pre, mid, post, g1, n1, g2, n2);
    assert |g1| != |g2|;
  }

  lemma MiddleMeets(mid: string, x: string, r: string)
    requires mid + r == x + mid
    ensures "a" + (mid + (r + "b")) == ("a" + x) + (mid + "b")
  {
    assert "a" + (mid + (r + "b")) == "a" + (mid + r) + "b";
    assert ("a" + x) + (mid + "b") == "a" + (x + mid) + "b";
  }

  /**
   * Groups collide under `pre{group}mid{name}post` if and only if `mid` holds only bytes
   * that names hold and the shortest names that meet fit: some `d` fits beside the literals
   * and two bytes, such that `mid` repeats itself after `d` bytes, or is shorter than that.
   */
  lemma CollisionIsExact(pre: string, mid: string, post: string)
    requires Literals(pre, mid, post)
    ensures Collides(pre, mid, post) <==> CanCollide(pre, mid, post)
  {
    if Collides(pre, mid, post) {
      var g1: Names.Name, g2: Names.Name, n1: Names.Name, n2: Names.Name :| g1 != g2 && Together(pre, mid, post, g1, n1, g2, n2);
      TogetherMeans(pre, mid, post, g1, n1, g2, n2);
      if |g1| <= |g2| {
        CollidingFits(pre, mid, post, g1, n1, g2, n2);
      } else {
        CollidingFits(pre, mid, post, g2, n2, g1, n1);
      }
    }
    if CanCollide(pre, mid, post) {
      var d: nat :| d <= Names.MAX_NAME_LEN && Shifts(mid, d) && |pre| + |mid| + |post| + 2 + d <= Names.MAX_NAME_LEN;
      ShiftCollides(pre, mid, post, d);
    }
  }

  /** Unless the literals nearly fill the component, allowed bytes between are enough. */
  lemma ShortLiteralsCollide(pre: string, mid: string, post: string)
    requires Literals(pre, mid, post) && Allowed(mid) && |pre| + 2 * |mid| + |post| + 3 <= Names.MAX_NAME_LEN
    ensures Collides(pre, mid, post)
  {
    ShiftCollides(pre, mid, post, |mid| + 1);
  }

  lemma PatternDepth(mid: string)
    ensures Depth(Pattern("", mid, "").components) == 1
  {
    var cs := Pattern("", mid, "").components;
    FillPart("", mid, "", "a", "a");
    assert forall ps <- cs :: ps == Part("", mid, "");
    DepthIsExact(cs, 1);
    DepthIsExact(cs, 0);
    assert cs[0] in cs && cs[0][0] == Level(0) && Level(0) in cs[0];
  }

  /** `{group}-{name}` passes every check on set templates, yet two groups share a target. */
  lemma GroupsCanCollide() returns (t: Template, l1: seq<string>, l2: seq<string>, a: Names.Name, b: Names.Name)
    ensures t.raw == Text("", GROUP_TEXT, "-", NAME_TEXT, "")
    ensures Valid(t, true) && AreNames(l1) && AreNames(l2) && |l1| == |l2| == 1 && l1 != l2
    ensures Depth(t.components) == 1 && AllBound(t.components, 1)
    ensures BindLevels(t, l1).Ok? && BindLevels(t, l2).Ok?
    ensures var b1, b2 := BindLevels(t, l1).value, BindLevels(t, l2).value;
      && AllBound(b1.components, 0) && AllBound(b2.components, 0)
      && Interpolate(b1, a).Ok? && Interpolate(b1, a) == Interpolate(b2, b)
  {
    ShortLiteralsCollide("", "-", "");
    t := Pattern("", "-", "");
    PatternIsValid("", "-", "");
    UnparsePart("", "-", "");
    PatternDepth("-");
    var g1: Names.Name, g2: Names.Name, n1: Names.Name, n2: Names.Name :| g1 != g2 && Together("", "-", "", g1, n1, g2, n2);
    l1, l2, a, b := [g1], [g2], n1, n2;
    assert l1[0] == g1 && l2[0] == g2;
  }
}
