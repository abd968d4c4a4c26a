/** Binding group set levels and interpolating member names (src/template.rs:152-270). */
module Interpolation {
  import opened Wrappers
  import Names
  import opened Texts
  import opened Templates
  import opened TemplateParsing

  const MAX_PATH_LEN: nat := 4095

  datatype InterpolateError = PartTooLong(n: nat) | PathTooLong(n: nat) | InvalidPart(c: string)

  /** Every level used is one of the first `n`. */
  predicate Bound(ps: seq<Piece>, n: nat) {
    forall p <- ps | p.Level? :: p.level < n
  }

  predicate AllBound(cs: seq<seq<Piece>>, n: nat) {
    forall ps <- cs :: Bound(ps, n)
  }

  function Substitute(p: Piece, levels: seq<string>, name: string): string
    requires p.Level? ==> p.level < |levels|
  {
    match p
    case Literal(t) => t
    case Name => name
    case Level(l) => levels[l]
  }

  /** Every placeholder of a component substituted at once. */
  function Fill(ps: seq<Piece>, levels: seq<string>, name: string): string
    requires Bound(ps, |levels|)
  {
    if ps == [] then "" else Substitute(ps[0], levels, name) + Fill(ps[1..], levels, name)
  }

  function FillAll(cs: seq<seq<Piece>>, levels: seq<string>, name: string): (r: seq<string>)
    requires AllBound(cs, |levels|)
    ensures |r| == |cs| && forall i | 0 <= i < |r| :: r[i] == Fill(cs[i], levels, name)
  {
    seq(|cs|, i requires 0 <= i < |cs| => Fill(cs[i], levels, name))
  }

  // ----- Level names -----

  /** What `{name}` and a valid name have in common: a text that makes no component special. */
  predicate Tame(s: string) {
    s != "" && s[0] != '.' && GoodText(s)
  }

  lemma NameIsTame(n: Names.Name)
    ensures Tame(n) && BraceFree(n)
  {
    assert forall c <- n :: Names.IsAllowed(c);
  }

  predicate AreNames(levels: seq<string>) {
    forall l <- levels :: Names.ValidName(l)
  }

  // ----- Depth -----

  function PartDepth(ps: seq<Piece>): nat {
    if ps == [] then 0
    else
      var rest := PartDepth(ps[1..]);
      if ps[0].Level? && ps[0].level + 1 > rest then ps[0].level + 1 else rest
  }

  function Depth(cs: seq<seq<Piece>>): nat {
    if cs == [] then 0
    else
      var first, rest := PartDepth(cs[0]), Depth(cs[1..]);
      if first > rest then first else rest
  }

  lemma {:induction false} PartDepthIsExact(ps: seq<Piece>, n: nat)
    ensures PartDepth(ps) <= n <==> Bound(ps, n)
  {
    if ps != [] {
      PartDepthIsExact(ps[1..], n);
      assert ps == [ps[0]] + ps[1..];
    }
  }

  /** A template can be bound with `n` level names iff its depth is at most `n`. */
  lemma {:induction false} DepthIsExact(cs: seq<seq<Piece>>, n: nat)
    ensures Depth(cs) <= n <==> AllBound(cs, n)
  {
    if cs != [] {
      PartDepthIsExact(cs[0], n);
      DepthIsExact(cs[1..], n);
      assert cs == [cs[0]] + cs[1..];
    }
  }

  // ----- Binding -----

  function BindPart(ps: seq<Piece>, levels: seq<string>): seq<Piece>
    requires Bound(ps, |levels|)
  {
    if ps == [] then []
    else
      var rest := BindPart(ps[1..], levels);
      if ps[0].Name? then [Name] + rest else Prepend(Substitute(ps[0], levels, ""), rest)
  }

  function BindParts(cs: seq<seq<Piece>>, levels: seq<string>): Result<seq<seq<Piece>>, InterpolateError>
    requires AllBound(cs, |levels|)
  {
    if cs == [] then Ok([])
    else
      var bound := BindPart(cs[0], levels);
      if Name !in bound && |Unparse(bound)| > Names.MAX_NAME_LEN then Err(PartTooLong(|Unparse(bound)|))
      else
        match BindParts(cs[1..], levels)
        case Err(e) => Err(e)
        case Ok(rest) => Ok([bound] + rest)
  }

  function BindLevels(t: Template, levels: seq<string>): Result<Template, InterpolateError>
    requires AllBound(t.components, |levels|)
  {
    match BindParts(t.components, levels)
    case Err(e) => Err(e)
    case Ok(cs) => Ok(Template(Join(PartTexts(cs)), cs))
  }

  lemma {:induction false} FillPrepend(t: string, ps: seq<Piece>, levels: seq<string>, name: string)
    requires Bound(ps, |levels|)
    ensures Bound(Prepend(t, ps), |levels|) && Fill(Prepend(t, ps), levels, name) == t + Fill(ps, levels, name)
  {
  }

  /** Binding first and interpolating then is substituting everything at once. */
  lemma {:induction false} BindPartFills(ps: seq<Piece>, levels: seq<string>, name: string)
    requires Bound(ps, |levels|)
    ensures var b := BindPart(ps, levels); Bound(b, 0) && Fill(b, [], name) == Fill(ps, levels, name)
  {
    if ps != [] {
      BindPartFills(ps[1..], levels, name);
      var rest := BindPart(ps[1..], levels);
      if ps[0].Name? {
        assert ([Name] + rest)[1..] == rest;
      } else {
        FillPrepend(Substitute(ps[0], levels, ""), rest, [], name);
      }
    }
  }

  lemma {:induction false} FillWithToken(ps: seq<Piece>)
    requires Bound(ps, 0)
    ensures Fill(ps, [], NAME_TEXT) == Unparse(ps)
  {
    if ps != [] {
      FillWithToken(ps[1..]);
    }
  }

  lemma {:induction false} BindPartNormal(ps: seq<Piece>, levels: seq<string>)
    requires Bound(ps, |levels|) && Normal(ps) && AreNames(levels)
    ensures var b := BindPart(ps, levels); Normal(b) && (Name in b <==> Name in ps)
  {
    if ps != [] {
      NormalRest(ps);
      BindPartNormal(ps[1..], levels);
      var rest := BindPart(ps[1..], levels);
      assert ps == [ps[0]] + ps[1..];
      if ps[0].Name? {
        NormalTail(Name, rest);
      } else {
        if ps[0].Level? {
          NameIsTame(levels[ps[0].level]);
        }
        NormalPrepend(Substitute(ps[0], levels, ""), rest);
        PrependKeepsName(Substitute(ps[0], levels, ""), rest);
      }
    }
  }

  lemma PrependKeepsName(t: string, ps: seq<Piece>)
    ensures Name in Prepend(t, ps) <==> Name in ps
  {
    if ps != [] {
      assert ps == [ps[0]] + ps[1..];
    }
  }

  // ----- Filled components stay plain -----

  predicate AllDots(s: string) {
    forall c <- s :: c == '.'
  }

  /** Only literals can make up a text of dots, and then it is the text itself. */
  lemma {:induction false} DotsAreLiteral(ps: seq<Piece>, levels: seq<string>, name: string)
    requires Bound(ps, |levels|) && Tame(name) && AreNames(levels)
    requires AllDots(Fill(ps, levels, name))
    ensures Unparse(ps) == Fill(ps, levels, name)
  {
    if ps != [] {
      DotsApart(Substitute(ps[0], levels, name), Fill(ps[1..], levels, name));
      DotsAreLiteral(ps[1..], levels, name);
      PlaceholderNotDots(ps[0], levels, name);
    }
  }

  lemma DotsApart(a: string, b: string)
    requires AllDots(a + b)
    ensures AllDots(a) && AllDots(b)
  {
    assert forall c <- a :: c in a + b;
    assert forall c <- b :: c in a + b;
  }

  lemma PlaceholderNotDots(p: Piece, levels: seq<string>, name: string)
    requires p.Level? ==> p.level < |levels|
    requires Tame(name) && AreNames(levels)
    ensures !p.Literal? ==> !AllDots(Substitute(p, levels, name))
  {
    var s := Substitute(p, levels, name);
    if p.Level? {
      NameIsTame(levels[p.level]);
    }
    if !p.Literal? {
      assert s[0] in s;
    }
  }

  lemma {:induction false} LiteralsAreGood(ps: seq<Piece>)
    requires GoodText(Unparse(ps))
    ensures forall p <- ps | p.Literal? :: GoodText(p.text)
  {
    if ps != [] {
      var first, rest := PieceText(ps[0]), Unparse(ps[1..]);
      assert forall c <- first :: c in first + rest;
      assert forall c <- rest :: c in first + rest;
      LiteralsAreGood(ps[1..]);
      assert ps == [ps[0]] + ps[1..];
    }
  }

  lemma {:induction false} FillIsGood(ps: seq<Piece>, levels: seq<string>, name: string)
    requires Bound(ps, |levels|) && GoodText(name) && AreNames(levels)
    requires forall p <- ps | p.Literal? :: GoodText(p.text)
    ensures GoodText(Fill(ps, levels, name))
  {
    if ps != [] {
      FillIsGood(ps[1..], levels, name);
      if ps[0].Level? {
        NameIsTame(levels[ps[0].level]);
      }
    }
  }

  lemma {:induction false} FillNotEmpty(ps: seq<Piece>, levels: seq<string>, name: string)
    requires Bound(ps, |levels|) && Normal(ps) && ps != [] && name != "" && AreNames(levels)
    ensures Fill(ps, levels, name) != ""
  {
    assert ps[0] in ps;
    if ps[0].Level? {
      NameIsTame(levels[ps[0].level]);
    }
    assert Substitute(ps[0], levels, name) != "";
  }

  /** No substitution of valid names makes a component empty, `.`, `..` or two components. */
  lemma FillIsPlain(ps: seq<Piece>, levels: seq<string>, name: string)
    requires GoodPart(ps, true) && GoodText(Unparse(ps)) && Bound(ps, |levels|)
    requires Tame(name) && AreNames(levels)
    ensures Plain(Fill(ps, levels, name)) && GoodText(Fill(ps, levels, name))
  {
    FillNotEmpty(ps, levels, name);
    LiteralsAreGood(ps);
    FillIsGood(ps, levels, name);
    if AllDots(Fill(ps, levels, name)) {
      DotsAreLiteral(ps, levels, name);
    }
  }

  // ----- Bound templates are parse-stable -----

  lemma BoundTextIsPlain(ps: seq<Piece>, levels: seq<string>)
    requires GoodPart(ps, true) && GoodText(Unparse(ps)) && Bound(ps, |levels|) && AreNames(levels)
    ensures var c := Unparse(BindPart(ps, levels)); Plain(c) && GoodText(c)
  {
    BindPartFills(ps, levels, NAME_TEXT);
    FillWithToken(BindPart(ps, levels));
    FillIsPlain(ps, levels, NAME_TEXT);
  }

  lemma BoundPartIsGood(ps: seq<Piece>, levels: seq<string>)
    requires GoodPart(ps, true) && GoodText(Unparse(ps)) && Bound(ps, |levels|) && AreNames(levels)
    requires var b := BindPart(ps, levels); Name in b || |Unparse(b)| <= Names.MAX_NAME_LEN
    ensures var b := BindPart(ps, levels); GoodPart(b, false) && GoodText(Unparse(b))
  {
    var b := BindPart(ps, levels);
    BindPartNormal(ps, levels);
    BindPartFills(ps, levels, "");
    BoundTextIsPlain(ps, levels);
    if forall p <- b :: p.Literal? {
      assert Name !in b;
    }
  }

  lemma {:induction false} BindPartsFacts(cs: seq<seq<Piece>>, levels: seq<string>)
    requires AllBound(cs, |levels|) && AreNames(levels) && BindParts(cs, levels).Ok?
    requires forall ps <- cs :: GoodPart(ps, true) && GoodText(Unparse(ps))
    ensures var bs := BindParts(cs, levels).value;
      && |bs| == |cs| && (forall i | 0 <= i < |cs| :: bs[i] == BindPart(cs[i], levels))
      && (forall ps <- bs :: GoodPart(ps, false) && GoodText(Unparse(ps)))
  {
    if cs != [] {
      BindPartsFacts(cs[1..], levels);
      BoundPartIsGood(cs[0], levels);
    }
  }

  lemma BoundHasName(cs: seq<seq<Piece>>, levels: seq<string>)
    requires AllBound(cs, |levels|) && AreNames(levels) && BindParts(cs, levels).Ok? && HasName(cs)
    requires forall ps <- cs :: GoodPart(ps, true) && GoodText(Unparse(ps))
    ensures HasName(BindParts(cs, levels).value)
  {
    BindPartsFacts(cs, levels);
    var ps :| ps in cs && Name in ps;
    var i :| 0 <= i < |cs| && cs[i] == ps;
    BindPartNormal(ps, levels);
    assert BindParts(cs, levels).value[i] == BindPart(ps, levels);
  }

  /**
   * A bound template is the template its own text parses to, and interpolating it
   * substitutes every placeholder of the original at once.
   */
  lemma BindIsParseStable(t: Template, levels: seq<string>, name: Names.Name)
    requires Valid(t, true) && AllBound(t.components, |levels|) && AreNames(levels)
    requires BindLevels(t, levels).Ok?
    ensures var b := BindLevels(t, levels).value;
      && Valid(b, false)
      && ParseTemplate(b.raw, false) == Ok(b)
      && AllBound(b.components, 0)
      && FillAll(b.components, [], name) == FillAll(t.components, levels, name)
  {
    var b := BindLevels(t, levels).value;
    BindPartsFacts(t.components, levels);
    BoundHasName(t.components, levels);
    ParseIsExact(b.raw, b, false);
    forall i | 0 <= i < |b.components|
      ensures Bound(b.components[i], 0) && Fill(b.components[i], [], name) == Fill(t.components[i], levels, name)
    {
      BindPartFills(t.components[i], levels, name);
    }
    assert forall ps <- b.components :: Bound(ps, 0);
  }

  /** Binding fails exactly when a component without `{name}` gets too long. */
  lemma {:induction false} BindFailsExactly(cs: seq<seq<Piece>>, levels: seq<string>)
    requires AllBound(cs, |levels|) && AreNames(levels) && forall ps <- cs :: Normal(ps)
    ensures BindParts(cs, levels).Err? <==> exists ps <- cs :: Name !in ps && |Fill(ps, levels, "")| > Names.MAX_NAME_LEN
  {
    if cs != [] {
      BindFailsExactly(cs[1..], levels);
      var b := BindPart(cs[0], levels);
      BindPartNormal(cs[0], levels);
      BindPartFills(cs[0], levels, "");
      if Name !in b {
        FillNameless(b, "");
      }
      assert cs == [cs[0]] + cs[1..];
    }
  }

  lemma {:induction false} FillNameless(ps: seq<Piece>, name: string)
    requires Bound(ps, 0) && Name !in ps
    ensures Fill(ps, [], name) == Unparse(ps)
  {
    if ps != [] {
      FillNameless(ps[1..], name);
    }
  }

  // ----- Interpolation -----

  function Components(cs: seq<seq<Piece>>, name: string): Result<seq<string>, InterpolateError>
    requires AllBound(cs, 0)
  {
    if cs == [] then Ok([])
    else
      var c := Fill(cs[0], [], name);
      if |c| > Names.MAX_NAME_LEN then Err(PartTooLong(|c|))
      else if !Plain(c) || '/' in c then Err(InvalidPart(c))
      else
        match Components(cs[1..], name)
        case Err(e) => Err(e)
        case Ok(rest) => Ok([c] + rest)
  }

  function Interpolate(t: Template, name: Names.Name): Result<string, InterpolateError>
    requires AllBound(t.components, 0)
  {
    match Components(t.components, name)
    case Err(e) => Err(e)
    case Ok(cs) => if |Join(cs)| > MAX_PATH_LEN then Err(PathTooLong(|Join(cs)|)) else Ok(Join(cs))
  }

  lemma TextsArePlain(cs: seq<seq<Piece>>, name: Names.Name)
    requires AllBound(cs, 0) && forall ps <- cs :: GoodPart(ps, false) && GoodText(Unparse(ps))
    ensures forall i | 0 <= i < |cs| :: Plain(Fill(cs[i], [], name)) && GoodText(Fill(cs[i], [], name))
  {
    NameIsTame(name);
    forall i | 0 <= i < |cs| ensures Plain(Fill(cs[i], [], name)) && GoodText(Fill(cs[i], [], name)) {
      assert cs[i] in cs;
      FillIsPlain(cs[i], [], name);
    }
  }

  lemma ComponentsFacts(cs: seq<seq<Piece>>, name: Names.Name)
    requires AllBound(cs, 0) && forall ps <- cs :: GoodPart(ps, false) && GoodText(Unparse(ps))
    ensures var r, texts := Components(cs, name), FillAll(cs, [], name);
      if AllShort(texts) then r == Ok(texts) else r.Err? && r.error.PartTooLong?
    ensures forall c <- FillAll(cs, [], name) :: Plain(c) && GoodText(c)
  {
    TextsArePlain(cs, name);
    ComponentsOfPlain(cs, name);
  }

  predicate AllShort(texts: seq<string>) {
    forall c <- texts :: |c| <= Names.MAX_NAME_LEN
  }

  lemma AllShortCons(c: string, rest: seq<string>)
    ensures AllShort([c] + rest) <==> |c| <= Names.MAX_NAME_LEN && AllShort(rest)
  {
    assert ([c] + rest)[0] == c;
    assert forall x <- rest :: x in [c] + rest;
  }

  lemma {:induction false} ComponentsOfPlain(cs: seq<seq<Piece>>, name: string)
    requires AllBound(cs, 0)
    requires forall i | 0 <= i < |cs| :: Plain(Fill(cs[i], [], name)) && '/' !in Fill(cs[i], [], name)
    ensures var r, texts := Components(cs, name), FillAll(cs, [], name);
      if AllShort(texts) then r == Ok(texts) else r.Err? && r.error.PartTooLong?
  {
    if cs != [] {
      var first, rest := Fill(cs[0], [], name), FillAll(cs[1..], [], name);
      assert FillAll(cs, [], name) == [first] + rest;
      assert forall i | 0 <= i < |cs| - 1 :: cs[1..][i] == cs[i + 1];
      ComponentsOfPlain(cs[1..], name);
      AllShortCons(first, rest);
    }
  }

  /**
   * Interpolation substitutes the name everywhere; it fails only on lengths, never
   * because a component is not a plain name, and what it yields is a clean path.
   */
  lemma InterpolateIsExact(t: Template, name: Names.Name)
    requires Valid(t, false) && AllBound(t.components, 0)
    ensures var r, texts := Interpolate(t, name), FillAll(t.components, [], name);
      && (r.Ok? <==> |Join(texts)| <= MAX_PATH_LEN && AllShort(texts))
      && (r.Ok? ==> r.value == Join(texts) && CleanRelative(r.value))
      && (r.Err? ==> !r.error.InvalidPart?)
  {
    ComponentsFacts(t.components, name);
    var texts := FillAll(t.components, [], name);
    if Interpolate(t, name).Ok? {
      JoinIsClean(texts);
    }
  }

  // ----- Which targets can coincide -----

  /** `p` is the only placeholder of the component. */
  predicate Sole(ps: seq<Piece>, p: Piece) {
    p in ps && forall q <- ps :: q.Literal? || q == p
  }

  function Count(ps: seq<Piece>): nat {
    if ps == [] then 0 else (if ps[0].Literal? then 0 else 1) + Count(ps[1..])
  }

  function LiteralLength(ps: seq<Piece>): nat {
    if ps == [] then 0 else (if ps[0].Literal? then |ps[0].text| else 0) + LiteralLength(ps[1..])
  }

  lemma {:induction false} FillLength(ps: seq<Piece>, p: Piece, levels: seq<string>, name: string)
    requires Bound(ps, |levels|) && (p.Level? ==> p.level < |levels|)
    requires forall q <- ps :: q.Literal? || q == p
    ensures |Fill(ps, levels, name)| == LiteralLength(ps) + Count(ps) * |Substitute(p, levels, name)|
  {
    if ps != [] {
      FillLength(ps[1..], p, levels, name);
      if !ps[0].Literal? {
        var n := |Substitute(p, levels, name)|;
        assert (1 + Count(ps[1..])) * n == n + Count(ps[1..]) * n;
      }
    }
  }

  lemma {:induction false} CountPositive(ps: seq<Piece>, p: Piece)
    requires p in ps && !p.Literal?
    ensures Count(ps) > 0
  {
    if ps[0] != p {
      assert ps == [ps[0]] + ps[1..];
      CountPositive(ps[1..], p);
    }
  }

  /** A component shows the value of its only placeholder. */
  lemma {:induction false} SoleShows(ps: seq<Piece>, p: Piece, l1: seq<string>, n1: string, l2: seq<string>, n2: string)
    requires !p.Literal? && Sole(ps, p) && Bound(ps, |l1|) && Bound(ps, |l2|)
    requires Fill(ps, l1, n1) == Fill(ps, l2, n2)
    ensures Substitute(p, l1, n1) == Substitute(p, l2, n2)
  {
    FillLength(ps, p, l1, n1);
    FillLength(ps, p, l2, n2);
    CountPositive(ps, p);
    SameFactor(Count(ps), |Substitute(p, l1, n1)|, |Substitute(p, l2, n2)|);
    FirstShows(ps, p, l1, n1, l2, n2);
  }

  lemma SameFactor(k: nat, a: nat, b: nat)
    requires k > 0
    ensures k * a == k * b ==> a == b
  {
    if a < b {
      assert k * b == k * a + k * (b - a);
    } else if b < a {
      assert k * a == k * b + k * (a - b);
    }
  }

  lemma {:induction false} FirstShows(ps: seq<Piece>, p: Piece, l1: seq<string>, n1: string, l2: seq<string>, n2: string)
    requires !p.Literal? && Sole(ps, p) && Bound(ps, |l1|) && Bound(ps, |l2|)
    requires Fill(ps, l1, n1) == Fill(ps, l2, n2)
    requires |Substitute(p, l1, n1)| == |Substitute(p, l2, n2)|
    ensures Substitute(p, l1, n1) == Substitute(p, l2, n2)
  {
    var a, b := Substitute(ps[0], l1, n1), Substitute(ps[0], l2, n2);
    assert ps == [ps[0]] + ps[1..];
    CancelFront(a, Fill(ps[1..], l1, n1), b, Fill(ps[1..], l2, n2));
    if ps[0].Literal? {
      FirstShows(ps[1..], p, l1, n1, l2, n2);
    }
  }

  lemma CancelFront(a: string, x: string, b: string, y: string)
    requires |a| == |b| && a + x == b + y
    ensures a == b && x == y
  {
    assert a == (a + x)[..|a|] && b == (b + y)[..|b|];
    assert x == (a + x)[|a|..] && y == (b + y)[|b|..];
  }

  /** Two members of one group never get the same path. */
  lemma MembersApart(t: Template, a: Names.Name, b: Names.Name)
    requires Valid(t, false) && AllBound(t.components, 0)
    requires Interpolate(t, a).Ok? && Interpolate(t, b).Ok? && a != b
    ensures Interpolate(t, a).value != Interpolate(t, b).value
  {
    var ps :| ps in t.components && Name in ps;
    var i :| 0 <= i < |t.components| && t.components[i] == ps;
    SamePathSameParts(t, a, t, b);
    if Interpolate(t, a) == Interpolate(t, b) {
      assert Fill(ps, [], a) == FillAll(t.components, [], a)[i] == FillAll(t.components, [], b)[i] == Fill(ps, [], b);
      SoleShows(ps, Name, [], a, [], b);
    }
  }

  lemma SamePathSameParts(t: Template, a: Names.Name, u: Template, b: Names.Name)
    requires Valid(t, false) && Valid(u, false) && AllBound(t.components, 0) && AllBound(u.components, 0)
    requires Interpolate(t, a).Ok? && Interpolate(u, b).Ok?
    ensures Interpolate(t, a) == Interpolate(u, b) ==> FillAll(t.components, [], a) == FillAll(u.components, [], b)
  {
    ComponentsFacts(t.components, a);
    ComponentsFacts(u.components, b);
    InterpolateIsExact(t, a);
    InterpolateIsExact(u, b);
    if Interpolate(t, a) == Interpolate(u, b) {
      JoinInjective(FillAll(t.components, [], a), FillAll(u.components, [], b));
    }
  }

  /** Each level has a component in which it is the only kind of placeholder. */
  predicate LevelsShow(cs: seq<seq<Piece>>, depth: nat) {
    forall l: nat | l < depth :: LevelShows(cs, l)
  }

  predicate LevelShows(cs: seq<seq<Piece>>, l: nat) {
    exists ps <- cs :: Sole(ps, Level(l))
  }
}
