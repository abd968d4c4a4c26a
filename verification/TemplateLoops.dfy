/** The loops of src/template.rs over parsed templates, each tied to its specification. */
module TemplateLoops {
  import opened Wrappers
  import Names
  import opened Texts
  import opened Templates
  import opened TemplateParsing
  import opened Interpolation

  // ----- Binding -----

  /** Text extends a literal at the end of the pieces bound so far. */
  function Push(bound: seq<Piece>, t: string): seq<Piece> {
    if bound != [] && bound[|bound| - 1].Literal? then
      bound[..|bound| - 1] + [Literal(bound[|bound| - 1].text + t)]
    else bound + [Literal(t)]
  }

  function PushPiece(bound: seq<Piece>, p: Piece, levels: seq<string>): seq<Piece>
    requires p.Level? ==> p.level < |levels|
  {
    if p.Name? then bound + [Name] else Push(bound, Substitute(p, levels, ""))
  }

  lemma PushPrepend(s: string, ps: seq<Piece>, t: string)
    requires s != "" && t != ""
    ensures Push(Prepend(s, ps), t) == Prepend(s, Push(ps, t))
  {
    if |ps| == 1 && ps[0].Literal? {
      PushPrependOne(s, ps[0].text, t);
    } else if ps != [] {
      PushPrependMany(s, ps, t);
    }
  }

  lemma PushPrependOne(s: string, u: string, t: string)
    requires s != ""
    ensures Push(Prepend(s, [Literal(u)]), t) == Prepend(s, Push([Literal(u)], t))
  {
    assert s + (u + t) == s + u + t;
  }

  lemma PushPrependMany(s: string, ps: seq<Piece>, t: string)
    requires s != "" && (|ps| > 1 || (|ps| == 1 && !ps[0].Literal?))
    ensures Push(Prepend(s, ps), t) == Prepend(s, Push(ps, t))
  {
    var with, pushed := Prepend(s, ps), Push(ps, t);
    assert with[|with| - 1] == ps[|ps| - 1] && pushed[0] == ps[0];
    assert Push(with, t) == Prepend(s, pushed);
  }

  lemma PushName(s: string, ps: seq<Piece>)
    ensures Prepend(s, ps) + [Name] == Prepend(s, ps + [Name])
  {
  }

  lemma PushAfterName(ps: seq<Piece>, t: string)
    ensures Push([Name] + ps, t) == [Name] + Push(ps, t)
  {
  }

  lemma {:induction false} BindSnoc(ps: seq<Piece>, p: Piece, levels: seq<string>)
    requires Bound(ps + [p], |levels|) && Normal(ps + [p]) && AreNames(levels)
    ensures Bound(ps, |levels|) && Normal(ps) && (p.Level? ==> p.level < |levels|)
    ensures BindPart(ps + [p], levels) == PushPiece(BindPart(ps, levels), p, levels)
  {
    SnocFacts(ps, p, |levels|);
    if ps == [] {
      assert ps + [p] == [p] && [p][1..] == [];
      if !p.Name? {
        SubstituteNotEmpty(p, levels);
      }
    } else {
      var q, rest := ps[0], ps[1..];
      assert (ps + [p])[0] == q && (ps + [p])[1..] == rest + [p];
      NormalRest(ps + [p]);
      BindSnoc(rest, p, levels);
      BindStepPush(q, BindPart(rest, levels), p, rest, levels);
    }
  }

  lemma SnocFacts(ps: seq<Piece>, p: Piece, n: nat)
    requires Bound(ps + [p], n) && Normal(ps + [p])
    ensures Bound(ps, n) && Normal(ps) && p in ps + [p] && (p.Level? ==> p.level < n)
    ensures ps != [] ==> ps[0] in ps + [p]
  {
    assert forall q <- ps :: q in ps + [p];
    assert (ps + [p])[|ps|] == p;
    assert forall i | 0 <= i < |ps| :: (ps + [p])[i] == ps[i];
  }

  lemma SubstituteNotEmpty(p: Piece, levels: seq<string>)
    requires (p.Literal? ==> p.text != "") && (p.Level? ==> p.level < |levels|) && AreNames(levels) && !p.Name?
    ensures Substitute(p, levels, "") != ""
  {
    if p.Level? {
      NameIsTame(levels[p.level]);
    }
  }

  lemma BindStepPush(q: Piece, bound: seq<Piece>, p: Piece, rest: seq<Piece>, levels: seq<string>)
    requires Bound(rest, |levels|) && Normal(rest) && AreNames(levels) && bound == BindPart(rest, levels)
    requires (q.Level? ==> q.level < |levels|) && (p.Level? ==> p.level < |levels|)
    requires (q.Literal? ==> q.text != "") && (p.Literal? ==> p.text != "")
    ensures var with := (ps: seq<Piece>) => if q.Name? then [Name] + ps else Prepend(Substitute(q, levels, ""), ps);
      PushPiece(with(bound), p, levels) == with(PushPiece(bound, p, levels))
  {
    BindPartNormal(rest, levels);
    if q.Name? {
      PushAfterName(bound, Substitute(p, levels, ""));
      assert [Name] + bound + [Name] == [Name] + (bound + [Name]);
    } else {
      SubstituteNotEmpty(q, levels);
      if p.Name? {
        PushName(Substitute(q, levels, ""), bound);
      } else {
        SubstituteNotEmpty(p, levels);
        PushPrepend(Substitute(q, levels, ""), bound, Substitute(p, levels, ""));
      }
    }
  }

  lemma {:induction false} FillConcat(a: seq<Piece>, b: seq<Piece>, name: string)
    requires Bound(a, 0) && Bound(b, 0)
    ensures Bound(a + b, 0) && Fill(a + b, [], name) == Fill(a, [], name) + Fill(b, [], name)
  {
    if a == [] {
      assert a + b == b;
    } else {
      FillConcat(a[1..], b, name);
      assert (a + b)[1..] == a[1..] + b;
    }
  }

  lemma FillPush(bound: seq<Piece>, t: string, name: string)
    requires Bound(bound, 0)
    ensures Bound(Push(bound, t), 0) && Fill(Push(bound, t), [], name) == Fill(bound, [], name) + t
  {
    if bound != [] && bound[|bound| - 1].Literal? {
      var front, last := bound[..|bound| - 1], bound[|bound| - 1].text;
      assert bound == front + [Literal(last)];
      FillLiteral(front, last, name);
      FillLiteral(front, last + t, name);
    } else {
      FillLiteral(bound, t, name);
    }
  }

  lemma FillLiteral(ps: seq<Piece>, t: string, name: string)
    requires Bound(ps, 0)
    ensures Bound(ps + [Literal(t)], 0) && Fill(ps + [Literal(t)], [], name) == Fill(ps, [], name) + t
  {
    var one := [Literal(t)];
    assert one[1..] == [];
    FillConcat(ps, one, name);
  }

  method BindComponent(ps: seq<Piece>, levels: seq<string>) returns (bound: seq<Piece>, raw: string)
    requires Bound(ps, |levels|) && Normal(ps) && AreNames(levels)
    ensures bound == BindPart(ps, levels) && raw == Unparse(bound)
  {
    bound, raw := [], "";
    for i := 0 to |ps|
      invariant bound == BindPart(ps[..i], levels) && Bound(bound, 0)
      invariant raw == Fill(bound, [], NAME_TEXT)
    {
      PrefixStep(ps, i, levels);
      if ps[i].Name? {
        FillConcat(bound, [Name], NAME_TEXT);
        assert Fill([Name], [], NAME_TEXT) == NAME_TEXT;
        raw, bound := raw + NAME_TEXT, bound + [Name];
      } else {
        var text := Substitute(ps[i], levels, "");
        FillPush(bound, text, NAME_TEXT);
        raw, bound := raw + text, Push(bound, text);
      }
    }
    assert ps[..|ps|] == ps;
    FillWithToken(bound);
  }

  lemma PrefixStep(ps: seq<Piece>, i: nat, levels: seq<string>)
    requires i < |ps| && Bound(ps, |levels|) && Normal(ps) && AreNames(levels)
    ensures ps[i].Level? ==> ps[i].level < |levels|
    ensures BindPart(ps[..i + 1], levels) == PushPiece(BindPart(ps[..i], levels), ps[i], levels)
  {
    NormalPrefix(ps, i + 1);
    Snoc(ps, i);
    BindSnoc(ps[..i], ps[i], levels);
  }

  lemma Snoc(ps: seq<Piece>, i: nat)
    requires i < |ps|
    ensures ps[..i + 1] == ps[..i] + [ps[i]]
  {
  }

  lemma NormalPrefix(ps: seq<Piece>, i: nat)
    requires i <= |ps| && Normal(ps)
    ensures Normal(ps[..i])
  {
    var qs := ps[..i];
    assert forall q <- qs :: q in ps;
    assert forall k | 0 <= k < |qs| :: qs[k] == ps[k];
  }

  function Onto(done: seq<seq<Piece>>, r: Result<seq<seq<Piece>>, InterpolateError>): Result<seq<seq<Piece>>, InterpolateError> {
    match r
    case Ok(rest) => Ok(done + rest)
    case Err(e) => Err(e)
  }

  lemma BindStep(whole: Result<seq<seq<Piece>>, InterpolateError>, done: seq<seq<Piece>>, cs: seq<seq<Piece>>, i: nat, levels: seq<string>)
    requires i < |cs| && AllBound(cs, |levels|) && whole == Onto(done, BindParts(cs[i..], levels))
    ensures var bound := BindPart(cs[i], levels);
      if Name !in bound && |Unparse(bound)| > Names.MAX_NAME_LEN then whole == Err(PartTooLong(|Unparse(bound)|))
      else whole == Onto(done + [bound], BindParts(cs[i + 1..], levels))
  {
    assert cs[i..][0] == cs[i] && cs[i..][1..] == cs[i + 1..];
    var bound, rest := BindPart(cs[i], levels), BindParts(cs[i + 1..], levels);
    if rest.Ok? {
      assert done + ([bound] + rest.value) == done + [bound] + rest.value;
    }
  }

  method Bind(t: Template, levels: seq<string>) returns (r: Result<Template, InterpolateError>)
    requires Valid(t, true) && AreNames(levels) && Depth(t.components) <= |levels|
    ensures AllBound(t.components, |levels|) && r == BindLevels(t, levels)
  {
    DepthIsExact(t.components, |levels|);
    var components: seq<seq<Piece>>, rawParts: seq<string> := [], [];
    ghost var whole := BindParts(t.components, levels);
    assert t.components[0..] == t.components && (whole.Ok? ==> [] + whole.value == whole.value);
    for i := 0 to |t.components|
      invariant whole == Onto(components, BindParts(t.components[i..], levels))
      invariant rawParts == PartTexts(components)
    {
      assert t.components[i] in t.components;
      BindStep(whole, components, t.components, i, levels);
      assert PartTexts(components + [BindPart(t.components[i], levels)]) == PartTexts(components) + [Unparse(BindPart(t.components[i], levels))];
      var bound, raw := BindComponent(t.components[i], levels);
      if Name !in bound && |raw| > Names.MAX_NAME_LEN {
        return Err(PartTooLong(|raw|));
      }
      components, rawParts := components + [bound], rawParts + [raw];
    }
    assert components + [] == components;
    r := Ok(Template(Join(rawParts), components));
  }

  // ----- Interpolation -----

  method FillComponent(ps: seq<Piece>, name: string) returns (c: string)
    requires Bound(ps, 0)
    ensures c == Fill(ps, [], name)
  {
    c := "";
    for i := 0 to |ps|
      invariant c == Fill(ps[..i], [], name)
    {
      assert ps[..i + 1] == ps[..i] + [ps[i]] && ps[i] in ps;
      FillConcat(ps[..i], [ps[i]], name);
      c := c + Substitute(ps[i], [], name);
    }
    assert ps[..|ps|] == ps;
  }

  /** The length of the joined path, as the loop adds it up. */
  lemma {:induction false} JoinSnoc(out: seq<string>, c: string)
    ensures |Join(out + [c])| == |Join(out)| + |c| + (if out != [] then 1 else 0)
  {
    if out == [] {
      assert out + [c] == [c];
    } else {
      assert (out + [c])[1..] == out[1..] + [c];
      JoinSnoc(out[1..], c);
    }
  }

  function OntoTexts(done: seq<string>, r: Result<seq<string>, InterpolateError>): Result<seq<string>, InterpolateError> {
    match r
    case Ok(rest) => Ok(done + rest)
    case Err(e) => Err(e)
  }

  lemma ComponentStep(whole: Result<seq<string>, InterpolateError>, out: seq<string>, cs: seq<seq<Piece>>, i: nat, name: string)
    requires i < |cs| && AllBound(cs, 0) && whole == OntoTexts(out, Components(cs[i..], name))
    ensures var c := Fill(cs[i], [], name);
      if |c| > Names.MAX_NAME_LEN then whole == Err(PartTooLong(|c|))
      else if !Plain(c) || '/' in c then whole == Err(InvalidPart(c))
      else whole == OntoTexts(out + [c], Components(cs[i + 1..], name))
  {
    assert cs[i..][0] == cs[i] && cs[i..][1..] == cs[i + 1..];
    var c, rest := Fill(cs[i], [], name), Components(cs[i + 1..], name);
    if rest.Ok? {
      assert out + ([c] + rest.value) == out + [c] + rest.value;
    }
  }

  method InterpolateName(t: Template, name: Names.Name) returns (r: Result<string, InterpolateError>)
    requires AllBound(t.components, 0)
    ensures r == Interpolate(t, name)
  {
    var out: seq<string>, total: nat := [], 0;
    ghost var whole := Components(t.components, name);
    assert t.components[0..] == t.components && (whole.Ok? ==> [] + whole.value == whole.value);
    for i := 0 to |t.components|
      invariant whole == OntoTexts(out, Components(t.components[i..], name))
      invariant total == |Join(out)|
    {
      assert t.components[i] in t.components;
      ComponentStep(whole, out, t.components, i, name);
      var c := FillComponent(t.components[i], name);
      if |c| > Names.MAX_NAME_LEN {
        return Err(PartTooLong(|c|));
      }
      if !Plain(c) || '/' in c {
        return Err(InvalidPart(c));
      }
      JoinSnoc(out, c);
      total := total + |c| + if out != [] then 1 else 0;
      out := out + [c];
    }
    assert out + [] == out;
    if total > MAX_PATH_LEN {
      return Err(PathTooLong(total));
    }
    r := Ok(Join(out));
  }
}
