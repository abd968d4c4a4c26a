/** Whole templates: splitting, checking and parsing every component (src/template.rs:110-150). */
module TemplateParsing {
  import opened Wrappers
  import opened Names
  import opened Texts
  import opened Templates

  /** A component: plain text, parsed, and short enough when it holds no placeholder. */
  function ParsePart(c: string, offset: nat, levels: bool): Result<seq<Piece>, TemplateError> {
    if c == "" then Err(EmptyComponent)
    else if c == "." || c == ".." then Err(DotComponent(c))
    else
      match Parse(c, offset, levels)
      case Err(e) => Err(e)
      case Ok(ps) => if (forall p <- ps :: p.Literal?) && |c| > MAX_NAME_LEN then Err(ComponentTooLong(|c|)) else Ok(ps)
  }

  /** Components in order: the first bad one decides the error. */
  function ParseParts(parts: seq<string>, offset: nat, levels: bool): Result<seq<seq<Piece>>, TemplateError> {
    if parts == [] then Ok([])
    else
      match ParsePart(parts[0], offset, levels)
      case Err(e) => Err(e)
      case Ok(ps) =>
        match ParseParts(parts[1..], offset + |parts[0]| + 1, levels)
        case Err(e) => Err(e)
        case Ok(rest) => Ok([ps] + rest)
  }

  predicate HasName(components: seq<seq<Piece>>) {
    exists ps <- components :: Name in ps
  }

  function ParseTemplate(raw: string, levels: bool): Result<Template, TemplateError> {
    if raw == "" then Err(Empty)
    else if '\0' in raw then Err(Nul)
    else if raw[0] == '/' then Err(Absolute)
    else if raw[|raw| - 1] == '/' then Err(TrailingSlash)
    else
      match ParseParts(Split(raw), 0, levels)
      case Err(e) => Err(e)
      case Ok(components) => if HasName(components) then Ok(Template(raw, components)) else Err(MissingName)
  }

  /** A component that could have been parsed: what it is, without reference to the parser. */
  predicate GoodPart(ps: seq<Piece>, levels: bool) {
    && Normal(ps)
    && (levels || forall p <- ps :: !p.Level?)
    && Plain(Unparse(ps))
    && ((forall p <- ps :: p.Literal?) ==> |Unparse(ps)| <= MAX_NAME_LEN)
  }

  predicate GoodText(c: string) {
    '/' !in c && '\0' !in c
  }

  function PartTexts(components: seq<seq<Piece>>): (r: seq<string>)
    ensures |r| == |components| && forall i | 0 <= i < |r| :: r[i] == Unparse(components[i])
  {
    seq(|components|, i requires 0 <= i < |components| => Unparse(components[i]))
  }

  /** The templates parsing accepts: the independent description `ParseIsExact` compares it with. */
  predicate Valid(t: Template, levels: bool) {
    && t.components != []
    && (forall ps <- t.components :: GoodPart(ps, levels) && GoodText(Unparse(ps)))
    && HasName(t.components)
    && t.raw == Join(PartTexts(t.components))
  }

  // ----- Parsing accepts exactly the valid templates, and keeps their text -----

  lemma PartSound(c: string, offset: nat, levels: bool)
    requires ParsePart(c, offset, levels).Ok?
    ensures var ps := ParsePart(c, offset, levels).value; GoodPart(ps, levels) && Unparse(ps) == c
  {
    ParseSound(c, offset, levels);
  }

  lemma PartComplete(ps: seq<Piece>, offset: nat, levels: bool)
    requires GoodPart(ps, levels)
    ensures ParsePart(Unparse(ps), offset, levels) == Ok(ps)
  {
    ParseComplete(ps, offset, levels);
  }

  lemma {:induction false} PartsSound(parts: seq<string>, offset: nat, levels: bool)
    requires ParseParts(parts, offset, levels).Ok?
    ensures var cs := ParseParts(parts, offset, levels).value;
      PartTexts(cs) == parts && forall ps <- cs :: GoodPart(ps, levels)
  {
    if parts != [] {
      PartSound(parts[0], offset, levels);
      PartsSound(parts[1..], offset + |parts[0]| + 1, levels);
      PartTextsCons(ParsePart(parts[0], offset, levels).value, ParseParts(parts[1..], offset + |parts[0]| + 1, levels).value);
    }
  }

  lemma PartTextsCons(ps: seq<Piece>, rest: seq<seq<Piece>>)
    ensures PartTexts([ps] + rest) == [Unparse(ps)] + PartTexts(rest)
  {
  }

  lemma PartsCons(parts: seq<string>, cs: seq<seq<Piece>>, offset: nat, levels: bool)
    requires parts != [] && cs != [] && ParsePart(parts[0], offset, levels) == Ok(cs[0])
    requires ParseParts(parts[1..], offset + |parts[0]| + 1, levels) == Ok(cs[1..])
    ensures ParseParts(parts, offset, levels) == Ok(cs)
  {
    assert [cs[0]] + cs[1..] == cs;
  }

  lemma {:induction false} PartsRead(cs: seq<seq<Piece>>, parts: seq<string>, offset: nat, levels: bool)
    requires |parts| == |cs| && forall i | 0 <= i < |cs| :: GoodPart(cs[i], levels) && parts[i] == Unparse(cs[i])
    ensures ParseParts(parts, offset, levels) == Ok(cs)
  {
    if cs != [] {
      PartComplete(cs[0], offset, levels);
      PartsRead(cs[1..], parts[1..], offset + |parts[0]| + 1, levels);
      PartsCons(parts, cs, offset, levels);
    }
  }

  lemma PartsComplete(cs: seq<seq<Piece>>, offset: nat, levels: bool)
    requires forall ps <- cs :: GoodPart(ps, levels)
    ensures ParseParts(PartTexts(cs), offset, levels) == Ok(cs)
  {
    PartsRead(cs, PartTexts(cs), offset, levels);
  }

  lemma {:induction false} PartsClean(s: string, bad: char)
    requires bad !in s
    ensures forall p <- Split(s) :: bad !in p
  {
    if s != "" {
      PartsClean(s[1..], bad);
    }
  }

  lemma {:induction false} JoinEnds(parts: seq<string>)
    requires parts != [] && forall i | 0 <= i < |parts| :: parts[i] != "" && '/' !in parts[i]
    ensures var s := Join(parts); s != "" && s[0] != '/' && s[|s| - 1] != '/'
  {
    var p := parts[0];
    assert p[0] in p && p[|p| - 1] in p;
    if |parts| > 1 {
      JoinEnds(parts[1..]);
      var t := Join(parts[1..]);
      assert Join(parts) == p + "/" + t;
      assert (p + "/" + t)[|p| + 1 + |t| - 1] == t[|t| - 1];
    }
  }

  lemma TemplateSound(raw: string, levels: bool)
    requires ParseTemplate(raw, levels).Ok?
    ensures var t := ParseTemplate(raw, levels).value; t.raw == raw && Valid(t, levels)
  {
    var parts := Split(raw);
    PartsSound(parts, 0, levels);
    JoinSplit(raw);
    PartsClean(raw, '\0');
    var t := ParseTemplate(raw, levels).value;
    forall ps <- t.components ensures GoodPart(ps, levels) && GoodText(Unparse(ps)) {
      var i :| 0 <= i < |t.components| && t.components[i] == ps;
      assert Unparse(ps) == parts[i] && parts[i] in parts;
    }
  }

  lemma TemplateComplete(t: Template, levels: bool)
    requires Valid(t, levels)
    ensures ParseTemplate(t.raw, levels) == Ok(t)
  {
    var parts := PartTexts(t.components);
    forall i | 0 <= i < |parts| ensures parts[i] != "" && GoodText(parts[i]) {
      assert t.components[i] in t.components;
    }
    SplitTail(parts);
    JoinEnds(parts);
    assert forall p <- parts :: '\0' !in p;
    JoinChars(parts, '\0');
    PartsComplete(t.components, 0, levels);
  }

  /** Parsing is exact: it yields `t` from `raw` iff `t` is valid and is written `raw`. */
  lemma ParseIsExact(raw: string, t: Template, levels: bool)
    ensures ParseTemplate(raw, levels) == Ok(t) <==> Valid(t, levels) && t.raw == raw
  {
    if ParseTemplate(raw, levels) == Ok(t) {
      TemplateSound(raw, levels);
    } else if Valid(t, levels) {
      TemplateComplete(t, levels);
    }
  }

  // ----- The parsing loop -----

  /** Putting parsed components in front of the result for the rest. */
  function Onto(done: seq<seq<Piece>>, r: Result<seq<seq<Piece>>, TemplateError>): Result<seq<seq<Piece>>, TemplateError> {
    match r
    case Ok(rest) => Ok(done + rest)
    case Err(e) => Err(e)
  }

  method ParsePartText(c: string, offset: nat, levels: bool) returns (r: Result<seq<Piece>, TemplateError>)
    ensures r == ParsePart(c, offset, levels)
  {
    if c == "" {
      return Err(EmptyComponent);
    }
    if c == "." || c == ".." {
      return Err(DotComponent(c));
    }
    r := ParseComponent(c, offset, levels);
    if r.Ok? && (forall p <- r.value :: p.Literal?) && |c| > MAX_NAME_LEN {
      r := Err(ComponentTooLong(|c|));
    }
  }

  method ParseAll(parts: seq<string>, levels: bool) returns (r: Result<seq<seq<Piece>>, TemplateError>, hasName: bool)
    ensures r == ParseParts(parts, 0, levels)
    ensures r.Ok? ==> (hasName <==> HasName(r.value))
  {
    var components: seq<seq<Piece>>, offset: nat := [], 0;
    hasName := false;
    ghost var whole := ParseParts(parts, 0, levels);
    assert parts[0..] == parts && (whole.Ok? ==> [] + whole.value == whole.value);
    for i := 0 to |parts|
      invariant hasName <==> HasName(components)
      invariant whole == Onto(components, ParseParts(parts[i..], offset, levels))
    {
      var c := parts[i];
      var part := ParsePartText(c, offset, levels);
      PartsStep(whole, components, parts, i, offset, levels);
      if part.Err? {
        return Err(part.error), hasName;
      }
      NameStep(components, part.value);
      components, hasName, offset := components + [part.value], hasName || Name in part.value, offset + |c| + 1;
    }
    assert components + [] == components;
    r := Ok(components);
  }

  method ParseInner(raw: string, levels: bool) returns (r: Result<Template, TemplateError>)
    ensures r == ParseTemplate(raw, levels)
  {
    if raw == "" {
      return Err(Empty);
    }
    if '\0' in raw {
      return Err(Nul);
    }
    if raw[0] == '/' {
      return Err(Absolute);
    }
    if raw[|raw| - 1] == '/' {
      return Err(TrailingSlash);
    }
    var components, hasName := ParseAll(Split(raw), levels);
    if components.Err? {
      return Err(components.error);
    }
    r := if hasName then Ok(Template(raw, components.value)) else Err(MissingName);
  }

  lemma PartsStep(whole: Result<seq<seq<Piece>>, TemplateError>, done: seq<seq<Piece>>, parts: seq<string>, i: nat, offset: nat, levels: bool)
    requires i < |parts| && whole == Onto(done, ParseParts(parts[i..], offset, levels))
    ensures var part := ParsePart(parts[i], offset, levels);
      && (part.Err? ==> whole == Err(part.error))
      && (part.Ok? ==> whole == Onto(done + [part.value], ParseParts(parts[i + 1..], offset + |parts[i]| + 1, levels)))
  {
    assert parts[i..][0] == parts[i] && parts[i..][1..] == parts[i + 1..];
    var part, rest := ParsePart(parts[i], offset, levels), ParseParts(parts[i + 1..], offset + |parts[i]| + 1, levels);
    if part.Ok? {
      OntoStep(done, part.value, rest);
    }
  }

  lemma NameStep(done: seq<seq<Piece>>, ps: seq<Piece>)
    ensures HasName(done + [ps]) <==> HasName(done) || Name in ps
  {
    assert (done + [ps])[|done|] == ps;
    assert forall qs <- done :: qs in done + [ps];
  }

  lemma OntoStep(done: seq<seq<Piece>>, ps: seq<Piece>, r: Result<seq<seq<Piece>>, TemplateError>)
    ensures Onto(done, Onto([ps], r)) == Onto(done + [ps], r)
  {
    if r.Ok? {
      assert done + ([ps] + r.value) == done + [ps] + r.value;
    }
  }
}
