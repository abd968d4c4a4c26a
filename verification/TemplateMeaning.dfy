/**
 What template texts mean, and where and why reading them fails, told from the text alone
 (src/template.rs:110-323).
 */
module TemplateMeaning {
  import opened Wrappers
  import Names
  import opened Texts
  import opened Templates
  import opened TemplateParsing
  import opened Interpolation

  // ----- What the placeholders stand for -----

  /** Reading succeeded, and with names filled in the pieces say `filled`. */
  predicate Says(r: Result<seq<Piece>, TemplateError>, levels: seq<string>, name: string, filled: string) {
    r.Ok? && Bound(r.value, |levels|) && Fill(r.value, levels, name) == filled
  }

  predicate ReadsAs(c: string, levels: seq<string>, name: string, filled: string) {
    Says(Parse(c, 0, true), levels, name, filled)
  }

  lemma TextSays(t: string, r: Result<seq<Piece>, TemplateError>, levels: seq<string>, name: string, filled: string)
    requires Says(r, levels, name, filled)
    ensures Says(Text(t, r), levels, name, t + filled)
  {
    FillPrepend(t, r.value, levels, name);
  }

  lemma PlaceholderSays(p: Piece, r: Result<seq<Piece>, TemplateError>, levels: seq<string>, name: string, filled: string)
    requires Says(r, levels, name, filled) && (p.Level? ==> p.level < |levels|)
    ensures Says(Then(p, r), levels, name, Substitute(p, levels, name) + filled)
  {
    assert ([p] + r.value)[1..] == r.value;
  }

  lemma OffsetIsForErrors(c: string, offset: nat, offset': nat)
    requires Parse(c, offset, true).Ok?
    ensures Parse(c, offset', true) == Parse(c, offset, true)
  {
    ParseSound(c, offset, true);
    ParseComplete(Parse(c, offset, true).value, offset', true);
  }

  lemma TextReads(t: string, c: string, levels: seq<string>, name: string, filled: string)
    requires BraceFree(t) && ReadsAs(c, levels, name, filled)
    ensures ReadsAs(t + c, levels, name, t + filled)
  {
    OffsetIsForErrors(c, 0, |t|);
    ParseLiteral(t, c, 0, true);
    TextSays(t, Parse(c, 0, true), levels, name, filled);
  }

  lemma PlaceholderReads(p: Piece, c: string, levels: seq<string>, name: string, filled: string)
    requires !p.Literal? && (p.Level? ==> p.level < Names.MAX_SET_DEPTH && p.level < |levels|)
    requires ReadsAs(c, levels, name, filled)
    ensures ReadsAs(PieceText(p) + c, levels, name, Substitute(p, levels, name) + filled)
  {
    OffsetIsForErrors(c, 0, |PieceText(p)|);
    ParseTokenFirst(p, c, 0, true);
    PlaceholderSays(p, Parse(c, 0, true), levels, name, filled);
  }

  /** `{group}` is the first directory name below the set, `{subgroup}` the second, `{name}` the
      member, and all other text is itself. */
  lemma PlaceholdersMean(a: string, b: string, c: string, d: string, group: string, subgroup: string, name: string)
    requires BraceFree(a) && BraceFree(b) && BraceFree(c) && BraceFree(d)
    ensures ReadsAs(a + ("{group}" + (b + ("{subgroup}" + (c + ("{name}" + d))))), [group, subgroup], name,
                    a + (group + (b + (subgroup + (c + (name + d))))))
  {
    var levels := [group, subgroup];
    var atName, atSubgroup := "{name}" + d, "{subgroup}" + (c + ("{name}" + d));
    assert ReadsAs("", levels, name, "");
    TextReads(d, "", levels, name, "");
    assert d + "" == d;
    PlaceholderReads(Name, d, levels, name, d);
    TextReads(c, atName, levels, name, name + d);
    PlaceholderReads(Level(1), c + atName, levels, name, c + (name + d));
    TextReads(b, atSubgroup, levels, name, subgroup + (c + (name + d)));
    PlaceholderReads(Level(0), b + atSubgroup, levels, name, b + (subgroup + (c + (name + d))));
    TextReads(a, "{group}" + (b + atSubgroup), levels, name, group + (b + (subgroup + (c + (name + d)))));
  }

  // ----- Where reading a component fails -----

  predicate PlaceholderAt(s: string) {
    "{name}" <= s || "{group}" <= s || "{subgroup}" <= s
  }

  lemma TokenIsPlaceholder(c: string)
    ensures Token(c).Some? <==> PlaceholderAt(c)
    ensures Token(c).Some? && Token(c).value.Level? <==> "{group}" <= c || "{subgroup}" <= c
  {
    BeginsIsPrefix(c, NAME_TEXT);
    BeginsIsPrefix(c, GROUP_TEXT);
    BeginsIsPrefix(c, SUBGROUP_TEXT);
    assert NAME_TEXT[1] == 'n' && GROUP_TEXT[1] == 'g' && SUBGROUP_TEXT[1] == 's';
    assert FirstToken(c, 2) == if Begins(c, SUBGROUP_TEXT) then Some(Level(1)) else FirstToken(c, 3);
    assert FirstToken(c, 1) == if Begins(c, GROUP_TEXT) then Some(Level(0)) else FirstToken(c, 2);
  }

  /** The text up to `i` is text and placeholders. */
  ghost predicate GoodUpTo(c: string, levels: bool, i: nat)
    requires i <= |c|
  {
    exists ps :: Reads(ps, c[..i], levels)
  }

  /** Everything before `i` is as it should be, and what begins at `i` is the error. */
  ghost predicate FailsAt(c: string, offset: nat, levels: bool, i: nat, e: TemplateError) {
    && i < |c| && GoodUpTo(c, levels, i) && IsBrace(c[i])
    && match e
       case InvalidBrace(at) => at == offset + i && !PlaceholderAt(c[i..])
       case GroupNotAllowed => !levels && ("{group}" <= c[i..] || "{subgroup}" <= c[i..])
       case _ => false
  }

  lemma FailsHere(c: string, offset: nat, levels: bool, i: nat, e: TemplateError)
    requires FailsAt(c, offset, levels, i, e)
    ensures Parse(c, offset, levels) == Err(e)
  {
    var ps :| Reads(ps, c[..i], levels);
    assert c == c[..i] + c[i..];
    TokenIsPlaceholder(c[i..]);
    assert Parse(c[i..], offset + i, levels) == Err(e);
    ParseBefore(ps, c[i..], offset, offset + i, levels, Err(e));
    BeforeError(ps, e);
  }

  /** How much is read at once: a placeholder, or a character of text. */
  function Taken(c: string): nat {
    if Token(c).Some? then |PieceText(Token(c).value)| else 1
  }

  /** Reading stops at once at a brace without a placeholder, and at one that is not allowed. */
  predicate Stops(c: string, levels: bool) {
    c != "" && if Token(c).Some? then Token(c).value.Level? && !levels else IsBrace(c[0])
  }

  lemma GoesOn(c: string, offset: nat, levels: bool)
    requires c != "" && !Stops(c, levels)
    ensures 0 < Taken(c) <= |c|
    ensures var r := Parse(c[Taken(c)..], offset + Taken(c), levels); r.Err? ==> Parse(c, offset, levels) == r
    ensures Parse(c[Taken(c)..], offset + Taken(c), levels).Ok? ==> Parse(c, offset, levels).Ok?
  {
  }

  lemma {:induction false} FailsSomewhere(c: string, offset: nat, levels: bool, e: TemplateError) returns (i: nat)
    requires Parse(c, offset, levels) == Err(e)
    ensures FailsAt(c, offset, levels, i, e)
    decreases |c|
  {
    if Stops(c, levels) {
      i := 0;
      FailsAtOnce(c, offset, levels);
    } else {
      var n := Taken(c);
      GoesOn(c, offset, levels);
      i := FailsSomewhere(c[n..], offset + n, levels, e);
      FailsFurther(c, offset, levels, n, i, e);
      i := n + i;
    }
  }

  lemma FailsFurther(c: string, offset: nat, levels: bool, n: nat, i: nat, e: TemplateError)
    requires c != "" && !Stops(c, levels) && n == Taken(c) <= |c| && FailsAt(c[n..], offset + n, levels, i, e)
    ensures FailsAt(c, offset, levels, n + i, e)
  {
    GoodFurther(c, levels, n, i);
    assert c[n..][i..] == c[n + i..];
  }

  lemma FailsAtOnce(c: string, offset: nat, levels: bool)
    requires Parse(c, offset, levels).Err?
    requires Stops(c, levels)
    ensures FailsAt(c, offset, levels, 0, Parse(c, offset, levels).error)
  {
    TokenIsPlaceholder(c);
    assert Reads([], c[..0], levels);
    assert c[0..] == c;
  }

  lemma GoodFurther(c: string, levels: bool, n: nat, i: nat)
    requires n <= |c| && i <= |c| - n && GoodUpTo(c[n..], levels, i)
    requires c != "" && !Stops(c, levels) && n == Taken(c)
    ensures GoodUpTo(c, levels, n + i)
  {
    var ps :| Reads(ps, c[n..][..i], levels);
    var front := c[..n + i];
    assert front[n..] == c[n..][..i];
    match Token(c)
    case Some(p) =>
      assert PieceText(p) <= front;
      ReadsToken(ps, front, p, levels);
    case None =>
      ReadsText(ps, front, levels);
  }

  /** Reading a component fails with an error iff the error is at the first place where the text is
      not text or a placeholder that is allowed there. */
  lemma ParseFailsExactly(c: string, offset: nat, levels: bool, e: TemplateError)
    ensures Parse(c, offset, levels) == Err(e) <==> exists i :: FailsAt(c, offset, levels, i, e)
  {
    if Parse(c, offset, levels) == Err(e) {
      var i := FailsSomewhere(c, offset, levels, e);
      assert FailsAt(c, offset, levels, i, e);
    } else if i :| FailsAt(c, offset, levels, i, e) {
      FailsHere(c, offset, levels, i, e);
    }
  }

  // ----- Why reading a template fails -----

  /** Somewhere in the text, a placeholder for a directory name begins. */
  ghost predicate MentionsGroup(s: string) {
    exists i :: 0 <= i <= |s| && ("{group}" <= s[i..] || "{subgroup}" <= s[i..])
  }

  /** What an error about one component of a text claims. */
  ghost predicate PartErrorIsTrue(c: string, offset: nat, levels: bool, e: TemplateError) {
    match e
    case EmptyComponent => c == ""
    case DotComponent(d) => c == d && (d == "." || d == "..")
    case InvalidBrace(at) =>
      offset <= at < offset + |c| && IsBrace(c[at - offset]) && !PlaceholderAt(c[at - offset..])
    case GroupNotAllowed => !levels && MentionsGroup(c)
    case ComponentTooLong(n) => n == |c| && n > 255 && BraceFree(c)
    case _ => false
  }

  lemma PartFails(c: string, offset: nat, levels: bool)
    requires ParsePart(c, offset, levels).Err?
    ensures PartErrorIsTrue(c, offset, levels, ParsePart(c, offset, levels).error)
  {
    var e := ParsePart(c, offset, levels).error;
    if Parse(c, offset, levels).Err? {
      ParseFailsExactly(c, offset, levels, Parse(c, offset, levels).error);
    } else if c != "" && c != "." && c != ".." {
      ParseSound(c, offset, levels);
      LiteralsBraceFree(Parse(c, offset, levels).value);
    }
  }

  lemma {:induction false} LiteralsBraceFree(ps: seq<Piece>)
    requires Normal(ps) && forall p <- ps :: p.Literal?
    ensures BraceFree(Unparse(ps))
  {
    if ps != [] {
      NormalRest(ps);
      LiteralsBraceFree(ps[1..]);
    }
  }

  /** A placeholder holds no '/', so it lies within one component. */
  lemma PlaceholderWithin(s: string, t: string)
    ensures PlaceholderAt(s + "/" + t) ==> PlaceholderAt(s)
  {
    TokenWithin("{name}", s, t);
    TokenWithin("{group}", s, t);
    TokenWithin("{subgroup}", s, t);
  }

  lemma TokenWithin(p: string, s: string, t: string)
    requires '/' !in p
    ensures p <= s + "/" + t ==> p <= s
  {
    assert (s + "/" + t)[|s|] == '/';
  }

  /** What an error about a text of components claims: the first component that fails is to blame. */
  ghost predicate TextErrorIsTrue(raw: string, offset: nat, levels: bool, e: TemplateError) {
    match e
    case EmptyComponent => "" in Split(raw)
    case DotComponent(d) => d in Split(raw) && (d == "." || d == "..")
    case InvalidBrace(at) =>
      offset <= at < offset + |raw| && IsBrace(raw[at - offset]) && !PlaceholderAt(raw[at - offset..])
    case GroupNotAllowed => !levels && MentionsGroup(raw)
    case ComponentTooLong(n) => exists c <- Split(raw) :: n == |c| && n > 255 && BraceFree(c)
    case _ => false
  }

  lemma FirstPartErrs(c: string, rest: string, offset: nat, levels: bool, e: TemplateError)
    requires '/' !in c && PartErrorIsTrue(c, offset, levels, e)
    ensures TextErrorIsTrue(c, offset, levels, e) && TextErrorIsTrue(c + "/" + rest, offset, levels, e)
  {
    SplitPart(c, rest);
    var raw := c + "/" + rest;
    if e.InvalidBrace? {
      var i := e.offset - offset;
      assert raw[i..] == c[i..] + "/" + rest;
      PlaceholderWithin(c[i..], rest);
    } else if e.GroupNotAllowed? {
      var i :| 0 <= i <= |c| && ("{group}" <= c[i..] || "{subgroup}" <= c[i..]);
      assert raw[i..] == c[i..] + "/" + rest;
    }
  }

  lemma LaterPartErrs(c: string, rest: string, offset: nat, levels: bool, e: TemplateError)
    requires '/' !in c && TextErrorIsTrue(rest, offset + |c| + 1, levels, e)
    ensures TextErrorIsTrue(c + "/" + rest, offset, levels, e)
  {
    match e
    case InvalidBrace(at) => TailOf(c, rest, at - offset - |c| - 1);
    case GroupNotAllowed => MentionedLater(c, rest);
    case _ => SplitPart(c, rest);
  }

  lemma MentionedLater(c: string, rest: string)
    requires MentionsGroup(rest)
    ensures MentionsGroup(c + "/" + rest)
  {
    var i :| 0 <= i <= |rest| && ("{group}" <= rest[i..] || "{subgroup}" <= rest[i..]);
    TailOf(c, rest, i);
  }

  lemma TailOf(c: string, rest: string, i: nat)
    requires i <= |rest|
    ensures var raw := c + "/" + rest; |raw| == |c| + 1 + |rest| && raw[|c| + 1 + i..] == rest[i..]
    ensures i < |rest| ==> (c + "/" + rest)[|c| + 1 + i] == rest[i]
  {
  }

  lemma {:induction false} PartsFail(parts: seq<string>, offset: nat, levels: bool)
    requires parts != [] && (forall p <- parts :: '/' !in p) && ParseParts(parts, offset, levels).Err?
    ensures TextErrorIsTrue(Join(parts), offset, levels, ParseParts(parts, offset, levels).error)
  {
    var c, rest, e := parts[0], Join(parts[1..]), ParseParts(parts, offset, levels).error;
    assert '/' !in c;
    if ParsePart(c, offset, levels).Err? {
      PartFails(c, offset, levels);
      FirstPartErrs(c, rest, offset, levels, e);
    } else {
      PartsFail(parts[1..], offset + |c| + 1, levels);
      LaterPartErrs(c, rest, offset, levels, e);
    }
  }

  /** Every error is true of the text; an error with an offset points at a brace that begins no placeholder. */
  lemma TemplateErrorIsTrue(raw: string, levels: bool)
    requires ParseTemplate(raw, levels).Err?
    ensures match ParseTemplate(raw, levels).error
      case Empty => raw == ""
      case Nul => '\0' in raw
      case Absolute => "/" <= raw
      case TrailingSlash => raw != "" && raw[|raw| - 1] == '/'
      case MissingName => ParseParts(Split(raw), 0, levels).Ok? && !HasName(ParseParts(Split(raw), 0, levels).value)
      case e => TextErrorIsTrue(raw, 0, levels, e)
  {
    JoinSplit(raw);
    if ParseParts(Split(raw), 0, levels).Err? {
      PartsFail(Split(raw), 0, levels);
    }
  }

  // ----- Why filling in a template fails -----

  /** The first component that is too long has length `n`. */
  predicate FirstLong(texts: seq<string>, n: nat) {
    exists i | 0 <= i < |texts| :: |texts[i]| == n && n > 255 && forall j | 0 <= j < i :: |texts[j]| <= 255
  }

  lemma FirstLongNow(texts: seq<string>)
    requires texts != [] && |texts[0]| > 255
    ensures FirstLong(texts, |texts[0]|)
  {
  }

  lemma FirstLongLater(texts: seq<string>, n: nat)
    requires texts != [] && |texts[0]| <= 255 && FirstLong(texts[1..], n)
    ensures FirstLong(texts, n)
  {
    var i :| 0 <= i < |texts[1..]| && |texts[1..][i]| == n && n > 255 && forall j | 0 <= j < i :: |texts[1..][j]| <= 255;
    assert texts[i + 1] == texts[1..][i];
    forall j | 0 <= j < i + 1 ensures |texts[j]| <= 255 {
      assert j > 0 ==> texts[j] == texts[1..][j - 1];
    }
  }

  lemma {:induction false} ComponentTooLong(cs: seq<seq<Piece>>, name: string, n: nat)
    requires AllBound(cs, 0) && Components(cs, name) == Err(PartTooLong(n))
    ensures FirstLong(FillAll(cs, [], name), n)
  {
    var texts := FillAll(cs, [], name);
    if |texts[0]| > 255 {
      FirstLongNow(texts);
    } else {
      ComponentTooLong(cs[1..], name, n);
      assert texts[1..] == FillAll(cs[1..], [], name);
      FirstLongLater(texts, n);
    }
  }

  /** Interpolating succeeds iff every component fits in 255 bytes and the path in 4095; it fails with
      the length of the first component that does not, or else with that of the path. */
  lemma InterpolateErrorIsTrue(t: Template, name: Names.Name)
    requires Valid(t, false) && AllBound(t.components, 0)
    ensures var texts := FillAll(t.components, [], name);
      match Interpolate(t, name)
      case Ok(path) => path == Join(texts) && |path| <= 4095 && forall c <- texts :: |c| <= 255
      case Err(PartTooLong(n)) => FirstLong(texts, n)
      case Err(PathTooLong(n)) => n == |Join(texts)| && n > 4095 && forall c <- texts :: |c| <= 255
      case Err(InvalidPart(_)) => false
  {
    InterpolateIsExact(t, name);
    ComponentsFacts(t.components, name);
    match Components(t.components, name)
    case Err(PartTooLong(n)) => ComponentTooLong(t.components, name, n);
    case _ =>
  }

  /** The first component that is too long once bound, and has no `{name}`, has length `n`. */
  predicate FirstLongBound(cs: seq<seq<Piece>>, levels: seq<string>, n: nat)
    requires AllBound(cs, |levels|)
  {
    exists i | 0 <= i < |cs| ::
      LongBound(cs[i], levels) && n == |Fill(cs[i], levels, "")| && forall j | 0 <= j < i :: !LongBound(cs[j], levels)
  }

  predicate LongBound(ps: seq<Piece>, levels: seq<string>)
    requires Bound(ps, |levels|)
  {
    Name !in ps && |Fill(ps, levels, "")| > 255
  }

  lemma BoundLength(ps: seq<Piece>, levels: seq<string>)
    requires Bound(ps, |levels|) && AreNames(levels) && Normal(ps)
    ensures var b := BindPart(ps, levels);
      LongBound(ps, levels) <==> Name !in b && |Unparse(b)| > Names.MAX_NAME_LEN
    ensures LongBound(ps, levels) ==> |Unparse(BindPart(ps, levels))| == |Fill(ps, levels, "")|
  {
    BindPartNormal(ps, levels);
    BindPartFills(ps, levels, "");
    if Name !in ps {
      FillNameless(BindPart(ps, levels), "");
    }
  }

  lemma FirstLongBoundLater(cs: seq<seq<Piece>>, levels: seq<string>, n: nat)
    requires cs != [] && AllBound(cs, |levels|) && !LongBound(cs[0], levels) && FirstLongBound(cs[1..], levels, n)
    ensures FirstLongBound(cs, levels, n)
  {
    var rest := cs[1..];
    var i :| 0 <= i < |rest|
      && LongBound(rest[i], levels) && n == |Fill(rest[i], levels, "")| && forall j | 0 <= j < i :: !LongBound(rest[j], levels);
    assert cs[i + 1] == rest[i];
    forall j | 0 <= j < i + 1 ensures !LongBound(cs[j], levels) {
      assert j > 0 ==> cs[j] == rest[j - 1];
    }
  }

  /** Binding fails with the length of the first component without `{name}` that gets over 255 bytes. */
  lemma {:induction false} BindErrorIsTrue(cs: seq<seq<Piece>>, levels: seq<string>, e: InterpolateError)
    requires AllBound(cs, |levels|) && AreNames(levels) && (forall ps <- cs :: Normal(ps)) && BindParts(cs, levels) == Err(e)
    ensures e.PartTooLong? && FirstLongBound(cs, levels, e.n)
  {
    assert Normal(cs[0]);
    BoundLength(cs[0], levels);
    if !LongBound(cs[0], levels) {
      BindErrorIsTrue(cs[1..], levels, e);
      FirstLongBoundLater(cs, levels, e.n);
    }
  }
}
