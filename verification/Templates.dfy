/** Path templates: parsing (src/template.rs:110-150, 273-323). */
module Templates {
  import opened Wrappers
  import opened Names
  import opened Texts

  /** A level is a group set directory level: 0 is `{group}`, 1 is `{subgroup}`. */
  datatype Piece = Literal(text: string) | Name | Level(level: nat)

  datatype Template = Template(raw: string, components: seq<seq<Piece>>)

  datatype TemplateError =
    | Empty | Absolute | TrailingSlash | EmptyComponent | DotComponent(c: string)
    | InvalidBrace(offset: nat) | Nul | MissingName | GroupNotAllowed | ComponentTooLong(n: nat)

  const NAME_TEXT := "{name}"
  const GROUP_TEXT := "{group}"
  const SUBGROUP_TEXT := "{subgroup}"

  predicate IsBrace(c: char) {
    c == '{' || c == '}'
  }

  predicate BraceFree(s: string) {
    forall c <- s :: !IsBrace(c)
  }

  function PieceText(p: Piece): string {
    match p
    case Literal(t) => t
    case Name => NAME_TEXT
    case Level(l) => if l == 0 then GROUP_TEXT else SUBGROUP_TEXT
  }

  /** Pieces written one after the other. */
  function Spell(ps: seq<Piece>, text: Piece -> string): string {
    if ps == [] then "" else text(ps[0]) + Spell(ps[1..], text)
  }

  lemma {:induction false} SpellSnoc(ps: seq<Piece>, p: Piece, text: Piece -> string)
    ensures Spell(ps + [p], text) == Spell(ps, text) + text(p)
  {
    if ps == [] {
      assert ps + [p] == [p] && [p][1..] == [];
    } else {
      SpellSnoc(ps[1..], p, text);
      assert (ps + [p])[1..] == ps[1..] + [p];
    }
  }

  lemma SpellFront(ps: seq<Piece>, c: string, text: Piece -> string)
    requires ps != []
    ensures Spell(ps, text) + c == text(ps[0]) + (Spell(ps[1..], text) + c)
    ensures |Spell(ps, text)| == |text(ps[0])| + |Spell(ps[1..], text)|
  {
  }

  /** The text a component was written as. */
  function Unparse(ps: seq<Piece>): string {
    Spell(ps, PieceText)
  }

  /** Literals are not empty, hold no braces and are never adjacent. */
  predicate Normal(ps: seq<Piece>) {
    && (forall p <- ps | p.Literal? :: p.text != "" && BraceFree(p.text))
    && (forall p <- ps | p.Level? :: p.level < MAX_SET_DEPTH)
    && (forall i | 0 <= i < |ps| - 1 :: !(ps[i].Literal? && ps[i + 1].Literal?))
  }

  function Prepend(t: string, ps: seq<Piece>): seq<Piece> {
    if t == "" then ps
    else if ps != [] && ps[0].Literal? then [Literal(t + ps[0].text)] + ps[1..]
    else [Literal(t)] + ps
  }

  /** A result with a placeholder, or some literal text, put in front. */
  function Then(p: Piece, r: Result<seq<Piece>, TemplateError>): Result<seq<Piece>, TemplateError> {
    match r
    case Ok(ps) => Ok([p] + ps)
    case Err(e) => Err(e)
  }

  function Text(t: string, r: Result<seq<Piece>, TemplateError>): Result<seq<Piece>, TemplateError> {
    match r
    case Ok(ps) => Ok(Prepend(t, ps))
    case Err(e) => Err(e)
  }

  /** Whether `str::strip_prefix` finds `t` at the start of `c`. */
  predicate Begins(c: string, t: string) {
    t == "" || (c != "" && c[0] == t[0] && Begins(c[1..], t[1..]))
  }

  lemma {:induction false} BeginsIsPrefix(c: string, t: string)
    ensures Begins(c, t) <==> t <= c
  {
    if t != "" && c != "" {
      BeginsIsPrefix(c[1..], t[1..]);
      if t[1..] <= c[1..] && c[0] == t[0] {
        assert t == [t[0]] + t[1..] && c == [c[0]] + c[1..];
      }
    }
  }

  const PLACEHOLDERS: seq<Piece> := [Name, Level(0), Level(1)]

  /** The first placeholder, in the order of the table, that `c` begins with. */
  function FirstToken(c: string, i: nat): (p: Option<Piece>)
    ensures p.Some? ==> !p.value.Literal? && PieceText(p.value) <= c && (p.value.Level? ==> p.value.level < MAX_SET_DEPTH)
    ensures p.Some? ==> c != "" && IsBrace(c[0])
    decreases |PLACEHOLDERS| - i
  {
    if i >= |PLACEHOLDERS| then None
    else if Begins(c, PieceText(PLACEHOLDERS[i])) then
      BeginsIsPrefix(c, PieceText(PLACEHOLDERS[i]));
      Some(PLACEHOLDERS[i])
    else FirstToken(c, i + 1)
  }

  function Token(c: string): Option<Piece> {
    FirstToken(c, 0)
  }

  /** Parsing one component character by character, from byte `offset` on. */
  function Parse(c: string, offset: nat, levels: bool): Result<seq<Piece>, TemplateError> {
    if c == "" then Ok([])
    else
      match Token(c)
      case Some(p) =>
        if p.Level? && !levels then Err(GroupNotAllowed)
        else Then(p, Parse(c[|PieceText(p)|..], offset + |PieceText(p)|, levels))
      case None =>
        if IsBrace(c[0]) then Err(InvalidBrace(offset)) else Text([c[0]], Parse(c[1..], offset + 1, levels))
  }

  // ----- What parsing means -----

  lemma UnparsePrepend(t: string, ps: seq<Piece>)
    ensures Unparse(Prepend(t, ps)) == t + Unparse(ps)
  {
  }

  lemma PrependPrepend(s: string, t: string, ps: seq<Piece>)
    ensures Prepend(s, Prepend(t, ps)) == Prepend(s + t, ps)
  {
    if s == "" {
      assert s + t == t;
    } else if t == "" {
      assert s + t == s;
    } else if ps != [] && ps[0].Literal? {
      assert s + (t + ps[0].text) == s + t + ps[0].text;
    }
  }

  lemma NormalTail(p: Piece, ps: seq<Piece>)
    requires Normal(ps) && !p.Literal? && (p.Level? ==> p.level < MAX_SET_DEPTH)
    ensures Normal([p] + ps)
  {
  }

  lemma NormalPrepend(t: string, ps: seq<Piece>)
    requires Normal(ps) && BraceFree(t)
    ensures Normal(Prepend(t, ps))
  {
    if t != "" && ps != [] && ps[0].Literal? {
      assert ps[0] in ps;
      assert forall i | 1 <= i < |ps| :: Prepend(t, ps)[i] == ps[i];
    }
  }

  /** What parsing promises of the pieces it finds in `c`. */
  predicate Reads(ps: seq<Piece>, c: string, levels: bool) {
    Normal(ps) && Unparse(ps) == c && (levels || forall p <- ps :: !p.Level?)
  }

  /** A parsed component is in normal form and writes back to its text. */
  lemma {:induction false} ParseSound(c: string, offset: nat, levels: bool)
    requires Parse(c, offset, levels).Ok?
    ensures Reads(Parse(c, offset, levels).value, c, levels)
    decreases |c|
  {
    if c != "" {
      var token := Token(c);
      if token.Some? {
        var n := |PieceText(token.value)|;
        ParseSound(c[n..], offset + n, levels);
        ReadsToken(Parse(c[n..], offset + n, levels).value, c, token.value, levels);
      } else {
        ParseSound(c[1..], offset + 1, levels);
        ReadsText(Parse(c[1..], offset + 1, levels).value, c, levels);
      }
    }
  }

  lemma ReadsToken(ps: seq<Piece>, c: string, p: Piece, levels: bool)
    requires !p.Literal? && PieceText(p) <= c && Reads(ps, c[|PieceText(p)|..], levels)
    requires p.Level? ==> levels && p.level < MAX_SET_DEPTH
    ensures Reads([p] + ps, c, levels)
  {
    NormalTail(p, ps);
    assert ([p] + ps)[1..] == ps;
  }

  lemma ReadsText(ps: seq<Piece>, c: string, levels: bool)
    requires c != "" && !IsBrace(c[0]) && Reads(ps, c[1..], levels)
    ensures Reads(Prepend([c[0]], ps), c, levels)
  {
    UnparsePrepend([c[0]], ps);
    NormalPrepend([c[0]], ps);
    assert c == [c[0]] + c[1..];
  }

  lemma TextText(s: string, t: string, r: Result<seq<Piece>, TemplateError>)
    ensures Text(s, Text(t, r)) == Text(s + t, r)
  {
    if r.Ok? {
      PrependPrepend(s, t, r.value);
    }
  }

  /** Brace-free text in front of `c` joins the first literal. */
  lemma {:induction false} ParseLiteral(t: string, c: string, offset: nat, levels: bool)
    requires BraceFree(t)
    ensures Parse(t + c, offset, levels) == Text(t, Parse(c, offset + |t|, levels))
  {
    if t == "" {
      assert t + c == c;
    } else {
      assert (t + c)[1..] == t[1..] + c && (t + c)[0] == t[0];
      ParseLiteral(t[1..], c, offset + 1, levels);
      assert t == [t[0]] + t[1..];
      TextText([t[0]], t[1..], Parse(c, offset + |t|, levels));
    }
  }

  lemma ParseTokenFirst(p: Piece, c: string, offset: nat, levels: bool)
    requires !p.Literal? && (p.Level? ==> levels && p.level < MAX_SET_DEPTH)
    ensures Parse(PieceText(p) + c, offset, levels) == Then(p, Parse(c, offset + |PieceText(p)|, levels))
  {
    TokenFirst(p, c);
    assert (PieceText(p) + c)[|PieceText(p)|..] == c;
  }

  lemma TokenFirst(p: Piece, c: string)
    requires !p.Literal? && (p.Level? ==> p.level < MAX_SET_DEPTH)
    ensures Token(PieceText(p) + c) == Some(p)
  {
    var s := PieceText(p) + c;
    assert NAME_TEXT[1] == 'n' && GROUP_TEXT[1] == 'g' && SUBGROUP_TEXT[1] == 's' && s[1] == PieceText(p)[1];
    BeginsIsPrefix(s, NAME_TEXT);
    BeginsIsPrefix(s, GROUP_TEXT);
    BeginsIsPrefix(s, SUBGROUP_TEXT);
    assert FirstToken(s, 2) == if Begins(s, SUBGROUP_TEXT) then Some(Level(1)) else None;
    assert FirstToken(s, 1) == if Begins(s, GROUP_TEXT) then Some(Level(0)) else FirstToken(s, 2);
  }

  function Front(p: Piece, r: Result<seq<Piece>, TemplateError>): Result<seq<Piece>, TemplateError> {
    if p.Literal? then Text(p.text, r) else Then(p, r)
  }

  lemma ParseFirst(p: Piece, more: string, offset: nat, levels: bool, r: Result<seq<Piece>, TemplateError>)
    requires p.Literal? ==> BraceFree(p.text)
    requires p.Level? ==> levels && p.level < MAX_SET_DEPTH
    requires r == Parse(more, offset + |PieceText(p)|, levels)
    ensures Parse(PieceText(p) + more, offset, levels) == Front(p, r)
  {
    if p.Literal? {
      ParseLiteral(p.text, more, offset, levels);
    } else {
      ParseTokenFirst(p, more, offset, levels);
    }
  }

  /** Text in front that parses by itself to `ps`. */
  function Before(ps: seq<Piece>, r: Result<seq<Piece>, TemplateError>): Result<seq<Piece>, TemplateError> {
    if ps == [] then r else Front(ps[0], Before(ps[1..], r))
  }

  lemma {:induction false} ParseBefore(ps: seq<Piece>, c: string, offset: nat, end: nat, levels: bool, r: Result<seq<Piece>, TemplateError>)
    requires Normal(ps) && (levels || forall p <- ps :: !p.Level?)
    requires end == offset + |Unparse(ps)| && r == Parse(c, end, levels)
    ensures Parse(Unparse(ps) + c, offset, levels) == Before(ps, r)
  {
    if ps == [] {
      assert Unparse(ps) + c == c;
    } else {
      NormalRest(ps);
      SpellFront(ps, c, PieceText);
      var more, n := Unparse(ps[1..]) + c, offset + |PieceText(ps[0])|;
      ParseBefore(ps[1..], c, n, end, levels, r);
      ParseFirst(ps[0], more, offset, levels, Before(ps[1..], r));
    }
  }

  lemma {:induction false} BeforeNothing(ps: seq<Piece>)
    requires Normal(ps)
    ensures Before(ps, Ok([])) == Ok(ps)
  {
    if ps != [] {
      NormalRest(ps);
      BeforeNothing(ps[1..]);
      assert ps == [ps[0]] + ps[1..];
    }
  }

  lemma {:induction false} BeforeError(ps: seq<Piece>, e: TemplateError)
    ensures Before(ps, Err(e)) == Err(e)
  {
    if ps != [] {
      BeforeError(ps[1..], e);
    }
  }

  /** Every normal form parses back to itself: parsing is the inverse of writing. */
  lemma ParseComplete(ps: seq<Piece>, offset: nat, levels: bool)
    requires Normal(ps) && (levels || forall p <- ps :: !p.Level?)
    ensures Parse(Unparse(ps), offset, levels) == Ok(ps)
  {
    ParseBefore(ps, "", offset, offset + |Unparse(ps)|, levels, Ok([]));
    assert Unparse(ps) + "" == Unparse(ps);
    BeforeNothing(ps);
  }

  lemma NormalRest(ps: seq<Piece>)
    requires ps != [] && Normal(ps)
    ensures Normal(ps[1..]) && ps[0] in ps
    ensures ps[0].Literal? ==> ps[0].text != "" && BraceFree(ps[0].text) && (|ps| > 1 ==> !ps[1].Literal?)
  {
    var rest := ps[1..];
    assert forall i | 0 <= i < |rest| :: rest[i] == ps[i + 1];
    assert |ps| > 1 ==> !(ps[0].Literal? && ps[0 + 1].Literal?);
  }

  // ----- The parsing loops -----

  function Flush(pieces: seq<Piece>, literal: string): seq<Piece> {
    if literal == "" then pieces else pieces + [Literal(literal)]
  }

  method FindBrace(s: string) returns (pos: nat)
    ensures pos <= |s| && BraceFree(s[..pos]) && (pos < |s| ==> IsBrace(s[pos]))
  {
    pos := 0;
    while pos < |s| && !IsBrace(s[pos])
      invariant pos <= |s| && BraceFree(s[..pos])
    {
      pos := pos + 1;
    }
  }

  /** The pieces are those of the text before `literal`; they end in a placeholder. */
  predicate Scanned(done: string, pieces: seq<Piece>, literal: string, levels: bool) {
    && Reads(pieces, done, levels)
    && (pieces != [] ==> !pieces[|pieces| - 1].Literal?)
    && BraceFree(literal)
  }

  lemma NormalSnoc(ps: seq<Piece>, p: Piece)
    requires Normal(ps) && (ps != [] ==> !(ps[|ps| - 1].Literal? && p.Literal?))
    requires (p.Literal? ==> p.text != "" && BraceFree(p.text)) && (p.Level? ==> p.level < MAX_SET_DEPTH)
    ensures Normal(ps + [p])
  {
  }

  lemma FlushReads(done: string, pieces: seq<Piece>, literal: string, levels: bool)
    requires Scanned(done, pieces, literal, levels)
    ensures Reads(Flush(pieces, literal), done + literal, levels)
  {
    if literal != "" {
      NormalSnoc(pieces, Literal(literal));
      SpellSnoc(pieces, Literal(literal), PieceText);
    } else {
      assert done + literal == done;
    }
  }

  lemma TokenReads(done: string, pieces: seq<Piece>, p: Piece, levels: bool)
    requires Reads(pieces, done, levels) && !p.Literal? && (p.Level? ==> levels && p.level < MAX_SET_DEPTH)
    ensures Scanned(done + PieceText(p), pieces + [p], "", levels)
  {
    NormalSnoc(pieces, p);
    SpellSnoc(pieces, p, PieceText);
  }

  /** The placeholder at a brace, or why there is none. */
  method TokenAt(tail: string, offset: nat, levels: bool) returns (r: Result<Piece, TemplateError>)
    requires tail != "" && IsBrace(tail[0])
    ensures r.Ok? ==> Token(tail) == Some(r.value) && (r.value.Level? ==> levels)
    ensures r.Err? ==> Parse(tail, offset, levels) == Err(r.error)
  {
    var token := Token(tail);
    if token.None? {
      return Err(InvalidBrace(offset));
    }
    if token.value.Level? && !levels {
      return Err(GroupNotAllowed);
    }
    return Ok(token.value);
  }

  /** One turn of the loop: the text up to the brace at `pos`, and the placeholder there. */
  method TakePiece(ghost c: string, ghost base: nat, ghost done: string, pieces: seq<Piece>, rest: string, offset: nat, pos: nat, levels: bool)
    returns (r: Result<Piece, TemplateError>, ghost done': string)
    requires Scanned(done, pieces, "", levels) && c == done + rest && offset == base + |done|
    requires pos < |rest| && BraceFree(rest[..pos]) && IsBrace(rest[pos])
    ensures r.Err? ==> Parse(c, base, levels) == Err(r.error)
    ensures r.Ok? ==> var n := pos + |PieceText(r.value)|;
      && pos < n <= |rest| && c == done' + rest[n..] && |done'| == |done| + n
      && Scanned(done', Flush(pieces, rest[..pos]) + [r.value], "", levels)
  {
    var literal, tail := rest[..pos], rest[pos..];
    SplitsAt(c, done, rest, pos);
    r := TokenAt(tail, offset + pos, levels);
    if r.Err? {
      Fails(c, base, done, pieces, literal, tail, levels, r.error);
      done' := done;
    } else {
      TakesToken(c, done, pieces, literal, tail, r.value, levels);
      done' := done + literal + PieceText(r.value);
      assert tail[|PieceText(r.value)|..] == rest[pos + |PieceText(r.value)|..];
    }
  }

  method ParseComponent(c: string, base: nat, levels: bool) returns (r: Result<seq<Piece>, TemplateError>)
    ensures r == Parse(c, base, levels)
  {
    var pieces: seq<Piece>, rest: string, offset: nat := [], c, base;
    ghost var done := "";
    var pos: nat := FindBrace(rest);
    while pos < |rest|
      invariant pos <= |rest| && BraceFree(rest[..pos]) && (pos < |rest| ==> IsBrace(rest[pos]))
      invariant Scanned(done, pieces, "", levels)
      invariant c == done + rest && offset == base + |done|
      decreases |rest|
    {
      var token, done' := TakePiece(c, base, done, pieces, rest, offset, pos, levels);
      if token.Err? {
        return Err(token.error);
      }
      var n := pos + |PieceText(token.value)|;
      pieces, rest, offset, done := Flush(pieces, rest[..pos]) + [token.value], rest[n..], offset + n, done';
      pos := FindBrace(rest);
    }
    assert rest[..pos] == rest;
    Succeeds(c, base, done, pieces, rest, levels);
    r := Ok(Flush(pieces, rest));
  }

  lemma SplitsAt(c: string, done: string, rest: string, pos: nat)
    requires c == done + rest && pos <= |rest|
    ensures c == done + rest[..pos] + rest[pos..]
  {
  }

  /** The loop takes text up to a placeholder, and the placeholder. */
  lemma TakesToken(c: string, done: string, pieces: seq<Piece>, literal: string, tail: string, p: Piece, levels: bool)
    requires Scanned(done, pieces, literal, levels) && c == done + literal + tail
    requires Token(tail) == Some(p) && (p.Level? ==> levels)
    ensures var text := PieceText(p);
      && Scanned(done + literal + text, Flush(pieces, literal) + [p], "", levels)
      && c == done + literal + text + tail[|text|..]
  {
    FlushReads(done, pieces, literal, levels);
    TokenReads(done + literal, Flush(pieces, literal), p, levels);
    assert tail == PieceText(p) + tail[|PieceText(p)|..];
  }

  lemma Fails(c: string, base: nat, done: string, pieces: seq<Piece>, literal: string, tail: string, levels: bool, e: TemplateError)
    requires Scanned(done, pieces, literal, levels) && c == done + literal + tail
    requires Parse(tail, base + |done| + |literal|, levels) == Err(e)
    ensures Parse(c, base, levels) == Err(e)
  {
    FlushReads(done, pieces, literal, levels);
    ParseBefore(Flush(pieces, literal), tail, base, base + |done| + |literal|, levels, Err(e));
    BeforeError(Flush(pieces, literal), e);
  }

  lemma Succeeds(c: string, base: nat, done: string, pieces: seq<Piece>, literal: string, levels: bool)
    requires Scanned(done, pieces, literal, levels) && c == done + literal
    ensures Parse(c, base, levels) == Ok(Flush(pieces, literal))
  {
    FlushReads(done, pieces, literal, levels);
    ParseComplete(Flush(pieces, literal), base, levels);
  }
}
