/** Printing and parsing names, group IDs and absolute paths (src/name.rs, src/config.rs). */
module GroupNames {
  import opened Wrappers
  import opened Names
  import opened Texts

  datatype NameError = Empty | TooLong(n: nat) | LeadingDot | InvalidByte(byte: char, offset: nat)

  /** The first byte outside the allowlist, or the length. */
  function FirstBad(s: string): (i: nat)
    ensures i <= |s| && (forall j | 0 <= j < i :: IsAllowed(s[j])) && (i < |s| ==> !IsAllowed(s[i]))
  {
    if s == "" || !IsAllowed(s[0]) then 0 else 1 + FirstBad(s[1..])
  }

  /** `Name::from_bytes`: accepts exactly the valid names, unchanged. */
  function NewName(s: string): (r: Result<Name, NameError>)
    ensures r.Ok? <==> ValidName(s)
    ensures r.Ok? ==> r.value == s
    ensures r.Err? && r.error.InvalidByte? ==> r.error.offset < |s| && s[r.error.offset] == r.error.byte && !IsAllowed(r.error.byte)
  {
    if s == "" then Err(Empty)
    else if |s| > MAX_NAME_LEN then Err(TooLong(|s|))
    else if s[0] == '.' then Err(LeadingDot)
    else if FirstBad(s) < |s| then Err(InvalidByte(s[FirstBad(s)], FirstBad(s)))
    else assert forall c <- s :: IsAllowed(c); Ok(s)
  }

  // ----- Group IDs -----

  function NewNames(parts: seq<string>): Result<seq<Name>, NameError> {
    if parts == [] then Ok([])
    else
      match NewName(parts[0])
      case Err(e) => Err(e)
      case Ok(n) =>
        match NewNames(parts[1..])
        case Err(e) => Err(e)
        case Ok(rest) => Ok([n] + rest)
  }

  /** `rfind('/')`. */
  function LastSlash(s: string): nat {
    if s == "" then 0 else if s[|s| - 1] == '/' then |s| - 1 else LastSlash(s[..|s| - 1])
  }

  /** `group`, `set/group` or `set/group/subgroup`. */
  function ParseGroup(s: string): Result<GroupId, NameError> {
    match NewNames(Split(s))
    case Err(e) => Err(e)
    case Ok(names) =>
      if |names| == 0 then Err(Empty)
      else if |names| == 1 then Ok(GroupId(None, names))
      else if |names| <= 1 + MAX_SET_DEPTH then Ok(GroupId(Some(names[0]), names[1..]))
      else Err(InvalidByte('/', LastSlash(s)))
  }

  function Strings(names: seq<Name>): (r: seq<string>)
    ensures |r| == |names| && forall i | 0 <= i < |r| :: r[i] == names[i]
  {
    seq(|names|, i requires 0 <= i < |names| => names[i])
  }

  /** The names a group ID is printed as, in order. */
  function Parts(g: GroupId): seq<Name> {
    match g.inSet
    case None => g.path
    case Some(s) => [s] + g.path
  }

  function ShowGroup(g: GroupId): string {
    match g.inSet
    case None => Join(Strings(g.path))
    case Some(s) => s + "/" + Join(Strings(g.path))
  }

  lemma ShowsParts(g: GroupId)
    requires g.path != []
    ensures ShowGroup(g) == Join(Strings(Parts(g)))
  {
    if g.inSet.Some? {
      var parts := Strings(Parts(g));
      assert parts[1..] == Strings(g.path);
    }
  }

  lemma {:induction false} NewNamesExact(parts: seq<string>)
    ensures NewNames(parts).Ok? <==> forall i | 0 <= i < |parts| :: ValidName(parts[i])
    ensures NewNames(parts).Ok? ==> Strings(NewNames(parts).value) == parts
  {
    if parts != [] {
      NewNamesExact(parts[1..]);
      assert forall i | 0 <= i < |parts| - 1 :: parts[1..][i] == parts[i + 1];
      if NewNames(parts).Ok? {
        assert NewNames(parts).value == [parts[0]] + NewNames(parts[1..]).value;
      }
      assert (forall i | 0 <= i < |parts| :: ValidName(parts[i])) <==>
        ValidName(parts[0]) && forall i | 0 <= i < |parts| - 1 :: ValidName(parts[1..][i]);
    }
  }

  lemma NameHasNoSlash(n: Name)
    ensures '/' !in n
  {
    assert forall c <- n :: IsAllowed(c);
  }

  lemma SplitNames(names: seq<Name>)
    requires names != []
    ensures Split(Join(Strings(names))) == Strings(names) && NewNames(Strings(names)) == Ok(names)
  {
    var parts := Strings(names);
    forall i | 0 <= i < |parts| ensures '/' !in parts[i] {
      NameHasNoSlash(names[i]);
    }
    SplitTail(parts);
    NewNamesExact(parts);
    var read := NewNames(parts).value;
    assert |read| == |names| && forall i | 0 <= i < |names| :: read[i] == Strings(read)[i] == names[i];
    assert read == names;
  }

  lemma ShowThenParse(g: GroupId)
    requires g.Valid()
    ensures ParseGroup(ShowGroup(g)) == Ok(g)
  {
    ShowsParts(g);
    SplitNames(Parts(g));
    if g.inSet.Some? {
      assert Parts(g)[1..] == g.path;
    }
  }

  lemma ParseThenShow(s: string)
    requires ParseGroup(s).Ok?
    ensures var g := ParseGroup(s).value; g.Valid() && ShowGroup(g) == s
  {
    NewNamesExact(Split(s));
    JoinSplit(s);
    var names, g := NewNames(Split(s)).value, ParseGroup(s).value;
    assert Parts(g) == names;
    ShowsParts(g);
  }

  /** Printing and parsing group IDs are exact inverses, so no two IDs print alike. */
  lemma GroupRoundTrip(s: string, g: GroupId)
    ensures ParseGroup(s) == Ok(g) <==> g.Valid() && s == ShowGroup(g)
  {
    if ParseGroup(s) == Ok(g) {
      ParseThenShow(s);
    } else if g.Valid() && s == ShowGroup(g) {
      ShowThenParse(g);
    }
  }

  // ----- Absolute paths -----

  datatype PathError = NotAbsolute | EmptyComponent | DotComponent(c: string) | Nul

  /** What `AbsPath` holds: `/` or clean components after `/`. */
  predicate ValidAbs(p: string) {
    p == "/" || (p != "" && p[0] == '/' && CleanRelative(p[1..]))
  }

  function CheckParts(parts: seq<string>): Option<PathError> {
    if parts == [] then None
    else if parts[0] == "" then Some(EmptyComponent)
    else if parts[0] == "." || parts[0] == ".." then Some(DotComponent(parts[0]))
    else CheckParts(parts[1..])
  }

  function StripSlash(s: string): string {
    if s != "" && s[|s| - 1] == '/' then s[..|s| - 1] else s
  }

  /** `AbsPath::new`: one trailing `/` is removed. */
  function NewAbs(raw: string): Result<string, PathError> {
    if '\0' in raw then Err(Nul)
    else if raw == "" || raw[0] != '/' then Err(NotAbsolute)
    else if |raw| == 1 then Ok("/")
    else
      var rest := StripSlash(raw[1..]);
      match CheckParts(Split(rest))
      case Some(e) => Err(e)
      case None => Ok("/" + rest)
  }

  lemma {:induction false} CheckPartsExact(parts: seq<string>)
    ensures CheckParts(parts).None? <==> forall c <- parts :: Plain(c)
  {
    if parts != [] {
      CheckPartsExact(parts[1..]);
      assert parts == [parts[0]] + parts[1..];
      assert forall c <- parts :: c == parts[0] || c in parts[1..];
      assert parts[0] in parts && forall c <- parts[1..] :: c in parts;
    }
  }

  lemma CleanHasNoEnd(s: string)
    requires CleanRelative(s)
    ensures s[|s| - 1] != '/'
  {
    var front := s[..|s| - 1];
    if s[|s| - 1] == '/' {
      assert s == front + "/";
      SlashAtEnd(front);
    }
  }

  lemma SlashAtEnd(front: string)
    ensures !CleanRelative(front + "/")
  {
    SplitAtEnd(front);
    var parts := Split(front + "/");
    assert parts[|parts| - 1] in parts;
  }

  /** Text ending in '/' has an empty last part. */
  lemma {:induction false} SplitAtEnd(front: string)
    ensures var p := Split(front + "/"); |p| >= 2 && p[|p| - 1] == ""
  {
    var s := front + "/";
    if front == "" {
      assert s[1..] == "";
    } else {
      SplitAtEnd(front[1..]);
      assert s[1..] == front[1..] + "/";
    }
  }

  lemma NewAbsSound(raw: string)
    requires NewAbs(raw).Ok?
    ensures var p := NewAbs(raw).value; ValidAbs(p) && (raw == p || (raw == p + "/" && p != "/"))
  {
    if |raw| > 1 {
      var rest := StripSlash(raw[1..]);
      CheckPartsExact(Split(rest));
      assert raw == "/" + raw[1..];
      assert forall c <- rest :: c in raw;
      assert raw[1..] == rest || raw[1..] == rest + "/";
      assert ("/" + rest)[1..] == rest;
    }
  }

  lemma NewAbsComplete(p: string)
    requires ValidAbs(p)
    ensures NewAbs(p) == Ok(p)
    ensures p != "/" ==> NewAbs(p + "/") == Ok(p)
  {
    if p != "/" {
      var rest := p[1..];
      CheckPartsExact(Split(rest));
      CleanHasNoEnd(rest);
      assert p == "/" + rest && '\0' !in p;
      var q := p + "/";
      assert q[1..] == rest + "/" && StripSlash(rest + "/") == rest;
    }
  }

  /** A path is read as `p` iff `p` is valid and it is `p`, with at most one `/` after it. */
  lemma AbsRoundTrip(raw: string, p: string)
    ensures NewAbs(raw) == Ok(p) <==> ValidAbs(p) && (raw == p || (raw == p + "/" && p != "/"))
  {
    if NewAbs(raw) == Ok(p) {
      NewAbsSound(raw);
    } else if ValidAbs(p) {
      NewAbsComplete(p);
    }
  }
}
