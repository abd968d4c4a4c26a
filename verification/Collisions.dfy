/** When two groups of a set can get the same path (src/template.rs:159-265, src/config.rs:968-988). */
module Collisions {
  import opened Wrappers
  import Names
  import opened Texts
  import opened Templates
  import opened TemplateParsing
  import opened Interpolation

  // ----- Segments: a path can be cut where a byte no name holds stands -----

  predicate Allowed(s: string) {
    forall c <- s :: Names.IsAllowed(c)
  }

  /** Literals taken apart into single bytes. */
  function Bytes(t: string): seq<Piece> {
    if t == "" then [] else [Literal([t[0]])] + Bytes(t[1..])
  }

  function Atoms(ps: seq<Piece>): seq<Piece> {
    if ps == [] then [] else (if ps[0].Literal? then Bytes(ps[0].text) else [ps[0]]) + Atoms(ps[1..])
  }

  predicate Cuts(p: Piece) {
    p.Literal? && !Allowed(p.text)
  }

  /** The stretches between bytes that no name holds. */
  function Segments(atoms: seq<Piece>): (segs: seq<seq<Piece>>)
    ensures segs != []
  {
    if atoms == [] then [[]]
    else
      var rest := Segments(atoms[1..]);
      if Cuts(atoms[0]) then [[]] + rest else [[atoms[0]] + rest[0]] + rest[1..]
  }

  /** The same cut made in a text. */
  function SplitText(s: string): (parts: seq<string>)
    ensures parts != []
  {
    if s == "" then [""]
    else
      var rest := SplitText(s[1..]);
      if Names.IsAllowed(s[0]) then [[s[0]] + rest[0]] + rest[1..] else [""] + rest
  }

  lemma {:induction false} SplitAllowed(t: string, s: string)
    requires Allowed(t)
    ensures SplitText(t + s) == [t + SplitText(s)[0]] + SplitText(s)[1..]
  {
    if t == "" {
      assert t + s == s && t + SplitText(s)[0] == SplitText(s)[0];
    } else {
      assert (t + s)[0] == t[0] && (t + s)[1..] == t[1..] + s && t[0] in t;
      SplitAllowed(t[1..], s);
      var parts := SplitText(s);
      assert [t[0]] + (t[1..] + parts[0]) == t + parts[0];
      assert ([t[1..] + parts[0]] + parts[1..])[1..] == parts[1..];
    }
  }

  /** What a substitution may use: texts made of the bytes names are made of. */
  predicate Named(levels: seq<string>, name: string) {
    Allowed(name) && forall l <- levels :: Allowed(l)
  }

  predicate Single(atoms: seq<Piece>) {
    forall p <- atoms | p.Literal? :: |p.text| == 1
  }

  lemma {:induction false} SegmentsBound(atoms: seq<Piece>, n: nat)
    requires Bound(atoms, n)
    ensures AllBound(Segments(atoms), n)
  {
    if atoms != [] {
      SegmentsBound(atoms[1..], n);
      assert forall p <- atoms[1..] :: p in atoms;
      assert Segments(atoms[1..])[0] in Segments(atoms[1..]);
    }
  }

  /** Cutting a filled component gives its segments, filled. */
  lemma {:induction false} SegmentsFill(atoms: seq<Piece>, levels: seq<string>, name: string)
    requires Bound(atoms, |levels|) && Single(atoms) && Named(levels, name)
    ensures AllBound(Segments(atoms), |levels|)
    ensures SplitText(Fill(atoms, levels, name)) == FillAll(Segments(atoms), levels, name)
  {
    SegmentsBound(atoms, |levels|);
    if atoms != [] {
      var first, rest := atoms[0], atoms[1..];
      SegmentsFill(rest, levels, name);
      var text, more := Substitute(first, levels, name), Fill(rest, levels, name);
      if Cuts(first) {
        CutAtByte(text, more);
      } else {
        SplitAllowed(text, more);
      }
      SegmentsStep(atoms, levels, name);
    }
  }

  lemma CutAtByte(t: string, s: string)
    requires |t| == 1 && !Allowed(t)
    ensures SplitText(t + s) == [""] + SplitText(s)
  {
    assert (t + s)[1..] == s && t == [t[0]];
  }

  lemma SegmentsStep(atoms: seq<Piece>, levels: seq<string>, name: string)
    requires atoms != [] && Bound(atoms, |levels|) && AllBound(Segments(atoms), |levels|) && AllBound(Segments(atoms[1..]), |levels|)
    ensures var parts, text := FillAll(Segments(atoms[1..]), levels, name), Substitute(atoms[0], levels, name);
      FillAll(Segments(atoms), levels, name) == if Cuts(atoms[0]) then [""] + parts else [text + parts[0]] + parts[1..]
  {
    var rest := Segments(atoms[1..]);
    if Cuts(atoms[0]) {
      FillAllCons([], rest, levels, name);
    } else {
      assert rest[0] in rest && forall seg <- rest[1..] :: seg in rest;
      FillCons(atoms[0], rest[0], levels, name);
      FillAllCons([atoms[0]] + rest[0], rest[1..], levels, name);
      FillAllTail(rest, levels, name);
    }
  }

  lemma FillCons(p: Piece, ps: seq<Piece>, levels: seq<string>, name: string)
    requires Bound(ps, |levels|) && (p.Level? ==> p.level < |levels|)
    ensures Bound([p] + ps, |levels|) && Fill([p] + ps, levels, name) == Substitute(p, levels, name) + Fill(ps, levels, name)
  {
    assert ([p] + ps)[1..] == ps;
  }

  lemma FillAllTail(rest: seq<seq<Piece>>, levels: seq<string>, name: string)
    requires rest != [] && AllBound(rest, |levels|)
    ensures AllBound(rest[1..], |levels|)
    ensures FillAll(rest, levels, name)[1..] == FillAll(rest[1..], levels, name)
  {
  }

  lemma FillAllCons(seg: seq<Piece>, rest: seq<seq<Piece>>, levels: seq<string>, name: string)
    requires Bound(seg, |levels|) && AllBound(rest, |levels|)
    ensures AllBound([seg] + rest, |levels|)
    ensures FillAll([seg] + rest, levels, name) == [Fill(seg, levels, name)] + FillAll(rest, levels, name)
  {
  }

  lemma {:induction false} FillBytes(t: string, ps: seq<Piece>, levels: seq<string>, name: string, f: string)
    requires Bound(ps, |levels|) && f == Fill(ps, levels, name)
    ensures Bound(Bytes(t) + ps, |levels|) && Fill(Bytes(t) + ps, levels, name) == t + f
  {
    if t == "" {
      assert Bytes(t) + ps == ps && t + f == f;
    } else {
      FillBytes(t[1..], ps, levels, name, f);
      FillByte(t, ps, levels, name, t[1..] + f);
      Regroup([t[0]], t[1..], f);
      HeadAndTail(t);
    }
  }

  lemma FillByte(t: string, ps: seq<Piece>, levels: seq<string>, name: string, more: string)
    requires t != "" && Bound(Bytes(t[1..]) + ps, |levels|) && Fill(Bytes(t[1..]) + ps, levels, name) == more
    ensures Bound(Bytes(t) + ps, |levels|) && Fill(Bytes(t) + ps, levels, name) == [t[0]] + more
  {
    assert Bytes(t) + ps == [Literal([t[0]])] + (Bytes(t[1..]) + ps);
    FillCons(Literal([t[0]]), Bytes(t[1..]) + ps, levels, name);
  }

  lemma HeadAndTail(t: string)
    requires t != ""
    ensures t == [t[0]] + t[1..]
  {
  }

  lemma Regroup(a: string, b: string, c: string)
    ensures a + (b + c) == (a + b) + c
  {
  }

  lemma {:induction false} BytesAreSingle(t: string)
    ensures Single(Bytes(t))
  {
    if t != "" {
      BytesAreSingle(t[1..]);
    }
  }

  lemma {:induction false} FillAtoms(ps: seq<Piece>, levels: seq<string>, name: string)
    requires Bound(ps, |levels|)
    ensures Bound(Atoms(ps), |levels|) && Single(Atoms(ps)) && Fill(Atoms(ps), levels, name) == Fill(ps, levels, name)
  {
    if ps != [] {
      FillAtoms(ps[1..], levels, name);
      if ps[0].Literal? {
        FillBytes(ps[0].text, Atoms(ps[1..]), levels, name, Fill(ps[1..], levels, name));
        BytesAreSingle(ps[0].text);
      } else {
        assert Atoms(ps)[0] == ps[0] && Atoms(ps)[1..] == Atoms(ps[1..]);
      }
    }
  }

  /** Components that fill alike have segments that fill alike. */
  lemma SameSegments(ps: seq<Piece>, l1: seq<string>, n1: string, l2: seq<string>, n2: string, i: nat)
    requires Bound(ps, |l1|) && |l1| == |l2| && Named(l1, n1) && Named(l2, n2) && Fill(ps, l1, n1) == Fill(ps, l2, n2)
    requires i < |Segments(Atoms(ps))|
    ensures var seg := Segments(Atoms(ps))[i]; Bound(seg, |l1|) && Fill(seg, l1, n1) == Fill(seg, l2, n2)
  {
    FillAtoms(ps, l1, n1);
    FillAtoms(ps, l2, n2);
    SegmentsFill(Atoms(ps), l1, n1);
    SegmentsFill(Atoms(ps), l2, n2);
    var segs := Segments(Atoms(ps));
    assert segs[i] in segs;
    assert FillAll(segs, l1, n1)[i] == FillAll(segs, l2, n2)[i];
  }

  // ----- Elimination: a segment shows the one kind of placeholder not yet known -----

  /** The bytes of a segment that are not `p`'s. */
  function Others(ps: seq<Piece>, p: Piece, levels: seq<string>, name: string): nat
    requires Bound(ps, |levels|)
  {
    if ps == [] then 0 else (if ps[0] == p then 0 else |Substitute(ps[0], levels, name)|) + Others(ps[1..], p, levels, name)
  }

  function Times(ps: seq<Piece>, p: Piece): nat {
    if ps == [] then 0 else (if ps[0] == p then 1 else 0) + Times(ps[1..], p)
  }

  lemma {:induction false} LengthBy(ps: seq<Piece>, p: Piece, levels: seq<string>, name: string)
    requires Bound(ps, |levels|) && (p.Level? ==> p.level < |levels|)
    ensures |Fill(ps, levels, name)| == Others(ps, p, levels, name) + Times(ps, p) * |Substitute(p, levels, name)|
  {
    if ps != [] {
      LengthBy(ps[1..], p, levels, name);
      var n := |Substitute(p, levels, name)|;
      assert (1 + Times(ps[1..], p)) * n == n + Times(ps[1..], p) * n;
    }
  }

  lemma {:induction false} TimesPositive(ps: seq<Piece>, p: Piece)
    requires p in ps
    ensures Times(ps, p) > 0
  {
    if ps[0] != p {
      assert ps == [ps[0]] + ps[1..];
      TimesPositive(ps[1..], p);
    }
  }

  /** All placeholders but `p` stand for the same texts. */
  predicate AgreeBut(ps: seq<Piece>, p: Piece, l1: seq<string>, n1: string, l2: seq<string>, n2: string)
    requires Bound(ps, |l1|) && Bound(ps, |l2|)
  {
    forall q <- ps | q != p :: Substitute(q, l1, n1) == Substitute(q, l2, n2)
  }

  lemma {:induction false} SameOthers(ps: seq<Piece>, p: Piece, l1: seq<string>, n1: string, l2: seq<string>, n2: string)
    requires Bound(ps, |l1|) && Bound(ps, |l2|) && AgreeBut(ps, p, l1, n1, l2, n2)
    ensures Others(ps, p, l1, n1) == Others(ps, p, l2, n2)
  {
    if ps != [] {
      assert ps[0] in ps && forall q <- ps[1..] :: q in ps;
      SameOthers(ps[1..], p, l1, n1, l2, n2);
    }
  }

  /** With `p` equally long, equal fills have `p` equal. */
  lemma {:induction false} FrontShows(ps: seq<Piece>, p: Piece, l1: seq<string>, n1: string, l2: seq<string>, n2: string)
    requires Bound(ps, |l1|) && Bound(ps, |l2|) && AgreeBut(ps, p, l1, n1, l2, n2) && p in ps
    requires Fill(ps, l1, n1) == Fill(ps, l2, n2) && |Substitute(p, l1, n1)| == |Substitute(p, l2, n2)|
    ensures Substitute(p, l1, n1) == Substitute(p, l2, n2)
  {
    var a, b := Substitute(ps[0], l1, n1), Substitute(ps[0], l2, n2);
    assert ps == [ps[0]] + ps[1..] && ps[0] in ps && forall q <- ps[1..] :: q in ps;
    CancelFront(a, Fill(ps[1..], l1, n1), b, Fill(ps[1..], l2, n2));
    if ps[0] != p {
      FrontShows(ps[1..], p, l1, n1, l2, n2);
    }
  }

  lemma LastUnknownShows(ps: seq<Piece>, p: Piece, l1: seq<string>, n1: string, l2: seq<string>, n2: string)
    requires Bound(ps, |l1|) && Bound(ps, |l2|) && AgreeBut(ps, p, l1, n1, l2, n2) && p in ps
    requires Fill(ps, l1, n1) == Fill(ps, l2, n2)
    ensures Substitute(p, l1, n1) == Substitute(p, l2, n2)
  {
    LengthBy(ps, p, l1, n1);
    LengthBy(ps, p, l2, n2);
    SameOthers(ps, p, l1, n1, l2, n2);
    TimesPositive(ps, p);
    SameFactor(Times(ps, p), |Substitute(p, l1, n1)|, |Substitute(p, l2, n2)|);
    FrontShows(ps, p, l1, n1, l2, n2);
  }

  /** In this segment `p` is the only placeholder not among `known`. */
  predicate Shows(seg: seq<Piece>, known: seq<Piece>, p: Piece) {
    p in seg && forall q <- seg :: q.Literal? || q == p || q in known
  }

  predicate PartShows(ps: seq<Piece>, known: seq<Piece>, p: Piece) {
    exists seg <- Segments(Atoms(ps)) :: Shows(seg, known, p)
  }

  predicate ShowsNext(cs: seq<seq<Piece>>, known: seq<Piece>, p: Piece) {
    exists ps <- cs :: PartShows(ps, known, p)
  }

  /** The placeholders in `known` stand for the same texts. */
  predicate SameOn(known: seq<Piece>, l1: seq<string>, n1: string, l2: seq<string>, n2: string) {
    forall q <- known :: SameAs(q, l1, n1, l2, n2)
  }

  predicate SameAs(q: Piece, l1: seq<string>, n1: string, l2: seq<string>, n2: string) {
    (q.Level? ==> q.level < |l1| && q.level < |l2|) && Substitute(q, l1, n1) == Substitute(q, l2, n2)
  }

  /** The placeholders in `order` become known one after the other. */
  predicate Solves(cs: seq<seq<Piece>>, order: seq<Piece>) {
    forall i | 0 <= i < |order| :: !order[i].Literal? && ShowsNext(cs, order[..i], order[i])
  }

  lemma PartMakesKnown(ps: seq<Piece>, known: seq<Piece>, p: Piece, l1: seq<string>, n1: string, l2: seq<string>, n2: string)
    requires Bound(ps, |l1|) && |l1| == |l2| && Named(l1, n1) && Named(l2, n2) && Fill(ps, l1, n1) == Fill(ps, l2, n2)
    requires !p.Literal? && PartShows(ps, known, p) && SameOn(known, l1, n1, l2, n2)
    ensures SameAs(p, l1, n1, l2, n2)
  {
    var seg :| seg in Segments(Atoms(ps)) && Shows(seg, known, p);
    var i :| 0 <= i < |Segments(Atoms(ps))| && Segments(Atoms(ps))[i] == seg;
    SameSegments(ps, l1, n1, l2, n2, i);
    SegmentAgrees(seg, known, p, l1, n1, l2, n2);
    LastUnknownShows(seg, p, l1, n1, l2, n2);
  }

  lemma SegmentAgrees(seg: seq<Piece>, known: seq<Piece>, p: Piece, l1: seq<string>, n1: string, l2: seq<string>, n2: string)
    requires Bound(seg, |l1|) && |l1| == |l2| && Shows(seg, known, p) && SameOn(known, l1, n1, l2, n2)
    ensures AgreeBut(seg, p, l1, n1, l2, n2)
  {
    forall q <- seg | q != p ensures Substitute(q, l1, n1) == Substitute(q, l2, n2) {
      assert q.Literal? || SameAs(q, l1, n1, l2, n2);
    }
  }

  lemma NextIsKnown(cs: seq<seq<Piece>>, known: seq<Piece>, p: Piece, l1: seq<string>, n1: string, l2: seq<string>, n2: string)
    requires AllBound(cs, |l1|) && |l1| == |l2| && Named(l1, n1) && Named(l2, n2) && FillAll(cs, l1, n1) == FillAll(cs, l2, n2)
    requires !p.Literal? && ShowsNext(cs, known, p) && SameOn(known, l1, n1, l2, n2)
    ensures SameAs(p, l1, n1, l2, n2)
  {
    var ps :| ps in cs && PartShows(ps, known, p);
    var j :| 0 <= j < |cs| && cs[j] == ps;
    assert FillAll(cs, l1, n1)[j] == FillAll(cs, l2, n2)[j];
    PartMakesKnown(ps, known, p, l1, n1, l2, n2);
  }

  lemma {:induction false} SolvedIsKnown(cs: seq<seq<Piece>>, order: seq<Piece>, k: nat, l1: seq<string>, n1: string, l2: seq<string>, n2: string)
    requires AllBound(cs, |l1|) && |l1| == |l2| && Named(l1, n1) && Named(l2, n2) && FillAll(cs, l1, n1) == FillAll(cs, l2, n2)
    requires Solves(cs, order) && k <= |order|
    ensures SameOn(order[..k], l1, n1, l2, n2)
  {
    if k > 0 {
      SolvedIsKnown(cs, order, k - 1, l1, n1, l2, n2);
      NextIsKnown(cs, order[..k - 1], order[k - 1], l1, n1, l2, n2);
      SameOnSnoc(order, k, l1, n1, l2, n2);
    }
  }

  lemma SameOnSnoc(order: seq<Piece>, k: nat, l1: seq<string>, n1: string, l2: seq<string>, n2: string)
    requires 0 < k <= |order| && SameOn(order[..k - 1], l1, n1, l2, n2) && SameAs(order[k - 1], l1, n1, l2, n2)
    ensures SameOn(order[..k], l1, n1, l2, n2)
  {
    assert order[..k] == order[..k - 1] + [order[k - 1]];
  }

  /** The template determines its levels: elimination over its segments reaches them all. */
  ghost predicate Determines(cs: seq<seq<Piece>>, depth: nat) {
    exists order: seq<Piece> :: Solves(cs, order) && forall l: nat | l < depth :: Level(l) in order
  }

  lemma NamesAreNamed(levels: seq<string>, name: Names.Name)
    requires AreNames(levels)
    ensures Named(levels, name)
  {
  }

  lemma DeterminedLevels(cs: seq<seq<Piece>>, l1: seq<string>, l2: seq<string>, a: Names.Name, b: Names.Name)
    requires AllBound(cs, |l1|) && |l1| == |l2| && AreNames(l1) && AreNames(l2) && Determines(cs, |l1|)
    requires FillAll(cs, l1, a) == FillAll(cs, l2, b)
    ensures l1 == l2
  {
    NamesAreNamed(l1, a);
    NamesAreNamed(l2, b);
    var order :| Solves(cs, order) && forall l: nat | l < |l1| :: Level(l) in order;
    SolvedIsKnown(cs, order, |order|, l1, a, l2, b);
    assert order[..|order|] == order;
    forall l: nat | l < |l1| ensures l1[l] == l2[l] {
      assert Level(l) in order && SameAs(Level(l), l1, a, l2, b);
    }
  }

  /** Two groups of a set whose template determines its levels never get the same path. */
  lemma DeterminedApart(t: Template, l1: seq<string>, l2: seq<string>, a: Names.Name, b: Names.Name)
    requires Valid(t, true) && AreNames(l1) && AreNames(l2) && |l1| == |l2| && AllBound(t.components, |l1|)
    requires Determines(t.components, |l1|) && l1 != l2
    requires BindLevels(t, l1).Ok? && BindLevels(t, l2).Ok?
    ensures var b1, b2 := BindLevels(t, l1).value, BindLevels(t, l2).value;
      && AllBound(b1.components, 0) && AllBound(b2.components, 0)
      && (Interpolate(b1, a).Ok? && Interpolate(b2, b).Ok? ==> Interpolate(b1, a) != Interpolate(b2, b))
  {
    var b1, b2 := BindLevels(t, l1).value, BindLevels(t, l2).value;
    BindIsParseStable(t, l1, a);
    BindIsParseStable(t, l2, b);
    if Interpolate(b1, a).Ok? && Interpolate(b2, b).Ok? && Interpolate(b1, a) == Interpolate(b2, b) {
      SamePathSameParts(b1, a, b2, b);
      DeterminedLevels(t.components, l1, l2, a, b);
    }
  }

  // ----- What elimination covers -----

  lemma {:induction false} SegmentOf(atoms: seq<Piece>, p: Piece) returns (i: nat)
    requires p in atoms && !p.Literal?
    ensures i < |Segments(atoms)| && p in Segments(atoms)[i]
  {
    if atoms[0] == p {
      i := 0;
      assert p in [atoms[0]] + Segments(atoms[1..])[0];
    } else {
      assert atoms == [atoms[0]] + atoms[1..];
      var j := SegmentOf(atoms[1..], p);
      i := if Cuts(atoms[0]) then j + 1 else j;
      SegmentStays(atoms, j, p);
    }
  }

  lemma SegmentStays(atoms: seq<Piece>, j: nat, p: Piece)
    requires atoms != [] && j < |Segments(atoms[1..])| && p in Segments(atoms[1..])[j]
    ensures var i := if Cuts(atoms[0]) then j + 1 else j; i < |Segments(atoms)| && p in Segments(atoms)[i]
  {
    var rest := Segments(atoms[1..]);
    if Cuts(atoms[0]) {
      assert ([[]] + rest)[j + 1] == rest[j];
    } else if j > 0 {
      assert ([[atoms[0]] + rest[0]] + rest[1..])[j] == rest[j];
    } else {
      assert p in [atoms[0]] + rest[0];
    }
  }

  lemma {:induction false} SegmentsWithin(atoms: seq<Piece>)
    ensures forall seg <- Segments(atoms), q <- seg :: q in atoms
  {
    if atoms != [] {
      SegmentsWithin(atoms[1..]);
      var rest := Segments(atoms[1..]);
      assert rest[0] in rest && forall seg <- rest[1..] :: seg in rest;
      assert atoms == [atoms[0]] + atoms[1..];
    }
  }

  lemma {:induction false} AtomsWithin(ps: seq<Piece>)
    ensures forall q: Piece | !q.Literal? :: q in Atoms(ps) <==> q in ps
  {
    if ps != [] {
      AtomsWithin(ps[1..]);
      assert ps == [ps[0]] + ps[1..];
      if ps[0].Literal? {
        BytesAreLiteral(ps[0].text);
      }
    }
  }

  lemma {:induction false} BytesAreLiteral(t: string)
    ensures forall q <- Bytes(t) :: q.Literal?
  {
    if t != "" {
      BytesAreLiteral(t[1..]);
    }
  }

  /** A component's only placeholder shows, with nothing known before. */
  lemma SoleShowsNext(cs: seq<seq<Piece>>, ps: seq<Piece>, p: Piece, known: seq<Piece>)
    requires ps in cs && !p.Literal? && Sole(ps, p)
    ensures ShowsNext(cs, known, p)
  {
    KnownShowsNext(ps, p, known);
  }

  /** Each level alone in a component of its own is the simplest case. */
  lemma LevelsShowDetermines(cs: seq<seq<Piece>>, depth: nat)
    requires LevelsShow(cs, depth)
    ensures Determines(cs, depth)
  {
    var order: seq<Piece> := seq(depth, i requires 0 <= i < depth => Level(i));
    forall i | 0 <= i < |order| ensures !order[i].Literal? && ShowsNext(cs, order[..i], order[i]) {
      var l: nat := i;
      assert LevelShows(cs, l);
      var ps :| ps in cs && Sole(ps, Level(l));
      SoleShowsNext(cs, ps, order[i], order[..i]);
    }
    assert Solves(cs, order);
    forall l: nat | l < depth ensures Level(l) in order {
      assert order[l] == Level(l);
    }
  }

  /** Two groups of one set never get the same path when each level has a component of its own. */
  lemma GroupsApart(t: Template, l1: seq<string>, l2: seq<string>, a: Names.Name, b: Names.Name)
    requires Valid(t, true) && AreNames(l1) && AreNames(l2) && |l1| == |l2| && AllBound(t.components, |l1|)
    requires LevelsShow(t.components, |l1|) && l1 != l2
    requires BindLevels(t, l1).Ok? && BindLevels(t, l2).Ok?
    ensures var b1, b2 := BindLevels(t, l1).value, BindLevels(t, l2).value;
      && AllBound(b1.components, 0) && AllBound(b2.components, 0)
      && (Interpolate(b1, a).Ok? && Interpolate(b2, b).Ok? ==> Interpolate(b1, a) != Interpolate(b2, b))
  {
    LevelsShowDetermines(t.components, |l1|);
    DeterminedApart(t, l1, l2, a, b);
  }

  /** A component whose other placeholders are known shows the one that is not. */
  lemma KnownShowsNext(ps: seq<Piece>, p: Piece, known: seq<Piece>)
    requires p in ps && !p.Literal? && forall q <- ps :: q.Literal? || q == p || q in known
    ensures PartShows(ps, known, p)
  {
    AtomsWithin(ps);
    SegmentsWithin(Atoms(ps));
    var i := SegmentOf(Atoms(ps), p);
    var seg := Segments(Atoms(ps))[i];
    forall q <- seg ensures q.Literal? || q == p || q in known {
      assert q in Atoms(ps);
    }
    assert Shows(seg, known, p);
  }

  /** `{name}/{group}-{name}`: the name is known first, and then the group. */
  lemma NameFirstDetermines(t: string)
    ensures Determines([[Name], [Level(0), Literal(t), Name]], 1)
  {
    var mixed := [Level(0), Literal(t), Name];
    var cs, order := [[Name], mixed], [Name, Level(0)];
    assert [Name] in cs && mixed in cs && Sole([Name], Name);
    SoleShowsNext(cs, [Name], Name, []);
    assert mixed[0] == Level(0);
    KnownShowsNext(mixed, Level(0), [Name]);
    assert order[..0] == [] && order[..1] == [Name];
    assert Solves(cs, order) && order[1] == Level(0);
  }

  /** `{group}@{name}`: the byte between them is in no name. */
  lemma SeparatorDetermines(x: char)
    requires !Names.IsAllowed(x)
    ensures Determines([[Level(0), Literal([x]), Name]], 1)
  {
    var ps, order := [Level(0), Literal([x]), Name], [Level(0)];
    SeparatorCuts(x);
    var seg := [Level(0)];
    assert seg in Segments(Atoms(ps)) && Shows(seg, [], Level(0)) && PartShows(ps, [], Level(0));
    assert ps in [ps] && order[..0] == [];
    assert Solves([ps], order) && order[0] == Level(0);
  }

  lemma SeparatorCuts(x: char)
    requires !Names.IsAllowed(x)
    ensures [Level(0)] in Segments(Atoms([Level(0), Literal([x]), Name]))
  {
    var ps := [Level(0), Literal([x]), Name];
    assert ps[1..] == [Literal([x]), Name] && ps[1..][1..] == [Name] && [Name][1..] == [];
    assert Bytes("") == [] && Bytes([x]) == [Literal([x])] + [];
    assert Atoms([Name]) == [Name] && Atoms(ps[1..]) == [Literal([x]), Name] && Atoms(ps) == ps;
    assert x in [x] && Cuts(Literal([x]));
    assert Segments([Name]) == [[Name]];
    assert Segments(ps[1..]) == [[], [Name]];
    var segs := Segments(ps);
    assert segs == [[Level(0)] + []] + [[Name]];
    assert segs[0] == [Level(0)];
  }
}
