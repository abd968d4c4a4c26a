/**
 Finding a group set's groups, and which groups a pass must leave alone
 (src/runtime.rs:189-383, src/reconcile/mod.rs:81-114).
 */
module Discovery {
  import opened Names
  import opened Records
  import Templates
  import TemplateParsing
  import Interpolation
  import opened GroupNames

  type Path = seq<Name>

  /** A directory entry as a scan meets it. `Vanished` entries are gone by the time they are opened. */
  datatype Entry =
    | Hidden | Rejected | Vanished
    | Unopenable(name: Name)
    | Directory(name: Name, listing: Listing)

  /** What reading a directory yields; it may fail after some entries. */
  datatype Listing = Listing(entries: seq<Entry>, failed: bool)

  datatype GroupConfig = GroupConfig(
    sourceRoot: string, source: Templates.Template, targetRoot: string, target: Templates.Template, attrs: MountAttrs)
  {
    predicate Valid() {
      && ValidAbs(sourceRoot) && TemplateParsing.Valid(source, false) && Interpolation.AllBound(source.components, 0)
      && ValidAbs(targetRoot) && TemplateParsing.Valid(target, false) && Interpolation.AllBound(target.components, 0)
    }
  }

  datatype SetConfig = SetConfig(
    depth: nat, sourceRoot: string, source: Templates.Template, targetRoot: string, target: Templates.Template, attrs: MountAttrs)
  {
    /** What configuration checking guarantees (src/config.rs:968-988). */
    predicate Valid() {
      && 1 <= depth <= MAX_SET_DEPTH && ValidAbs(sourceRoot) && ValidAbs(targetRoot)
      && TemplateParsing.Valid(source, true) && Interpolation.AllBound(source.components, depth)
      && TemplateParsing.Valid(target, true) && Interpolation.AllBound(target.components, depth)
    }

    /** Both templates can be bound to the directory names. */
    predicate Binds(path: Path)
      requires Valid() && |path| == depth
    {
      && Interpolation.BindLevels(source, path).Ok?
      && Interpolation.BindLevels(target, path).Ok?
    }

    /** `GroupSetConfig::group`. */
    function Group(path: Path): GroupConfig
      requires Valid() && |path| == depth && Binds(path)
    {
      GroupConfig(sourceRoot, Interpolation.BindLevels(source, path).value, targetRoot, Interpolation.BindLevels(target, path).value, attrs)
    }

    /** A bound group configuration is as good as a statically written one. */
    lemma GroupIsValid(path: Path)
      requires Valid() && |path| == depth && Binds(path)
      ensures Group(path).Valid()
    {
      Interpolation.BindIsParseStable(source, path, "a");
      Interpolation.BindIsParseStable(target, path, "a");
    }

    /** It has the set's roots and attributes, and its paths are the set's templates with the names
        of the directories and of the member filled in. */
    lemma GroupFills(path: Path, n: Name)
      requires Valid() && |path| == depth && Binds(path) && Group(path).Valid()
      ensures var g := Group(path); g.sourceRoot == sourceRoot && g.targetRoot == targetRoot && g.attrs == attrs
      ensures Interpolation.FillAll(Group(path).source.components, [], n) == Interpolation.FillAll(source.components, path, n)
      ensures Interpolation.FillAll(Group(path).target.components, [], n) == Interpolation.FillAll(target.components, path, n)
    {
      Interpolation.BindIsParseStable(source, path, n);
      Interpolation.BindIsParseStable(target, path, n);
    }
  }

  /** Groups and intermediate directories found, and directories that could not be read. */
  datatype Found = Found(groups: seq<Path>, intermediates: seq<Path>, unavailable: seq<Path>) {
    function Plus(more: Found): Found {
      Found(groups + more.groups, intermediates + more.intermediates, unavailable + more.unavailable)
    }
  }

  const NOTHING := Found([], [], [])

  function ScanEntry(cfg: SetConfig, e: Entry, prefix: Path): Found
    requires cfg.Valid() && |prefix| < cfg.depth
    decreases cfg.depth - |prefix|, 0
  {
    match e
    case Hidden => NOTHING
    case Rejected => NOTHING
    case Vanished => NOTHING
    case Unopenable(name) => Found([], [], [prefix + [name]])
    case Directory(name, listing) =>
      var path := prefix + [name];
      if |path| < cfg.depth then
        var below := ScanEntries(cfg, listing.entries, path);
        below.Plus(if listing.failed then Found([], [], [path]) else Found([], [path], []))
      else if cfg.Binds(path) then Found([path], [], [])
      else NOTHING
  }

  function ScanEntries(cfg: SetConfig, es: seq<Entry>, prefix: Path): Found
    requires cfg.Valid() && |prefix| < cfg.depth
    decreases cfg.depth - |prefix|, 1 + |es|
  {
    if es == [] then NOTHING
    else ScanEntries(cfg, es[..|es| - 1], prefix).Plus(ScanEntry(cfg, es[|es| - 1], prefix))
  }

  // ----- What a scan reports, told from the tree alone -----

  /** On the way down `path` a directory of the tree could not be opened or listed. */
  predicate CutOff(cfg: SetConfig, es: seq<Entry>, path: Path, level: nat)
    decreases |path|
  {
    path != [] && exists e <- es :: CutOffAt(cfg, e, path, level)
  }

  predicate CutOffAt(cfg: SetConfig, e: Entry, path: Path, level: nat)
    requires path != []
    decreases |path|, 0
  {
    || (e.Unopenable? && e.name == path[0])
    || (e.Directory? && e.name == path[0] && level + 1 < cfg.depth
        && (e.listing.failed || CutOff(cfg, e.listing.entries, path[1..], level + 1)))
  }

  /** `path` leads, through directories that opened, to a directory at the set's depth. */
  predicate Leads(cfg: SetConfig, es: seq<Entry>, path: Path, level: nat)
    decreases |path|
  {
    path != [] && exists e <- es :: LeadsAt(cfg, e, path, level)
  }

  predicate LeadsAt(cfg: SetConfig, e: Entry, path: Path, level: nat)
    requires path != []
    decreases |path|, 0
  {
    && e.Directory? && e.name == path[0]
    && if level + 1 < cfg.depth then Leads(cfg, e.listing.entries, path[1..], level + 1) else |path| == 1
  }

  predicate Covered(us: seq<Path>, p: Path) {
    exists u <- us :: u <= p
  }

  lemma CoveredPlus(a: seq<Path>, b: seq<Path>, p: Path)
    ensures Covered(a + b, p) <==> Covered(a, p) || Covered(b, p)
  {
    assert forall u <- a :: u in a + b;
    assert forall u <- b :: u in a + b;
    assert forall u <- a + b :: u in a || u in b;
  }

  predicate AllBeneath(ps: seq<Path>, prefix: Path) {
    forall p <- ps :: prefix <= p && |p| > |prefix|
  }

  /** A scan speaks only of paths beneath its prefix. */
  lemma {:induction false} ScanStaysBeneath(cfg: SetConfig, es: seq<Entry>, prefix: Path)
    requires cfg.Valid() && |prefix| < cfg.depth
    ensures var f := ScanEntries(cfg, es, prefix); AllBeneath(f.groups, prefix) && AllBeneath(f.unavailable, prefix)
    decreases cfg.depth - |prefix|, |es|
  {
    if es != [] {
      ScanStaysBeneath(cfg, es[..|es| - 1], prefix);
      var e := es[|es| - 1];
      if e.Directory? && |prefix| + 1 < cfg.depth {
        ScanStaysBeneath(cfg, e.listing.entries, prefix + [e.name]);
      }
    }
  }

  lemma NotBeneath(ps: seq<Path>, prefix: Path, n: Name, path: Path)
    requires AllBeneath(ps, prefix + [n]) && path != [] && path[0] != n
    ensures !Covered(ps, prefix + path) && prefix + path !in ps
  {
    assert (prefix + path)[|prefix|] == path[0];
    forall p <- ps ensures !(p <= prefix + path) {
      assert p[|prefix|] == n;
    }
  }

  /** A group's records are protected by a scan iff the scan was blocked on the way to it. */
  lemma {:induction false} UnavailableIsExact(cfg: SetConfig, es: seq<Entry>, prefix: Path, path: Path)
    requires cfg.Valid() && |prefix| < cfg.depth && path != []
    ensures Covered(ScanEntries(cfg, es, prefix).unavailable, prefix + path) <==> CutOff(cfg, es, path, |prefix|)
    decreases cfg.depth - |prefix|, |es|
  {
    if es != [] {
      var front, e := es[..|es| - 1], es[|es| - 1];
      UnavailableIsExact(cfg, front, prefix, path);
      UnavailableEntry(cfg, e, prefix, path);
      CoveredPlus(ScanEntries(cfg, front, prefix).unavailable, ScanEntry(cfg, e, prefix).unavailable, prefix + path);
      CutOffSnoc(cfg, es, path, |prefix|);
    }
  }

  lemma CutOffSnoc(cfg: SetConfig, es: seq<Entry>, path: Path, level: nat)
    requires es != [] && path != []
    ensures CutOff(cfg, es, path, level) <==>
      CutOff(cfg, es[..|es| - 1], path, level) || CutOffAt(cfg, es[|es| - 1], path, level)
  {
    var front, e := es[..|es| - 1], es[|es| - 1];
    assert es == front + [e];
    assert forall x <- front :: x in es;
    assert forall x <- es :: x in front || x == e;
  }

  lemma {:induction false} UnavailableEntry(cfg: SetConfig, e: Entry, prefix: Path, path: Path)
    requires cfg.Valid() && |prefix| < cfg.depth && path != []
    ensures Covered(ScanEntry(cfg, e, prefix).unavailable, prefix + path) <==> CutOffAt(cfg, e, path, |prefix|)
    decreases cfg.depth - |prefix|, 0, 0
  {
    if e.Unopenable? {
      OnePath(prefix, e.name, path);
    } else if e.Directory? && |prefix| + 1 < cfg.depth {
      UnavailableBelow(cfg, e, prefix, path);
    }
  }

  lemma OnePath(prefix: Path, n: Name, path: Path)
    requires path != []
    ensures Covered([prefix + [n]], prefix + path) <==> path[0] == n
  {
    assert (prefix + path)[|prefix|] == path[0] && (prefix + [n])[|prefix|] == n;
    assert prefix + [n] in [prefix + [n]];
  }

  lemma Regroup(prefix: Path, path: Path)
    requires path != []
    ensures prefix + path == (prefix + [path[0]]) + path[1..]
  {
  }

  lemma {:induction false} UnavailableBelow(cfg: SetConfig, e: Entry, prefix: Path, path: Path)
    requires cfg.Valid() && |prefix| + 1 < cfg.depth && path != [] && e.Directory?
    ensures Covered(ScanEntry(cfg, e, prefix).unavailable, prefix + path) <==> CutOffAt(cfg, e, path, |prefix|)
    decreases cfg.depth - |prefix| - 1, |e.listing.entries| + 1
  {
    var inner, es := prefix + [e.name], e.listing.entries;
    var below, own := ScanEntries(cfg, es, inner).unavailable, if e.listing.failed then [inner] else [];
    CoveredPlus(below, own, prefix + path);
    OnePath(prefix, e.name, path);
    ScanStaysBeneath(cfg, es, inner);
    if e.name != path[0] {
      NotBeneath(below, prefix, e.name, path);
    } else if |path| == 1 {
      assert prefix + path == inner;
    } else {
      Regroup(prefix, path);
      UnavailableIsExact(cfg, es, inner, path[1..]);
    }
  }

  /** The groups found are those the tree leads to and the templates can be bound for. */
  lemma {:induction false} GroupsAreExact(cfg: SetConfig, es: seq<Entry>, prefix: Path, path: Path)
    requires cfg.Valid() && |prefix| < cfg.depth && |prefix + path| == cfg.depth
    ensures prefix + path in ScanEntries(cfg, es, prefix).groups <==> Leads(cfg, es, path, |prefix|) && cfg.Binds(prefix + path)
    decreases cfg.depth - |prefix|, |es|
  {
    if es != [] {
      var front, e := es[..|es| - 1], es[|es| - 1];
      GroupsAreExact(cfg, front, prefix, path);
      GroupEntry(cfg, e, prefix, path);
      assert es == front + [e];
    }
  }

  lemma {:induction false} GroupEntry(cfg: SetConfig, e: Entry, prefix: Path, path: Path)
    requires cfg.Valid() && |prefix| < cfg.depth && |prefix + path| == cfg.depth
    ensures prefix + path in ScanEntry(cfg, e, prefix).groups <==> LeadsAt(cfg, e, path, |prefix|) && cfg.Binds(prefix + path)
    decreases cfg.depth - |prefix|, 0, 0
  {
    if e.Directory? && |prefix| + 1 < cfg.depth {
      var inner, es := prefix + [e.name], e.listing.entries;
      ScanStaysBeneath(cfg, es, inner);
      if e.name != path[0] {
        NotBeneath(ScanEntries(cfg, es, inner).groups, prefix, e.name, path);
      } else {
        Regroup(prefix, path);
        GroupsAreExact(cfg, es, inner, path[1..]);
      }
    } else if e.Directory? {
      OneGroup(prefix, e.name, path);
    }
  }

  lemma OneGroup(prefix: Path, n: Name, path: Path)
    requires |path| == 1
    ensures prefix + path == prefix + [n] <==> path[0] == n
  {
    assert (prefix + path)[|prefix|] == path[0] && (prefix + [n])[|prefix|] == n;
  }

  lemma {:induction false} ListedStaysBeneath(cfg: SetConfig, es: seq<Entry>, prefix: Path)
    requires cfg.Valid() && |prefix| < cfg.depth
    ensures AllBeneath(ScanEntries(cfg, es, prefix).intermediates, prefix)
    decreases cfg.depth - |prefix|, |es|
  {
    if es != [] {
      ListedStaysBeneath(cfg, es[..|es| - 1], prefix);
      var e := es[|es| - 1];
      if e.Directory? && |prefix| + 1 < cfg.depth {
        ListedStaysBeneath(cfg, e.listing.entries, prefix + [e.name]);
      }
    }
  }

  /** `path` leads to a directory above the set's depth that was listed to its end. */
  predicate ListedTo(cfg: SetConfig, es: seq<Entry>, path: Path, level: nat)
    decreases |path|
  {
    path != [] && exists e <- es :: ListedToAt(cfg, e, path, level)
  }

  predicate ListedToAt(cfg: SetConfig, e: Entry, path: Path, level: nat)
    requires path != []
    decreases |path|, 0
  {
    && e.Directory? && e.name == path[0] && level + 1 < cfg.depth
    && if |path| == 1 then !e.listing.failed else ListedTo(cfg, e.listing.entries, path[1..], level + 1)
  }

  /** The intermediate directories found, which are to be watched, are those listed to their end. */
  lemma {:induction false} IntermediatesAreExact(cfg: SetConfig, es: seq<Entry>, prefix: Path, path: Path)
    requires cfg.Valid() && |prefix| < cfg.depth && path != []
    ensures prefix + path in ScanEntries(cfg, es, prefix).intermediates <==> ListedTo(cfg, es, path, |prefix|)
    decreases cfg.depth - |prefix|, |es|
  {
    if es != [] {
      var front, e := es[..|es| - 1], es[|es| - 1];
      IntermediatesAreExact(cfg, front, prefix, path);
      IntermediateEntry(cfg, e, prefix, path);
      assert es == front + [e];
    }
  }

  lemma {:induction false} IntermediateEntry(cfg: SetConfig, e: Entry, prefix: Path, path: Path)
    requires cfg.Valid() && |prefix| < cfg.depth && path != []
    ensures prefix + path in ScanEntry(cfg, e, prefix).intermediates <==> ListedToAt(cfg, e, path, |prefix|)
    decreases cfg.depth - |prefix|, 0, 0
  {
    if e.Directory? && |prefix| + 1 < cfg.depth {
      var inner, es := prefix + [e.name], e.listing.entries;
      ListedStaysBeneath(cfg, es, inner);
      if |path| == 1 {
        OneGroup(prefix, e.name, path);
      } else if e.name != path[0] {
        NotBeneath(ScanEntries(cfg, es, inner).intermediates, prefix, e.name, path);
      } else {
        Regroup(prefix, path);
        IntermediatesAreExact(cfg, es, inner, path[1..]);
      }
    }
  }

  // ----- The scan as the program runs it -----

  class SetScan {
    var groups: seq<Path>
    var intermediates: seq<Path>
    var unavailable: seq<Path>

    constructor ()
      ensures Contents() == NOTHING
    {
      groups, intermediates, unavailable := [], [], [];
    }

    function Contents(): Found
      reads this
    {
      Found(groups, intermediates, unavailable)
    }

    /** Scans one directory level; what it had found before a failure is kept. */
    method ScanLevel(cfg: SetConfig, dir: Listing, prefix: Path) returns (ok: bool)
      requires cfg.Valid() && |prefix| < cfg.depth
      modifies this
      ensures Contents() == old(Contents()).Plus(ScanEntries(cfg, dir.entries, prefix))
      ensures ok == !dir.failed
      decreases cfg.depth - |prefix|, 1
    {
      for i := 0 to |dir.entries|
        invariant Contents() == old(Contents()).Plus(ScanEntries(cfg, dir.entries[..i], prefix))
      {
        EntryStep(old(Contents()), cfg, dir.entries, i, prefix);
        Take(cfg, dir.entries[i], prefix);
      }
      assert dir.entries[..|dir.entries|] == dir.entries;
      ok := !dir.failed;
    }

    method Take(cfg: SetConfig, e: Entry, prefix: Path)
      requires cfg.Valid() && |prefix| < cfg.depth
      modifies this
      ensures Contents() == old(Contents()).Plus(ScanEntry(cfg, e, prefix))
      decreases cfg.depth - |prefix|, 0
    {
      if e.Unopenable? {
        unavailable := unavailable + [prefix + [e.name]];
      } else if e.Directory? {
        var path := prefix + [e.name];
        if |path| < cfg.depth {
          var listed := ScanLevel(cfg, e.listing, path);
          PlusAssociates(old(Contents()), ScanEntries(cfg, e.listing.entries, path), if listed then Found([], [path], []) else Found([], [], [path]));
          if listed {
            intermediates := intermediates + [path];
          } else {
            unavailable := unavailable + [path];
          }
        } else if cfg.Binds(path) {
          groups := groups + [path];
        }
      }
    }
  }

  lemma EntryStep(start: Found, cfg: SetConfig, es: seq<Entry>, i: nat, prefix: Path)
    requires cfg.Valid() && |prefix| < cfg.depth && i < |es|
    ensures start.Plus(ScanEntries(cfg, es[..i], prefix)).Plus(ScanEntry(cfg, es[i], prefix))
      == start.Plus(ScanEntries(cfg, es[..i + 1], prefix))
  {
    var upTo := es[..i + 1];
    assert upTo[..i] == es[..i] && upTo[i] == es[i];
    PlusAssociates(start, ScanEntries(cfg, es[..i], prefix), ScanEntry(cfg, es[i], prefix));
  }

  lemma PlusAssociates(a: Found, b: Found, c: Found)
    ensures a.Plus(b).Plus(c) == a.Plus(b.Plus(c))
  {
    assert a.groups + b.groups + c.groups == a.groups + (b.groups + c.groups);
    assert a.intermediates + b.intermediates + c.intermediates == a.intermediates + (b.intermediates + c.intermediates);
    assert a.unavailable + b.unavailable + c.unavailable == a.unavailable + (b.unavailable + c.unavailable);
  }
}
