/**
 Which groups a pass finds, which it freezes and what it wants mounted
 (src/runtime.rs:189-218, src/reconcile/mod.rs:81-114, src/reconcile/observe.rs:93-184).
 */
module Freezing {
  import opened Wrappers
  import opened Names
  import opened Records
  import opened Discovery

  /** An opened group set and what scanning it would meet. */
  datatype SetDir = SetDir(cfg: SetConfig, deleted: bool, root: Listing) {
    predicate Fails() {
      deleted || root.failed
    }

    function Scan(): Found
      requires cfg.Valid()
    {
      ScanEntries(cfg, root.entries, [])
    }
  }

  datatype Degraded = Degraded(groups: set<GroupId>, sets: set<Name>)

  datatype Membership = Deleted | Unreadable | Members(names: set<Name>)

  type Groups = map<GroupId, GroupConfig>

  datatype Findings = Findings(unavailable: set<GroupId>, unavailableSets: set<Name>)

  predicate ValidSets(sets: map<Name, SetDir>) {
    forall s <- sets :: sets[s].cfg.Valid()
  }

  predicate ValidGroups(groups: Groups) {
    forall g <- groups :: g.Valid() && groups[g].Valid()
  }

  /** Group `g` of set `s` was found. */
  predicate FoundIn(sets: map<Name, SetDir>, skip: set<Name>, g: GroupId)
    requires ValidSets(sets)
  {
    && g.inSet.Some? && g.inSet.value in sets && g.inSet.value !in skip
    && !sets[g.inSet.value].Fails() && g.path in sets[g.inSet.value].Scan().groups
  }

  predicate UnavailableIn(sets: map<Name, SetDir>, skip: set<Name>, g: GroupId)
    requires ValidSets(sets)
  {
    && g.inSet.Some? && g.inSet.value in sets && g.inSet.value !in skip
    && !sets[g.inSet.value].Fails() && g.path in sets[g.inSet.value].Scan().unavailable
  }

  function InSet(s: Name, ps: seq<Path>): set<GroupId> {
    set p <- ps :: GroupId(Some(s), p)
  }

  lemma {:induction false} FoundDepth(cfg: SetConfig, es: seq<Entry>, prefix: Path)
    requires cfg.Valid() && |prefix| < cfg.depth
    ensures forall p <- ScanEntries(cfg, es, prefix).groups :: |p| == cfg.depth && cfg.Binds(p)
    decreases cfg.depth - |prefix|, |es|
  {
    if es != [] {
      FoundDepth(cfg, es[..|es| - 1], prefix);
      var e := es[|es| - 1];
      if e.Directory? && |prefix| + 1 < cfg.depth {
        FoundDepth(cfg, e.listing.entries, prefix + [e.name]);
      }
    }
  }

  /** The group configurations of one scanned set. */
  function GroupsOf(s: Name, cfg: SetConfig, paths: seq<Path>): Groups
    requires cfg.Valid()
  {
    map g <- InSet(s, paths) | |g.path| == cfg.depth && cfg.Binds(g.path) :: cfg.Group(g.path)
  }

  predicate FromSet(sets: map<Name, SetDir>, g: GroupId, cfg: GroupConfig)
    requires ValidSets(sets)
  {
    && g.inSet.Some? && g.inSet.value in sets && |g.path| == sets[g.inSet.value].cfg.depth
    && sets[g.inSet.value].cfg.Binds(g.path) && cfg == sets[g.inSet.value].cfg.Group(g.path)
  }

  /** The runtime's groups once the sets in `done` have been looked at. */
  ghost predicate GroupsSoFar(sets: map<Name, SetDir>, skip: set<Name>, statics: Groups, done: set<Name>, groups: Groups)
    requires ValidSets(sets)
  {
    && (forall g :: g in groups <==> (g in statics && g.inSet.None?) || (FoundIn(sets, skip, g) && g.inSet.value in done))
    && (forall g <- groups | g.inSet.None? :: groups[g] == statics[g])
    && (forall g <- groups | g.inSet.Some? :: FromSet(sets, g, groups[g]))
  }

  ghost predicate FindingsSoFar(sets: map<Name, SetDir>, skip: set<Name>, done: set<Name>, d: Findings)
    requires ValidSets(sets)
  {
    && (forall g :: g in d.unavailable <==> UnavailableIn(sets, skip, g) && g.inSet.value in done)
    && (forall s :: s in d.unavailableSets <==> s in sets && s !in skip && sets[s].Fails() && s in done)
  }

  lemma GroupsOfFacts(sets: map<Name, SetDir>, skip: set<Name>, s: Name)
    requires ValidSets(sets) && s in sets && s !in skip && !sets[s].Fails()
    ensures var found := GroupsOf(s, sets[s].cfg, sets[s].Scan().groups);
      && (forall g :: g in found <==> FoundIn(sets, skip, g) && g.inSet.value == s)
      && (forall g <- found :: FromSet(sets, g, found[g]))
  {
    FoundDepth(sets[s].cfg, sets[s].root.entries, []);
  }

  lemma GroupsGrow(sets: map<Name, SetDir>, skip: set<Name>, statics: Groups, done: set<Name>, groups: Groups, s: Name, found: Groups)
    requires ValidSets(sets) && GroupsSoFar(sets, skip, statics, done, groups)
    requires forall g :: g in found <==> FoundIn(sets, skip, g) && g.inSet.value == s
    requires forall g <- found :: FromSet(sets, g, found[g])
    ensures GroupsSoFar(sets, skip, statics, done + {s}, groups + found)
  {
    FromSetUnion(sets, groups, found);
  }

  lemma FromSetUnion(sets: map<Name, SetDir>, groups: Groups, found: Groups)
    requires ValidSets(sets)
    requires forall g <- groups | g.inSet.Some? :: FromSet(sets, g, groups[g])
    requires forall g <- found :: FromSet(sets, g, found[g])
    ensures var all := groups + found; forall g <- all | g.inSet.Some? :: FromSet(sets, g, all[g])
  {
    var all := groups + found;
    forall g <- all | g.inSet.Some? ensures FromSet(sets, g, all[g]) {
      assert g in found || (g in groups && all[g] == groups[g]);
    }
  }

  lemma FindingsGrow(sets: map<Name, SetDir>, skip: set<Name>, done: set<Name>, d: Findings, s: Name)
    requires ValidSets(sets) && s in sets && s !in done && FindingsSoFar(sets, skip, done, d)
    ensures s !in skip && !sets[s].Fails() ==>
      FindingsSoFar(sets, skip, done + {s}, d.(unavailable := d.unavailable + InSet(s, sets[s].Scan().unavailable)))
    ensures s !in skip && sets[s].Fails() ==>
      FindingsSoFar(sets, skip, done + {s}, d.(unavailableSets := d.unavailableSets + {s}))
    ensures s in skip ==> FindingsSoFar(sets, skip, done + {s}, d)
  {
  }

  lemma Handled<T>(done: set<T>, todo: set<T>, x: T, all: set<T>)
    requires done + todo == all && done !! todo && x in todo
    ensures x in all && x !in done && (done + {x}) + (todo - {x}) == all && (done + {x}) !! (todo - {x})
  {
  }

  class Runtime {
    var groups: Groups
    const sets: map<Name, SetDir>

    constructor (statics: Groups, sets: map<Name, SetDir>)
      ensures groups == statics && this.sets == sets
    {
      groups, this.sets := statics, sets;
    }

    /** Replaces the groups found in sets by the ones there now. */
    method Discover(skip: set<Name>) returns (d: Findings)
      requires ValidSets(sets)
      modifies this
      ensures GroupsSoFar(sets, skip, old(groups), sets.Keys, groups)
      ensures FindingsSoFar(sets, skip, sets.Keys, d)
    {
      groups := map g <- groups | g.inSet.None? :: groups[g];
      d := Findings({}, {});
      var todo := sets.Keys;
      ghost var done: set<Name> := {};
      while todo != {}
        invariant done + todo == sets.Keys && done !! todo
        invariant GroupsSoFar(sets, skip, old(groups), done, groups)
        invariant FindingsSoFar(sets, skip, done, d)
        decreases todo
      {
        var s :| s in todo;
        var found, d' := Look(s, skip, d, done);
        GroupsGrow(sets, skip, old(groups), done, groups, s, found);
        Handled(done, todo, s, sets.Keys);
        groups, d, done, todo := groups + found, d', done + {s}, todo - {s};
      }
    }

    /** Looks at one set: the groups it has, and what could not be read. */
    method Look(s: Name, skip: set<Name>, d: Findings, ghost done: set<Name>) returns (found: Groups, d': Findings)
      requires ValidSets(sets) && s in sets && s !in done && FindingsSoFar(sets, skip, done, d)
      ensures FindingsSoFar(sets, skip, done + {s}, d')
      ensures forall g :: g in found <==> FoundIn(sets, skip, g) && g.inSet.value == s
      ensures forall g <- found :: FromSet(sets, g, found[g])
    {
      found, d' := map[], d;
      FindingsGrow(sets, skip, done, d, s);
      if s !in skip {
        var dir := sets[s];
        if dir.Fails() {
          d' := d.(unavailableSets := d.unavailableSets + {s});
        } else {
          var f := ScanSet(dir);
          GroupsOfFacts(sets, skip, s);
          found := GroupsOf(s, dir.cfg, f.groups);
          d' := d.(unavailable := d.unavailable + InSet(s, f.unavailable));
        }
      }
    }
  }

  method ScanSet(dir: SetDir) returns (found: Found)
    requires dir.cfg.Valid()
    ensures found == dir.Scan()
  {
    var scan := new SetScan();
    var _ := scan.ScanLevel(dir.cfg, dir.root, []);
    found := scan.Contents();
  }
}
