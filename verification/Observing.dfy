/**
 What a pass observes: frozen groups and desired mounts
 (src/reconcile/mod.rs:81-114, src/reconcile/observe.rs:93-184).
 */
module Observing {
  import opened Wrappers
  import opened Names
  import opened Records
  import Templates
  import TemplateParsing
  import Interpolation
  import opened Texts
  import opened Discovery
  import opened Freezing
  import opened Storage
  import opened Planning
  import opened Protocol
  import opened Runs

  // ----- Freezing -----

  /** The whole set is frozen, or a directory at or above the group was not readable. */
  predicate Protected(degraded: Degraded, d: Findings, g: GroupId) {
    || (g.inSet.Some? && (g.inSet.value in degraded.sets || g.inSet.value in d.unavailableSets))
    || exists u <- d.unavailable :: g.StartsWith(u)
  }

  function FrozenAtStart(state: State, degraded: Degraded, d: Findings): set<GroupId> {
    degraded.groups + d.unavailable + set k <- state | Protected(degraded, d, k.group) :: k.group
  }

  /** A directory the group's records depend on could not be read this pass. */
  predicate Unreachable(sets: map<Name, SetDir>, degraded: Degraded, g: GroupId) {
    && g.inSet.Some?
    && (g.inSet.value in degraded.sets
        || (g.inSet.value in sets
            && (sets[g.inSet.value].deleted || sets[g.inSet.value].root.failed || CutOff(sets[g.inSet.value].cfg, sets[g.inSet.value].root.entries, g.path, 0))))
  }

  lemma PrefixIsExact(sets: map<Name, SetDir>, skip: set<Name>, d: Findings, g: GroupId)
    requires ValidSets(sets) && FindingsSoFar(sets, skip, sets.Keys, d) && g.inSet.Some? && g.path != []
    ensures (exists u <- d.unavailable :: g.StartsWith(u)) <==>
      (g.inSet.value in sets && g.inSet.value !in skip && !sets[g.inSet.value].Fails()
       && CutOff(sets[g.inSet.value].cfg, sets[g.inSet.value].root.entries, g.path, 0))
  {
    var s := g.inSet.value;
    if s in sets && s !in skip && !sets[s].Fails() {
      var dir := sets[s];
      assert [] + g.path == g.path;
      UnavailableIsExact(dir.cfg, dir.root.entries, [], g.path);
      if Covered(dir.Scan().unavailable, g.path) {
        var p :| p in dir.Scan().unavailable && p <= g.path;
        assert UnavailableIn(sets, skip, GroupId(Some(s), p)) && g.StartsWith(GroupId(Some(s), p));
      }
    }
  }

  /** A record's group is protected by a pass iff the tree says it cannot be read. */
  lemma ProtectedIsExact(sets: map<Name, SetDir>, degraded: Degraded, d: Findings, g: GroupId)
    requires ValidSets(sets) && FindingsSoFar(sets, degraded.sets, sets.Keys, d) && g.Valid()
    ensures Protected(degraded, d, g) <==> Unreachable(sets, degraded, g)
  {
    if g.inSet.Some? {
      PrefixIsExact(sets, degraded.sets, d, g);
    }
  }

  // ----- Observing membership -----

  /** The mount a member asks for, unless its name does not fit the templates. */
  function WantedMount(cfg: GroupConfig, k: RecordKey): Option<DesiredMount>
    requires cfg.Valid()
  {
    match (Interpolation.Interpolate(cfg.source, k.name), Interpolation.Interpolate(cfg.target, k.name))
    case (Ok(s), Ok(t)) => Some(DesiredMount(k, Location(cfg.sourceRoot, s), Location(cfg.targetRoot, t), cfg.attrs))
    case _ => None
  }

  /** `d` is mounted from the group's source root, at its source template, onto its target root, at
      its target template, with its attributes. */
  predicate IsConfigured(d: DesiredMount, cfg: GroupConfig)
    requires cfg.Valid()
  {
    && d.source.root == cfg.sourceRoot && Interpolation.Interpolate(cfg.source, d.key.name) == Ok(d.source.path)
    && d.target.root == cfg.targetRoot && Interpolation.Interpolate(cfg.target, d.key.name) == Ok(d.target.path)
    && d.attrs == cfg.attrs
  }

  predicate Fits(n: Name, cfg: GroupConfig)
    requires cfg.Valid()
  {
    Interpolation.Interpolate(cfg.source, n).Ok? && Interpolation.Interpolate(cfg.target, n).Ok?
  }

  lemma WantedIsConfigured(cfg: GroupConfig, k: RecordKey)
    requires cfg.Valid()
    ensures WantedMount(cfg, k).Some? <==> Fits(k.name, cfg)
    ensures WantedMount(cfg, k).Some? ==> WantedMount(cfg, k).value.key == k && IsConfigured(WantedMount(cfg, k).value, cfg)
  {
  }

  /** The member is listed in a directory that was read, of a group that is not frozen. */
  predicate IsRead(groups: Groups, start: set<GroupId>, read: GroupId -> Membership, k: RecordKey) {
    k.group in groups && k.group !in start && read(k.group).Members? && k.name in read(k.group).names
  }

  /** A mount is desired iff its member is read and both paths can be built; and it is as configured. */
  ghost predicate AsRead(desired: seq<DesiredMount>, groups: Groups, start: set<GroupId>, read: GroupId -> Membership)
    requires ValidGroups(groups)
  {
    && DistinctKeys(desired)
    && (forall d <- desired :: d.key.group in groups && IsConfigured(d, groups[d.key.group]))
    && (forall k: RecordKey :: (exists d <- desired :: d.key == k) <==> IsRead(groups, start, read, k) && Fits(k.name, groups[k.group]))
  }

  lemma ExactlyIsRead(desired: seq<DesiredMount>, groups: Groups, start: set<GroupId>, read: GroupId -> Membership)
    requires ValidGroups(groups) && Exactly(desired, groups, Scope(groups.Keys, start, read))
    ensures AsRead(desired, groups, start, read)
  {
    forall d <- desired ensures d.key.group in groups && IsConfigured(d, groups[d.key.group]) {
      WantedIsConfigured(groups[d.key.group], d.key);
    }
    forall k: RecordKey ensures (exists d <- desired :: d.key == k) <==> IsRead(groups, start, read, k) && Fits(k.name, groups[k.group]) {
      KeyIsRead(desired, groups, start, read, k);
    }
  }

  lemma KeyIsRead(desired: seq<DesiredMount>, groups: Groups, start: set<GroupId>, read: GroupId -> Membership, k: RecordKey)
    requires ValidGroups(groups) && Exactly(desired, groups, Scope(groups.Keys, start, read))
    ensures (exists d <- desired :: d.key == k) <==> IsRead(groups, start, read, k) && Fits(k.name, groups[k.group])
  {
    assert k in Scope(groups.Keys, start, read) <==> IsRead(groups, start, read, k);
    if k.group in groups {
      WantedIsConfigured(groups[k.group], k);
    }
  }

  /** The keys are distinct, and a mount is desired iff a member in `done` wants it. */
  ghost predicate Exactly(desired: seq<DesiredMount>, groups: Groups, done: set<RecordKey>)
    requires ValidGroups(groups)
  {
    && DistinctKeys(desired)
    && (forall d <- desired :: d.key in done && d.key.group in groups && WantedMount(groups[d.key.group], d.key) == Some(d))
    && (forall k <- done | k.group in groups && WantedMount(groups[k.group], k).Some? :: exists d <- desired :: d.key == k)
  }

  lemma ExactlyGrows(desired: seq<DesiredMount>, groups: Groups, done: set<RecordKey>, k: RecordKey)
    requires ValidGroups(groups) && Exactly(desired, groups, done) && k !in done && k.group in groups
    ensures var w := WantedMount(groups[k.group], k);
      Exactly(if w.Some? then desired + [w.value] else desired, groups, done + {k})
  {
    var w := WantedMount(groups[k.group], k);
    if w.Some? {
      WantedHasKey(groups[k.group], k);
      ExactlyAppends(desired, groups, done, w.value);
    }
  }

  lemma WantedHasKey(cfg: GroupConfig, k: RecordKey)
    requires cfg.Valid()
    ensures WantedMount(cfg, k).Some? ==> WantedMount(cfg, k).value.key == k
  {
  }

  ghost predicate DistinctKeys(desired: seq<DesiredMount>) {
    forall i, j | 0 <= i < j < |desired| :: desired[i].key != desired[j].key
  }

  lemma KeysStayDistinct(desired: seq<DesiredMount>, done: set<RecordKey>, d: DesiredMount)
    requires DistinctKeys(desired) && d.key !in done && forall x <- desired :: x.key in done
    ensures DistinctKeys(desired + [d])
  {
  }

  lemma InSnoc(desired: seq<DesiredMount>, d: DesiredMount)
    ensures forall x :: x in desired + [d] <==> x in desired || x == d
  {
  }

  lemma ExactlyAppends(desired: seq<DesiredMount>, groups: Groups, done: set<RecordKey>, d: DesiredMount)
    requires ValidGroups(groups) && Exactly(desired, groups, done) && d.key !in done && d.key.group in groups
    requires WantedMount(groups[d.key.group], d.key) == Some(d)
    ensures Exactly(desired + [d], groups, done + {d.key})
  {
    InSnoc(desired, d);
    KeysStayDistinct(desired, done, d);
  }

  function KeysOf(g: GroupId, names: set<Name>): set<RecordKey> {
    set n <- names :: RecordKey(g, n)
  }

  function NamesIn(m: Membership): set<Name> {
    if m.Members? then m.names else {}
  }

  method AddGroup(groups: Groups, g: GroupId, names: set<Name>, desired: seq<DesiredMount>, ghost done: set<RecordKey>)
    returns (desired': seq<DesiredMount>)
    requires ValidGroups(groups) && g in groups && Exactly(desired, groups, done) && KeysOf(g, names) !! done
    ensures Exactly(desired', groups, done + KeysOf(g, names))
  {
    desired' := desired;
    var todo := names;
    ghost var added: set<Name> := {};
    assert done + KeysOf(g, {}) == done;
    while todo != {}
      invariant added + todo == names && added !! todo
      invariant Exactly(desired', groups, done + KeysOf(g, added))
      decreases todo
    {
      var n :| n in todo;
      var k := RecordKey(g, n);
      Handled(added, todo, n, names);
      assert k in KeysOf(g, names) && k !in KeysOf(g, added);
      ExactlyGrows(desired', groups, done + KeysOf(g, added), k);
      assert done + KeysOf(g, added + {n}) == done + KeysOf(g, added) + {k};
      var wanted := WantedMount(groups[g], k);
      if wanted.Some? {
        desired' := desired' + [wanted.value];
      }
      added, todo := added + {n}, todo - {n};
    }
    assert added == names;
  }

  method Observe(groups: Groups, start: set<GroupId>, read: GroupId -> Membership)
    returns (frozen: set<GroupId>, desired: seq<DesiredMount>)
    requires ValidGroups(groups)
    ensures forall g :: g in frozen <==> g in start || (g in groups && !read(g).Members?)
    ensures Exactly(desired, groups, Scope(groups.Keys, start, read))
    ensures AsRead(desired, groups, start, read)
  {
    frozen, desired := start, [];
    var todo := groups.Keys;
    ghost var done: set<GroupId> := {};
    NothingLooked(groups, start, read);
    while todo != {}
      invariant done + todo == groups.Keys && done !! todo
      invariant Looked(groups, start, read, done, frozen, desired)
      decreases todo
    {
      var g :| g in todo;
      Handled(done, todo, g, groups.Keys);
      frozen, desired := ObserveGroup(groups, g, start, read, frozen, desired, done);
      done, todo := done + {g}, todo - {g};
    }
    assert done == groups.Keys;
    ExactlyIsRead(desired, groups, start, read);
  }

  ghost predicate Looked(groups: Groups, start: set<GroupId>, read: GroupId -> Membership, done: set<GroupId>, frozen: set<GroupId>, desired: seq<DesiredMount>)
    requires ValidGroups(groups)
  {
    && (forall g :: g in frozen <==> g in start || (g in done && !read(g).Members?))
    && Exactly(desired, groups, Scope(done, start, read))
  }

  method ObserveGroup(groups: Groups, g: GroupId, start: set<GroupId>, read: GroupId -> Membership, frozen: set<GroupId>, desired: seq<DesiredMount>, ghost done: set<GroupId>)
    returns (frozen': set<GroupId>, desired': seq<DesiredMount>)
    requires ValidGroups(groups) && g in groups && g !in done && Looked(groups, start, read, done, frozen, desired)
    ensures Looked(groups, start, read, done + {g}, frozen', desired')
  {
    ScopeGrows(done, g, start, read);
    frozen', desired' := frozen, desired;
    if g !in start {
      if read(g).Members? {
        desired' := AddGroup(groups, g, read(g).names, desired, Scope(done, start, read));
      } else {
        frozen' := frozen + {g};
        NothingIn(g);
      }
    }
  }

  lemma NothingIn(g: GroupId)
    ensures KeysOf(g, {}) == {}
  {
  }

  /** The members of the groups in `gs`, as far as they are read. */
  function Scope(gs: set<GroupId>, frozen: set<GroupId>, read: GroupId -> Membership): set<RecordKey> {
    set g <- gs, n <- NamesIn(read(g)) | g !in frozen :: RecordKey(g, n)
  }

  lemma NothingLooked(groups: Groups, start: set<GroupId>, read: GroupId -> Membership)
    requires ValidGroups(groups)
    ensures Looked(groups, start, read, {}, start, [])
  {
    assert Scope({}, start, read) == {};
  }

  lemma ScopeGrows(gs: set<GroupId>, g: GroupId, frozen: set<GroupId>, read: GroupId -> Membership)
    requires g !in gs
    ensures Scope(gs + {g}, frozen, read) == Scope(gs, frozen, read) + (if g in frozen then {} else KeysOf(g, NamesIn(read(g))))
    ensures KeysOf(g, NamesIn(read(g))) !! Scope(gs, frozen, read)
  {
  }

  // ----- A whole observation -----

  lemma DiscoveredGroupsAreValid(sets: map<Name, SetDir>, skip: set<Name>, statics: Groups, groups: Groups)
    requires ValidSets(sets) && ValidGroups(statics) && GroupsSoFar(sets, skip, statics, sets.Keys, groups)
    ensures ValidGroups(groups)
  {
    forall g <- groups ensures g.Valid() && groups[g].Valid() {
      if g.inSet.Some? {
        assert FromSet(sets, g, groups[g]);
        sets[g.inSet.value].cfg.GroupIsValid(g.path);
      }
    }
  }

  /** A set's group is found iff every directory down to it opens and both templates can be bound. */
  lemma FoundIsExact(sets: map<Name, SetDir>, skip: set<Name>, g: GroupId)
    requires ValidSets(sets) && g.inSet.Some?
    ensures FoundIn(sets, skip, g) <==>
      var s := g.inSet.value;
      && s in sets && s !in skip && !sets[s].deleted && !sets[s].root.failed
      && |g.path| == sets[s].cfg.depth && sets[s].cfg.Binds(g.path)
      && Leads(sets[s].cfg, sets[s].root.entries, g.path, 0)
  {
    var s := g.inSet.value;
    if s in sets {
      var dir := sets[s];
      FoundDepth(dir.cfg, dir.root.entries, []);
      assert [] + g.path == g.path;
      if |g.path| == dir.cfg.depth {
        GroupsAreExact(dir.cfg, dir.root.entries, [], g.path);
      }
    }
  }

  /** Why a group's records must be left alone this pass. */
  predicate MustFreeze(sets: map<Name, SetDir>, degraded: Degraded, groups: Groups, read: GroupId -> Membership, g: GroupId) {
    || g in degraded.groups
    || Unreachable(sets, degraded, g)
    || (g in groups && !read(g).Members?)
  }

  lemma FrozenAtStartIsExact(sets: map<Name, SetDir>, degraded: Degraded, d: Findings, state: State, k: RecordKey)
    requires ValidSets(sets) && FindingsSoFar(sets, degraded.sets, sets.Keys, d) && k in state && k.group.Valid()
    ensures k.group in FrozenAtStart(state, degraded, d) <==> k.group in degraded.groups || Unreachable(sets, degraded, k.group)
  {
    ProtectedIsExact(sets, degraded, d, k.group);
    assert k.group in d.unavailable ==> k.group.StartsWith(k.group);
  }

  /**
   * The frozen groups that have records are exactly those that must be; and the
   * desired mounts are exactly what the members of the other groups ask for.
   */
  method DiscoverAndObserve(rt: Runtime, state: State, degraded: Degraded, read: GroupId -> Membership)
    returns (start: set<GroupId>, frozen: set<GroupId>, desired: seq<DesiredMount>)
    requires ValidSets(rt.sets) && ValidGroups(rt.groups)
    modifies rt
    ensures ValidGroups(rt.groups) && GroupsSoFar(rt.sets, degraded.sets, old(rt.groups), rt.sets.Keys, rt.groups)
    ensures start <= frozen && Exactly(desired, rt.groups, Scope(rt.groups.Keys, start, read))
    ensures AsRead(desired, rt.groups, start, read)
    ensures forall g :: g in frozen <==> g in start || (g in rt.groups && !read(g).Members?)
    ensures forall k <- state | k.group.Valid() :: k.group in frozen <==> MustFreeze(rt.sets, degraded, rt.groups, read, k.group)
  {
    var d := rt.Discover(degraded.sets);
    DiscoveredGroupsAreValid(rt.sets, degraded.sets, old(rt.groups), rt.groups);
    start := FrozenAtStart(state, degraded, d);
    frozen, desired := Observe(rt.groups, start, read);
    FrozenIsExact(rt.sets, degraded, d, state, rt.groups, read, start, frozen);
  }

  lemma FrozenIsExact(sets: map<Name, SetDir>, degraded: Degraded, d: Findings, state: State, groups: Groups, read: GroupId -> Membership, start: set<GroupId>, frozen: set<GroupId>)
    requires ValidSets(sets) && FindingsSoFar(sets, degraded.sets, sets.Keys, d) && start == FrozenAtStart(state, degraded, d)
    requires forall g :: g in frozen <==> g in start || (g in groups && !read(g).Members?)
    ensures forall k <- state | k.group.Valid() :: k.group in frozen <==> MustFreeze(sets, degraded, groups, read, k.group)
  {
    forall k <- state | k.group.Valid() ensures k.group in frozen <==> MustFreeze(sets, degraded, groups, read, k.group) {
      FrozenAtStartIsExact(sets, degraded, d, state, k);
    }
  }

  // ----- What follows for whole runs -----

  ghost function DesiredMap(desired: seq<DesiredMount>): map<RecordKey, DesiredMount>
    requires DistinctKeys(desired)
  {
    map i | 0 <= i < |desired| :: desired[i].key := desired[i]
  }

  /** Keys are distinct, so the planner may look members up by key: it finds one iff its group is
      read and both its paths can be built, and then with its own group's configuration. */
  lemma DesiredIsExact(desired: seq<DesiredMount>, groups: Groups, start: set<GroupId>, read: GroupId -> Membership, k: RecordKey)
    requires ValidGroups(groups) && AsRead(desired, groups, start, read)
    ensures var m := DesiredMap(desired);
      && (k in m <==> IsRead(groups, start, read, k) && Fits(k.name, groups[k.group]))
      && (k in m ==> m[k].key == k && IsConfigured(m[k], groups[k.group]))
  {
    var m := DesiredMap(desired);
    if k in m {
      assert m[k] in desired;
    }
  }

  /** What a pass's input desires: the members of the groups it does not freeze, as configured. */
  ghost predicate DesiresMembers(desired: map<RecordKey, DesiredMount>, groups: Groups, frozen: set<GroupId>, read: GroupId -> Membership)
    requires ValidGroups(groups)
  {
    && (forall k :: k in desired <==> IsRead(groups, frozen, read, k) && Fits(k.name, groups[k.group]))
    && (forall k <- desired :: desired[k].key == k && IsConfigured(desired[k], groups[k.group]))
  }

  lemma DesiredAreMembers(desired: seq<DesiredMount>, groups: Groups, start: set<GroupId>, frozen: set<GroupId>, read: GroupId -> Membership)
    requires ValidGroups(groups) && AsRead(desired, groups, start, read)
    requires forall g :: g in frozen <==> g in start || (g in groups && !read(g).Members?)
    ensures DesiresMembers(DesiredMap(desired), groups, frozen, read)
  {
    forall k {
      DesiredIsExact(desired, groups, start, read, k);
    }
  }

  /** The path is the template with the names of the directories and of the member filled in. */
  predicate IsFilled(path: string, t: Templates.Template, levels: seq<Name>, n: Name)
    requires Interpolation.AllBound(t.components, |levels|)
  {
    path == Join(Interpolation.FillAll(t.components, levels, n))
  }

  lemma InterpolatedIsFilled(t: Templates.Template, n: Name)
    requires TemplateParsing.Valid(t, false) && Interpolation.AllBound(t.components, 0)
    ensures Interpolation.Interpolate(t, n).Ok? ==> IsFilled(Interpolation.Interpolate(t, n).value, t, [], n)
  {
    Interpolation.InterpolateIsExact(t, n);
  }

  /** A member found in a set is mounted by the set's templates, roots and attributes. */
  lemma SetMemberPaths(sets: map<Name, SetDir>, skip: set<Name>, statics: Groups, groups: Groups, d: DesiredMount)
    requires ValidSets(sets) && ValidGroups(groups) && GroupsSoFar(sets, skip, statics, sets.Keys, groups)
    requires d.key.group in groups && d.key.group.inSet.Some? && IsConfigured(d, groups[d.key.group])
    ensures d.key.group.inSet.value in sets && |d.key.group.path| == sets[d.key.group.inSet.value].cfg.depth
    ensures var cfg, path := sets[d.key.group.inSet.value].cfg, d.key.group.path;
      && d.source.root == cfg.sourceRoot && IsFilled(d.source.path, cfg.source, path, d.key.name)
      && d.target.root == cfg.targetRoot && IsFilled(d.target.path, cfg.target, path, d.key.name)
      && d.attrs == cfg.attrs
  {
    var g, n := d.key.group, d.key.name;
    assert FromSet(sets, g, groups[g]);
    sets[g.inSet.value].cfg.GroupIsValid(g.path);
    sets[g.inSet.value].cfg.GroupFills(g.path, n);
    InterpolatedIsFilled(groups[g].source, n);
    InterpolatedIsFilled(groups[g].target, n);
  }

  /** Everything observed can be recorded and read back. */
  lemma ObservedIsStorable(desired: seq<DesiredMount>, groups: Groups, done: set<RecordKey>)
    requires ValidGroups(groups) && Exactly(desired, groups, done)
    ensures forall d <- desired :: StorableDesired(d)
  {
    forall d <- desired ensures StorableDesired(d) {
      var cfg := groups[d.key.group];
      InterpolatedIsStorable(d.key, cfg.attrs, cfg.sourceRoot, cfg.source, cfg.targetRoot, cfg.target);
    }
  }

  /**
   * The records of every group whose directories cannot be read survive any part of
   * a pass unchanged, and no step unmounts their mounts.
   */
  lemma UnreadableIsPreserved(w: World, c: Case, steps: seq<Step>, cs: seq<Conditions>, n: nat, k: RecordKey,
                              sets: map<Name, SetDir>, degraded: Degraded, d: Findings, groups: Groups, read: GroupId -> Membership)
    requires Inv(w) && Ready(w, c, steps) && n <= |steps| && n <= |cs|
    requires ValidSets(sets) && FindingsSoFar(sets, degraded.sets, sets.Keys, d)
    requires forall g :: g in c.inp.frozen <==> g in FrozenAtStart(w.mem, degraded, d) || (g in groups && !read(g).Members?)
    requires k in w.mem && k.group.Valid() && MustFreeze(sets, degraded, groups, read, k.group)
    ensures LeftAlone(w, Execute(w, steps, cs, n).0, k)
  {
    FrozenIsExact(sets, degraded, d, w.mem, groups, read, FrozenAtStart(w.mem, degraded, d), c.inp.frozen);
    FrozenPreservation(w, c, steps, cs, n, k);
  }
}
