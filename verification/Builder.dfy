/** The planner's loops (src/reconcile/plan.rs), proved to build what `Planning` calls for. */
module Building {
  import opened Wrappers
  import opened Names
  import opened Records
  import opened Planning
  import opened PlanFacts
  import opened Finishing

  /** Members grouped by target, each list in key order, over the keys before `n`. */
  ghost predicate Grouped(inp: PlanInput, groups: map<Location, seq<RecordKey>>, n: nat)
    requires inp.Valid() && n <= |inp.order|
  {
    && (forall l <- groups :: groups[l] != [])
    && (forall l <- groups, k <- groups[l] ::
          k in inp.order[..n] && inp.Active(k) && inp.desired[k].target == l)
    && (forall k <- inp.order[..n] | inp.Active(k) ::
          inp.desired[k].target in groups && k in groups[inp.desired[k].target])
    && (forall l <- groups :: forall i, j | 0 <= i < j < |groups[l]| ::
          inp.Precedes(groups[l][i], groups[l][j]))
  }

  lemma PrefixPosition(inp: PlanInput, n: nat, k: RecordKey)
    requires inp.Valid() && n <= |inp.order| && k in inp.order
    ensures k in inp.order[..n] <==> inp.Position(k) < n
  {
    if k in inp.order[..n] {
      var i :| 0 <= i < n && inp.order[i] == k;
      assert inp.order[inp.Position(k)] == k;
    } else {
      assert inp.order[inp.Position(k)] == k;
    }
  }

  function NextGroups(inp: PlanInput, groups: map<Location, seq<RecordKey>>, k: RecordKey): map<Location, seq<RecordKey>>
    requires inp.Valid() && inp.Active(k)
  {
    var l := inp.desired[k].target;
    groups[l := (if l in groups then groups[l] else []) + [k]]
  }

  lemma GroupedNext(inp: PlanInput, groups: map<Location, seq<RecordKey>>, n: nat)
    requires inp.Valid() && n < |inp.order| && Grouped(inp, groups, n)
    ensures var k := inp.order[n]; Grouped(inp, if inp.Active(k) then NextGroups(inp, groups, k) else groups, n + 1)
  {
    var k := inp.order[n];
    assert inp.order[..n + 1] == inp.order[..n] + [k];
    PrefixPosition(inp, n, k);
    if inp.Active(k) {
      var l := inp.desired[k].target;
      var members := if l in groups then groups[l] else [];
      forall i | 0 <= i < |members| ensures inp.Precedes(members[i], k) {
        assert members[i] in members;
        assert members[i] in inp.order[..n];
        PrefixPosition(inp, n, members[i]);
        PrefixPosition(inp, n + 1, k);
      }
    }
  }

  method GroupByTarget(inp: PlanInput) returns (groups: map<Location, seq<RecordKey>>)
    requires inp.Valid()
    ensures Grouped(inp, groups, |inp.order|)
  {
    groups := map[];
    for n := 0 to |inp.order|
      invariant Grouped(inp, groups, n)
    {
      var k := inp.order[n];
      GroupedNext(inp, groups, n);
      if inp.Active(k) {
        groups := NextGroups(inp, groups, k);
      }
    }
  }

  /** The first member already in place, as `find` over the sorted members. */
  method FindKept(inp: PlanInput, l: Location, members: seq<RecordKey>) returns (kept: Option<RecordKey>)
    requires inp.Valid()
    requires AllAt(inp, l, members)
    ensures kept.Some? ==> kept.value in members && inp.Kept(kept.value)
    ensures forall k <- members :: inp.Kept(k) ==> kept == Some(k)
  {
    var i := 0;
    while i < |members| && !inp.InPlace(members[i])
      invariant 0 <= i <= |members|
      invariant forall j | 0 <= j < i :: !inp.InPlace(members[j])
    {
      i := i + 1;
    }
    if i == |members| {
      return None;
    }
    kept := Some(members[i]);
    forall k' | inp.Rivals(k', members[i]) && inp.Precedes(k', members[i])
      ensures !inp.InPlace(k')
    {
      var j :| 0 <= j < |members| && members[j] == k';
    }
    forall k <- members | inp.Kept(k)
      ensures k == members[i]
    {
      var j :| 0 <= j < |members| && members[j] == k;
      if i < j {
        assert inp.Precedes(members[i], k) && inp.Rivals(members[i], k);
      }
    }
  }

  /** All active members with target `l`, in key order. */
  ghost predicate AllAt(inp: PlanInput, l: Location, members: seq<RecordKey>) {
    && members != []
    && (forall k <- members :: inp.Active(k) && inp.desired[k].target == l)
    && (forall k <- inp.desired | inp.Active(k) && inp.desired[k].target == l :: k in members)
    && (forall i, j | 0 <= i < j < |members| :: inp.Precedes(members[i], members[j]))
  }

  lemma SoleIffSingle(inp: PlanInput, l: Location, members: seq<RecordKey>, k: RecordKey)
    requires inp.Valid() && AllAt(inp, l, members) && k in members
    ensures inp.Sole(k) <==> |members| == 1
  {
    if |members| == 1 {
      assert members == [k];
    } else {
      assert inp.Precedes(members[0], members[1]);
      assert members[0] in members && members[1] in members;
      assert inp.Rivals(k, members[0]) && inp.Rivals(k, members[1]);
    }
  }

  lemma CollisionAt(inp: PlanInput, l: Location, members: seq<RecordKey>, kept: Option<RecordKey>)
    requires inp.Valid() && AllAt(inp, l, members)
    requires kept.Some? ==> kept.value in members && inp.Kept(kept.value)
    requires forall k <- members :: inp.Kept(k) ==> kept == Some(k)
    requires |members| > 1
    ensures inp.IsCollision(Collision(l, inp.MembersAt(l), kept))
    ensures forall f | inp.IsCollision(f) && f.target == l :: f == Collision(l, inp.MembersAt(l), kept)
  {
    assert forall k :: k in inp.MembersAt(l) <==> k in members;
    assert inp.Precedes(members[0], members[1]);
    assert members[0] in members && members[1] in members;
  }

  lemma NoCollisionAt(inp: PlanInput, l: Location, members: seq<RecordKey>)
    requires inp.Valid() && AllAt(inp, l, members) && |members| == 1
    ensures forall f | inp.IsCollision(f) :: f.target != l
  {
    assert forall k :: k in inp.MembersAt(l) <==> k in members;
  }

  /** One target: who is accepted there, and what is reported. */
  method ResolveAt(inp: PlanInput, l: Location, members: seq<RecordKey>)
    returns (winner: Option<RecordKey>, report: Option<Finding>)
    requires inp.Valid() && AllAt(inp, l, members)
    ensures winner.Some? ==> winner.value in members && inp.Accepted(winner.value)
    ensures forall k <- members | inp.Accepted(k) :: winner == Some(k)
    ensures report.Some? ==> inp.IsCollision(report.value) && report.value.target == l
    ensures forall f | inp.IsCollision(f) && f.target == l :: report == Some(f)
  {
    forall k <- members { SoleIffSingle(inp, l, members, k); }
    if |members| == 1 {
      NoCollisionAt(inp, l, members);
      winner, report := Some(members[0]), None;
    } else {
      var kept := FindKept(inp, l, members);
      CollisionAt(inp, l, members, kept);
      winner, report := kept, Some(Collision(l, inp.MembersAt(l), kept));
    }
  }

  /** Every target but those in `todo` has been resolved. */
  ghost predicate Resolved(inp: PlanInput, todo: set<Location>, accepted: set<RecordKey>, findings: set<Finding>)
    requires inp.Valid()
  {
    ResolvedMembers(inp, todo, accepted) && ResolvedReports(inp, todo, findings)
  }

  ghost predicate ResolvedMembers(inp: PlanInput, todo: set<Location>, accepted: set<RecordKey>)
    requires inp.Valid()
  {
    && (forall k <- accepted :: inp.Accepted(k))
    && (forall k <- inp.desired | inp.Accepted(k) && inp.desired[k].target !in todo :: k in accepted)
  }

  ghost predicate ResolvedReports(inp: PlanInput, todo: set<Location>, findings: set<Finding>)
    requires inp.Valid()
  {
    && (forall f <- findings :: inp.IsCollision(f))
    && (forall f | inp.IsCollision(f) && f.target !in todo :: f in findings)
  }

  lemma MembersNext(inp: PlanInput, groups: map<Location, seq<RecordKey>>, todo: set<Location>, l: Location,
                    accepted: set<RecordKey>, winner: Option<RecordKey>)
    requires inp.Valid() && Grouped(inp, groups, |inp.order|) && l in groups && ResolvedMembers(inp, todo, accepted)
    requires winner.Some? ==> inp.Accepted(winner.value)
    requires forall k <- groups[l] | inp.Accepted(k) :: winner == Some(k)
    ensures ResolvedMembers(inp, todo - {l}, if winner.Some? then accepted + {winner.value} else accepted)
  {
    assert inp.order[..|inp.order|] == inp.order;
    forall k <- inp.desired | inp.Accepted(k) && inp.desired[k].target == l ensures winner == Some(k) {
      assert k in groups[l];
    }
  }

  lemma ReportsNext(inp: PlanInput, todo: set<Location>, l: Location, findings: set<Finding>, report: Option<Finding>)
    requires inp.Valid() && ResolvedReports(inp, todo, findings)
    requires report.Some? ==> inp.IsCollision(report.value)
    requires forall f | inp.IsCollision(f) && f.target == l :: report == Some(f)
    ensures ResolvedReports(inp, todo - {l}, if report.Some? then findings + {report.value} else findings)
  {
  }

  method ResolveCollisions(inp: PlanInput) returns (accepted: set<RecordKey>, findings: set<Finding>)
    requires inp.Valid()
    ensures Case(inp, accepted).Sound()
    ensures forall f :: f in findings <==> inp.IsCollision(f)
  {
    var groups := GroupByTarget(inp);
    assert inp.order[..|inp.order|] == inp.order;
    accepted, findings := {}, {};
    var todo := groups.Keys;
    NothingResolved(inp, groups);
    while todo != {}
      invariant todo <= groups.Keys && Resolved(inp, todo, accepted, findings)
    {
      var l :| l in todo;
      var winner, report := ResolveAt(inp, l, groups[l]);
      MembersNext(inp, groups, todo, l, accepted, winner);
      ReportsNext(inp, todo, l, findings, report);
      if winner.Some? {
        accepted := accepted + {winner.value};
      }
      if report.Some? {
        findings := findings + {report.value};
      }
      todo := todo - {l};
    }
  }

  lemma NothingResolved(inp: PlanInput, groups: map<Location, seq<RecordKey>>)
    requires inp.Valid() && Grouped(inp, groups, |inp.order|)
    ensures Resolved(inp, groups.Keys, {}, {})
  {
    assert inp.order[..|inp.order|] == inp.order;
    forall f | inp.IsCollision(f) ensures f.target in groups {
      var k :| k in f.members;
    }
  }

  /** What phase A leaves for phase B: where each departing record's removal is
      (`None` if its record must be kept), and which step frees each location. */
  datatype Departures = Departures(
    removal: map<RecordKey, Option<nat>>,
    freed: map<Location, (nat, MountIdentity)>)

  /** `id` is the index of `action`'s step; neither exists or both do. */
  ghost predicate At(steps: Draft, id: Option<nat>, action: Option<Action>) {
    if id.None? then action.None?
    else id.value < |steps| && action == Some(steps[id.value].0)
  }

  /** The steps are the removals `table` lists for the keys in `done`, each once. */
  ghost predicate DepartedSteps(table: map<RecordKey, Option<Action>>, done: seq<RecordKey>, steps: Draft) {
    && (forall s | 0 <= s < |steps| ::
          && steps[s].1 == [] && !steps[s].0.Mount?
          && steps[s].0.record.key in done && steps[s].0.record.key in table
          && table[steps[s].0.record.key] == Some(steps[s].0))
    && (forall s, t | 0 <= s < t < |steps| :: steps[s].0.record.key != steps[t].0.record.key)
  }

  ghost predicate DepartedIndex(table: map<RecordKey, Option<Action>>, done: seq<RecordKey>, steps: Draft,
                                removal: map<RecordKey, Option<nat>>)
  {
    && (forall k :: k in removal <==> k in done && k in table)
    && (forall k <- removal :: At(steps, removal[k], table[k]))
  }

  /** `freed` finds, per location in `last`, the unmount of the record `last` names. */
  ghost predicate FreedIndex(inp: PlanInput, table: map<RecordKey, Option<Action>>, last: map<Location, RecordKey>,
                             steps: Draft, freed: map<Location, (nat, MountIdentity)>)
  {
    && freed.Keys == last.Keys
    && (forall l <- freed ::
          && inp.Target(l).Mounted? && inp.Target(l).identity == freed[l].1
          && last[l] in table && At(steps, Some(freed[l].0), table[last[l]]))
  }

  ghost predicate Departed(c: Case, n: nat, steps: Draft, dep: Departures)
    requires n <= |c.inp.order|
  {
    && DepartedSteps(c.Departures(), c.inp.order[..n], steps)
    && DepartedIndex(c.Departures(), c.inp.order[..n], steps, dep.removal)
    && FreedIndex(c.inp, c.Departures(), c.FreedUpTo(n), steps, dep.freed)
  }

  /** The effect of handling the departing record of `k`. */
  ghost predicate Departs(k: RecordKey, action: Option<Action>, frees: Option<(Location, MountIdentity)>,
                          steps: Draft, dep: Departures, steps': Draft, dep': Departures)
  {
    && steps' == (if action.Some? then steps + [(action.value, [])] else steps)
    && dep'.removal == dep.removal[k := if action.Some? then Some(|steps|) else None]
    && dep'.freed == if frees.Some? then dep.freed[frees.value.0 := (|steps|, frees.value.1)] else dep.freed
  }

  /** The location handling `k` frees, and the mount there. */
  ghost function Freeing(c: Case, k: RecordKey): Option<(Location, MountIdentity)>
    requires c.Departing(k)
  {
    var l := c.inp.state[k].target;
    if c.inp.MatchesTarget(c.inp.state[k]) then Some((l, c.inp.Target(l).identity)) else None
  }

  lemma DepartNextSteps(table: map<RecordKey, Option<Action>>, done: seq<RecordKey>, k: RecordKey,
                        frees: Option<(Location, MountIdentity)>,
                        steps: Draft, dep: Departures, steps': Draft, dep': Departures)
    requires DepartedSteps(table, done, steps) && DepartedIndex(table, done, steps, dep.removal)
    requires k !in done && k in table
    requires table[k].Some? ==> !table[k].value.Mount? && table[k].value.record.key == k
    requires Departs(k, table[k], frees, steps, dep, steps', dep')
    ensures DepartedSteps(table, done + [k], steps') && DepartedIndex(table, done + [k], steps', dep'.removal)
  {
    DepartAppends(table, done, k, steps, steps');
    DepartIndexes(table, done, k, frees, steps, dep, steps', dep');
  }

  lemma DepartAppends(table: map<RecordKey, Option<Action>>, done: seq<RecordKey>, k: RecordKey, steps: Draft, steps': Draft)
    requires DepartedSteps(table, done, steps) && k !in done && k in table
    requires table[k].Some? ==> !table[k].value.Mount? && table[k].value.record.key == k
    requires steps' == (if table[k].Some? then steps + [(table[k].value, [])] else steps)
    ensures DepartedSteps(table, done + [k], steps')
  {
    assert forall j <- done :: j in done + [k];
    assert (done + [k])[|done|] == k;
  }

  lemma DepartIndexes(table: map<RecordKey, Option<Action>>, done: seq<RecordKey>, k: RecordKey,
                      frees: Option<(Location, MountIdentity)>,
                      steps: Draft, dep: Departures, steps': Draft, dep': Departures)
    requires DepartedIndex(table, done, steps, dep.removal) && k !in done && k in table
    requires Departs(k, table[k], frees, steps, dep, steps', dep')
    ensures DepartedIndex(table, done + [k], steps', dep'.removal)
  {
    assert forall j :: j in done + [k] <==> j in done || j == k;
    forall j <- dep'.removal ensures At(steps', dep'.removal[j], table[j]) {
      assert j != k ==> At(steps, dep.removal[j], table[j]);
    }
  }

  lemma DepartNextFreed(inp: PlanInput, table: map<RecordKey, Option<Action>>, last: map<Location, RecordKey>,
                        k: RecordKey, frees: Option<(Location, MountIdentity)>,
                        steps: Draft, dep: Departures, steps': Draft, dep': Departures)
    requires FreedIndex(inp, table, last, steps, dep.freed) && k in table
    requires Departs(k, table[k], frees, steps, dep, steps', dep')
    requires frees.Some? ==> table[k].Some? && inp.Target(frees.value.0).Mounted?
    requires frees.Some? ==> inp.Target(frees.value.0).identity == frees.value.1
    ensures FreedIndex(inp, table, if frees.Some? then last[frees.value.0 := k] else last, steps', dep'.freed)
  {
  }

  lemma NextKey(inp: PlanInput, n: nat)
    requires inp.Valid() && n < |inp.order|
    ensures inp.order[..n + 1] == inp.order[..n] + [inp.order[n]]
    ensures inp.order[n] !in inp.order[..n]
  {
  }

  lemma DepartNext(c: Case, n: nat, steps: Draft, dep: Departures, steps': Draft, dep': Departures)
    requires c.inp.Valid() && n < |c.inp.order| && Departed(c, n, steps, dep)
    requires c.Departing(c.inp.order[n])
    requires Departs(c.inp.order[n], c.DepartingRemoval(c.inp.order[n]), Freeing(c, c.inp.order[n]),
                     steps, dep, steps', dep')
    ensures Departed(c, n + 1, steps', dep')
  {
    var k := c.inp.order[n];
    NextKey(c.inp, n);
    DepartNextSteps(c.Departures(), c.inp.order[..n], k, Freeing(c, k), steps, dep, steps', dep');
    DepartNextFreed(c.inp, c.Departures(), c.FreedUpTo(n), k, Freeing(c, k), steps, dep, steps', dep');
  }

  lemma DepartSkip(c: Case, n: nat, steps: Draft, dep: Departures)
    requires c.inp.Valid() && n < |c.inp.order| && Departed(c, n, steps, dep)
    requires !c.Departing(c.inp.order[n])
    ensures Departed(c, n + 1, steps, dep)
  {
    var table, done, k := c.Departures(), c.inp.order[..n], c.inp.order[n];
    NextKey(c.inp, n);
    NotDeparting(c, n);
    SkipSteps(table, done, k, steps);
    SkipIndex(table, done, k, steps, dep.removal);
  }

  lemma NotDeparting(c: Case, n: nat)
    requires n < |c.inp.order| && !c.Departing(c.inp.order[n])
    ensures c.inp.order[n] !in c.Departures() && c.FreedUpTo(n + 1) == c.FreedUpTo(n)
  {
  }

  lemma SkipSteps(table: map<RecordKey, Option<Action>>, done: seq<RecordKey>, k: RecordKey, steps: Draft)
    requires DepartedSteps(table, done, steps)
    ensures DepartedSteps(table, done + [k], steps)
  {
  }

  lemma SkipIndex(table: map<RecordKey, Option<Action>>, done: seq<RecordKey>, k: RecordKey, steps: Draft,
                  removal: map<RecordKey, Option<nat>>)
    requires DepartedIndex(table, done, steps, removal) && k !in table
    ensures DepartedIndex(table, done + [k], steps, removal)
  {
    assert forall j :: j in done + [k] <==> j in done || j == k;
  }

  /** A plan as tables: phase A's removals, phase B's removals, mounts, and waits. */
  datatype PlanTable = PlanTable(
    departs: map<RecordKey, Option<Action>>,
    removes: map<RecordKey, Action>,
    mounts: map<RecordKey, Action>,
    needs: map<RecordKey, set<Action>>)
  {
    ghost predicate Valid() {
      ValidRemovals() && ValidMounts()
    }

    ghost predicate ValidRemovals() {
      && departs.Keys !! removes.Keys
      && (forall k <- departs | departs[k].Some? :: !departs[k].value.Mount? && departs[k].value.Key() == k)
      && (forall k <- removes :: !removes[k].Mount? && removes[k].Key() == k)
    }

    ghost predicate ValidMounts() {
      && mounts.Keys == needs.Keys
      && (forall k <- mounts :: mounts[k].Mount? && mounts[k].Key() == k)
      && (forall k <- needs :: ValidNeeds(k, needs[k]))
    }

    /** `k` waits only for removals, and for no other staying member's. */
    ghost predicate ValidNeeds(k: RecordKey, need: set<Action>) {
      forall a <- need :: !a.Mount? && (a.Key() in removes ==> a.Key() == k)
    }

    /** Removal `a` is drafted once the keys in `done` are. */
    ghost predicate Due(a: Action, done: set<RecordKey>) {
      var k := a.Key();
      || (k in departs && departs[k] == Some(a))
      || (k in done && k in removes && removes[k] == a)
    }

    /** `a` is a mount called for; `deps`, all before `s`, are the steps it needs. */
    ghost predicate MountDue(a: Action, deps: seq<nat>, s: nat, steps: Draft) {
      var k := a.Key();
      && k in mounts && k in needs && mounts[k] == a
      && (forall i | 0 <= i < |deps| :: deps[i] < s)
      && (forall t | 0 <= t < |steps| :: t in deps <==> steps[t].0 in needs[k])
    }

    /** Every step of `steps` is due, waits for what it must, and occurs once. */
    ghost predicate OnlyDue(removed: set<RecordKey>, mounted: set<RecordKey>, steps: Draft) {
      && (forall s | 0 <= s < |steps| && !steps[s].0.Mount? :: steps[s].1 == [] && Due(steps[s].0, removed))
      && (forall s | 0 <= s < |steps| && steps[s].0.Mount? ::
            steps[s].0.Key() in mounted && MountDue(steps[s].0, steps[s].1, s, steps))
      && (forall s, t | 0 <= s < t < |steps| :: steps[s].0 != steps[t].0)
    }

    /** Phase A's removals, the removals of `removed` and the mounts of `mounted` are all in `steps`. */
    ghost predicate AllDue(removed: set<RecordKey>, mounted: set<RecordKey>, steps: Draft) {
      && (forall k <- departs | departs[k].Some? :: Has(steps, departs[k].value))
      && (forall k <- removed | k in removes :: Has(steps, removes[k]))
      && (forall k <- mounted | k in mounts :: Has(steps, mounts[k]))
    }

    ghost predicate Drafted(removed: set<RecordKey>, mounted: set<RecordKey>, steps: Draft) {
      OnlyDue(removed, mounted, steps) && AllDue(removed, mounted, steps)
    }
  }

  ghost predicate Has(steps: Draft, a: Action) {
    exists s :: 0 <= s < |steps| && steps[s].0 == a
  }

  lemma HasMore(steps: Draft, step: (Action, seq<nat>))
    ensures forall a | Has(steps, a) :: Has(steps + [step], a)
    ensures Has(steps + [step], step.0)
  {
    forall a | Has(steps, a) ensures Has(steps + [step], a) {
      var s :| 0 <= s < |steps| && steps[s].0 == a;
      assert (steps + [step])[s].0 == a;
    }
    assert (steps + [step])[|steps|].0 == step.0;
  }

  lemma StillDue(table: PlanTable, a: Action, deps: seq<nat>, s: nat, steps: Draft, step: (Action, seq<nat>))
    requires table.MountDue(a, deps, s, steps) && s <= |steps|
    requires step.0 !in table.needs[a.Key()]
    ensures table.MountDue(a, deps, s, steps + [step])
  {
  }

  lemma AddRemoval(table: PlanTable, removed: set<RecordKey>, mounted: set<RecordKey>, steps: Draft, k: RecordKey)
    requires table.Valid() && table.Drafted(removed, mounted, steps)
    requires k in table.removes && k !in removed && k !in mounted
    ensures table.Drafted(removed + {k}, mounted, steps + [(table.removes[k], [])])
  {
    HasMore(steps, (table.removes[k], []));
    forall s | 0 <= s < |steps| && steps[s].0.Mount?
      ensures table.MountDue(steps[s].0, steps[s].1, s, steps + [(table.removes[k], [])])
    {
      assert table.ValidNeeds(steps[s].0.Key(), table.needs[steps[s].0.Key()]);
      StillDue(table, steps[s].0, steps[s].1, s, steps, (table.removes[k], []));
    }
    assert table.OnlyDue(removed + {k}, mounted, steps + [(table.removes[k], [])]);
  }

  lemma MountsStillDue(table: PlanTable, removed: set<RecordKey>, mounted: set<RecordKey>, steps: Draft,
                       step: (Action, seq<nat>))
    requires table.Valid() && table.OnlyDue(removed, mounted, steps) && step.0.Mount?
    ensures forall s | 0 <= s < |steps| && steps[s].0.Mount? ::
      table.MountDue(steps[s].0, steps[s].1, s, steps + [step])
  {
    forall s | 0 <= s < |steps| && steps[s].0.Mount?
      ensures table.MountDue(steps[s].0, steps[s].1, s, steps + [step])
    {
      assert table.ValidNeeds(steps[s].0.Key(), table.needs[steps[s].0.Key()]);
      StillDue(table, steps[s].0, steps[s].1, s, steps, step);
    }
  }

  lemma NewAction(table: PlanTable, removed: set<RecordKey>, mounted: set<RecordKey>, steps: Draft, k: RecordKey)
    requires table.Valid() && table.OnlyDue(removed, mounted, steps)
    requires k in table.mounts && k !in mounted
    ensures forall s | 0 <= s < |steps| :: steps[s].0 != table.mounts[k]
  {
  }

  lemma AddMountOnlyDue(table: PlanTable, removed: set<RecordKey>, mounted: set<RecordKey>, steps: Draft,
                        k: RecordKey, deps: seq<nat>)
    requires table.Valid() && table.OnlyDue(removed, mounted, steps)
    requires k in table.mounts && k in table.needs && k !in mounted
    requires table.MountDue(table.mounts[k], deps, |steps|, steps + [(table.mounts[k], deps)])
    ensures table.OnlyDue(removed, mounted + {k}, steps + [(table.mounts[k], deps)])
  {
    MountsStillDue(table, removed, mounted, steps, (table.mounts[k], deps));
    NewAction(table, removed, mounted, steps, k);
  }

  lemma AddMount(table: PlanTable, removed: set<RecordKey>, mounted: set<RecordKey>, steps: Draft,
                 k: RecordKey, deps: seq<nat>)
    requires table.Valid() && table.Drafted(removed, mounted, steps)
    requires k in table.mounts && k in table.needs && k !in mounted
    requires forall i | 0 <= i < |deps| :: deps[i] < |steps|
    requires forall t | 0 <= t < |steps| :: t in deps <==> steps[t].0 in table.needs[k]
    ensures table.Drafted(removed, mounted + {k}, steps + [(table.mounts[k], deps)])
  {
    HasMore(steps, (table.mounts[k], deps));
    assert table.ValidNeeds(k, table.needs[k]);
    StillDue(table, table.mounts[k], deps, |steps|, steps, (table.mounts[k], deps));
    AddMountOnlyDue(table, removed, mounted, steps, k, deps);
  }

  lemma Skip(table: PlanTable, removed: set<RecordKey>, mounted: set<RecordKey>, steps: Draft,
             more: set<RecordKey>, more': set<RecordKey>)
    requires table.Drafted(removed, mounted, steps)
    requires more !! table.removes.Keys && more' !! table.mounts.Keys
    ensures table.Drafted(removed + more, mounted + more', steps)
  {
  }

  ghost function StayTable(c: Case): map<RecordKey, Action> {
    map k <- c.inp.state | c.Staying(k) && c.Removal(k).Some? :: c.Removal(k).value
  }

  ghost function MountTable(c: Case): map<RecordKey, Action> {
    map k <- c.inp.desired | c.WantsMount(k) :: Mount(c.inp.desired[k])
  }

  ghost function NeedsTable(c: Case): map<RecordKey, set<Action>> {
    map k <- c.inp.desired | c.WantsMount(k) :: c.Needs(k)
  }

  /** What `c` calls for, as tables. */
  ghost function Table(c: Case): PlanTable {
    PlanTable(c.Departures(), StayTable(c), MountTable(c), NeedsTable(c))
  }

  lemma BlockerIsNeeded(c: Case, k': RecordKey, k: RecordKey)
    requires c.inp.Valid() && c.Blocks(k', k)
    ensures c.Removal(k').value in c.Needs(k)
  {
    assert k' in c.inp.state;
  }

  lemma NeedShape(c: Case, k: RecordKey, a: Action)
    requires c.inp.Valid() && a in c.Needs(k)
    ensures !a.Mount?
    ensures c.Staying(a.Key()) ==> a.Key() == k
  {
    NeedIsRemoval(c, k, a);
    if a.Key() != k {
      FreedIsUnmounted(c, |c.inp.order|, c.inp.desired[k].target);
    }
  }

  lemma DeparturesAreValid(c: Case, k: RecordKey)
    requires c.inp.Valid() && k in c.Departures() && c.Departures()[k].Some?
    ensures !c.Departures()[k].value.Mount? && c.Departures()[k].value.Key() == k && k !in StayTable(c)
  {
    RemovalShape(c, k);
  }

  lemma StaysAreValid(c: Case, k: RecordKey)
    requires c.inp.Valid() && k in StayTable(c)
    ensures !StayTable(c)[k].Mount? && StayTable(c)[k].Key() == k && k !in c.Departures()
  {
    RemovalShape(c, k);
  }

  lemma NeedsAreValid(c: Case, table: PlanTable, k: RecordKey)
    requires c.inp.Valid() && table.removes == StayTable(c)
    ensures table.ValidNeeds(k, c.Needs(k))
  {
    forall a | a in c.Needs(k) { NeedShape(c, k, a); }
  }

  lemma MountsAreValid(c: Case)
    requires c.inp.Valid()
    ensures MountTable(c).Keys == NeedsTable(c).Keys
    ensures forall k <- MountTable(c) :: MountTable(c)[k].Mount? && MountTable(c)[k].Key() == k
  {
  }

  lemma RemovalTablesAreValid(c: Case, table: PlanTable)
    requires c.inp.Valid() && table.departs == c.Departures() && table.removes == StayTable(c)
    ensures table.ValidRemovals()
  {
    forall k | k in table.departs && table.departs[k].Some?
      ensures !table.departs[k].value.Mount? && table.departs[k].value.Key() == k
    {
      DeparturesAreValid(c, k);
    }
    forall k | k in table.removes
      ensures !table.removes[k].Mount? && table.removes[k].Key() == k && k !in table.departs
    {
      StaysAreValid(c, k);
    }
  }

  lemma MountTablesAreValid(c: Case, table: PlanTable)
    requires c.inp.Valid()
    requires table.removes == StayTable(c) && table.mounts == MountTable(c) && table.needs == NeedsTable(c)
    ensures table.ValidMounts()
  {
    MountsAreValid(c);
    forall k | k in table.needs ensures table.ValidNeeds(k, table.needs[k]) {
      NeedsAreValid(c, table, k);
    }
  }

  lemma DepartedIsDrafted(inp: PlanInput, table: PlanTable, steps: Draft, dep: Departures)
    requires inp.Valid() && (forall k <- table.departs :: k in inp.order)
    requires DepartedSteps(table.departs, inp.order, steps)
    requires DepartedIndex(table.departs, inp.order, steps, dep.removal)
    ensures table.Drafted({}, {}, steps)
  {
    forall k <- table.departs | table.departs[k].Some?
      ensures Has(steps, table.departs[k].value)
    {
      assert k in dep.removal;
      assert steps[dep.removal[k].value].0 == table.departs[k].value;
    }
  }

  function OwnDep(k: RecordKey, dep: Departures): seq<nat> {
    if k in dep.removal && dep.removal[k].Some? then [dep.removal[k].value] else []
  }

  function FreedDep(inp: PlanInput, l: Location, dep: Departures): seq<nat> {
    if inp.Target(l).Mounted? && l in dep.freed then [dep.freed[l].0] else []
  }

  /** What phase B may rely on: `removal` and `freed` find the steps of phase A. */
  ghost predicate Indexed(c: Case, steps: Draft, dep: Departures) {
    && DepartedIndex(c.Departures(), c.inp.order, steps, dep.removal)
    && FreedIndex(c.inp, c.Departures(), c.Freed(), steps, dep.freed)
    && (forall s, t | 0 <= s < t < |steps| :: steps[s].0 != steps[t].0)
  }

  lemma StillIndexed(c: Case, steps: Draft, dep: Departures, more: Draft)
    requires Indexed(c, steps, dep)
    requires forall s, t | 0 <= s < t < |steps + more| :: (steps + more)[s].0 != (steps + more)[t].0
    ensures Indexed(c, steps + more, dep)
  {
    assert forall s | 0 <= s < |steps| :: (steps + more)[s] == steps[s];
  }

  lemma OwnDepIsNeeded(c: Case, k: RecordKey, steps: Draft, dep: Departures)
    requires c.inp.Valid() && Indexed(c, steps, dep) && c.Member(k) && !c.Staying(k)
    ensures OwnDep(k, dep) == [] ==> !c.Blocks(k, k)
    ensures OwnDep(k, dep) != [] ==>
      && c.Blocks(k, k)
      && OwnDep(k, dep)[0] < |steps| && steps[OwnDep(k, dep)[0]].0 == c.Removal(k).value
  {
    assert c.Departing(k) <==> k in c.Departures();
  }

  lemma FreedDepIsNeeded(c: Case, k: RecordKey, steps: Draft, dep: Departures)
    requires c.inp.Valid() && Indexed(c, steps, dep) && c.Member(k) && !c.Staying(k)
    ensures var l := c.inp.desired[k].target; var ids := FreedDep(c.inp, l, dep);
      && (ids == [] ==> forall k' | c.Blocks(k', k) :: k' == k)
      && (ids != [] ==>
            && ids[0] < |steps| && l in c.Freed()
            && c.Blocks(c.Freed()[l], k) && steps[ids[0]].0 == c.Removal(c.Freed()[l]).value
            && forall k' | c.Blocks(k', k) :: k' == k || k' == c.Freed()[l])
  {
    var l := c.inp.desired[k].target;
    if l in c.Freed() {
      FreedIsUnmounted(c, |c.inp.order|, l);
    }
  }

  /** The ids collected for a member are exactly the steps it needs. */
  lemma DepsAreNeeds(c: Case, k: RecordKey, steps: Draft, dep: Departures)
    requires c.inp.Valid() && Indexed(c, steps, dep) && c.Member(k) && !c.Staying(k)
    ensures var deps := OwnDep(k, dep) + FreedDep(c.inp, c.inp.desired[k].target, dep);
      && (forall i | 0 <= i < |deps| :: deps[i] < |steps|)
      && (forall t | 0 <= t < |steps| :: t in deps <==> steps[t].0 in c.Needs(k))
  {
    var own, freed := OwnDep(k, dep), FreedDep(c.inp, c.inp.desired[k].target, dep);
    var deps := own + freed;
    OwnDepIsNeeded(c, k, steps, dep);
    FreedDepIsNeeded(c, k, steps, dep);
    forall t | 0 <= t < |steps| && steps[t].0 in c.Needs(k)
      ensures t in deps
    {
      NeedIsRemoval(c, k, steps[t].0);
      if steps[t].0.Key() == k {
        assert own[0] == t && own[0] in deps;
      } else {
        assert freed[0] == t && deps[|own|] == freed[0];
      }
    }
    forall t | t in deps
      ensures t < |steps| && steps[t].0 in c.Needs(k)
    {
      if t in own {
        BlockerIsNeeded(c, k, k);
      } else {
        BlockerIsNeeded(c, c.Freed()[c.inp.desired[k].target], k);
      }
    }
    forall i | 0 <= i < |deps| ensures deps[i] < |steps| {
      assert deps[i] in deps;
    }
  }

  class Builder {
    const input: PlanInput
    var steps: Draft
    var findings: set<Finding>

    constructor (inp: PlanInput)
      ensures input == inp && steps == [] && findings == {}
    {
      input, steps, findings := inp, [], {};
    }

    method Push(action: Action, deps: seq<nat>) returns (id: nat)
      modifies this`steps
      ensures steps == old(steps) + [(action, deps)] && id == old(|steps|)
    {
      steps := steps + [(action, deps)];
      id := |steps| - 1;
    }

    method Report(f: Finding)
      modifies this`findings
      ensures findings == old(findings) + {f}
    {
      findings := findings + {f};
    }

    /** Phase A for one departing record (rows 10-12). */
    method Depart(k: RecordKey, c: Case, dep: Departures) returns (dep': Departures)
      requires c.inp == input && c.Sound() && c.Departing(k)
      modifies this
      ensures Departs(k, c.DepartingRemoval(k), Freeing(c, k), old(steps), dep, steps, dep')
      ensures findings == old(findings) + c.DepartingFindings(k)
    {
      var r := input.state[k];
      var collided := k !in c.accepted && input.Active(k);
      var why := if collided then TargetCollision else if k in c.accepted then Relocated else NotMember;
      var removal: Option<nat> := None;
      dep' := dep;
      match input.Target(r.target) {
        case NotMounted =>
          var id := Push(DropRecord(r, MountGone), []);
          removal := Some(id);
        case Mounted(identity, _) =>
          if identity.Matches(r.identity) {
            var id := Push(Unmount(r, why), []);
            dep' := dep'.(freed := dep'.freed[r.target := (id, identity)]);
            removal := Some(id);
          } else {
            var id := Push(DropRecord(r, ForeignMountAtTarget), []);
            removal := Some(id);
          }
        case Unavailable(reason) =>
          Report(TargetUnavailable(k, r.target, reason));
      }
      dep' := dep'.(removal := dep'.removal[k := removal]);
    }

    method PlanDeparting(c: Case) returns (dep: Departures)
      requires c.inp == input && c.Sound() && steps == []
      modifies this
      ensures Departed(c, |input.order|, steps, dep)
      ensures findings == old(findings) + DepartFindings(c, |input.order|)
    {
      dep := Departures(map[], map[]);
      for n := 0 to |input.order|
        invariant Departed(c, n, steps, dep)
        invariant findings == old(findings) + DepartFindings(c, n)
      {
        dep := PlanDepartingKey(c, dep, n);
      }
    }

    /** Phase A for one key. */
    method PlanDepartingKey(c: Case, dep: Departures, n: nat) returns (dep': Departures)
      requires c.inp == input && c.Sound() && n < |input.order| && Departed(c, n, steps, dep)
      modifies this
      ensures Departed(c, n + 1, steps, dep')
      ensures findings == old(findings) + c.DepartingFindings(input.order[n])
    {
      var k := input.order[n];
      if k in input.state && k.group !in input.frozen && !c.Staying(k) {
        dep' := Depart(k, c, dep);
        DepartNext(c, n, old(steps), dep, steps, dep');
      } else {
        dep' := dep;
        DepartSkip(c, n, steps, dep);
      }
    }

    /** Rows 1-3: a member with no record at its desired location. */
    method PlanUnrecorded(k: RecordKey, c: Case, dep: Departures)
      requires c.inp == input && c.Sound() && Indexed(c, steps, dep)
      requires c.Member(k) && !c.Staying(k)
      modifies this
      ensures steps == if c.WantsMount(k)
        then old(steps) + [(Mount(input.desired[k]), OwnDep(k, dep) + FreedDep(input, input.desired[k].target, dep))]
        else old(steps)
      ensures findings == old(findings) + c.MemberFindings(k)
    {
      var deps: seq<nat> := [];
      assert k in dep.removal <==> c.Departing(k);
      if k in dep.removal {
        if dep.removal[k].Some? {
          deps := [dep.removal[k].value];
        } else {
          Report(RelocationBlocked(k, input.state[k].target));
          return;
        }
      }
      PlanAtTarget(input.desired[k], c, dep, deps);
    }

    /** The second half of rows 1-3, once the old record is known to go. */
    method PlanAtTarget(d: DesiredMount, c: Case, dep: Departures, own: seq<nat>)
      requires c.inp == input && c.Sound() && Indexed(c, steps, dep)
      modifies this
      ensures steps == if c.TargetOpen(d.target) && input.Source(d.key).Resolved?
        then old(steps) + [(Mount(d), own + FreedDep(input, d.target, dep))]
        else old(steps)
      ensures findings == old(findings) + c.TargetFindings(d)
    {
      var deps := own;
      match input.Target(d.target) {
        case NotMounted =>
        case Mounted(identity, _) =>
          if d.target in dep.freed && dep.freed[d.target].1 == identity {
            deps := deps + [dep.freed[d.target].0];
          } else {
            Report(Conflict(d.key, d.target, ForeignMount));
            return;
          }
        case Unavailable(reason) =>
          Report(TargetUnavailable(d.key, d.target, reason));
          return;
      }
      match input.Source(d.key) {
        case Resolved(_) =>
          assert deps == own + FreedDep(input, d.target, dep);
          var _ := Push(Mount(d), deps);
        case Unavailable(reason) =>
          Report(SourceUnavailable(d.key, d.source, reason));
      }
    }

    /** Rows 4-9: a member recorded at its desired location. */
    method PlanRecorded(k: RecordKey, c: Case)
      requires c.inp == input && c.Sound() && c.Staying(k)
      modifies this
      ensures steps == old(steps) + FirstStep(c, k) + SecondStep(c, k, old(|steps|))
      ensures findings == old(findings) + c.MemberFindings(k)
    {
      var r, d := input.state[k], input.desired[k];
      match input.Target(d.target) {
        case Mounted(identity, attrs) =>
          if !identity.Matches(r.identity) {
            Report(Conflict(k, d.target, TargetReplaced));
            return;
          }
          match input.Source(k) {
            case Resolved(root) =>
              if root == r.identity.root {
                var why :=
                  if r.attrs != d.attrs then Some(AttributesChanged)
                  else if attrs.Some? && !attrs.value.Enforce(d.attrs) then Some(AttributesDrifted)
                  else None;
                if why.Some? {
                  var id := Push(Unmount(r, why.value), []);
                  var _ := Push(Mount(d), [id]);
                }
              } else {
                var id := Push(Unmount(r, SourceChanged), []);
                var _ := Push(Mount(d), [id]);
              }
            case Unavailable(reason) =>
              var _ := Push(Unmount(r, SourceGone(reason)), []);
          }
        case NotMounted =>
          match input.Source(k) {
            case Resolved(_) =>
              var _ := Push(Mount(d), []);
            case Unavailable(reason) =>
              var _ := Push(DropRecord(r, SourceLost(reason)), []);
              Report(SourceUnavailable(k, d.source, reason));
          }
        case Unavailable(reason) =>
          Report(TargetUnavailable(k, d.target, reason));
      }
    }
  }

  /** What phase A reports for the first `n` keys. */
  ghost function DepartFindings(c: Case, n: nat): set<Finding>
    requires n <= |c.inp.order|
  {
    if n == 0 then {} else DepartFindings(c, n - 1) + c.DepartingFindings(c.inp.order[n - 1])
  }

  /** What phase B reports for the first `n` keys. */
  ghost function PresentFindings(c: Case, n: nat): set<Finding>
    requires n <= |c.inp.order|
  {
    if n == 0 then {} else PresentFindings(c, n - 1) + c.MemberFindings(c.inp.order[n - 1])
  }

  ghost function Done(inp: PlanInput, n: nat): set<RecordKey>
    requires n <= |inp.order|
  {
    set k | k in inp.order[..n]
  }

  /** Phase B is done for the first `n` keys. */
  ghost predicate Present(c: Case, n: nat, steps: Draft, dep: Departures)
    requires n <= |c.inp.order|
  {
    && Table(c).Drafted(Done(c.inp, n), Done(c.inp, n), steps)
    && Indexed(c, steps, dep)
  }

  lemma DepartedIsPresent(c: Case, steps: Draft, dep: Departures)
    requires c.inp.Valid() && Departed(c, |c.inp.order|, steps, dep)
    ensures Present(c, 0, steps, dep)
  {
    assert c.inp.order[..|c.inp.order|] == c.inp.order;
    DepartedIsDrafted(c.inp, Table(c), steps, dep);
  }

  lemma TableIsValid(c: Case)
    requires c.inp.Valid()
    ensures Table(c).Valid()
  {
    RemovalTablesAreValid(c, Table(c));
    MountTablesAreValid(c, Table(c));
  }

  lemma NextDone(inp: PlanInput, n: nat)
    requires inp.Valid() && n < |inp.order|
    ensures Done(inp, n + 1) == Done(inp, n) + {inp.order[n]} && inp.order[n] !in Done(inp, n)
  {
    NextKey(inp, n);
  }

  /** The tables list, for `k`, exactly what `c` calls for. */
  lemma TableAt(c: Case, k: RecordKey)
    requires c.inp.Valid()
    ensures k in StayTable(c) <==> c.Staying(k) && c.Removal(k).Some?
    ensures k in StayTable(c) ==> StayTable(c)[k] == c.Removal(k).value
    ensures k in MountTable(c) <==> c.WantsMount(k)
    ensures k in NeedsTable(c) <==> c.WantsMount(k)
    ensures c.WantsMount(k) ==> MountTable(c)[k] == Mount(c.inp.desired[k]) && NeedsTable(c)[k] == c.Needs(k)
  {
  }

  lemma SkipKey(c: Case, n: nat, steps: Draft, dep: Departures)
    requires c.inp.Valid() && n < |c.inp.order| && Present(c, n, steps, dep)
    requires !(c.Staying(c.inp.order[n]) && c.Removal(c.inp.order[n]).Some?) && !c.WantsMount(c.inp.order[n])
    ensures Present(c, n + 1, steps, dep)
  {
    var k := c.inp.order[n];
    NextDone(c.inp, n);
    TableAt(c, k);
    Skip(Table(c), Done(c.inp, n), Done(c.inp, n), steps, {k}, {k});
  }

  /** A staying member waits for its own unmount, and for nothing else. */
  lemma StayingNeeds(c: Case, k: RecordKey)
    requires c.inp.Valid() && c.Staying(k)
    ensures c.Needs(k) == if c.Removal(k).Some? then {c.Removal(k).value} else {}
  {
    if c.Removal(k).Some? {
      BlockerIsNeeded(c, k, k);
    }
  }

  /** The removal a staying member starts with, if any. */
  ghost function FirstStep(c: Case, k: RecordKey): Draft {
    if c.Removal(k).Some? then [(c.Removal(k).value, [])] else []
  }

  /** The mount a staying member ends with, if any, after `n` earlier steps. */
  ghost function SecondStep(c: Case, k: RecordKey, n: nat): Draft
    requires c.Staying(k)
  {
    if c.WantsMount(k) then [(Mount(c.inp.desired[k]), if c.Removal(k).Some? then [n] else [])] else []
  }

  ghost predicate HalfPresent(c: Case, n: nat, steps: Draft, dep: Departures)
    requires n < |c.inp.order|
  {
    && Table(c).Drafted(Done(c.inp, n + 1), Done(c.inp, n), steps)
    && Indexed(c, steps, dep)
  }

  lemma RecordedFirst(c: Case, n: nat, steps: Draft, dep: Departures)
    requires c.inp.Valid() && n < |c.inp.order| && Present(c, n, steps, dep) && c.Staying(c.inp.order[n])
    ensures HalfPresent(c, n, steps + FirstStep(c, c.inp.order[n]), dep)
  {
    var k, done := c.inp.order[n], Done(c.inp, n);
    NextDone(c.inp, n);
    TableAt(c, k);
    TableIsValid(c);
    if c.Removal(k).Some? {
      AddRemoval(Table(c), done, done, steps, k);
      StillIndexed(c, steps, dep, FirstStep(c, k));
    } else {
      assert steps + FirstStep(c, k) == steps;
      Skip(Table(c), done, done, steps, {k}, {});
      assert done + {} == done;
    }
  }

  lemma FirstStepNeeded(c: Case, k: RecordKey, steps: Draft, deps: seq<nat>)
    requires c.inp.Valid() && c.Staying(k)
    requires deps == if c.Removal(k).Some? then [|steps|] else []
    requires forall s, t | 0 <= s < t < |steps + FirstStep(c, k)| ::
      (steps + FirstStep(c, k))[s].0 != (steps + FirstStep(c, k))[t].0
    ensures forall t | 0 <= t < |steps + FirstStep(c, k)| ::
      t in deps <==> (steps + FirstStep(c, k))[t].0 in c.Needs(k)
  {
    StayingNeeds(c, k);
    if c.Removal(k).Some? {
      assert (steps + FirstStep(c, k))[|steps|].0 == c.Removal(k).value;
    }
  }

  lemma RecordedSecond(c: Case, n: nat, steps: Draft, deps: seq<nat>, dep: Departures)
    requires c.inp.Valid() && n < |c.inp.order| && HalfPresent(c, n, steps, dep) && c.WantsMount(c.inp.order[n])
    requires forall i | 0 <= i < |deps| :: deps[i] < |steps|
    requires forall t | 0 <= t < |steps| :: t in deps <==> steps[t].0 in c.Needs(c.inp.order[n])
    ensures Present(c, n + 1, steps + [(Mount(c.inp.desired[c.inp.order[n]]), deps)], dep)
  {
    var k := c.inp.order[n];
    NextDone(c.inp, n);
    TableAt(c, k);
    TableIsValid(c);
    AddMount(Table(c), Done(c.inp, n + 1), Done(c.inp, n), steps, k, deps);
    StillIndexed(c, steps, dep, [(Mount(c.inp.desired[k]), deps)]);
  }

  lemma NoSecond(c: Case, n: nat, steps: Draft, dep: Departures)
    requires c.inp.Valid() && n < |c.inp.order| && HalfPresent(c, n, steps, dep) && !c.WantsMount(c.inp.order[n])
    ensures Present(c, n + 1, steps, dep)
  {
    NextDone(c.inp, n);
    TableAt(c, c.inp.order[n]);
    Skip(Table(c), Done(c.inp, n + 1), Done(c.inp, n), steps, {}, {c.inp.order[n]});
    assert Done(c.inp, n + 1) + {} == Done(c.inp, n + 1);
  }

  lemma RecordedMount(c: Case, k: RecordKey, n: nat, m: nat, steps: Draft, dep: Departures)
    requires c.inp.Valid() && n < |c.inp.order| && k == c.inp.order[n] && c.Staying(k) && c.WantsMount(k)
    requires HalfPresent(c, n, steps, dep) && m <= |steps| && steps == steps[..m] + FirstStep(c, k)
    ensures Present(c, n + 1, steps + SecondStep(c, k, m), dep)
  {
    var deps: seq<nat> := if c.Removal(k).Some? then [m] else [];
    FirstNeeded(c, k, n, steps, deps, dep, m);
    RecordedSecond(c, n, steps, deps, dep);
  }

  lemma FirstNeeded(c: Case, k: RecordKey, n: nat, steps: Draft, deps: seq<nat>, dep: Departures, m: nat)
    requires c.inp.Valid() && n < |c.inp.order| && c.Staying(k) && HalfPresent(c, n, steps, dep)
    requires m <= |steps| && steps == steps[..m] + FirstStep(c, k)
    requires deps == if c.Removal(k).Some? then [m] else []
    ensures forall i | 0 <= i < |deps| :: deps[i] < |steps|
    ensures forall t | 0 <= t < |steps| :: t in deps <==> steps[t].0 in c.Needs(k)
  {
    FirstStepNeeded(c, k, steps[..m], deps);
  }

  lemma RecordedNext(c: Case, k: RecordKey, n: nat, steps: Draft, dep: Departures)
    requires c.inp.Valid() && n < |c.inp.order| && Present(c, n, steps, dep)
    requires k == c.inp.order[n] && c.Staying(k)
    ensures Present(c, n + 1, steps + FirstStep(c, k) + SecondStep(c, k, |steps|), dep)
  {
    RecordedFirst(c, n, steps, dep);
    if c.WantsMount(k) {
      var more := steps + FirstStep(c, k);
      assert more[..|steps|] == steps;
      RecordedMount(c, k, n, |steps|, more, dep);
    } else {
      NoSecond(c, n, steps + FirstStep(c, k), dep);
      assert steps + FirstStep(c, k) + [] == steps + FirstStep(c, k);
    }
  }

  lemma UnrecordedHalf(c: Case, n: nat, steps: Draft, dep: Departures)
    requires c.inp.Valid() && n < |c.inp.order| && Present(c, n, steps, dep) && !c.Staying(c.inp.order[n])
    ensures HalfPresent(c, n, steps, dep)
  {
    NextDone(c.inp, n);
    TableAt(c, c.inp.order[n]);
    Skip(Table(c), Done(c.inp, n), Done(c.inp, n), steps, {c.inp.order[n]}, {});
    assert Done(c.inp, n) + {} == Done(c.inp, n);
  }

  lemma UnrecordedNext(c: Case, n: nat, steps: Draft, dep: Departures)
    requires c.inp.Valid() && n < |c.inp.order| && Present(c, n, steps, dep)
    requires !c.Staying(c.inp.order[n]) && c.WantsMount(c.inp.order[n])
    ensures var k := c.inp.order[n];
      Present(c, n + 1,
        steps + [(Mount(c.inp.desired[k]), OwnDep(k, dep) + FreedDep(c.inp, c.inp.desired[k].target, dep))], dep)
  {
    var k := c.inp.order[n];
    UnrecordedHalf(c, n, steps, dep);
    DepsAreNeeds(c, k, steps, dep);
    RecordedSecond(c, n, steps, OwnDep(k, dep) + FreedDep(c.inp, c.inp.desired[k].target, dep), dep);
  }

  method PlanPresent(b: Builder, c: Case, dep: Departures)
    requires c.inp == b.input && c.Sound() && Present(c, 0, b.steps, dep)
    modifies b
    ensures Present(c, |c.inp.order|, b.steps, dep)
    ensures b.findings == old(b.findings) + PresentFindings(c, |c.inp.order|)
  {
    for n := 0 to |c.inp.order|
      invariant Present(c, n, b.steps, dep)
      invariant b.findings == old(b.findings) + PresentFindings(c, n)
    {
      FindingsNext(old(b.findings), c, n);
      PlanKey(b, c, dep, n);
    }
  }

  lemma FindingsNext(start: set<Finding>, c: Case, n: nat)
    requires n < |c.inp.order|
    ensures start + PresentFindings(c, n) + c.MemberFindings(c.inp.order[n]) == start + PresentFindings(c, n + 1)
  {
  }

  /** Phase B for one key. */
  method PlanKey(b: Builder, c: Case, dep: Departures, n: nat)
    requires c.inp == b.input && c.Sound() && n < |c.inp.order| && Present(c, n, b.steps, dep)
    modifies b
    ensures Present(c, n + 1, b.steps, dep)
    ensures b.findings == old(b.findings) + c.MemberFindings(c.inp.order[n])
  {
    var k := c.inp.order[n];
    ghost var before := b.steps;
    if c.Staying(k) {
      b.PlanRecorded(k, c);
      RecordedNext(c, k, n, before, dep);
    } else if c.Member(k) {
      b.PlanUnrecorded(k, c, dep);
      if c.WantsMount(k) {
        UnrecordedNext(c, n, before, dep);
      } else {
        SkipKey(c, n, before, dep);
      }
    } else {
      SkipKey(c, n, before, dep);
    }
  }

  lemma DraftIsWellFounded(c: Case, d: Draft)
    requires c.inp.Valid() && Table(c).OnlyDue(Done(c.inp, |c.inp.order|), Done(c.inp, |c.inp.order|), d)
    ensures WellFounded(d)
  {
  }

  lemma DueIsCalled(c: Case, d: Draft, s: nat)
    requires c.inp.Valid() && Table(c).OnlyDue(Done(c.inp, |c.inp.order|), Done(c.inp, |c.inp.order|), d)
    requires s < |d|
    ensures c.Called(d[s].0)
  {
    var k := d[s].0.Key();
    TableAt(c, k);
    if !d[s].0.Mount? && k in c.Departures() {
      assert c.Departing(k);
    }
  }

  lemma CalledIsDrafted(c: Case, d: Draft, k: RecordKey)
    requires c.inp.Valid() && Table(c).AllDue(Done(c.inp, |c.inp.order|), Done(c.inp, |c.inp.order|), d)
    ensures c.Removal(k).Some? ==> Has(d, c.Removal(k).value)
    ensures c.WantsMount(k) ==> Has(d, Mount(c.inp.desired[k]))
  {
    TableAt(c, k);
    assert c.inp.order[..|c.inp.order|] == c.inp.order;
    if c.Departing(k) && c.Removal(k).Some? {
      assert k in c.Departures();
    }
  }

  lemma WaitsAreNeeds(c: Case, d: Draft, s: nat, t: nat)
    requires c.inp.Valid() && Table(c).OnlyDue(Done(c.inp, |c.inp.order|), Done(c.inp, |c.inp.order|), d)
    requires s < |d| && t < |d|
    ensures t in d[s].1 <==> c.WaitsFor(d[s].0, d[t].0)
  {
    TableAt(c, d[s].0.Key());
  }

  /** Where step `i` of the renumbered plan was in the draft. */
  lemma Origin(d: Draft, plan: seq<Step>, at: seq<nat>, i: nat) returns (s: nat)
    requires Renumbered(d, plan, at) && i < |plan|
    ensures s < |d| && at[s] == i && plan[i].action == d[s].0 && Moved(d, at, s, plan[i])
  {
    assert i in at;
    s :| 0 <= s < |at| && at[s] == i;
  }

  lemma StepIsCalled(c: Case, d: Draft, plan: seq<Step>, at: seq<nat>, i: nat)
    requires c.inp.Valid() && Table(c).OnlyDue(Done(c.inp, |c.inp.order|), Done(c.inp, |c.inp.order|), d)
    requires Renumbered(d, plan, at) && i < |plan|
    ensures c.Called(plan[i].action) && Increasing(plan[i].dependsOn)
    ensures forall j <- plan[i].dependsOn :: j < |plan|
  {
    var s := Origin(d, plan, at, i);
    DueIsCalled(c, d, s);
  }

  lemma StepPair(c: Case, d: Draft, plan: seq<Step>, at: seq<nat>, i: nat, j: nat)
    requires c.inp.Valid() && Table(c).OnlyDue(Done(c.inp, |c.inp.order|), Done(c.inp, |c.inp.order|), d)
    requires Renumbered(d, plan, at) && i < |plan| && j < |plan|
    ensures j in plan[i].dependsOn <==> c.WaitsFor(plan[i].action, plan[j].action)
    ensures i < j ==> plan[i].action != plan[j].action && plan[i].action.Phase() <= plan[j].action.Phase()
  {
    var s := Origin(d, plan, at, i);
    var t := Origin(d, plan, at, j);
    WaitsAreNeeds(c, d, s, t);
    assert i < j <==> Before(d, s, t);
  }

  lemma StepExists(d: Draft, plan: seq<Step>, at: seq<nat>, a: Action)
    requires Renumbered(d, plan, at) && Has(d, a)
    ensures exists i :: 0 <= i < |plan| && plan[i].action == a
  {
    var s :| 0 <= s < |d| && d[s].0 == a;
    assert Moved(d, at, s, plan[at[s]]);
  }

  /** Renumbering what the builder drafted gives the plan called for. */
  lemma RenumberedIsPlan(c: Case, d: Draft, plan: seq<Step>, at: seq<nat>)
    requires c.inp.Valid() && Table(c).Drafted(Done(c.inp, |c.inp.order|), Done(c.inp, |c.inp.order|), d)
    requires Renumbered(d, plan, at)
    ensures IsPlan(c, plan)
  {
    forall i | 0 <= i < |plan|
      ensures c.Called(plan[i].action) && Increasing(plan[i].dependsOn) && forall j <- plan[i].dependsOn :: j < |plan|
    {
      StepIsCalled(c, d, plan, at, i);
    }
    forall i, j | 0 <= i < |plan| && 0 <= j < |plan|
      ensures j in plan[i].dependsOn <==> c.WaitsFor(plan[i].action, plan[j].action)
      ensures i < j ==> plan[i].action != plan[j].action && plan[i].action.Phase() <= plan[j].action.Phase()
    {
      StepPair(c, d, plan, at, i, j);
    }
    forall k <- c.inp.state | c.Removal(k).Some?
      ensures exists i :: 0 <= i < |plan| && plan[i].action == c.Removal(k).value
    {
      CalledIsDrafted(c, d, k);
      StepExists(d, plan, at, c.Removal(k).value);
    }
    forall k <- c.inp.desired | c.WantsMount(k)
      ensures exists i :: 0 <= i < |plan| && plan[i].action == Mount(c.inp.desired[k])
    {
      CalledIsDrafted(c, d, k);
      StepExists(d, plan, at, Mount(c.inp.desired[k]));
    }
  }

  /** Plans reconciliation (src/reconcile/plan.rs:421-444). */
  method Plan(inp: PlanInput) returns (plan: seq<Step>, findings: set<Finding>, c: Case)
    requires inp.Valid()
    ensures c.inp == inp && c.Sound()
    ensures IsPlan(c, plan)
    ensures forall f :: f in findings <==> c.Reported(f)
  {
    var b := new Builder(inp);
    var accepted, collisions := ResolveCollisions(inp);
    c := Case(inp, accepted);
    b.findings := collisions;
    var dep := b.PlanDeparting(c);
    DepartedIsPresent(c, b.steps, dep);
    PlanPresent(b, c, dep);
    DraftIsWellFounded(c, b.steps);
    var at;
    plan, at := Finish(b.steps);
    RenumberedIsPlan(c, b.steps, plan, at);
    findings := b.findings;
    ReportIsComplete(c, collisions, findings);
  }

  lemma PrefixFindings(c: Case, n: nat, f: Finding)
    requires n <= |c.inp.order|
    ensures f in DepartFindings(c, n) <==> exists i :: 0 <= i < n && f in c.DepartingFindings(c.inp.order[i])
    ensures f in PresentFindings(c, n) <==> exists i :: 0 <= i < n && f in c.MemberFindings(c.inp.order[i])
  {
  }

  lemma ReportIsComplete(c: Case, collisions: set<Finding>, findings: set<Finding>)
    requires c.inp.Valid() && forall f :: f in collisions <==> c.inp.IsCollision(f)
    requires findings == collisions + DepartFindings(c, |c.inp.order|) + PresentFindings(c, |c.inp.order|)
    ensures forall f :: f in findings <==> c.Reported(f)
  {
    forall f ensures f in findings <==> c.Reported(f) {
      PrefixFindings(c, |c.inp.order|, f);
    }
  }
}
