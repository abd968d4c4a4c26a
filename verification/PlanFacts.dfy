/** What every plan satisfies, consistent inputs or not. */
module PlanFacts {
  import opened Wrappers
  import opened Names
  import opened Records
  import opened Planning

  lemma RemovalFacts(c: Case, a: Action)
    requires c.inp.Valid() && c.Called(a) && !a.Mount?
    ensures a.record.key in c.inp.state && a.record == c.inp.state[a.record.key] && a.Key() == a.record.key
    ensures c.Removal(a.Key()) == Some(a)
    ensures a.record.key.group !in c.inp.frozen || c.Staying(a.record.key)
  {
  }

  /** `a` is dropped only if its mount was not seen, unmounted only if it was. */
  lemma RemovalSeen(c: Case, a: Action)
    requires c.inp.Valid() && c.Called(a) && !a.Mount?
    ensures var t := c.inp.Target(a.record.target);
      && (a.DropRecord? ==> t.NotMounted? || (t.Mounted? && !t.identity.Matches(a.record.identity)))
      && (a.Unmount? ==> t.Mounted? && t.identity.Matches(a.record.identity))
  {
  }

  lemma MountFacts(c: Case, a: Action)
    requires c.inp.Valid() && c.Called(a) && a.Mount?
    ensures var k := a.Key();
      && c.WantsMount(k) && c.Member(k) && a.desired == c.inp.desired[k] && k == a.desired.key
      && c.inp.Source(k).Resolved? && !c.inp.Target(a.desired.target).Unavailable?
  {
  }

  /** At most one removal and one mount per member. */
  lemma OncePerKey(c: Case, steps: seq<Step>, i: nat, j: nat)
    requires c.inp.Valid() && IsPlan(c, steps) && i < |steps| && j < |steps|
    requires steps[i].action.Key() == steps[j].action.Key()
    requires steps[i].action.Mount? == steps[j].action.Mount?
    ensures i == j
  {
    if steps[i].action.Mount? {
      MountFacts(c, steps[i].action);
      MountFacts(c, steps[j].action);
    } else {
      RemovalFacts(c, steps[i].action);
      RemovalFacts(c, steps[j].action);
    }
  }

  /** Every removal comes before every mount. */
  lemma RemovalsFirst(c: Case, steps: seq<Step>, i: nat, j: nat)
    requires IsPlan(c, steps) && i < |steps| && j < |steps|
    requires !steps[i].action.Mount? && steps[j].action.Mount?
    ensures i < j
  {
  }

  lemma NeedIsRemoval(c: Case, k: RecordKey, a: Action)
    requires c.inp.Valid() && a in c.Needs(k)
    ensures !a.Mount? && a.Key() in c.inp.state && c.Removal(a.Key()) == Some(a) && c.Blocks(a.Key(), k)
  {
    var k' :| k' in c.inp.state && c.Blocks(k', k) && a == c.Removal(k').value;
  }

  /** Only mounts wait, only for removals, and only for earlier steps. */
  lemma DependencyFacts(c: Case, steps: seq<Step>, i: nat, j: nat)
    requires c.inp.Valid() && IsPlan(c, steps) && i < |steps| && j in steps[i].dependsOn
    ensures j < i && steps[i].action.Mount? && !steps[j].action.Mount?
  {
    assert c.WaitsFor(steps[i].action, steps[j].action);
    NeedIsRemoval(c, steps[i].action.Key(), steps[j].action);
    RemovalsFirst(c, steps, j, i);
  }

  lemma RemovalShape(c: Case, k: RecordKey)
    requires c.inp.Valid() && c.Removal(k).Some?
    ensures k in c.inp.state && !c.Removal(k).value.Mount? && c.Removal(k).value.record == c.inp.state[k]
    ensures c.Removal(k).value.Key() == k
  {
  }

  lemma RemovalIsPlanned(c: Case, steps: seq<Step>, k: RecordKey) returns (i: nat)
    requires c.inp.Valid() && IsPlan(c, steps) && c.Removal(k).Some?
    ensures i < |steps| && Some(steps[i].action) == c.Removal(k)
    ensures !steps[i].action.Mount? && steps[i].action.Key() == k && steps[i].action.record == c.inp.state[k]
  {
    RemovalShape(c, k);
    i :| 0 <= i < |steps| && steps[i].action == c.Removal(k).value;
  }

  lemma MountIsPlanned(c: Case, steps: seq<Step>, k: RecordKey) returns (i: nat)
    requires c.inp.Valid() && IsPlan(c, steps) && c.WantsMount(k)
    ensures i < |steps| && steps[i].action == Mount(c.inp.desired[k])
  {
    i :| 0 <= i < |steps| && steps[i].action == Mount(c.inp.desired[k]);
  }

  /** The location recorded as freed is freed by a planned unmount. */
  lemma {:induction false} FreedIsUnmounted(c: Case, n: nat, l: Location)
    requires c.inp.Valid() && n <= |c.inp.order| && l in c.FreedUpTo(n)
    ensures var k := c.FreedUpTo(n)[l];
      && c.Departing(k) && c.inp.state[k].target == l && c.inp.MatchesTarget(c.inp.state[k])
      && c.Removal(k).Some? && c.Removal(k).value.Unmount?
  {
    var k := c.inp.order[n - 1];
    if !(c.Departing(k) && c.inp.MatchesTarget(c.inp.state[k]) && c.inp.state[k].target == l) {
      FreedIsUnmounted(c, n - 1, l);
    }
  }

  /** A departing record whose mount is verified at its target frees the target. */
  lemma {:induction false} UnmountFrees(c: Case, n: nat, k: RecordKey)
    requires c.inp.Valid() && n <= |c.inp.order| && k in c.inp.order[..n]
    requires c.Departing(k) && c.inp.MatchesTarget(c.inp.state[k])
    ensures c.inp.state[k].target in c.FreedUpTo(n)
  {
    if c.inp.order[n - 1] != k {
      assert c.inp.order[..n] == c.inp.order[..n - 1] + [c.inp.order[n - 1]];
      UnmountFrees(c, n - 1, k);
    }
  }

  /** The mount of a member with an old record waits for the record's removal. */
  lemma WaitsForOwnRemoval(c: Case, steps: seq<Step>, i: nat, j: nat)
    requires c.inp.Valid() && IsPlan(c, steps) && i < |steps| && j < |steps|
    requires steps[j].action.Mount? && !steps[i].action.Mount?
    requires steps[i].action.Key() == steps[j].action.Key()
    ensures i in steps[j].dependsOn
  {
    RemovalFacts(c, steps[i].action);
    MountFacts(c, steps[j].action);
    assert c.Blocks(steps[j].action.Key(), steps[j].action.Key());
    assert c.WaitsFor(steps[j].action, steps[i].action);
  }

  /** A mount onto a target seen occupied waits for a step that unmounts there. */
  lemma WaitsForFreeing(c: Case, steps: seq<Step>, j: nat) returns (i: nat)
    requires c.inp.Valid() && IsPlan(c, steps) && j < |steps| && steps[j].action.Mount?
    requires c.inp.Target(steps[j].action.desired.target).Mounted?
    ensures i in steps[j].dependsOn && i < |steps|
    ensures steps[i].action.Unmount? && steps[i].action.record.target == steps[j].action.desired.target
  {
    var k := steps[j].action.Key();
    var l := steps[j].action.desired.target;
    MountFacts(c, steps[j].action);
    if c.Staying(k) {
      i := RemovalIsPlanned(c, steps, k);
      RemovalFacts(c, steps[i].action);
      WaitsForOwnRemoval(c, steps, i, j);
    } else {
      FreedIsUnmounted(c, |c.inp.order|, l);
      var k' := c.Freed()[l];
      i := RemovalIsPlanned(c, steps, k');
      assert c.Blocks(k', k);
      assert c.WaitsFor(steps[j].action, steps[i].action);
    }
  }

  /** At most one mount per target. */
  lemma OneMountPerTarget(c: Case, steps: seq<Step>, i: nat, j: nat)
    requires c.Sound() && IsPlan(c, steps) && i < |steps| && j < |steps|
    requires steps[i].action.Mount? && steps[j].action.Mount?
    requires steps[i].action.desired.target == steps[j].action.desired.target
    ensures i == j
  {
    MountFacts(c, steps[i].action);
    MountFacts(c, steps[j].action);
    AcceptedUnique(c.inp, steps[i].action.Key(), steps[j].action.Key());
    OncePerKey(c, steps, i, j);
  }

  /** Collision resolution accepts at most one member per target. */
  lemma AcceptedUnique(inp: PlanInput, k: RecordKey, k': RecordKey)
    requires inp.Valid() && inp.Accepted(k) && inp.Accepted(k')
    requires inp.desired[k].target == inp.desired[k'].target
    ensures k == k'
  {
    assert inp.Rivals(k, k') && inp.Rivals(k', k);
    assert inp.order[inp.Position(k)] == k && inp.order[inp.Position(k')] == k';
  }

  /** No step touches a frozen group. */
  lemma FrozenUntouched(c: Case, steps: seq<Step>, i: nat)
    requires c.Sound() && IsPlan(c, steps) && i < |steps|
    ensures steps[i].action.Key().group !in c.inp.frozen
  {
    if steps[i].action.Mount? {
      MountFacts(c, steps[i].action);
    } else {
      RemovalFacts(c, steps[i].action);
    }
  }
}
