/**
 What the reasons, findings and dependencies of a plan say, told from the planner's input
 (src/reconcile/plan.rs:72-220, 341-668).
 */
module Reasons {
  import opened Wrappers
  import opened Names
  import opened Records
  import opened Planning
  import opened PlanFacts
  import Convergence

  /** The member is where the record says. */
  predicate InItsPlace(c: Case, r: MountRecord) {
    && r.key in c.accepted && r.key in c.inp.desired
    && c.inp.desired[r.key].source == r.source && c.inp.desired[r.key].target == r.target
  }

  predicate ItsMountIsSeen(c: Case, r: MountRecord) {
    var t := c.inp.Target(r.target);
    t.Mounted? && t.identity.Matches(r.identity)
  }

  /** What an unmount's reason claims. */
  predicate UnmountIsDue(c: Case, r: MountRecord, why: UnmountReason) {
    var k := r.key;
    && ItsMountIsSeen(c, r)
    && match why
       case NotMember => k !in c.inp.desired
       case TargetCollision => k in c.inp.desired && k !in c.accepted
       case Relocated => k in c.accepted && !InItsPlace(c, r)
       case SourceGone(reason) => InItsPlace(c, r) && c.inp.Source(k) == SourceState.Unavailable(reason)
       case SourceChanged => InItsPlace(c, r) && c.inp.Source(k).Resolved? && c.inp.Source(k).root != r.identity.root
       case AttributesChanged =>
         InItsPlace(c, r) && c.inp.Source(k) == Resolved(r.identity.root) && r.attrs != c.inp.desired[k].attrs
       case AttributesDrifted =>
         && InItsPlace(c, r) && c.inp.Source(k) == Resolved(r.identity.root) && r.attrs == c.inp.desired[k].attrs
         && c.inp.Target(r.target).attrs.Some? && !Convergence.Restricted(c.inp.Target(r.target).attrs.value, r.attrs)
  }

  /** What the reason for dropping a record claims. */
  predicate DropIsDue(c: Case, r: MountRecord, why: DropReason) {
    match why
    case MountGone => !InItsPlace(c, r) && c.inp.Target(r.target).NotMounted?
    case ForeignMountAtTarget =>
      !InItsPlace(c, r) && c.inp.Target(r.target).Mounted? && !ItsMountIsSeen(c, r)
    case SourceLost(reason) =>
      InItsPlace(c, r) && c.inp.Target(r.target).NotMounted? && c.inp.Source(r.key) == SourceState.Unavailable(reason)
  }

  /** A record that is not frozen is removed, and for the reason given, iff that is due. */
  lemma RemovalIffDue(c: Case, k: RecordKey)
    requires c.Sound() && k in c.inp.state && k.group !in c.inp.frozen
    ensures forall why :: c.Removal(k) == Some(Unmount(c.inp.state[k], why)) <==> UnmountIsDue(c, c.inp.state[k], why)
    ensures forall why :: c.Removal(k) == Some(DropRecord(c.inp.state[k], why)) <==> DropIsDue(c, c.inp.state[k], why)
  {
  }

  /** Reasons are true and complete: a plan unmounts or drops the record of a group that is not
      frozen, for a reason, iff that reason holds. */
  lemma ReasonsAreExact(c: Case, steps: seq<Step>, k: RecordKey, why: UnmountReason, what: DropReason)
    requires c.Sound() && IsPlan(c, steps) && k in c.inp.state && k.group !in c.inp.frozen
    ensures (exists i :: 0 <= i < |steps| && steps[i].action == Unmount(c.inp.state[k], why)) <==> UnmountIsDue(c, c.inp.state[k], why)
    ensures (exists i :: 0 <= i < |steps| && steps[i].action == DropRecord(c.inp.state[k], what)) <==> DropIsDue(c, c.inp.state[k], what)
  {
    RemovalIffDue(c, k);
    if c.Removal(k).Some? {
      var i := RemovalIsPlanned(c, steps, k);
      assert steps[i].action == c.Removal(k).value;
    }
  }

  // ----- Findings -----

  /** What a finding claims. */
  ghost predicate IsTrue(c: Case, f: Finding) {
    match f
    case Conflict(k, l, kind) =>
      && k in c.accepted && k in c.inp.desired && l == c.inp.desired[k].target && c.inp.Target(l).Mounted?
      && (if kind.TargetReplaced? then k in c.inp.state && InItsPlace(c, c.inp.state[k]) && !ItsMountIsSeen(c, c.inp.state[k])
          else (k in c.inp.state ==> !InItsPlace(c, c.inp.state[k])) && NobodyLeaves(c, l))
    case SourceUnavailable(k, l, reason) =>
      && k in c.accepted && k in c.inp.desired && l == c.inp.desired[k].source
      && c.inp.Source(k) == SourceState.Unavailable(reason) && !c.inp.Target(c.inp.desired[k].target).Unavailable?
    case TargetUnavailable(k, l, reason) =>
      && c.inp.Target(l) == TargetState.Unavailable(reason) && k.group !in c.inp.frozen
      && ((k in c.inp.state && c.inp.state[k].target == l) || (k in c.accepted && k in c.inp.desired && c.inp.desired[k].target == l))
    case RelocationBlocked(k, l) =>
      && k in c.accepted && k in c.inp.state && !InItsPlace(c, c.inp.state[k])
      && l == c.inp.state[k].target && c.inp.Target(l).Unavailable?
    case Collision(l, members, kept) =>
      && (forall k :: k in members <==> c.inp.Active(k) && c.inp.desired[k].target == l)
      && |members| >= 2
      && (forall k <- members :: k in c.accepted <==> kept == Some(k))
      && (kept.Some? ==> kept.value in members)
  }

  /** No record that is leaving has its mount there. */
  ghost predicate NobodyLeaves(c: Case, l: Location) {
    forall k <- c.inp.state | k.group !in c.inp.frozen && c.inp.state[k].target == l && ItsMountIsSeen(c, c.inp.state[k]) ::
      InItsPlace(c, c.inp.state[k])
  }

  lemma NotFreedNobodyLeaves(c: Case, l: Location)
    requires c.Sound() && l !in c.Freed()
    ensures NobodyLeaves(c, l)
  {
    forall k <- c.inp.state | k.group !in c.inp.frozen && c.inp.state[k].target == l && ItsMountIsSeen(c, c.inp.state[k])
      ensures InItsPlace(c, c.inp.state[k])
    {
      if !InItsPlace(c, c.inp.state[k]) {
        assert c.inp.order[..|c.inp.order|] == c.inp.order;
        UnmountFrees(c, |c.inp.order|, k);
      }
    }
  }

  lemma TwoMembers(s: set<RecordKey>, j: RecordKey, k: RecordKey)
    requires j in s && k in s && j != k
    ensures |s| >= 2
  {
    assert {j, k} <= s;
    assert |s - {j, k}| + |{j, k}| == |s|;
  }

  lemma CollisionIsTrue(c: Case, f: Finding)
    requires c.Sound() && c.inp.IsCollision(f)
    ensures IsTrue(c, f)
  {
    var j, k :| j in f.members && k in f.members && j != k;
    TwoMembers(f.members, j, k);
    forall m <- f.members ensures m in c.accepted <==> f.kept == Some(m) {
      var other := if m == j then k else j;
      assert c.inp.Rivals(m, other) && !c.inp.Sole(m);
      if f.kept.Some? && m in c.accepted {
        AcceptedUnique(c.inp, m, f.kept.value);
      }
    }
  }

  lemma MemberFindingIsTrue(c: Case, k: RecordKey, f: Finding)
    requires c.Sound() && k in c.inp.desired && f in c.MemberFindings(k)
    ensures IsTrue(c, f)
  {
    if c.inp.desired[k].target !in c.Freed() {
      NotFreedNobodyLeaves(c, c.inp.desired[k].target);
    }
  }

  /** Every finding is true: of the member it names, at the location and for the reason it gives. */
  lemma FindingsAreTrue(c: Case, f: Finding)
    requires c.Sound() && c.Reported(f)
    ensures IsTrue(c, f)
  {
    if c.inp.IsCollision(f) {
      CollisionIsTrue(c, f);
    } else if k :| k in c.inp.desired && f in c.MemberFindings(k) {
      MemberFindingIsTrue(c, k, f);
    }
  }

  /** A leaving record that must stay because its target cannot be inspected is reported. */
  lemma StuckRecordIsReported(c: Case, k: RecordKey)
    requires c.Sound() && k in c.inp.state && k.group !in c.inp.frozen && !InItsPlace(c, c.inp.state[k])
    requires c.inp.Target(c.inp.state[k].target).Unavailable?
    ensures c.Reported(TargetUnavailable(k, c.inp.state[k].target, c.inp.Target(c.inp.state[k].target).reason))
  {
    assert TargetUnavailable(k, c.inp.state[k].target, c.inp.Target(c.inp.state[k].target).reason) in c.DepartingFindings(k);
  }

  // ----- Dependencies -----

  /** A mount waits for nothing but the removal of its member's own old record and, if the target is
      not its own, one unmount there. */
  lemma NoNeedlessWaiting(c: Case, steps: seq<Step>, i: nat, j: nat)
    requires c.Sound() && IsPlan(c, steps) && i < |steps| && j in steps[i].dependsOn
    ensures j < i && steps[i].action.Mount?
    ensures var a, b := steps[i].action, steps[j].action;
      !b.Mount? && (b.Key() == a.Key() || (b.Unmount? && b.record.target == a.desired.target))
    ensures forall j' <- steps[i].dependsOn |
      steps[j].action.Key() != steps[i].action.Key() && steps[j'].action.Key() != steps[i].action.Key() :: j' == j
  {
    DependencyFacts(c, steps, i, j);
    WaitedFor(c, steps, i, j);
    forall j' <- steps[i].dependsOn | steps[j].action.Key() != steps[i].action.Key() && steps[j'].action.Key() != steps[i].action.Key()
      ensures j' == j
    {
      DependencyFacts(c, steps, i, j');
      WaitedFor(c, steps, i, j');
      OncePerKey(c, steps, j, j');
    }
  }

  lemma WaitedFor(c: Case, steps: seq<Step>, i: nat, j: nat)
    requires c.Sound() && IsPlan(c, steps) && i < |steps| && j in steps[i].dependsOn && steps[i].action.Mount?
    ensures var k, b := steps[i].action.Key(), steps[j].action; var l := steps[i].action.desired.target;
      && !b.Mount?
      && (b.Key() == k || (b.Unmount? && b.record.target == l && l in c.Freed() && c.Freed()[l] == b.Key()))
  {
    assert c.WaitsFor(steps[i].action, steps[j].action);
    MountFacts(c, steps[i].action);
    NeedIsRemoval(c, steps[i].action.Key(), steps[j].action);
    RemovalFacts(c, steps[j].action);
    if steps[j].action.Key() != steps[i].action.Key() {
      FreedIsUnmounted(c, |c.inp.order|, steps[i].action.desired.target);
    }
  }

  /** A record that is leaving, with its mount at `l`. */
  predicate Leaves(c: Case, k: RecordKey, l: Location) {
    && k in c.inp.state && k.group !in c.inp.frozen && c.inp.state[k].target == l
    && ItsMountIsSeen(c, c.inp.state[k]) && !InItsPlace(c, c.inp.state[k])
  }

  lemma {:induction false} LastFrees(c: Case, n: nat, p: nat, l: Location)
    requires c.Sound() && n <= |c.inp.order| && l in c.FreedUpTo(n) && p < n && c.inp.order[p] == c.FreedUpTo(n)[l]
    ensures forall q | p < q < n :: !Leaves(c, c.inp.order[q], l)
  {
    if p < n - 1 && !Leaves(c, c.inp.order[n - 1], l) {
      LastFrees(c, n - 1, p, l);
    }
  }

  /** Should several leaving records have their mount there, it waits for the last of them. */
  lemma WaitsForTheLast(c: Case, steps: seq<Step>, i: nat, j: nat, p: nat, q: nat)
    requires c.Sound() && IsPlan(c, steps) && i < |steps| && j in steps[i].dependsOn
    requires steps[j].action.Key() != steps[i].action.Key()
    requires p < q < |c.inp.order| && c.inp.order[p] == steps[j].action.Key()
    ensures steps[i].action.Mount? && !Leaves(c, c.inp.order[q], steps[i].action.desired.target)
  {
    DependencyFacts(c, steps, i, j);
    WaitedFor(c, steps, i, j);
    LastFrees(c, |c.inp.order|, p, steps[i].action.desired.target);
  }

  // ----- Collisions -----

  ghost predicate AloneAtItsTarget(c: Case, k: RecordKey)
    requires c.inp.Active(k)
  {
    forall k' | c.inp.Active(k') && c.inp.desired[k'].target == c.inp.desired[k].target :: k' == k
  }

  /** In place, and no earlier member is in place at the same target. */
  predicate FirstInPlace(c: Case, i: nat)
    requires i < |c.inp.order|
  {
    && c.inp.InPlace(c.inp.order[i])
    && forall j | 0 <= j < i && c.inp.InPlace(c.inp.order[j]) ::
         c.inp.desired[c.inp.order[j]].target != c.inp.desired[c.inp.order[i]].target
  }

  lemma SoleIsAlone(c: Case, k: RecordKey)
    requires c.inp.Active(k)
    ensures c.inp.Sole(k) <==> AloneAtItsTarget(c, k)
  {
    if c.inp.Sole(k) {
      forall k' | c.inp.Active(k') && c.inp.desired[k'].target == c.inp.desired[k].target ensures k' == k {
        assert c.inp.Rivals(k, k');
      }
    }
  }

  lemma KeptIsFirst(c: Case, i: nat)
    requires c.inp.Valid() && i < |c.inp.order|
    ensures c.inp.Kept(c.inp.order[i]) <==> FirstInPlace(c, i)
  {
    var k := c.inp.order[i];
    assert c.inp.Position(k) == i;
    if c.inp.Kept(k) {
      forall j | 0 <= j < i && c.inp.InPlace(c.inp.order[j])
        ensures c.inp.desired[c.inp.order[j]].target != c.inp.desired[k].target
      {
        var k' := c.inp.order[j];
        assert c.inp.Position(k') == j;
        assert !c.inp.Rivals(k', k);
      }
    }
  }

  /** A member is accepted iff it alone wants its target, or is the first already in place there. */
  lemma AcceptanceIsExact(c: Case, i: nat)
    requires c.Sound() && i < |c.inp.order|
    ensures var k := c.inp.order[i];
      k in c.accepted <==> c.inp.Active(k) && (AloneAtItsTarget(c, k) || FirstInPlace(c, i))
  {
    var k := c.inp.order[i];
    KeptIsFirst(c, i);
    if c.inp.Active(k) {
      SoleIsAlone(c, k);
    }
  }
}
