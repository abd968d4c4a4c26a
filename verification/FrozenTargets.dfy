/**
 Targets of frozen groups do not count as taken (src/reconcile/plan.rs:342-348): when a
 mount can land on one, and what that costs.
 */
module FrozenTargets {
  import opened Wrappers
  import opened Names
  import opened Records
  import opened Planning
  import opened Protocol
  import opened PlanFacts
  import opened Runs
  import opened QuietPass

  /** Nothing is seen at `l`, or the mount of a departing record is. */
  ghost predicate Vacated(c: Case, l: Location) {
    || c.inp.Target(l).NotMounted?
    || exists k :: c.Frees(k, l)
  }

  lemma OpenIsVacated(c: Case, l: Location)
    requires c.inp.Valid()
    ensures c.TargetOpen(l) <==> Vacated(c, l)
  {
    if l in c.Freed() {
      FreedIsUnmounted(c, |c.inp.order|, l);
      assert c.Frees(c.Freed()[l], l);
    }
    if k :| c.Frees(k, l) {
      assert c.inp.order[..|c.inp.order|] == c.inp.order;
      UnmountFrees(c, |c.inp.order|, k);
    }
  }

  /** Of the records at one target, the frozen one's mount is not the one another record matches. */
  lemma FrozenIsNotSeen(w: World, c: Case, s: Surroundings, k: RecordKey, other: RecordKey)
    requires Inv(w) && c.Sound() && Accurate(w, c.inp, s) && k in w.mem && other in w.mem
    requires k.group in c.inp.frozen && other.group !in c.inp.frozen && w.mem[other].target == w.mem[k].target
    requires c.inp.MatchesTarget(w.mem[other])
    ensures !c.inp.MatchesTarget(w.mem[k])
  {
    if c.inp.MatchesTarget(w.mem[k]) {
      SameIdentity(w, c, s, w.mem[k], w.mem[other]);
    }
  }

  /** A mount that is planned at the target of a frozen record finds that record's mount gone. */
  lemma FrozenTargetIsDead(w: World, c: Case, s: Surroundings, k: RecordKey, frozen: RecordKey)
    requires Inv(w) && c.Sound() && Accurate(w, c.inp, s) && c.WantsMount(k)
    requires frozen in w.mem && frozen.group in c.inp.frozen && c.inp.desired[k].target == w.mem[frozen].target
    ensures !c.inp.MatchesTarget(w.mem[frozen]) && Dead(w, w.mem[frozen].identity)
  {
    FrozenIsNotLandedOn(w, c, s, k, frozen);
    UnseenIsDead(w, c.inp, frozen);
  }

  lemma FrozenIsNotLandedOn(w: World, c: Case, s: Surroundings, k: RecordKey, frozen: RecordKey)
    requires Inv(w) && c.Sound() && Accurate(w, c.inp, s) && c.WantsMount(k)
    requires frozen in w.mem && frozen.group in c.inp.frozen && c.inp.desired[k].target == w.mem[frozen].target
    ensures !c.inp.MatchesTarget(w.mem[frozen]) && !c.inp.Target(w.mem[frozen].target).Unavailable?
  {
    var l := c.inp.desired[k].target;
    if c.inp.Target(l).Mounted? {
      if c.Staying(k) {
        FrozenIsNotSeen(w, c, s, frozen, k);
      } else {
        OpenIsVacated(c, l);
        var other :| c.Frees(other, l);
        FrozenIsNotSeen(w, c, s, frozen, other);
      }
    }
  }

  /**
   * Exactly when a mount lands on the target of a frozen record. The record has no say in
   * it: an accepted member whose source resolves and whose old record can go is mounted
   * there iff nothing is seen there or a departing record's mount is. What protects the
   * frozen record's mount is that, while it lives, it is what is seen.
   */
  lemma FrozenTargetExactly(w: World, c: Case, s: Surroundings, k: RecordKey, frozen: RecordKey)
    requires Inv(w) && c.Sound() && Accurate(w, c.inp, s)
    requires frozen in w.mem && frozen.group in c.inp.frozen
    requires c.Member(k) && c.inp.desired[k].target == w.mem[frozen].target && !c.Staying(k)
    requires c.inp.Source(k).Resolved? && (k in w.mem ==> c.Removal(k).Some?)
    ensures c.WantsMount(k) <==> Vacated(c, w.mem[frozen].target)
    ensures c.WantsMount(k) ==> Dead(w, w.mem[frozen].identity)
    ensures c.inp.MatchesTarget(w.mem[frozen]) ==> !c.WantsMount(k)
  {
    OpenIsVacated(c, w.mem[frozen].target);
    if c.WantsMount(k) {
      FrozenTargetIsDead(w, c, s, k, frozen);
    }
  }
}
