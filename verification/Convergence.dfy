/** Planning again after a fault-free pass: when there is nothing left to do. */
module Convergence {
  import opened Wrappers
  import opened Names
  import opened Records
  import opened Planning
  import opened Protocol
  import opened PlanFacts
  import opened Runs
  import opened QuietPass

  /** `c'` is the next pass's case: the same membership, observed afresh in `w'`. */
  ghost predicate Again(c: Case, s: Surroundings, w': World, c': Case) {
    && c'.Sound() && Accurate(w', c'.inp, s)
    && c'.inp.desired == c.inp.desired && c'.inp.frozen == c.inp.frozen
  }

  /** The next pass has no step for `k`. */
  predicate Settled(c: Case, k: RecordKey) {
    c.Removal(k).None? && !c.WantsMount(k)
  }

  /** A staying member's target is held by a departing record's mount: it is
      reported as replaced in this pass, and free in the next. */
  ghost predicate Contended(c: Case) {
    exists k, k' :: Contends(c, k, k')
  }

  predicate Contends(c: Case, k: RecordKey, k': RecordKey) {
    c.Staying(k) && c.Departing(k') && c.inp.state[k'].target == c.inp.state[k].target
    && c.inp.MatchesTarget(c.inp.state[k'])
  }

  // ----- Acceptance in consistent states -----

  lemma OneInPlace(w: World, inp: PlanInput, s: Surroundings, k: RecordKey, k': RecordKey)
    requires Inv(w) && Accurate(w, inp, s) && inp.InPlace(k) && inp.InPlace(k')
    requires inp.desired[k].target == inp.desired[k'].target
    ensures k == k'
  {
    assert inp.desired[k].target in inp.targets;
  }

  /** A member already in place is always kept. */
  lemma InPlaceIsAccepted(w: World, c: Case, s: Surroundings, k: RecordKey)
    requires Inv(w) && c.Sound() && Accurate(w, c.inp, s) && c.inp.InPlace(k)
    ensures c.Staying(k)
  {
    forall k' | c.inp.Rivals(k', k) && c.inp.Precedes(k', k) ensures !c.inp.InPlace(k') {
      if c.inp.InPlace(k') { OneInPlace(w, c.inp, s, k, k'); }
    }
    assert c.inp.Kept(k);
  }

  /** Being the only member at a target does not depend on the state. */
  lemma SoleAgain(c: Case, s: Surroundings, w': World, c': Case, k: RecordKey)
    requires Again(c, s, w', c')
    ensures c.inp.Sole(k) <==> c'.inp.Sole(k)
  {
    assert forall k, k' :: c.inp.Rivals(k, k') <==> c'.inp.Rivals(k, k');
  }

  // ----- Members mounted by the pass -----

  lemma MountedIsSettled(w: World, c: Case, s: Surroundings, w': World, c': Case, k: RecordKey)
    requires Outcome(w, c, s, w') && Again(c, s, w', c') && c.WantsMount(k)
    ensures c'.Staying(k) && Settled(c', k)
  {
    MountedStays(w, c, s, w', c', k);
    MountedIsInPlace(w, c, s, w', c', k);
    MountedFits(w, c, s, w', c', k);
  }

  /** The new mount has the source's root and the configured restrictions. */
  lemma MountedFits(w: World, c: Case, s: Surroundings, w': World, c': Case, k: RecordKey)
    requires Outcome(w, c, s, w') && Again(c, s, w', c') && c.WantsMount(k)
    ensures k in c'.inp.state && c'.inp.Source(k) == Resolved(c'.inp.state[k].identity.root)
    ensures c'.inp.state[k].attrs == c.inp.desired[k].attrs
    ensures var t := c'.inp.Target(c.inp.desired[k].target);
      t.Mounted? && t.attrs.Some? ==> t.attrs.value.Enforce(c.inp.desired[k].attrs)
  {
    assert KeyOutcome(w, c, s, w', k);
    MountedIsInPlace(w, c, s, w', c', k);
  }

  lemma MountedStays(w: World, c: Case, s: Surroundings, w': World, c': Case, k: RecordKey)
    requires Outcome(w, c, s, w') && Again(c, s, w', c') && c.WantsMount(k)
    ensures c'.Staying(k)
  {
    MountedIsInPlace(w, c, s, w', c', k);
    InPlaceIsAccepted(w', c', s, k);
  }

  lemma MountedIsInPlace(w: World, c: Case, s: Surroundings, w': World, c': Case, k: RecordKey)
    requires Outcome(w, c, s, w') && Again(c, s, w', c') && c.WantsMount(k)
    ensures c'.inp.InPlace(k) && c'.inp.targets[c.inp.desired[k].target] == s.Look(w', c.inp.desired[k].target)
  {
    assert KeyOutcome(w, c, s, w', k);
    TargetSeen(w, c, s, k);
  }

  /** A mount is planned only onto a target that can be inspected. */
  lemma TargetSeen(w: World, c: Case, s: Surroundings, k: RecordKey)
    requires c.Sound() && Accurate(w, c.inp, s) && c.WantsMount(k)
    ensures c.inp.Active(k) && c.inp.desired[k].target !in s.failures
  {
    assert c.inp.desired[k].target in c.inp.targets;
  }

  // ----- Members the pass leaves as they were -----

  /** A settled member's record is as it was. */
  lemma SettledKeepsRecord(w: World, c: Case, s: Surroundings, w': World, k: RecordKey)
    requires Outcome(w, c, s, w') && Settled(c, k)
    ensures SameRecord(w.mem, w'.mem, k)
  {
    assert KeyOutcome(w, c, s, w', k);
  }

  /** No other member's step mounts or, unless a departing one frees it, unmounts
      at the target of an accepted member without steps of its own. */
  lemma NobodyMounts(c: Case, k: RecordKey)
    requires c.Sound() && c.Member(k) && !c.WantsMount(k)
    ensures !MountsAt(c, c.inp.desired[k].target)
  {
    if MountsAt(c, c.inp.desired[k].target) {
      var k' :| c.WantsMount(k') && c.inp.desired[k'].target == c.inp.desired[k].target;
      AcceptedUnique(c.inp, k, k');
    }
  }

  lemma WhoUnmounts(c: Case, k: RecordKey)
    requires c.Sound() && c.Member(k) && UnmountsAt(c, c.inp.desired[k].target)
    requires !(c.Staying(k) && c.Removal(k).Some? && c.Removal(k).value.Unmount?)
    ensures exists k' :: c.Departing(k') && c.inp.state[k'].target == c.inp.desired[k].target && c.inp.MatchesTarget(c.inp.state[k'])
  {
    var l := c.inp.desired[k].target;
    var k' :| k' in c.inp.state && c.Removal(k').Some? && c.Removal(k').value.Unmount? && c.inp.state[k'].target == l;
    if c.Staying(k') {
      AcceptedUnique(c.inp, k, k');
    }
  }

  /** An unreachable target is unreachable again, and blocks the member again. */
  lemma UnreachableIsSettled(w': World, c': Case, s: Surroundings, k: RecordKey)
    requires Inv(w') && c'.Sound() && Accurate(w', c'.inp, s)
    requires k in c'.inp.state && c'.inp.Target(c'.inp.state[k].target).Unavailable?
    ensures Settled(c', k)
  {
  }

  lemma StaysUnreachable(w: World, c: Case, s: Surroundings, w': World, c': Case, l: Location)
    requires Accurate(w, c.inp, s) && Accurate(w', c'.inp, s) && l in c.inp.targets
    requires c.inp.Target(l).Unavailable?
    ensures c'.inp.Target(l).Unavailable?
  {
  }

  /** A departing record that stays in the state is one that cannot be inspected. */
  lemma DepartingSettled(w: World, c: Case, s: Surroundings, w': World, c': Case, k: RecordKey)
    requires Outcome(w, c, s, w') && Again(c, s, w', c') && Settled(c, k) && c.Departing(k)
    ensures Settled(c', k) && k in w'.mem && !c'.inp.MatchesTarget(w'.mem[k])
  {
    SettledKeepsRecord(w, c, s, w', k);
    StaysUnreachable(w, c, s, w', c', c.inp.state[k].target);
    UnreachableIsSettled(w', c', s, k);
  }

  /** With nothing unmounted there either, the target looks as it did. */
  lemma TargetKept(w: World, c: Case, s: Surroundings, w': World, c': Case, k: RecordKey)
    requires Outcome(w, c, s, w') && Again(c, s, w', c') && c.Member(k) && !c.WantsMount(k)
    requires !UnmountsAt(c, c.inp.desired[k].target)
    ensures c'.inp.Target(c.inp.desired[k].target) == c.inp.Target(c.inp.desired[k].target)
  {
    NobodyMounts(c, k);
    TargetLooksSame(w, c, s, w', c', k);
  }

  lemma TargetLooksSame(w: World, c: Case, s: Surroundings, w': World, c': Case, k: RecordKey)
    requires Outcome(w, c, s, w') && Again(c, s, w', c') && k in c.inp.desired
    requires !UnmountsAt(c, c.inp.desired[k].target) && !MountsAt(c, c.inp.desired[k].target)
    ensures c'.inp.Target(c.inp.desired[k].target) == c.inp.Target(c.inp.desired[k].target)
  {
    assert PlaceOutcome(w, c, w', c.inp.desired[k].target);
    SameLook(w, c.inp, s, w', c'.inp, c.inp.desired[k].target);
  }

  lemma SameLook(w: World, inp: PlanInput, s: Surroundings, w': World, inp': PlanInput, l: Location)
    requires Accurate(w, inp, s) && Accurate(w', inp', s) && l in inp.targets && l in inp'.targets && SameMount(w.table, w'.table, l)
    ensures inp'.Target(l) == inp.Target(l)
  {
  }

  /** A staying member who sees the same again decides the same again. */
  lemma SameViewSettled(w: World, c: Case, s: Surroundings, w': World, c': Case, k: RecordKey)
    requires Accurate(w, c.inp, s) && Again(c, s, w', c') && c.Staying(k) && Settled(c, k) && c'.Staying(k)
    requires c'.inp.state[k] == c.inp.state[k]
    requires c'.inp.Target(c.inp.desired[k].target) == c.inp.Target(c.inp.desired[k].target)
    ensures Settled(c', k)
  {
    assert c'.inp.Source(k) == c.inp.Source(k);
  }

  lemma InPlaceNotUnmounted(w: World, c: Case, s: Surroundings, k: RecordKey)
    requires Inv(w) && c.Sound() && Accurate(w, c.inp, s) && Settled(c, k)
    requires c.Staying(k) && c.inp.MatchesTarget(c.inp.state[k])
    ensures !UnmountsAt(c, c.inp.desired[k].target)
  {
    if UnmountsAt(c, c.inp.desired[k].target) {
      WhoUnmounts(c, k);
      var k' :| c.Departing(k') && c.inp.state[k'].target == c.inp.desired[k].target && c.inp.MatchesTarget(c.inp.state[k']);
      SameIdentity(w, c, s, c.inp.state[k], c.inp.state[k']);
    }
  }

  /** Row 4 with nothing to change: still in place, still nothing to change. */
  lemma InPlaceSettled(w: World, c: Case, s: Surroundings, w': World, c': Case, k: RecordKey)
    requires Outcome(w, c, s, w') && Again(c, s, w', c') && Settled(c, k)
    requires c.Staying(k) && c.inp.MatchesTarget(c.inp.state[k])
    ensures c'.Staying(k) && Settled(c', k)
  {
    SettledKeepsRecord(w, c, s, w', k);
    InPlaceNotUnmounted(w, c, s, k);
    TargetKept(w, c, s, w', c', k);
    InPlaceIsAccepted(w', c', s, k);
    SameViewSettled(w, c, s, w', c', k);
  }

  lemma ReplacedStays(w: World, c: Case, s: Surroundings, w': World, c': Case, k: RecordKey)
    requires Outcome(w, c, s, w') && Again(c, s, w', c') && c.Staying(k)
    requires c.inp.Target(c.inp.desired[k].target).Mounted? && !c.inp.MatchesTarget(c.inp.state[k])
    ensures Settled(c, k) && c'.Staying(k) && SameRecord(w.mem, w'.mem, k)
  {
    ReplacedIsSole(c, k);
    SettledKeepsRecord(w, c, s, w', k);
    SoleAgain(c, s, w', c', k);
  }

  lemma ReplacedIsSole(c: Case, k: RecordKey)
    requires c.Sound() && c.Staying(k)
    requires c.inp.Target(c.inp.desired[k].target).Mounted? && !c.inp.MatchesTarget(c.inp.state[k])
    ensures Settled(c, k) && c.inp.Sole(k)
  {
  }

  lemma UncontendedNotUnmounted(c: Case, k: RecordKey)
    requires c.Sound() && c.Staying(k) && Settled(c, k) && UnmountsAt(c, c.inp.desired[k].target)
    ensures exists k' :: Contends(c, k, k')
  {
    WhoUnmounts(c, k);
    var k' :| c.Departing(k') && c.inp.state[k'].target == c.inp.desired[k].target && c.inp.MatchesTarget(c.inp.state[k']);
    assert Contends(c, k, k');
  }

  /** Row 7 with the other mount still there: reported again, nothing to do. */
  lemma ReplacedSettled(w: World, c: Case, s: Surroundings, w': World, c': Case, k: RecordKey)
    requires Outcome(w, c, s, w') && Again(c, s, w', c') && c.Staying(k)
    requires c.inp.Target(c.inp.desired[k].target).Mounted? && !c.inp.MatchesTarget(c.inp.state[k])
    requires forall k' :: !Contends(c, k, k')
    ensures Settled(c', k)
  {
    ReplacedStays(w, c, s, w', c', k);
    if UnmountsAt(c, c.inp.desired[k].target) { UncontendedNotUnmounted(c, k); }
    TargetKept(w, c, s, w', c', k);
    SameViewSettled(w, c, s, w', c', k);
  }

  lemma ContendedTarget(w: World, c: Case, s: Surroundings, w': World, k: RecordKey, k': RecordKey)
    requires Outcome(w, c, s, w') && Contends(c, k, k')
    ensures c.inp.Target(c.inp.desired[k].target).Mounted? && !c.inp.MatchesTarget(c.inp.state[k])
    ensures UnmountsAt(c, c.inp.desired[k].target)
  {
    if c.inp.MatchesTarget(c.inp.state[k]) {
      SameIdentity(w, c, s, c.inp.state[k], c.inp.state[k']);
    }
    assert c.Removal(k').Some? && c.Removal(k').value.Unmount?;
  }

  lemma FreedIsUnsettled(w': World, c': Case, s: Surroundings, k: RecordKey)
    requires c'.Sound() && Accurate(w', c'.inp, s) && c'.Staying(k) && c'.inp.Target(c'.inp.desired[k].target).NotMounted?
    ensures !Settled(c', k)
  {
  }

  lemma LooksFree(w: World, c: Case, s: Surroundings, w': World, c': Case, k: RecordKey)
    requires Accurate(w, c.inp, s) && Accurate(w', c'.inp, s) && k in c.inp.desired && k in c'.inp.desired
    requires c'.inp.desired[k].target == c.inp.desired[k].target && c.inp.desired[k].target !in w'.table
    requires !c.inp.Target(c.inp.desired[k].target).Unavailable?
    ensures c'.inp.Target(c.inp.desired[k].target).NotMounted?
  {
    assert c.inp.desired[k].target in c.inp.targets && c.inp.desired[k].target in c'.inp.targets;
  }

  lemma EmptiedTarget(w: World, c: Case, s: Surroundings, w': World, k: RecordKey)
    requires Outcome(w, c, s, w') && c.Member(k) && !c.WantsMount(k)
    requires UnmountsAt(c, c.inp.desired[k].target)
    ensures c.inp.desired[k].target !in w'.table
  {
    NobodyMounts(c, k);
    assert PlaceOutcome(w, c, w', c.inp.desired[k].target);
  }

  lemma FreedTarget(w: World, c: Case, s: Surroundings, w': World, c': Case, k: RecordKey)
    requires Outcome(w, c, s, w') && Again(c, s, w', c') && c.Member(k) && !c.WantsMount(k)
    requires UnmountsAt(c, c.inp.desired[k].target) && c.inp.Target(c.inp.desired[k].target).Mounted?
    ensures c'.inp.Target(c.inp.desired[k].target).NotMounted?
  {
    EmptiedTarget(w, c, s, w', k);
    LooksFree(w, c, s, w', c', k);
  }

  /** Row 7 with the other mount gone: the next pass has a step for the member. */
  lemma ContendedUnsettled(w: World, c: Case, s: Surroundings, w': World, c': Case, k: RecordKey, k': RecordKey)
    requires Outcome(w, c, s, w') && Again(c, s, w', c') && Contends(c, k, k')
    ensures !Settled(c', k)
  {
    ContendedTarget(w, c, s, w', k, k');
    ReplacedStays(w, c, s, w', c', k);
    FreedTarget(w, c, s, w', c', k);
    FreedIsUnsettled(w', c', s, k);
  }

  // ----- Every member -----

  /** The next pass leaves the recorded member `k` alone, unless contended, and
      has no mount of its to unmount if it is departing. */
  ghost predicate Rests(c: Case, w': World, c': Case, k: RecordKey)
    requires k in w'.mem
  {
    && ((forall k' :: !Contends(c, k, k')) ==> Settled(c', k))
    && (c'.Departing(k) ==> !c'.inp.MatchesTarget(w'.mem[k]))
  }

  lemma FrozenRests(w': World, c: Case, s: Surroundings, c': Case, k: RecordKey)
    requires Again(c, s, w', c') && k in w'.mem && k.group in c.inp.frozen
    ensures Rests(c, w', c', k)
  {
  }

  /** A member recorded after the pass: settled, unless contended. A record still
      departing is of a mount that cannot be seen. */
  lemma RecordedAgain(w: World, c: Case, s: Surroundings, w': World, c': Case, k: RecordKey)
    requires Outcome(w, c, s, w') && Again(c, s, w', c') && k in w'.mem
    ensures Rests(c, w', c', k)
  {
    if k.group in c.inp.frozen {
      FrozenRests(w', c, s, c', k);
    } else if c.WantsMount(k) {
      MountedIsSettled(w, c, s, w', c', k);
    } else {
      assert KeyOutcome(w, c, s, w', k);
      UntouchedAgain(w, c, s, w', c', k);
    }
  }

  lemma UntouchedAgain(w: World, c: Case, s: Surroundings, w': World, c': Case, k: RecordKey)
    requires Outcome(w, c, s, w') && Again(c, s, w', c') && k in w'.mem && k in w.mem
    requires Settled(c, k) && k.group !in c.inp.frozen
    ensures Rests(c, w', c', k)
  {
    if c.Departing(k) {
      DepartingSettled(w, c, s, w', c', k);
    } else {
      match c.inp.Target(c.inp.desired[k].target)
      case Unavailable(_) =>
        SettledKeepsRecord(w, c, s, w', k);
        StaysUnreachable(w, c, s, w', c', c.inp.desired[k].target);
        UnreachableIsSettled(w', c', s, k);
      case Mounted(_, _) =>
        if c.inp.MatchesTarget(c.inp.state[k]) {
          InPlaceSettled(w, c, s, w', c', k);
        } else {
          ReplacedStays(w, c, s, w', c', k);
          if forall k' :: !Contends(c, k, k') { ReplacedSettled(w, c, s, w', c', k); }
        }
      case NotMounted =>
    }
  }

  /** No departing record is left whose mount could still be unmounted. */
  lemma NothingFreedAgain(w: World, c: Case, s: Surroundings, w': World, c': Case, l: Location)
    requires Outcome(w, c, s, w') && Again(c, s, w', c')
    ensures l !in c'.Freed()
  {
    if l in c'.Freed() {
      FreedIsUnmounted(c', |c'.inp.order|, l);
      RecordedAgain(w, c, s, w', c', c'.Freed()[l]);
    }
  }

  /** A member without a record after the pass that could be mounted now could
      have been mounted in the pass. */
  lemma UnrecordedWasOpen(w: World, c: Case, s: Surroundings, w': World, c': Case, k: RecordKey)
    requires Outcome(w, c, s, w') && Again(c, s, w', c') && k !in w'.mem && c'.WantsMount(k)
    ensures c.Member(k) && c.inp.Source(k).Resolved?
    ensures c'.inp.Target(c.inp.desired[k].target).NotMounted?
  {
    SoleAgain(c, s, w', c', k);
    NothingFreedAgain(w, c, s, w', c', c.inp.desired[k].target);
  }

  lemma UnrecordedAgain(w: World, c: Case, s: Surroundings, w': World, c': Case, k: RecordKey)
    requires Outcome(w, c, s, w') && Again(c, s, w', c') && k !in w'.mem
    ensures Settled(c', k)
  {
    if c'.WantsMount(k) {
      UnrecordedWasOpen(w, c, s, w', c', k);
      assert KeyOutcome(w, c, s, w', k);
      NotOpenStaysShut(w, c, s, w', c', k);
    }
  }

  lemma NotOpenNotUnmounted(c: Case, k: RecordKey)
    requires c.Sound() && c.Member(k) && !c.Staying(k) && !c.TargetOpen(c.inp.desired[k].target)
    requires !c.inp.Target(c.inp.desired[k].target).Unavailable?
    ensures !UnmountsAt(c, c.inp.desired[k].target)
  {
    if UnmountsAt(c, c.inp.desired[k].target) {
      WhoUnmounts(c, k);
      var k' :| c.Departing(k') && c.inp.state[k'].target == c.inp.desired[k].target && c.inp.MatchesTarget(c.inp.state[k']);
      assert c.inp.order[..|c.inp.order|] == c.inp.order;
      UnmountFrees(c, |c.inp.order|, k');
    }
  }

  lemma WasNotOpen(c: Case, k: RecordKey)
    requires c.Sound() && c.Member(k) && c.inp.Source(k).Resolved?
    requires !c.WantsMount(k) && (k in c.inp.state ==> c.Removal(k).Some?)
    ensures !c.Staying(k) && !c.TargetOpen(c.inp.desired[k].target)
  {
  }

  lemma NotOpenStaysShut(w: World, c: Case, s: Surroundings, w': World, c': Case, k: RecordKey)
    requires Outcome(w, c, s, w') && Again(c, s, w', c') && c.Member(k) && c.inp.Source(k).Resolved?
    requires !c.WantsMount(k) && (k in c.inp.state ==> c.Removal(k).Some?)
    ensures !c'.inp.Target(c.inp.desired[k].target).NotMounted?
  {
    WasNotOpen(c, k);
    if c.inp.Target(c.inp.desired[k].target).Unavailable? {
      StaysUnreachable(w, c, s, w', c', c.inp.desired[k].target);
    } else {
      NotOpenNotUnmounted(c, k);
      TargetKept(w, c, s, w', c', k);
    }
  }

  // ----- Whole plans -----

  lemma NoStepsIffSettled(c: Case, steps: seq<Step>)
    requires c.Sound() && IsPlan(c, steps)
    ensures steps == [] <==> forall k :: Settled(c, k)
  {
    if steps == [] {
      forall k ensures Settled(c, k) {
        if c.Removal(k).Some? { var _ := RemovalIsPlanned(c, steps, k); }
        if c.WantsMount(k) { var _ := MountIsPlanned(c, steps, k); }
      }
    } else {
      if steps[0].action.Mount? { MountFacts(c, steps[0].action); } else { RemovalFacts(c, steps[0].action); }
      assert !Settled(c, steps[0].action.Key());
    }
  }

  /** Convergence: after a fault-free pass nobody interferes with, planning again
      finds nothing to do exactly when no staying member's target was contended. */
  lemma OnePassConverges(w: World, c: Case, s: Surroundings, steps: seq<Step>, cs: seq<Conditions>, w': World,
                         c': Case, steps': seq<Step>)
    requires CleanPass(w, c, s, steps, cs, w') && Again(c, s, w', c') && IsPlan(c', steps')
    ensures steps' == [] <==> !Contended(c)
  {
    CleanOutcome(w, c, s, steps, cs, w');
    NoStepsIffSettled(c', steps');
    if Contended(c) {
      var k, k' :| Contends(c, k, k');
      ContendedUnsettled(w, c, s, w', c', k, k');
    } else {
      forall k ensures Settled(c', k) {
        assert forall k' :: !Contends(c, k, k');
        if k in w'.mem { RecordedAgain(w, c, s, w', c', k); } else { UnrecordedAgain(w, c, s, w', c', k); }
      }
    }
  }

  /** After one fault-free pass no target is contended. */
  lemma NotContendedAgain(w: World, c: Case, s: Surroundings, w': World, c': Case)
    requires Outcome(w, c, s, w') && Again(c, s, w', c')
    ensures !Contended(c')
  {
    forall k, k' ensures !Contends(c', k, k') {
      if Contends(c', k, k') { RecordedAgain(w, c, s, w', c', k'); }
    }
  }

  /** ... so two fault-free passes always leave nothing to do. */
  lemma TwoPassesConverge(w: World, c: Case, s: Surroundings, steps: seq<Step>, cs: seq<Conditions>, w': World,
                          c': Case, steps': seq<Step>, cs': seq<Conditions>, w'': World,
                          c'': Case, steps'': seq<Step>)
    requires CleanPass(w, c, s, steps, cs, w') && Again(c, s, w', c')
    requires CleanPass(w', c', s, steps', cs', w'') && Again(c', s, w'', c'') && IsPlan(c'', steps'')
    ensures steps'' == []
  {
    CleanOutcome(w, c, s, steps, cs, w');
    NotContendedAgain(w, c, s, w', c');
    OnePassConverges(w', c', s, steps', cs', w'', c'', steps'');
  }

  // ----- The exact end state -----

  /** The member has a live mount at its desired target, with its record. */
  ghost predicate LiveAsDesired(w: World, inp: PlanInput, k: RecordKey)
    requires k in inp.desired
  {
    k in w.mem && Agrees(w.mem[k], inp.desired[k]) && Verified(w.table, inp.desired[k].target, w.mem[k].identity)
  }

  /** The member's record is of the mount at its target, with everything configured now. */
  predicate RecordedAs(w: World, d: DesiredMount) {
    && d.target in w.table && d.key in w.mem
    && w.mem[d.key] == MountRecord(d.key, d.source, d.target, w.table[d.target].Identity(), d.attrs)
  }

  /** Always `nosuid` and `nodev`, and whatever is configured. */
  predicate Restricted(seen: ObservedAttrs, attrs: MountAttrs) {
    && seen.nosuid && seen.nodev && (attrs.readOnly ==> seen.readOnly)
    && (attrs.noexec ==> seen.noexec) && (attrs.nosymfollow ==> seen.nosymfollow)
  }

  /** The member survived collision resolution, its source resolves, any old record
      can be removed, and its target is free, its own, or freed by this plan. */
  predicate Attainable(c: Case, k: RecordKey)
    requires k in c.inp.desired
  {
    var t := c.inp.Target(c.inp.desired[k].target);
    && c.Member(k) && c.inp.Source(k).Resolved?
    && (if c.Staying(k) then t.NotMounted? || c.inp.MatchesTarget(c.inp.state[k])
        else (k in c.inp.state ==> !c.inp.Target(c.inp.state[k].target).Unavailable?) && c.TargetOpen(c.inp.desired[k].target))
  }

  /** An attainable member is mounted by the pass, or already was and needs no change. */
  lemma AttainableCases(c: Case, k: RecordKey)
    requires c.Sound() && k in c.inp.desired && Attainable(c, k)
    ensures c.WantsMount(k) || (Settled(c, k) && c.Staying(k) && c.inp.MatchesTarget(c.inp.state[k]))
  {
  }

  lemma PlannedIsAttainable(c: Case, k: RecordKey)
    requires c.Sound() && c.WantsMount(k)
    ensures Attainable(c, k)
  {
  }

  lemma MountedIsLive(w: World, c: Case, s: Surroundings, w': World, k: RecordKey)
    requires Outcome(w, c, s, w') && c.WantsMount(k)
    ensures LiveAsDesired(w', c.inp, k)
    ensures c.inp.Source(k) == Resolved(w'.table[c.inp.desired[k].target].root)
    ensures w'.table[c.inp.desired[k].target].attrs.Enforce(c.inp.desired[k].attrs)
    ensures RecordedAs(w', c.inp.desired[k])
  {
    assert KeyOutcome(w, c, s, w', k);
  }

  lemma KeptTable(w: World, c: Case, s: Surroundings, w': World, k: RecordKey)
    requires Outcome(w, c, s, w') && Settled(c, k) && c.Staying(k) && c.inp.MatchesTarget(c.inp.state[k])
    ensures SameMount(w.table, w'.table, c.inp.desired[k].target) && SameRecord(w.mem, w'.mem, k)
  {
    SettledKeepsRecord(w, c, s, w', k);
    InPlaceNotUnmounted(w, c, s, k);
    NobodyMounts(c, k);
    assert PlaceOutcome(w, c, w', c.inp.desired[k].target);
  }

  lemma KeptIsLive(w: World, c: Case, s: Surroundings, w': World, k: RecordKey)
    requires Outcome(w, c, s, w') && k in c.inp.desired && Attainable(c, k)
    requires Settled(c, k) && c.Staying(k) && c.inp.MatchesTarget(c.inp.state[k])
    ensures LiveAsDesired(w', c.inp, k)
    ensures c.inp.Source(k) == Resolved(w'.table[c.inp.desired[k].target].root)
    ensures c.inp.desired[k].target in s.readable ==> w'.table[c.inp.desired[k].target].attrs.Enforce(c.inp.desired[k].attrs)
    ensures RecordedAs(w', c.inp.desired[k])
  {
    KeptTable(w, c, s, w', k);
    KeptWasLive(w, c, s, k);
    KeptWasRecorded(w, c, s, k);
  }

  /** ... recorded with the attributes configured now. */
  lemma KeptWasRecorded(w: World, c: Case, s: Surroundings, k: RecordKey)
    requires Inv(w) && Accurate(w, c.inp, s) && Settled(c, k) && c.Staying(k) && c.inp.MatchesTarget(c.inp.state[k])
    requires c.inp.Source(k).Resolved?
    ensures RecordedAs(w, c.inp.desired[k])
  {
    assert c.inp.desired[k].target in c.inp.targets;
  }

  /** What a member without steps has seen at its target: its own mount, as desired. */
  lemma KeptWasLive(w: World, c: Case, s: Surroundings, k: RecordKey)
    requires Accurate(w, c.inp, s) && k in c.inp.desired && Settled(c, k) && c.Staying(k) && c.inp.MatchesTarget(c.inp.state[k])
    requires Attainable(c, k)
    ensures LiveAsDesired(w, c.inp, k)
    ensures var m := w.table[c.inp.desired[k].target];
      c.inp.Source(k) == Resolved(m.root) && (c.inp.desired[k].target in s.readable ==> m.attrs.Enforce(c.inp.desired[k].attrs))
  {
    assert c.inp.desired[k].target in c.inp.targets;
  }

  lemma OnlyAttainableIsLive(w: World, c: Case, s: Surroundings, w': World, k: RecordKey)
    requires Outcome(w, c, s, w') && c.inp.Active(k) && c.inp.desired[k].target !in s.failures
    requires LiveAsDesired(w', c.inp, k) && !c.WantsMount(k)
    ensures Attainable(c, k)
  {
    StillLiveStays(w, c, s, w', k);
    assert c.inp.desired[k].target in c.inp.targets;
    if !c.inp.MatchesTarget(c.inp.state[k]) && c.inp.Target(c.inp.desired[k].target).Mounted? {
      ReplacedIsNotLive(w, c, s, w', k);
    }
  }

  /** A member live without a mount step of its own has the record it had. */
  lemma StillLiveStays(w: World, c: Case, s: Surroundings, w': World, k: RecordKey)
    requires Outcome(w, c, s, w') && c.inp.Active(k) && c.inp.desired[k].target !in s.failures
    requires LiveAsDesired(w', c.inp, k) && !c.WantsMount(k)
    ensures c.Staying(k) && Settled(c, k)
  {
    assert KeyOutcome(w, c, s, w', k);
    assert c.inp.desired[k].target in c.inp.targets;
  }

  lemma ReplacedIsNotLive(w: World, c: Case, s: Surroundings, w': World, k: RecordKey)
    requires Outcome(w, c, s, w') && Settled(c, k) && c.Staying(k)
    requires c.inp.Target(c.inp.desired[k].target).Mounted? && !c.inp.MatchesTarget(c.inp.state[k])
    ensures !LiveAsDesired(w', c.inp, k)
  {
    SettledKeepsRecord(w, c, s, w', k);
    NobodyMounts(c, k);
    assert PlaceOutcome(w, c, w', c.inp.desired[k].target);
    assert c.inp.desired[k].target in c.inp.targets;
  }

  /** Exact end state: after a fault-free pass a non-frozen member with a reachable
      target is live there, with its record, if and only if that was attainable;
      and then with the source's root, under a record of the source, target and attributes
      configured now, and with the restrictions those ask for. */
  lemma ExactEndState(w: World, c: Case, s: Surroundings, steps: seq<Step>, cs: seq<Conditions>, w': World, k: RecordKey)
    requires CleanPass(w, c, s, steps, cs, w')
    requires c.inp.Active(k) && c.inp.desired[k].target !in s.failures
    ensures LiveAsDesired(w', c.inp, k) <==> Attainable(c, k)
    ensures LiveAsDesired(w', c.inp, k) ==>
      var m := w'.table[c.inp.desired[k].target];
      && c.inp.Source(k) == Resolved(m.root)
      && RecordedAs(w', c.inp.desired[k])
      && (c.inp.desired[k].target in s.readable ==> Restricted(m.attrs, c.inp.desired[k].attrs))
  {
    CleanOutcome(w, c, s, steps, cs, w');
    if c.WantsMount(k) {
      MountedIsLive(w, c, s, w', k);
      PlannedIsAttainable(c, k);
    } else {
      if LiveAsDesired(w', c.inp, k) { OnlyAttainableIsLive(w, c, s, w', k); }
      if Attainable(c, k) {
        AttainableCases(c, k);
        KeptIsLive(w, c, s, w', k);
      }
    }
  }

  // ----- Which records are left -----

  /** The record stays though its member is not live: its group is frozen, its target cannot be
      inspected, or a member in its place finds another mount there. */
  predicate Outlives(w: World, c: Case, s: Surroundings, k: RecordKey)
    requires k in w.mem
  {
    var r := w.mem[k];
    || k.group in c.inp.frozen
    || r.target in s.failures
    || (k in c.accepted && k in c.inp.desired && r.source == c.inp.desired[k].source && r.target == c.inp.desired[k].target
        && r.target in w.table && !w.table[r.target].Identity().Matches(r.identity))
  }

  lemma UnremovedOutlives(w: World, c: Case, s: Surroundings, k: RecordKey)
    requires c.Sound() && Accurate(w, c.inp, s) && k in w.mem && !(c.inp.Active(k) && Attainable(c, k))
    ensures c.Removal(k).None? <==> Outlives(w, c, s, k)
  {
    if k.group !in c.inp.frozen {
      assert w.mem[k].target in c.inp.targets;
    }
  }

  /** Exact records: after a fault-free pass there is a record of exactly the members that were
      attainable and of those whose old record outlives it, and that is as it was. */
  lemma ExactRecords(w: World, c: Case, s: Surroundings, steps: seq<Step>, cs: seq<Conditions>, w': World, k: RecordKey)
    requires CleanPass(w, c, s, steps, cs, w')
    ensures k in w'.mem <==> (c.inp.Active(k) && Attainable(c, k)) || (k in w.mem && Outlives(w, c, s, k))
    ensures k in w'.mem && !(c.inp.Active(k) && Attainable(c, k)) ==> w'.mem[k] == w.mem[k]
  {
    CleanOutcome(w, c, s, steps, cs, w');
    if c.inp.Active(k) && Attainable(c, k) {
      AttainableIsRecorded(w, c, s, w', k);
    } else {
      assert KeyOutcome(w, c, s, w', k);
      UnplannedUnlessAttainable(c, k);
      if k in w.mem {
        UnremovedOutlives(w, c, s, k);
      }
    }
  }

  lemma UnplannedUnlessAttainable(c: Case, k: RecordKey)
    requires c.Sound() && !(c.inp.Active(k) && Attainable(c, k))
    ensures !c.WantsMount(k)
  {
    if c.WantsMount(k) {
      PlannedIsAttainable(c, k);
    }
  }

  lemma AttainableIsRecorded(w: World, c: Case, s: Surroundings, w': World, k: RecordKey)
    requires Outcome(w, c, s, w') && c.inp.Active(k) && Attainable(c, k)
    ensures k in w'.mem
  {
    AttainableCases(c, k);
    assert KeyOutcome(w, c, s, w', k);
  }

  lemma NothingAtUnreachable(c: Case, s: Surroundings, l: Location)
    requires c.Sound() && c.inp.Target(l).Unavailable?
    ensures !MountsAt(c, l) && !UnmountsAt(c, l)
  {
  }

  lemma UnreachableKeepsRecord(c: Case, k: RecordKey)
    requires c.Sound() && c.inp.Active(k) && c.inp.Target(c.inp.desired[k].target).Unavailable?
    requires k in c.inp.state && Agrees(c.inp.state[k], c.inp.desired[k])
    ensures Settled(c, k)
  {
  }

  /** ... and a member whose target cannot be inspected is left as it was, live or not. */
  lemma UnreachableEndState(w: World, c: Case, s: Surroundings, steps: seq<Step>, cs: seq<Conditions>, w': World, k: RecordKey)
    requires CleanPass(w, c, s, steps, cs, w')
    requires c.inp.Active(k) && c.inp.desired[k].target in s.failures
    ensures LiveAsDesired(w', c.inp, k) <==> LiveAsDesired(w, c.inp, k)
    ensures SameMount(w.table, w'.table, c.inp.desired[k].target)
  {
    var l := c.inp.desired[k].target;
    CleanOutcome(w, c, s, steps, cs, w');
    NothingAtUnreachable(c, s, l);
    assert PlaceOutcome(w, c, w', l) && KeyOutcome(w, c, s, w', k);
    if k in w.mem && Agrees(w.mem[k], c.inp.desired[k]) {
      UnreachableKeepsRecord(c, k);
    }
  }
}
