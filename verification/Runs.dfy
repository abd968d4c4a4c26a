/**
 Whole runs: passes with faults and outside changes between any two steps,
 crashes, restarts and reloads. What every reachable state keeps.
 */
module Runs {
  import opened Wrappers
  import opened Names
  import opened Records
  import opened Planning
  import opened Protocol
  import opened PlanFacts

  /** What `mount::inspect` reports about `l` now. */
  function Seen(w: World, l: Location, failure: Option<string>, readable: bool): TargetState {
    if failure.Some? then TargetState.Unavailable(failure.value)
    else if l !in w.table then NotMounted
    else Mounted(w.table[l].Identity(), if readable then Some(w.table[l].attrs) else None)
  }

  /** The observation `t` of `l` is still true of Byssus's own mounts: any of them
      visible at `l` now is the one that was seen. */
  ghost predicate StillTrue(w: World, l: Location, t: TargetState) {
    l in w.table && w.table[l].id in w.created ==>
      match t
      case NotMounted => false
      case Mounted(id, _) => id == w.table[l].Identity()
      case Unavailable(_) => true
  }

  ghost predicate Observed(w: World, targets: map<Location, TargetState>) {
    forall l <- targets :: StillTrue(w, l, targets[l])
  }

  /** An inspection is true when it is made and stays true whatever others do. */
  lemma ObservationStaysTrue(w: World, l: Location, failure: Option<string>, readable: bool, es: seq<Outside>)
    requires TableOk(w)
    ensures StillTrue(OutsideSteps(w, es), l, Seen(w, l, failure, readable))
  {
    OutsideStepsEvolve(w, es);
  }

  /** A record whose mount was not seen at its target is of a mount that is gone. */
  lemma UnseenIsDead(w: World, inp: PlanInput, k: RecordKey)
    requires Inv(w) && inp.Valid() && Observed(w, inp.targets) && k in w.mem
    requires var t := inp.Target(w.mem[k].target);
      t.NotMounted? || (t.Mounted? && !t.identity.Matches(w.mem[k].identity))
    ensures Dead(w, w.mem[k].identity)
  {
    var r := w.mem[k];
    assert r.target in inp.targets;
    assert StillTrue(w, r.target, inp.targets[r.target]);
  }

  // ----- One pass -----

  /** A pass may start: its plan is for the current state and a true observation. */
  ghost predicate Ready(w: World, c: Case, steps: seq<Step>) {
    && c.Sound() && c.inp.state == w.mem && Observed(w, c.inp.targets) && IsPlan(c, steps)
  }

  /** The own-record removal that mount step `j` still waits for. */
  ghost predicate StillWaits(steps: seq<Step>, results: seq<StepResult>, i: nat, j: nat)
    requires j < |steps|
  {
    && i < |steps| && i in steps[j].dependsOn
    && !steps[i].action.Mount? && steps[i].action.Key() == steps[j].action.Key()
    && (i >= |results| || results[i] != Done)
  }

  /** A pending removal finds its record, and drops it only if its mount is gone. */
  ghost predicate RemovalPending(w: World, a: Action) {
    !a.Mount? ==>
      && a.record.key in w.mem && w.mem[a.record.key] == a.record
      && (a.DropRecord? ==> Dead(w, a.record.identity))
  }

  /** A pending mount replaces no record of a live mount, once what it waits for is done. */
  ghost predicate MountPending(w: World, steps: seq<Step>, results: seq<StepResult>, j: nat)
    requires j < |steps|
  {
    steps[j].action.Mount? && steps[j].action.Key() in w.mem ==>
      || Dead(w, w.mem[steps[j].action.Key()].identity)
      || exists i :: StillWaits(steps, results, i, j)
  }

  ghost predicate PassInv(w: World, steps: seq<Step>, results: seq<StepResult>) {
    && Inv(w)
    && (forall j | |results| <= j < |steps| :: RemovalPending(w, steps[j].action))
    && (forall j | |results| <= j < |steps| :: MountPending(w, steps, results, j))
  }

  lemma UnremovedIsGone(c: Case, k: RecordKey)
    requires c.Sound() && c.WantsMount(k) && k in c.inp.state && c.Removal(k).None?
    ensures c.inp.Target(c.inp.state[k].target).NotMounted?
  {
  }

  lemma RemovalStarts(w: World, c: Case, a: Action)
    requires Inv(w) && c.Sound() && c.inp.state == w.mem && Observed(w, c.inp.targets) && c.Called(a)
    ensures RemovalPending(w, a)
  {
    if !a.Mount? {
      RemovalFacts(c, a);
      RemovalSeen(c, a);
      if a.DropRecord? { UnseenIsDead(w, c.inp, a.record.key); }
    }
  }

  lemma MountStarts(w: World, c: Case, steps: seq<Step>, j: nat)
    requires Inv(w) && Ready(w, c, steps) && j < |steps|
    ensures MountPending(w, steps, [], j)
  {
    var a := steps[j].action;
    var k := a.Key();
    if a.Mount? && k in w.mem {
      MountFacts(c, a);
      if c.Removal(k).None? {
        UnremovedIsGone(c, k);
        UnseenIsDead(w, c.inp, k);
      } else {
        OwnRemovalAwaited(c, steps, j);
      }
    }
  }

  lemma OwnRemovalAwaited(c: Case, steps: seq<Step>, j: nat)
    requires c.Sound() && IsPlan(c, steps) && j < |steps|
    requires steps[j].action.Mount? && c.Removal(steps[j].action.Key()).Some?
    ensures exists i :: StillWaits(steps, [], i, j)
  {
    var i := RemovalIsPlanned(c, steps, steps[j].action.Key());
    RemovalFacts(c, steps[i].action);
    WaitsForOwnRemoval(c, steps, i, j);
    assert StillWaits(steps, [], i, j);
  }

  lemma PassStarts(w: World, c: Case, steps: seq<Step>)
    requires Inv(w) && Ready(w, c, steps)
    ensures PassInv(w, steps, [])
  {
    forall j | 0 <= j < |steps| ensures RemovalPending(w, steps[j].action) && MountPending(w, steps, [], j) {
      RemovalStarts(w, c, steps[j].action);
      MountStarts(w, c, steps, j);
    }
  }

  /** A step changes the in-memory record of its own member only. */
  lemma StepFrame(w: World, a: Action, c: Conditions)
    ensures forall k | k != a.Key() ::
      (k in ActionStep(w, a, c).0.mem <==> k in w.mem) && (k in w.mem ==> ActionStep(w, a, c).0.mem[k] == w.mem[k])
    ensures !a.Mount? && ActionStep(w, a, c).1 == Done ==> a.Key() !in ActionStep(w, a, c).0.mem
  {
    OutsideFrame(w, a, c);
  }

  lemma OutsideFrame(w: World, a: Action, c: Conditions)
    ensures a.Mount? && ActionStep(w, a, c).1 == Failed ==> ActionStep(w, a, c).0.mem == w.mem
  {
    if a.Mount? && c.source.Some? {
      var m := NewMount(w, a.desired, c);
      OutsideMem(Attached(w, a.desired.target, m).(file := FileAfter(w.file, w.mem[a.desired.key := RecordOf(a.desired, m)], c.save)), c.during);
    }
  }

  lemma {:induction false} OutsideMem(w: World, es: seq<Outside>)
    ensures OutsideSteps(w, es).mem == w.mem
  {
    if es != [] {
      OutsideMem(w, es[..|es| - 1]);
    }
  }

  lemma ActionKeepsInv(w: World, a: Action, c: Conditions)
    requires Inv(w) && RemovalPending(w, a)
    requires a.Mount? && a.Key() in w.mem ==> Dead(w, w.mem[a.Key()].identity)
    ensures Inv(ActionStep(w, a, c).0) && Evolves(w, ActionStep(w, a, c).0)
  {
    match a
    case Mount(d) => MountKeepsInv(w, d, c);
    case Unmount(r, _) => UnmountKeepsInv(w, r, c);
    case DropRecord(r, _) => DropKeepsInv(w, r, c);
  }

  /** Pending steps stay pending while others act. */
  lemma PendingAfterOutside(w: World, steps: seq<Step>, results: seq<StepResult>, es: seq<Outside>)
    requires PassInv(w, steps, results)
    ensures PassInv(OutsideSteps(w, es), steps, results)
  {
    var w' := OutsideSteps(w, es);
    OutsideStepsEvolve(w, es);
    OutsideKeepsInv(w, es);
    forall j | |results| <= j < |steps| ensures RemovalPending(w', steps[j].action) {
      assert RemovalPending(w, steps[j].action);
    }
    forall j | |results| <= j < |steps| ensures MountPending(w', steps, results, j) {
      assert MountPending(w, steps, results, j);
    }
  }

  /** An unblocked mount replaces no record of a live mount. */
  lemma UnblockedMayRecord(w: World, c: Case, steps: seq<Step>, results: seq<StepResult>)
    requires c.Sound() && IsPlan(c, steps) && PassInv(w, steps, results) && |results| < |steps|
    requires !Blocked(steps[|results|], results)
    requires steps[|results|].action.Mount? && steps[|results|].action.Key() in w.mem
    ensures Dead(w, w.mem[steps[|results|].action.Key()].identity)
  {
    assert MountPending(w, steps, results, |results|);
  }

  lemma RemovalsStayPending(w: World, w': World, c: Case, steps: seq<Step>, n: nat, j: nat)
    requires c.Sound() && IsPlan(c, steps) && n < j < |steps| && Evolves(w, w')
    requires RemovalPending(w, steps[j].action)
    requires forall k | k != steps[n].action.Key() :: (k in w'.mem <==> k in w.mem) && (k in w.mem ==> w'.mem[k] == w.mem[k])
    ensures RemovalPending(w', steps[j].action)
  {
    if !steps[j].action.Mount? {
      if steps[n].action.Mount? {
        RemovalsFirst(c, steps, j, n);
      } else if steps[n].action.Key() == steps[j].action.Key() {
        OncePerKey(c, steps, n, j);
      }
    }
  }

  lemma OtherStillWaits(steps: seq<Step>, results: seq<StepResult>, result: StepResult, i: nat, j: nat)
    requires |results| < j < |steps| && StillWaits(steps, results, i, j)
    requires steps[|results|].action.Key() != steps[j].action.Key()
    ensures StillWaits(steps, results + [result], i, j)
  {
  }

  lemma OwnStillWaits(c: Case, steps: seq<Step>, results: seq<StepResult>, result: StepResult, j: nat)
    requires c.Sound() && IsPlan(c, steps) && |results| < j < |steps|
    requires steps[j].action.Mount? && steps[|results|].action.Key() == steps[j].action.Key()
    ensures !steps[|results|].action.Mount?
    ensures result != Done ==> StillWaits(steps, results + [result], |results|, j)
  {
    var n: nat := |results|;
    NotBothMounts(c, steps, n, j);
    WaitsForOwnRemoval(c, steps, n, j);
  }

  lemma NotBothMounts(c: Case, steps: seq<Step>, i: nat, j: nat)
    requires c.Sound() && IsPlan(c, steps) && i < j < |steps|
    requires steps[i].action.Key() == steps[j].action.Key() && steps[j].action.Mount?
    ensures !steps[i].action.Mount?
  {
    MountFacts(c, steps[j].action);
  }

  lemma MountsStayPending(w: World, w': World, c: Case, steps: seq<Step>, results: seq<StepResult>,
                          result: StepResult, j: nat)
    requires c.Sound() && IsPlan(c, steps) && |results| < j < |steps| && Evolves(w, w')
    requires MountPending(w, steps, results, j)
    requires var a := steps[|results|].action;
      && (forall k | k != a.Key() :: (k in w'.mem <==> k in w.mem) && (k in w.mem ==> w'.mem[k] == w.mem[k]))
      && (!a.Mount? && result == Done ==> a.Key() !in w'.mem)
    ensures MountPending(w', steps, results + [result], j)
  {
    var a, k := steps[|results|].action, steps[j].action.Key();
    if steps[j].action.Mount? && k in w'.mem {
      if a.Key() == k {
        OwnStillWaits(c, steps, results, result, j);
      } else if Dead(w, w.mem[k].identity) {
        DeadStaysDead(w, w', w.mem[k].identity);
      } else {
        var i :| StillWaits(steps, results, i, j);
        OtherStillWaits(steps, results, result, i, j);
      }
    }
  }

  /** One executed or skipped step keeps the pass invariant. */
  lemma PassStepKeepsInv(w: World, c: Case, steps: seq<Step>, results: seq<StepResult>, cond: Conditions)
    requires c.Sound() && IsPlan(c, steps) && PassInv(w, steps, results) && |results| < |steps|
    ensures var n := |results|;
      if Blocked(steps[n], results) then PassInv(w, steps, results + [Skipped])
      else var (w', r) := ActionStep(w, steps[n].action, cond); PassInv(w', steps, results + [r]) && Evolves(w, w')
  {
    var n, a := |results|, steps[|results|].action;
    var blocked := Blocked(steps[n], results);
    var (w', r) := if blocked then (w, Skipped) else ActionStep(w, a, cond);
    if !blocked {
      assert RemovalPending(w, a);
      if a.Mount? && a.Key() in w.mem { UnblockedMayRecord(w, c, steps, results); }
      ActionKeepsInv(w, a, cond);
      StepFrame(w, a, cond);
    }
    forall j | n < j < |steps|
      ensures RemovalPending(w', steps[j].action) && MountPending(w', steps, results + [r], j)
    {
      RemovalsStayPending(w, w', c, steps, n, j);
      MountsStayPending(w, w', c, steps, results, r, j);
    }
  }

  /** The invariant holds after any number of steps of a pass, whatever fails. */
  lemma {:induction false} PassKeepsInv(w: World, c: Case, steps: seq<Step>, cs: seq<Conditions>, n: nat)
    requires Inv(w) && Ready(w, c, steps) && n <= |steps| && n <= |cs|
    ensures PassInv(Execute(w, steps, cs, n).0, steps, Execute(w, steps, cs, n).1)
  {
    if n == 0 {
      PassStarts(w, c, steps);
    } else {
      PassKeepsInv(w, c, steps, cs, n - 1);
      var (w1, results) := Execute(w, steps, cs, n - 1);
      PendingAfterOutside(w1, steps, results, cs[n - 1].before);
      PassStepKeepsInv(OutsideSteps(w1, cs[n - 1].before), c, steps, results, cs[n - 1]);
    }
  }

  // ----- Whole runs -----

  datatype Event =
    | Changed(e: Outside)                  // another process mounts or unmounts
    | Passed(c: Case, steps: seq<Step>, cs: seq<Conditions>, n: nat)   // the first `n` steps of a pass
    | Restarted                            // memory is reloaded from the state file
    | Stopped(save: SaveOutcome)           // the state is saved on shutdown

  ghost predicate Enabled(w: World, ev: Event) {
    ev.Passed? ==> Ready(w, ev.c, ev.steps) && ev.n <= |ev.steps| && ev.n <= |ev.cs|
  }

  function Apply(w: World, ev: Event): World
    requires ev.Passed? ==> ev.n <= |ev.steps| && ev.n <= |ev.cs|
  {
    match ev
    case Changed(e) => OutsideStep(w, e)
    case Passed(_, steps, cs, n) => Execute(w, steps, cs, n).0
    case Restarted => w.(mem := w.file)
    case Stopped(save) => w.(file := FileAfter(w.file, w.mem, save))
  }

  /** `w` is reached by `evs` from a host Byssus has never run on. */
  ghost predicate Reaches(w: World, evs: seq<Event>)
    decreases |evs|
  {
    if evs == [] then
      && TableOk(w) && w.mem == map[] && w.file == map[]
      && w.created == {} && w.removed == {} && w.stranded == {}
    else
      var last := evs[|evs| - 1];
      exists before :: Reaches(before, evs[..|evs| - 1]) && Enabled(before, last) && w == Apply(before, last)
  }

  lemma {:induction false} ReachableInv(w: World, evs: seq<Event>)
    requires Reaches(w, evs)
    ensures Inv(w)
    decreases |evs|
  {
    if evs != [] {
      var last := evs[|evs| - 1];
      var before :| Reaches(before, evs[..|evs| - 1]) && Enabled(before, last) && w == Apply(before, last);
      ReachableInv(before, evs[..|evs| - 1]);
      EventKeepsInv(before, last);
    }
  }

  lemma EventKeepsInv(w: World, ev: Event)
    requires Inv(w) && Enabled(w, ev)
    ensures Inv(Apply(w, ev))
  {
    match ev
    case Changed(e) => ChangedKeepsInv(w, e);
    case Passed(c, steps, cs, n) => PassKeepsInv(w, c, steps, cs, n);
    case Restarted => RestartKeepsInv(w);
    case Stopped(save) => StopKeepsInv(w, save);
  }

  lemma ChangedKeepsInv(w: World, e: Outside)
    requires Inv(w)
    ensures Inv(OutsideStep(w, e))
  {
    OutsideEvolves(w, e);
    InvStays(w, OutsideStep(w, e));
  }

  lemma RestartKeepsInv(w: World)
    requires Inv(w)
    ensures Inv(w.(mem := w.file))
  {
  }

  lemma StopKeepsInv(w: World, save: SaveOutcome)
    requires Inv(w)
    ensures Inv(w.(file := FileAfter(w.file, w.mem, save)))
  {
  }

  /** Durable coverage: a live mount Byssus created has its record both in memory
      and in the state file, unless its save and its rollback both failed. */
  lemma DurableCoverage(w: World, evs: seq<Event>, l: Location)
    requires Reaches(w, evs) && l in w.table && w.table[l].id in w.created && w.table[l].id !in w.stranded
    ensures exists k <- w.mem :: w.mem[k].target == l && w.mem[k].identity == w.table[l].Identity()
    ensures exists k <- w.file :: w.file[k].target == l && w.file[k].identity == w.table[l].Identity()
  {
    ReachableInv(w, evs);
  }

  /** Foreign safety: whatever Byssus has unmounted, it had created. */
  lemma ForeignSafety(w: World, evs: seq<Event>, id: nat)
    requires Reaches(w, evs) && id in w.removed
    ensures id in w.created
  {
    ReachableInv(w, evs);
  }

  /** The world as the step leaves it to others: after a failed save they act before the rollback. */
  function LeftToOthers(w: World, a: Action, c: Conditions): World {
    if a.Mount? && c.ready && c.source.Some? && a.desired.target !in w.table && c.accepts && !c.save.Saved? then
      OutsideSteps(Attached(w, a.desired.target, NewMount(w, a.desired, c)), c.during)
    else w
  }

  /** ... because no executor step touches a mount Byssus did not create: whatever others
      leave mounted, before the step or during it, is mounted after it. */
  lemma ForeignUntouched(w: World, evs: seq<Event>, c: Case, steps: seq<Step>, cs: seq<Conditions>, n: nat, l: Location)
    requires Reaches(w, evs) && Ready(w, c, steps) && n < |steps| && n < |cs|
    requires !Blocked(steps[n], Execute(w, steps, cs, n).1)
    requires var w1 := LeftToOthers(OutsideSteps(Execute(w, steps, cs, n).0, cs[n].before), steps[n].action, cs[n]);
      l in w1.table && w1.table[l].id !in w1.created
    ensures var w1 := LeftToOthers(OutsideSteps(Execute(w, steps, cs, n).0, cs[n].before), steps[n].action, cs[n]);
      var w2 := Execute(w, steps, cs, n + 1).0;
      l in w2.table && w2.table[l] == w1.table[l]
  {
    ReachableInv(w, evs);
    PassKeepsInv(w, c, steps, cs, n);
    var (w0, results) := Execute(w, steps, cs, n);
    PendingAfterOutside(w0, steps, results, cs[n].before);
    var w1 := OutsideSteps(w0, cs[n].before);
    assert RemovalPending(w1, steps[n].action);
    ForeignKept(w1, steps[n].action, cs[n], l);
  }

  lemma ForeignKept(w: World, a: Action, c: Conditions, l: Location)
    requires Inv(w) && RemovalPending(w, a)
    requires var w1 := LeftToOthers(w, a, c); l in w1.table && w1.table[l].id !in w1.created
    ensures var w1 := LeftToOthers(w, a, c);
      l in ActionStep(w, a, c).0.table && ActionStep(w, a, c).0.table[l] == w1.table[l]
  {
    if a.Mount? {
      ForeignKeptByMount(w, a, c, l);
    }
  }

  lemma ForeignKeptByMount(w: World, a: Action, c: Conditions, l: Location)
    requires Inv(w) && a.Mount?
    requires var w1 := LeftToOthers(w, a, c); l in w1.table && w1.table[l].id !in w1.created
    ensures var w1 := LeftToOthers(w, a, c);
      l in ActionStep(w, a, c).0.table && ActionStep(w, a, c).0.table[l] == w1.table[l]
  {
    var d := a.desired;
    if c.ready && c.source.Some? && d.target !in w.table && c.accepts && !c.save.Saved? {
      var m := NewMount(w, d, c);
      var file := FileAfter(w.file, w.mem[d.key := RecordOf(d, m)], c.save);
      OutsideIgnoresFile(Attached(w, d.target, m), file, c.during);
      AttachedEvolves(w, d.target, m);
      ForeignKeptByRollBack(Attached(w, d.target, m), file, d.target, m, c, l);
    }
  }

  lemma ForeignKeptByRollBack(w: World, file: State, at: Location, m: LiveMount, c: Conditions, l: Location)
    requires TableOk(w) && m.id in w.created && OutsideSteps(w.(file := file), c.during) == OutsideSteps(w, c.during).(file := file)
    requires var w1 := OutsideSteps(w, c.during); l in w1.table && w1.table[l].id !in w1.created
    ensures var w1 := OutsideSteps(w, c.during); var w2 := RollBack(w.(file := file), at, m, c);
      l in w2.table && w2.table[l] == w1.table[l]
  {
    OutsideStepsEvolve(w, c.during);
  }

  lemma {:induction false} OutsideIgnoresFile(w: World, file: State, es: seq<Outside>)
    ensures OutsideSteps(w.(file := file), es) == OutsideSteps(w, es).(file := file)
  {
    if es != [] {
      OutsideIgnoresFile(w, file, es[..|es| - 1]);
    }
  }

  /** Identity uniqueness: records name distinct mounts that `create_bind` made,
      so a visible mount matches at most one record, even when two share a target. */
  lemma IdentityUniqueness(w: World, evs: seq<Event>, l: Location, j: RecordKey, k: RecordKey)
    requires Reaches(w, evs) && j in w.mem && k in w.mem
    ensures w.mem[k].identity.unique.Some? && w.mem[k].identity.unique.value in w.created
    ensures w.mem[j].identity.unique == w.mem[k].identity.unique ==> j == k
    ensures Verified(w.table, l, w.mem[j].identity) && Verified(w.table, l, w.mem[k].identity) ==> j == k
    ensures Verified(w.table, l, w.mem[k].identity) ==> l == w.mem[k].target
  {
    ReachableInv(w, evs);
  }

  /** A mount step that runs never replaces the record of a live mount. */
  lemma NoLiveRecordReplaced(w: World, evs: seq<Event>, c: Case, steps: seq<Step>, cs: seq<Conditions>, n: nat)
    requires Reaches(w, evs) && Ready(w, c, steps) && n < |steps| && n < |cs| && steps[n].action.Mount?
    requires !Blocked(steps[n], Execute(w, steps, cs, n).1)
    ensures var w1 := OutsideSteps(Execute(w, steps, cs, n).0, cs[n].before);
      var k := steps[n].action.Key();
      k in w1.mem ==> forall l <- w1.table :: !Verified(w1.table, l, w1.mem[k].identity)
  {
    ReachableInv(w, evs);
    PassKeepsInv(w, c, steps, cs, n);
    var (w0, results) := Execute(w, steps, cs, n);
    PendingAfterOutside(w0, steps, results, cs[n].before);
    var w1 := OutsideSteps(w0, cs[n].before);
    if steps[n].action.Key() in w1.mem {
      UnblockedMayRecord(w1, c, steps, results);
    }
  }

  lemma RollBackRemoves(w: World, l: Location, m: LiveMount, c: Conditions)
    requires TableOk(w)
    ensures RollBack(w, l, m, c).removed <= w.removed + {m.id}
  {
    OutsideStepsEvolve(w, c.during);
  }

  /** What a step may unmount: its own record's mount, or the mount it just made. */
  lemma StepRemoves(w: World, a: Action, c: Conditions)
    requires Inv(w) && RemovalPending(w, a)
    ensures forall x <- ActionStep(w, a, c).0.removed ::
      x in w.removed || x >= w.nextId || (a.Unmount? && Some(x) == a.record.identity.unique)
  {
    if a.Mount? && c.ready && c.source.Some? && a.desired.target !in w.table && c.accepts && !c.save.Saved? {
      var m := NewMount(w, a.desired, c);
      AttachedEvolves(w, a.desired.target, m);
      RollBackRemoves(Attached(w, a.desired.target, m).(file := FileAfter(w.file, w.mem[a.desired.key := RecordOf(a.desired, m)], c.save)),
                      a.desired.target, m, c);
    }
  }

  /** `k`'s record is unchanged, and its mount has not been unmounted by Byssus. */
  ghost predicate LeftAlone(w: World, w': World, k: RecordKey)
    requires k in w.mem && w.mem[k].identity.unique.Some?
  {
    && k in w'.mem && w'.mem[k] == w.mem[k]
    && (w.mem[k].identity.unique.value in w'.removed ==> w.mem[k].identity.unique.value in w.removed)
  }

  lemma OtherStepLeavesAlone(w: World, a: Action, c: Conditions, k: RecordKey)
    requires Inv(w) && RemovalPending(w, a) && k in w.mem && k != a.Key()
    ensures LeftAlone(w, ActionStep(w, a, c).0, k)
  {
    StepFrame(w, a, c);
    StepRemoves(w, a, c);
  }

  lemma OutsideLeavesAlone(w: World, es: seq<Outside>, k: RecordKey)
    requires Inv(w) && k in w.mem
    ensures LeftAlone(w, OutsideSteps(w, es), k)
  {
    OutsideStepsEvolve(w, es);
  }

  lemma FrozenStep(w: World, c: Case, steps: seq<Step>, results: seq<StepResult>, cond: Conditions, k: RecordKey)
    requires c.Sound() && IsPlan(c, steps) && PassInv(w, steps, results) && |results| < |steps|
    requires k in w.mem && k.group in c.inp.frozen
    ensures LeftAlone(w, ActionStep(w, steps[|results|].action, cond).0, k)
  {
    assert RemovalPending(w, steps[|results|].action);
    FrozenUntouched(c, steps, |results|);
    OtherStepLeavesAlone(w, steps[|results|].action, cond, k);
  }

  lemma FrozenNext(w: World, c: Case, steps: seq<Step>, results: seq<StepResult>, cond: Conditions, k: RecordKey)
    requires c.Sound() && IsPlan(c, steps) && PassInv(w, steps, results) && |results| < |steps|
    requires k in w.mem && k.group in c.inp.frozen
    ensures LeftAlone(w, OutsideSteps(w, cond.before), k)
    ensures LeftAlone(w, ActionStep(OutsideSteps(w, cond.before), steps[|results|].action, cond).0, k)
  {
    OutsideLeavesAlone(w, cond.before, k);
    PendingAfterOutside(w, steps, results, cond.before);
    FrozenStep(OutsideSteps(w, cond.before), c, steps, results, cond, k);
  }

  ghost predicate StepLeavesAlone(w: World, w': World, k: RecordKey) {
    k in w.mem && w.mem[k].identity.unique.Some? ==> LeftAlone(w, w', k)
  }

  lemma LeftAloneChain(w: World, w1: World, w2: World, k: RecordKey)
    requires k in w.mem && w.mem[k].identity.unique.Some? && LeftAlone(w, w1, k) && StepLeavesAlone(w1, w2, k)
    ensures LeftAlone(w, w2, k)
  {
  }

  /** Step `i` leaves `k`'s record and mount alone. */
  ghost predicate Spares(w: World, steps: seq<Step>, cs: seq<Conditions>, i: nat, k: RecordKey)
    requires i < |steps| && i < |cs|
  {
    StepLeavesAlone(Execute(w, steps, cs, i).0, Execute(w, steps, cs, i + 1).0, k)
  }

  lemma FrozenIsSpared(w: World, c: Case, steps: seq<Step>, cs: seq<Conditions>, n: nat, k: RecordKey)
    requires Inv(w) && Ready(w, c, steps) && n < |steps| && n < |cs| && k.group in c.inp.frozen
    ensures Spares(w, steps, cs, n, k)
  {
    PassKeepsInv(w, c, steps, cs, n);
    var (w0, results) := Execute(w, steps, cs, n);
    if k in w0.mem {
      FrozenNext(w0, c, steps, results, cs[n], k);
    }
  }

  lemma {:induction false} SparedUpTo(w: World, steps: seq<Step>, cs: seq<Conditions>, n: nat, k: RecordKey)
    requires n <= |steps| && n <= |cs| && k in w.mem && w.mem[k].identity.unique.Some?
    requires forall i | 0 <= i < n :: Spares(w, steps, cs, i, k)
    ensures LeftAlone(w, Execute(w, steps, cs, n).0, k)
  {
    if n > 0 {
      SparedUpTo(w, steps, cs, n - 1, k);
      assert Spares(w, steps, cs, n - 1, k);
      LeftAloneChain(w, Execute(w, steps, cs, n - 1).0, Execute(w, steps, cs, n).0, k);
    }
  }

  /** Frozen preservation: after any part of a pass, whatever failed, the record of
      a frozen group is unchanged and no step has unmounted its mount. */
  lemma FrozenPreservation(w: World, c: Case, steps: seq<Step>, cs: seq<Conditions>, n: nat, k: RecordKey)
    requires Inv(w) && Ready(w, c, steps) && n <= |steps| && n <= |cs|
    requires k in w.mem && k.group in c.inp.frozen
    ensures LeftAlone(w, Execute(w, steps, cs, n).0, k)
  {
    forall i | 0 <= i < n ensures Spares(w, steps, cs, i, k) {
      FrozenIsSpared(w, c, steps, cs, i, k);
    }
    SparedUpTo(w, steps, cs, n, k);
  }
}
