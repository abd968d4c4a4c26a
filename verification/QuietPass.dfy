/**
 Passes nobody interferes with: which steps succeed when some are made to fail,
 and the exact state a fault-free pass leaves.
 */
module QuietPass {
  import opened Wrappers
  import opened Names
  import opened Records
  import opened Planning
  import opened Protocol
  import opened PlanFacts
  import opened Runs

  /** What stays put around passes: sources, unreachable targets, readable attributes. */
  datatype Surroundings = Surroundings(
    sources: map<Location, DevIno>,
    failures: map<Location, string>,
    readable: set<Location>,
    inherited: map<Location, ObservedAttrs>)
  {
    function SourceAt(l: Location): SourceState {
      if l in sources then Resolved(sources[l]) else SourceState.Unavailable("source does not resolve")
    }

    function Look(w: World, l: Location): TargetState {
      Seen(w, l, if l in failures then Some(failures[l]) else None, l in readable)
    }
  }

  /** The input `observe` gathers in `w`: every desired source and every desired and
      non-frozen recorded target (src/reconcile/observe.rs:172-223). */
  ghost predicate Accurate(w: World, inp: PlanInput, s: Surroundings) {
    && inp.Valid() && inp.state == w.mem
    && (forall k <- inp.desired :: inp.Source(k) == s.SourceAt(inp.desired[k].source))
    && (forall k <- inp.desired :: inp.desired[k].target in inp.targets)
    && (forall k <- inp.state | k.group !in inp.frozen :: inp.state[k].target in inp.targets)
    && (forall l <- inp.targets :: inp.targets[l] == s.Look(w, l))
  }

  lemma AccurateIsReady(w: World, c: Case, s: Surroundings, steps: seq<Step>)
    requires TableOk(w) && c.Sound() && Accurate(w, c.inp, s) && IsPlan(c, steps)
    ensures Ready(w, c, steps)
  {
  }

  /** Nobody else acts during the pass. */
  ghost predicate Quiet(cs: seq<Conditions>) {
    forall i | 0 <= i < |cs| :: cs[i].before == [] && cs[i].during == []
  }

  /** Nothing goes wrong in this step: directories, kernel and state file all work. */
  ghost predicate Fine(s: Surroundings, a: Action, c: Conditions) {
    && c.ready && c.accepts && c.save.Saved?
    && (a.Mount? && a.desired.source in s.sources ==> c.source == Some(s.sources[a.desired.source]))
  }

  function At(a: Action): Location {
    if a.Mount? then a.desired.target else a.record.target
  }

  /** The step may change what is mounted at `l`. */
  predicate Touches(a: Action, l: Location) {
    !a.DropRecord? && At(a) == l
  }

  predicate SameMount(t: Table, t': Table, l: Location) {
    (l in t <==> l in t') && (l in t ==> t[l] == t'[l])
  }

  predicate SameRecord(s: State, s': State, k: RecordKey) {
    (k in s <==> k in s') && (k in s ==> s[k] == s'[k])
  }

  lemma StepTableFrame(w: World, a: Action, c: Conditions, l: Location)
    requires c.during == [] && !Touches(a, l)
    ensures SameMount(w.table, ActionStep(w, a, c).0.table, l)
  {
  }

  lemma {:induction false} TableFrame(w: World, steps: seq<Step>, cs: seq<Conditions>, m: nat, n: nat, l: Location)
    requires Quiet(cs) && m <= n <= |steps| && n <= |cs|
    requires forall i | m <= i < n :: !Touches(steps[i].action, l)
    ensures SameMount(Execute(w, steps, cs, m).0.table, Execute(w, steps, cs, n).0.table, l)
    decreases n - m
  {
    if m < n {
      TableFrame(w, steps, cs, m, n - 1, l);
      StepTableFrame(Execute(w, steps, cs, n - 1).0, steps[n - 1].action, cs[n - 1], l);
    }
  }

  lemma {:induction false} RecordFrame(w: World, steps: seq<Step>, cs: seq<Conditions>, m: nat, n: nat, k: RecordKey)
    requires Quiet(cs) && m <= n <= |steps| && n <= |cs|
    requires forall i | m <= i < n :: steps[i].action.Key() != k
    ensures SameRecord(Execute(w, steps, cs, m).0.mem, Execute(w, steps, cs, n).0.mem, k)
    decreases n - m
  {
    if m < n {
      RecordFrame(w, steps, cs, m, n - 1, k);
      StepFrame(Execute(w, steps, cs, n - 1).0, steps[n - 1].action, cs[n - 1]);
    }
  }

  /** A pass for `c` starts in `w`, undisturbed, with a true observation. */
  ghost predicate Undisturbed(w: World, c: Case, s: Surroundings, steps: seq<Step>, cs: seq<Conditions>) {
    && Inv(w) && c.Sound() && Accurate(w, c.inp, s) && IsPlan(c, steps)
    && Quiet(cs) && |cs| == |steps|
  }

  /** Two planned unmounts never concern the same location. */
  lemma OneUnmountPerTarget(w: World, c: Case, s: Surroundings, steps: seq<Step>, i: nat, j: nat)
    requires Inv(w) && c.Sound() && Accurate(w, c.inp, s) && IsPlan(c, steps) && i < |steps| && j < |steps|
    requires steps[i].action.Unmount? && steps[j].action.Unmount?
    requires steps[i].action.record.target == steps[j].action.record.target
    ensures i == j
  {
    RemovalFacts(c, steps[i].action);
    RemovalFacts(c, steps[j].action);
    RemovalSeen(c, steps[i].action);
    RemovalSeen(c, steps[j].action);
    SameIdentity(w, c, s, steps[i].action.record, steps[j].action.record);
    OncePerKey(c, steps, i, j);
  }

  lemma SameIdentity(w: World, c: Case, s: Surroundings, r: MountRecord, r': MountRecord)
    requires Inv(w) && c.Sound() && Accurate(w, c.inp, s) && r.target == r'.target
    requires r.key in w.mem && w.mem[r.key] == r && r'.key in w.mem && w.mem[r'.key] == r'
    requires c.inp.MatchesTarget(r) && c.inp.MatchesTarget(r')
    ensures r.key == r'.key
  {
    assert r.target in c.inp.targets;
  }

  /** A planned unmount still finds its mount when its turn comes. */
  lemma UnmountIsEnabled(w: World, c: Case, s: Surroundings, steps: seq<Step>, cs: seq<Conditions>, j: nat)
    requires Undisturbed(w, c, s, steps, cs) && j < |steps| && steps[j].action.Unmount?
    ensures var r := steps[j].action.record; Verified(Execute(w, steps, cs, j).0.table, r.target, r.identity)
  {
    var r := steps[j].action.record;
    UntouchedBefore(w, c, s, steps, j);
    TableFrame(w, steps, cs, 0, j, r.target);
    UnmountIsSeen(w, c, s, steps[j].action);
  }

  /** Nothing before an unmount touches its target. */
  lemma UntouchedBefore(w: World, c: Case, s: Surroundings, steps: seq<Step>, j: nat)
    requires Inv(w) && c.Sound() && Accurate(w, c.inp, s) && IsPlan(c, steps) && j < |steps| && steps[j].action.Unmount?
    ensures forall i | 0 <= i < j :: !Touches(steps[i].action, steps[j].action.record.target)
  {
    forall i | 0 <= i < j ensures !Touches(steps[i].action, steps[j].action.record.target) {
      if Touches(steps[i].action, steps[j].action.record.target) && !steps[i].action.Mount? {
        OneUnmountPerTarget(w, c, s, steps, i, j);
      }
    }
  }

  /** When the pass begins, a planned unmount's mount is at its target. */
  lemma UnmountIsSeen(w: World, c: Case, s: Surroundings, a: Action)
    requires c.Sound() && Accurate(w, c.inp, s) && c.Called(a) && a.Unmount?
    ensures Verified(w.table, a.record.target, a.record.identity)
  {
    RemovalFacts(c, a);
    RemovalSeen(c, a);
    assert a.record.target in c.inp.targets;
  }

  lemma DoneUnmountClears(w: World, steps: seq<Step>, cs: seq<Conditions>, i: nat)
    requires i < |steps| && i < |cs| && steps[i].action.Unmount?
    requires Execute(w, steps, cs, i + 1).1[i] == Done
    ensures steps[i].action.record.target !in Execute(w, steps, cs, i + 1).0.table
  {
  }

  lemma {:induction false} ResultsGrow(w: World, steps: seq<Step>, cs: seq<Conditions>, m: nat, n: nat)
    requires m <= n <= |steps| && n <= |cs|
    ensures Execute(w, steps, cs, m).1 == Execute(w, steps, cs, n).1[..m]
    decreases n - m
  {
    if m < n {
      ResultsGrow(w, steps, cs, m, n - 1);
      assert Execute(w, steps, cs, n).1[..n - 1] == Execute(w, steps, cs, n - 1).1;
    } else {
      assert Execute(w, steps, cs, n).1[..n] == Execute(w, steps, cs, n).1;
    }
  }

  lemma NobodyTouches(w: World, c: Case, s: Surroundings, steps: seq<Step>, i: nat, j: nat, m: nat)
    requires Inv(w) && c.Sound() && Accurate(w, c.inp, s) && IsPlan(c, steps) && i < |steps| && j < |steps| && m < |steps|
    requires steps[i].action.Unmount? && steps[j].action.Mount? && At(steps[i].action) == At(steps[j].action)
    requires m != i && m != j
    ensures !Touches(steps[m].action, At(steps[j].action))
  {
    if Touches(steps[m].action, At(steps[j].action)) {
      if steps[m].action.Mount? {
        OneMountPerTarget(c, steps, m, j);
      } else {
        OneUnmountPerTarget(w, c, s, steps, i, m);
      }
    }
  }

  lemma ResultKept(w: World, steps: seq<Step>, cs: seq<Conditions>, j: nat, m: nat, n: nat)
    requires j < m <= n <= |steps| && n <= |cs|
    ensures Execute(w, steps, cs, m).1[j] == Execute(w, steps, cs, n).1[j]
  {
    ResultsGrow(w, steps, cs, m, n);
  }

  /** Between a done unmount and the mount waiting for it, nothing takes the target. */
  lemma FreedStaysFree(w: World, c: Case, s: Surroundings, steps: seq<Step>, cs: seq<Conditions>, i: nat, j: nat)
    requires Undisturbed(w, c, s, steps, cs) && i < j < |steps|
    requires steps[i].action.Unmount? && steps[j].action.Mount? && At(steps[i].action) == At(steps[j].action)
    requires Execute(w, steps, cs, j).1[i] == Done
    ensures At(steps[j].action) !in Execute(w, steps, cs, j).0.table
  {
    var l := steps[i].action.record.target;
    forall m | i + 1 <= m < j ensures !Touches(steps[m].action, l) {
      NobodyTouches(w, c, s, steps, i, j, m);
    }
    ClearedStaysClear(w, steps, cs, i, j);
  }

  lemma ClearedStaysClear(w: World, steps: seq<Step>, cs: seq<Conditions>, i: nat, j: nat)
    requires Quiet(cs) && i < j <= |steps| && j <= |cs| && steps[i].action.Unmount?
    requires Execute(w, steps, cs, j).1[i] == Done
    requires forall m | i + 1 <= m < j :: !Touches(steps[m].action, steps[i].action.record.target)
    ensures steps[i].action.record.target !in Execute(w, steps, cs, j).0.table
    decreases j
  {
    if j == i + 1 {
      DoneUnmountClears(w, steps, cs, i);
    } else {
      ResultsGrow(w, steps, cs, j - 1, j);
      ClearedStaysClear(w, steps, cs, i, j - 1);
      StepTableFrame(Execute(w, steps, cs, j - 1).0, steps[j - 1].action, cs[j - 1], steps[i].action.record.target);
    }
  }

  lemma FreeStaysFree(w: World, c: Case, s: Surroundings, steps: seq<Step>, cs: seq<Conditions>, j: nat)
    requires Undisturbed(w, c, s, steps, cs) && j < |steps| && steps[j].action.Mount?
    requires c.inp.Target(At(steps[j].action)).NotMounted?
    ensures At(steps[j].action) !in Execute(w, steps, cs, j).0.table
  {
    var l := At(steps[j].action);
    MountFacts(c, steps[j].action);
    assert l in c.inp.targets;
    forall i | 0 <= i < j ensures !Touches(steps[i].action, l) {
      if steps[i].action.Mount? && At(steps[i].action) == l {
        OneMountPerTarget(c, steps, i, j);
      } else if steps[i].action.Unmount? && At(steps[i].action) == l {
        RemovalSeen(c, steps[i].action);
      }
    }
    TableFrame(w, steps, cs, 0, j, l);
  }

  /** A mount whose dependencies are done finds its target free. */
  lemma MountIsEnabled(w: World, c: Case, s: Surroundings, steps: seq<Step>, cs: seq<Conditions>, j: nat)
    requires Undisturbed(w, c, s, steps, cs) && j < |steps| && steps[j].action.Mount?
    requires !Blocked(steps[j], Execute(w, steps, cs, j).1)
    ensures steps[j].action.desired.target !in Execute(w, steps, cs, j).0.table
  {
    MountFacts(c, steps[j].action);
    if c.inp.Target(steps[j].action.desired.target).Mounted? {
      var i := WaitsForFreeing(c, steps, j);
      FreedStaysFree(w, c, s, steps, cs, i, j);
    } else {
      FreeStaysFree(w, c, s, steps, cs, j);
    }
  }

  /** In every pass, disturbed or not: a step is skipped exactly when something it waits
      for is not done. */
  lemma SkippedIffUndone(w: World, c: Case, steps: seq<Step>, cs: seq<Conditions>, j: nat)
    requires c.Sound() && IsPlan(c, steps) && |cs| == |steps| && j < |steps|
    ensures var r := Execute(w, steps, cs, |steps|).1;
      (forall d <- steps[j].dependsOn :: d < |r|) && (r[j] == Skipped <==> exists d <- steps[j].dependsOn :: r[d] != Done)
  {
    forall d <- steps[j].dependsOn ensures d < j {
      DependencyFacts(c, steps, j, d);
    }
    SkippedExactly(w, c, steps, cs, j);
    SkippedIffBlocked(w, steps, cs, j);
    ResultsGrow(w, steps, cs, j + 1, |steps|);
  }

  lemma SkippedIffBlocked(w: World, steps: seq<Step>, cs: seq<Conditions>, j: nat)
    requires j < |steps| && j < |cs|
    ensures Execute(w, steps, cs, j + 1).1[j] == Skipped <==> Blocked(steps[j], Execute(w, steps, cs, j).1)
  {
  }

  /** Failure isolation, when nobody interferes: any step that is not skipped and has
      nothing wrong of its own succeeds, whatever happened to the rest of the plan. */
  lemma FailureIsolation(w: World, c: Case, s: Surroundings, steps: seq<Step>, cs: seq<Conditions>, j: nat)
    requires Undisturbed(w, c, s, steps, cs) && j < |steps|
    ensures var r := Execute(w, steps, cs, |steps|).1;
      && (r[j] == Skipped <==> exists d <- steps[j].dependsOn :: r[d] != Done)
      && (Fine(s, steps[j].action, cs[j]) && r[j] != Skipped ==> r[j] == Done)
  {
    StepSucceeds(w, c, s, steps, cs, j);
    SkippedIffUndone(w, c, steps, cs, j);
    ResultsGrow(w, steps, cs, j + 1, |steps|);
  }

  /** Whether a step is blocked can be read off the final results. */
  lemma SkippedExactly(w: World, c: Case, steps: seq<Step>, cs: seq<Conditions>, j: nat)
    requires c.Sound() && IsPlan(c, steps) && |cs| == |steps| && j < |steps|
    ensures var r := Execute(w, steps, cs, |steps|).1;
      Blocked(steps[j], Execute(w, steps, cs, j).1) <==> exists d <- steps[j].dependsOn :: r[d] != Done
  {
    ResultsGrow(w, steps, cs, j, |steps|);
    forall d <- steps[j].dependsOn ensures d < j {
      DependencyFacts(c, steps, j, d);
    }
    BlockedByPrefix(steps[j], Execute(w, steps, cs, j).1, Execute(w, steps, cs, |steps|).1);
  }

  lemma BlockedByPrefix(step: Step, results: seq<StepResult>, all: seq<StepResult>)
    requires |results| <= |all| && all[..|results|] == results && forall d <- step.dependsOn :: d < |results|
    ensures Blocked(step, results) <==> exists d <- step.dependsOn :: all[d] != Done
  {
    assert forall d <- step.dependsOn :: all[d] == all[..|results|][d];
  }

  lemma StepSucceeds(w: World, c: Case, s: Surroundings, steps: seq<Step>, cs: seq<Conditions>, j: nat)
    requires Undisturbed(w, c, s, steps, cs) && j < |steps|
    ensures var r := Execute(w, steps, cs, j + 1).1[j];
      if Blocked(steps[j], Execute(w, steps, cs, j).1) then r == Skipped
      else r != Skipped && (Fine(s, steps[j].action, cs[j]) ==> r == Done)
  {
    QuietExecute(w, steps, cs, j);
    if !Blocked(steps[j], Execute(w, steps, cs, j).1) {
      StepWorks(w, c, s, steps, cs, j);
    }
  }

  lemma StepWorks(w: World, c: Case, s: Surroundings, steps: seq<Step>, cs: seq<Conditions>, j: nat)
    requires Undisturbed(w, c, s, steps, cs) && j < |steps| && !Blocked(steps[j], Execute(w, steps, cs, j).1)
    ensures var r := ActionStep(Execute(w, steps, cs, j).0, steps[j].action, cs[j]).1;
      r != Skipped && (Fine(s, steps[j].action, cs[j]) ==> r == Done)
  {
    var a, w0 := steps[j].action, Execute(w, steps, cs, j).0;
    match a
    case Mount(d) =>
      MountIsEnabled(w, c, s, steps, cs, j);
      MountFacts(c, a);
      MountSucceeds(w0, d, s, cs[j]);
    case Unmount(r, why) =>
      UnmountIsEnabled(w, c, s, steps, cs, j);
      UnmountSucceeds(w0, r, why, s, cs[j]);
    case DropRecord(_, _) =>
  }

  lemma MountSucceeds(w: World, d: DesiredMount, s: Surroundings, c: Conditions)
    requires d.target !in w.table && d.source in s.sources
    ensures MountStep(w, d, c).1 != Skipped && (Fine(s, Mount(d), c) ==> MountStep(w, d, c).1 == Done)
  {
  }

  lemma UnmountSucceeds(w: World, r: MountRecord, why: UnmountReason, s: Surroundings, c: Conditions)
    requires Verified(w.table, r.target, r.identity)
    ensures UnmountStep(w, r, c).1 != Skipped && (Fine(s, Unmount(r, why), c) ==> UnmountStep(w, r, c).1 == Done)
  {
  }

  // ----- Effects that last -----

  /** The member is mounted and recorded as its `Mount` step asks. */
  ghost predicate MountedAsPlanned(w: World, d: DesiredMount, root: DevIno) {
    && d.target in w.table && w.table[d.target].root == root
    && w.table[d.target].attrs.Enforce(d.attrs)
    && d.key in w.mem && w.mem[d.key] == RecordOf(d, w.table[d.target])
  }

  lemma DoneMountMounts(w: World, d: DesiredMount, c: Conditions)
    requires MountStep(w, d, c).1 == Done
    ensures c.source.Some? && MountedAsPlanned(MountStep(w, d, c).0, d, c.source.value)
    ensures MountStep(w, d, c).0.table[d.target].id == w.nextId
  {
  }

  lemma JustMounted(w: World, c: Case, s: Surroundings, steps: seq<Step>, cs: seq<Conditions>, j: nat)
    requires Undisturbed(w, c, s, steps, cs) && j < |steps| && steps[j].action.Mount?
    requires Execute(w, steps, cs, j + 1).1[j] == Done
    ensures cs[j].source.Some?
    ensures MountedAsPlanned(Execute(w, steps, cs, j + 1).0, steps[j].action.desired, cs[j].source.value)
  {
    DoneMountMounts(Execute(w, steps, cs, j).0, steps[j].action.desired, cs[j]);
  }

  lemma MountedLasts(w: World, c: Case, s: Surroundings, steps: seq<Step>, cs: seq<Conditions>, j: nat, n: nat, root: DevIno)
    requires Undisturbed(w, c, s, steps, cs) && j < n <= |steps| && steps[j].action.Mount?
    requires MountedAsPlanned(Execute(w, steps, cs, j + 1).0, steps[j].action.desired, root)
    ensures MountedAsPlanned(Execute(w, steps, cs, n).0, steps[j].action.desired, root)
  {
    var d := steps[j].action.desired;
    forall i | j + 1 <= i < n ensures !Touches(steps[i].action, d.target) && steps[i].action.Key() != d.key {
      MountAfterMount(c, steps, j, i);
    }
    TableFrame(w, steps, cs, j + 1, n, d.target);
    RecordFrame(w, steps, cs, j + 1, n, d.key);
  }

  /** What a mount step that is done leaves lasts to the end of the pass. */
  lemma DoneMountLasts(w: World, c: Case, s: Surroundings, steps: seq<Step>, cs: seq<Conditions>, j: nat, n: nat)
    requires Undisturbed(w, c, s, steps, cs) && j < n <= |steps| && steps[j].action.Mount?
    requires Execute(w, steps, cs, n).1[j] == Done
    ensures cs[j].source.Some?
    ensures MountedAsPlanned(Execute(w, steps, cs, n).0, steps[j].action.desired, cs[j].source.value)
  {
    ResultKept(w, steps, cs, j, j + 1, n);
    JustMounted(w, c, s, steps, cs, j);
    MountedLasts(w, c, s, steps, cs, j, n, cs[j].source.value);
  }

  lemma MountAfterMount(c: Case, steps: seq<Step>, j: nat, i: nat)
    requires c.Sound() && IsPlan(c, steps) && j < i < |steps| && steps[j].action.Mount?
    ensures !Touches(steps[i].action, steps[j].action.desired.target)
    ensures steps[i].action.Key() != steps[j].action.desired.key
  {
    if !steps[i].action.Mount? {
      RemovalsFirst(c, steps, i, j);
    } else if steps[i].action.Key() == steps[j].action.Key() {
      OncePerKey(c, steps, i, j);
    } else if At(steps[i].action) == At(steps[j].action) {
      OneMountPerTarget(c, steps, i, j);
    }
  }

  lemma DoneUnmountKills(w: World, steps: seq<Step>, r: MountRecord, c: Conditions)
    requires Inv(w) && r.key in w.mem && w.mem[r.key] == r && UnmountStep(w, r, c).1 == Done
    ensures Dead(UnmountStep(w, r, c).0, r.identity)
  {
    UnmountedIsOwn(w, r);
  }

  /** One more step of an undisturbed pass. */
  lemma QuietStep(w: World, c: Case, s: Surroundings, steps: seq<Step>, cs: seq<Conditions>, n: nat)
    requires Undisturbed(w, c, s, steps, cs) && n < |steps|
    ensures Evolves(Execute(w, steps, cs, n).0, Execute(w, steps, cs, n + 1).0)
  {
    QuietPassInv(w, c, s, steps, cs, n);
    QuietExecute(w, steps, cs, n);
    var (w0, results) := Execute(w, steps, cs, n);
    PassStepKeepsInv(w0, c, steps, results, cs[n]);
  }

  /** With nobody else acting, a step follows directly on the one before. */
  lemma QuietExecute(w: World, steps: seq<Step>, cs: seq<Conditions>, n: nat)
    requires Quiet(cs) && n < |steps| && n < |cs|
    ensures var (w0, results) := Execute(w, steps, cs, n);
      Execute(w, steps, cs, n + 1) ==
        if Blocked(steps[n], results) then (w0, results + [Skipped])
        else (ActionStep(w0, steps[n].action, cs[n]).0, results + [ActionStep(w0, steps[n].action, cs[n]).1])
  {
  }

  lemma QuietPassInv(w: World, c: Case, s: Surroundings, steps: seq<Step>, cs: seq<Conditions>, n: nat)
    requires Undisturbed(w, c, s, steps, cs) && n <= |steps|
    ensures PassInv(Execute(w, steps, cs, n).0, steps, Execute(w, steps, cs, n).1)
  {
    AccurateIsReady(w, c, s, steps);
    PassKeepsInv(w, c, steps, cs, n);
  }

  lemma StaysDead(w: World, c: Case, s: Surroundings, steps: seq<Step>, cs: seq<Conditions>, n: nat, id: MountIdentity)
    requires Undisturbed(w, c, s, steps, cs) && n < |steps| && Dead(Execute(w, steps, cs, n).0, id)
    ensures Dead(Execute(w, steps, cs, n + 1).0, id)
  {
    QuietStep(w, c, s, steps, cs, n);
    DeadStaysDead(Execute(w, steps, cs, n).0, Execute(w, steps, cs, n + 1).0, id);
  }

  lemma UnmountJustDone(w: World, c: Case, s: Surroundings, steps: seq<Step>, cs: seq<Conditions>, j: nat)
    requires Undisturbed(w, c, s, steps, cs) && j < |steps| && steps[j].action.Unmount?
    requires Execute(w, steps, cs, j + 1).1[j] == Done
    ensures Dead(Execute(w, steps, cs, j + 1).0, steps[j].action.record.identity)
  {
    QuietPassInv(w, c, s, steps, cs, j);
    QuietExecute(w, steps, cs, j);
    assert RemovalPending(Execute(w, steps, cs, j).0, steps[j].action);
    DoneUnmountKills(Execute(w, steps, cs, j).0, steps, steps[j].action.record, cs[j]);
  }

  ghost predicate KeepsDead(w: World, steps: seq<Step>, cs: seq<Conditions>, i: nat, id: MountIdentity)
    requires i < |steps| && i < |cs|
  {
    Dead(Execute(w, steps, cs, i).0, id) ==> Dead(Execute(w, steps, cs, i + 1).0, id)
  }

  lemma {:induction false} DeadUpTo(w: World, steps: seq<Step>, cs: seq<Conditions>, m: nat, n: nat, id: MountIdentity)
    requires m <= n <= |steps| && n <= |cs| && Dead(Execute(w, steps, cs, m).0, id)
    requires forall i | m <= i < n :: KeepsDead(w, steps, cs, i, id)
    ensures Dead(Execute(w, steps, cs, n).0, id)
    decreases n
  {
    if m < n {
      DeadUpTo(w, steps, cs, m, n - 1, id);
      assert KeepsDead(w, steps, cs, n - 1, id);
    }
  }

  lemma DeadLasts(w: World, c: Case, s: Surroundings, steps: seq<Step>, cs: seq<Conditions>, m: nat, n: nat, id: MountIdentity)
    requires Undisturbed(w, c, s, steps, cs) && m <= n <= |steps| && Dead(Execute(w, steps, cs, m).0, id)
    ensures Dead(Execute(w, steps, cs, n).0, id)
  {
    forall i | m <= i < n ensures KeepsDead(w, steps, cs, i, id) {
      if Dead(Execute(w, steps, cs, i).0, id) {
        StaysDead(w, c, s, steps, cs, i, id);
      }
    }
    DeadUpTo(w, steps, cs, m, n, id);
  }

  /** A done unmount's mount is gone for good. */
  lemma DoneUnmountIsDead(w: World, c: Case, s: Surroundings, steps: seq<Step>, cs: seq<Conditions>, j: nat, n: nat)
    requires Undisturbed(w, c, s, steps, cs) && j < n <= |steps| && steps[j].action.Unmount?
    requires Execute(w, steps, cs, j + 1).1[j] == Done
    ensures Dead(Execute(w, steps, cs, n).0, steps[j].action.record.identity)
  {
    UnmountJustDone(w, c, s, steps, cs, j);
    DeadLasts(w, c, s, steps, cs, j + 1, n, steps[j].action.record.identity);
  }

  lemma OnlyRemoval(c: Case, steps: seq<Step>, j: nat, i: nat)
    requires c.Sound() && IsPlan(c, steps) && j < |steps| && i < |steps| && i != j
    requires !steps[j].action.Mount? && !c.WantsMount(steps[j].action.Key())
    ensures steps[i].action.Key() != steps[j].action.Key()
  {
    if steps[i].action.Mount? {
      MountFacts(c, steps[i].action);
    } else if steps[i].action.Key() == steps[j].action.Key() {
      OncePerKey(c, steps, i, j);
    }
  }

  /** A member whose removal is done, and who is not mounted anew, has no record. */
  lemma DoneRemovalLasts(w: World, c: Case, s: Surroundings, steps: seq<Step>, cs: seq<Conditions>, j: nat, n: nat)
    requires Undisturbed(w, c, s, steps, cs) && j < n <= |steps| && !steps[j].action.Mount?
    requires Execute(w, steps, cs, n).1[j] == Done && !c.WantsMount(steps[j].action.Key())
    ensures steps[j].action.Key() !in Execute(w, steps, cs, n).0.mem
  {
    var k := steps[j].action.Key();
    ResultKept(w, steps, cs, j, j + 1, n);
    DoneRemovalForgets(w, steps, cs, j);
    forall i | j + 1 <= i < n ensures steps[i].action.Key() != k {
      OnlyRemoval(c, steps, j, i);
    }
    RecordFrame(w, steps, cs, j + 1, n, k);
  }

  lemma DoneRemovalForgets(w: World, steps: seq<Step>, cs: seq<Conditions>, j: nat)
    requires j < |steps| && j < |cs| && !steps[j].action.Mount? && Execute(w, steps, cs, j + 1).1[j] == Done
    ensures steps[j].action.Key() !in Execute(w, steps, cs, j + 1).0.mem
  {
    StepFrame(OutsideSteps(Execute(w, steps, cs, j).0, cs[j].before), steps[j].action, cs[j]);
  }

  /** The rest of failure isolation: a step with nothing wrong of its own or of
      what it waits for has its full effect, whatever else failed. */
  lemma IsolatedEffect(w: World, c: Case, s: Surroundings, steps: seq<Step>, cs: seq<Conditions>, j: nat)
    requires Undisturbed(w, c, s, steps, cs) && j < |steps| && Fine(s, steps[j].action, cs[j])
    requires forall d <- steps[j].dependsOn :: d < |steps| && Fine(s, steps[d].action, cs[d])
    ensures var a := steps[j].action; var w' := Execute(w, steps, cs, |steps|).0;
      && (a.Mount? ==> a.desired.source in s.sources && MountedAsPlanned(w', a.desired, s.sources[a.desired.source]))
      && (a.Unmount? ==> Dead(w', a.record.identity))
      && (!a.Mount? && !c.WantsMount(a.Key()) ==> a.Key() !in w'.mem)
  {
    var n := |steps|;
    forall d <- steps[j].dependsOn ensures Execute(w, steps, cs, n).1[d] == Done {
      DependencyFacts(c, steps, j, d);
      RemovalNeverWaits(c, steps, d);
      FailureIsolation(w, c, s, steps, cs, d);
    }
    FailureIsolation(w, c, s, steps, cs, j);
    if steps[j].action.Mount? {
      MountFacts(c, steps[j].action);
      DoneMountLasts(w, c, s, steps, cs, j, n);
    } else {
      DoneRemovalEffect(w, c, s, steps, cs, j);
    }
  }

  lemma RemovalNeverWaits(c: Case, steps: seq<Step>, d: nat)
    requires c.Sound() && IsPlan(c, steps) && d < |steps| && !steps[d].action.Mount?
    ensures steps[d].dependsOn == []
  {
    if steps[d].dependsOn != [] {
      DependencyFacts(c, steps, d, steps[d].dependsOn[0]);
    }
  }

  lemma DoneRemovalEffect(w: World, c: Case, s: Surroundings, steps: seq<Step>, cs: seq<Conditions>, j: nat)
    requires Undisturbed(w, c, s, steps, cs) && j < |steps| && !steps[j].action.Mount?
    requires Execute(w, steps, cs, |steps|).1[j] == Done
    ensures var a := steps[j].action; var w' := Execute(w, steps, cs, |steps|).0;
      && (a.Unmount? ==> Dead(w', a.record.identity))
      && (!c.WantsMount(a.Key()) ==> a.Key() !in w'.mem)
  {
    if steps[j].action.Unmount? {
      ResultKept(w, steps, cs, j, j + 1, |steps|);
      DoneUnmountIsDead(w, c, s, steps, cs, j, |steps|);
    }
    if !c.WantsMount(steps[j].action.Key()) {
      DoneRemovalLasts(w, c, s, steps, cs, j, |steps|);
    }
  }

  // ----- The state a fault-free pass leaves -----

  /** A whole undisturbed pass in which nothing goes wrong takes `w` to `w'`. */
  ghost predicate CleanPass(w: World, c: Case, s: Surroundings, steps: seq<Step>, cs: seq<Conditions>, w': World) {
    && Undisturbed(w, c, s, steps, cs)
    && (forall j | 0 <= j < |steps| :: Fine(s, steps[j].action, cs[j]))
    && w' == Execute(w, steps, cs, |steps|).0
  }

  /** Such a pass exists for every accurate observation and every plan for it. */
  lemma CleanPassExists(w: World, c: Case, s: Surroundings, steps: seq<Step>) returns (cs: seq<Conditions>, w': World)
    requires Inv(w) && c.Sound() && Accurate(w, c.inp, s) && IsPlan(c, steps)
    ensures CleanPass(w, c, s, steps, cs, w')
  {
    var plain := ObservedAttrs(false, false, false, false, false);
    cs := seq(|steps|, i requires 0 <= i < |steps| =>
      var a := steps[i].action;
      var source := if a.Mount? && a.desired.source in s.sources then Some(s.sources[a.desired.source]) else None;
      Conditions([], true, source, true, 0, plain, Saved, [], true));
    w' := Execute(w, steps, cs, |steps|).0;
  }

  lemma AllDone(w: World, c: Case, s: Surroundings, steps: seq<Step>, cs: seq<Conditions>, w': World, j: nat)
    requires CleanPass(w, c, s, steps, cs, w') && j < |steps|
    ensures Execute(w, steps, cs, |steps|).1[j] == Done
  {
    FailureIsolation(w, c, s, steps, cs, j);
    forall d <- steps[j].dependsOn ensures Execute(w, steps, cs, |steps|).1[d] == Done {
      DependencyFacts(c, steps, j, d);
      RemovalNeverWaits(c, steps, d);
      FailureIsolation(w, c, s, steps, cs, d);
    }
  }

  ghost predicate MountsAt(c: Case, l: Location) {
    exists k :: c.WantsMount(k) && c.inp.desired[k].target == l
  }

  ghost predicate UnmountsAt(c: Case, l: Location) {
    exists k :: k in c.inp.state && c.Removal(k).Some? && c.Removal(k).value.Unmount? && c.inp.state[k].target == l
  }

  /** What the pass leaves for member `k`. */
  ghost predicate KeyOutcome(w: World, c: Case, s: Surroundings, w': World, k: RecordKey) {
    if c.WantsMount(k) then
      c.inp.desired[k].source in s.sources
      && MountedAsPlanned(w', c.inp.desired[k], s.sources[c.inp.desired[k].source])
    else if c.Removal(k).Some? then k !in w'.mem
    else SameRecord(w.mem, w'.mem, k)
  }

  /** What the pass leaves at a location nothing is mounted on. */
  ghost predicate PlaceOutcome(w: World, c: Case, w': World, l: Location) {
    !MountsAt(c, l) ==> if UnmountsAt(c, l) then l !in w'.table else SameMount(w.table, w'.table, l)
  }

  /** The end state, member by member and location by location. */
  ghost predicate Outcome(w: World, c: Case, s: Surroundings, w': World) {
    && Inv(w) && Inv(w') && c.Sound() && Accurate(w, c.inp, s)
    && (forall k :: KeyOutcome(w, c, s, w', k))
    && (forall l :: PlaceOutcome(w, c, w', l))
  }

  lemma CleanMount(w: World, c: Case, s: Surroundings, steps: seq<Step>, cs: seq<Conditions>, w': World, k: RecordKey)
    requires CleanPass(w, c, s, steps, cs, w') && c.WantsMount(k)
    ensures KeyOutcome(w, c, s, w', k)
  {
    var j := MountIsPlanned(c, steps, k);
    AllDone(w, c, s, steps, cs, w', j);
    DoneMountLasts(w, c, s, steps, cs, j, |steps|);
    MountFacts(c, steps[j].action);
  }

  lemma CleanRemoval(w: World, c: Case, s: Surroundings, steps: seq<Step>, cs: seq<Conditions>, w': World, k: RecordKey)
    requires CleanPass(w, c, s, steps, cs, w') && !c.WantsMount(k) && c.Removal(k).Some?
    ensures k !in w'.mem
  {
    var j := RemovalIsPlanned(c, steps, k);
    AllDone(w, c, s, steps, cs, w', j);
    DoneRemovalLasts(w, c, s, steps, cs, j, |steps|);
  }

  lemma NoStepOf(c: Case, steps: seq<Step>, k: RecordKey, i: nat)
    requires c.Sound() && IsPlan(c, steps) && i < |steps| && !c.WantsMount(k) && c.Removal(k).None?
    ensures steps[i].action.Key() != k
  {
    if steps[i].action.Mount? { MountFacts(c, steps[i].action); } else { RemovalFacts(c, steps[i].action); }
  }

  lemma CleanKey(w: World, c: Case, s: Surroundings, steps: seq<Step>, cs: seq<Conditions>, w': World, k: RecordKey)
    requires CleanPass(w, c, s, steps, cs, w')
    ensures KeyOutcome(w, c, s, w', k)
  {
    if c.WantsMount(k) {
      CleanMount(w, c, s, steps, cs, w', k);
    } else if c.Removal(k).Some? {
      CleanRemoval(w, c, s, steps, cs, w', k);
    } else {
      forall i | 0 <= i < |steps| ensures steps[i].action.Key() != k { NoStepOf(c, steps, k, i); }
      RecordFrame(w, steps, cs, 0, |steps|, k);
    }
  }

  lemma StepsAt(c: Case, steps: seq<Step>, l: Location, i: nat)
    requires c.Sound() && IsPlan(c, steps) && i < |steps| && Touches(steps[i].action, l)
    ensures if steps[i].action.Mount? then MountsAt(c, l) else UnmountsAt(c, l)
  {
    if steps[i].action.Mount? { MountFacts(c, steps[i].action); } else { RemovalFacts(c, steps[i].action); }
  }

  lemma CleanUnmount(w: World, c: Case, s: Surroundings, steps: seq<Step>, cs: seq<Conditions>, w': World, l: Location)
    requires CleanPass(w, c, s, steps, cs, w') && !MountsAt(c, l) && UnmountsAt(c, l)
    ensures l !in w'.table
  {
    var k :| k in c.inp.state && c.Removal(k).Some? && c.Removal(k).value.Unmount? && c.inp.state[k].target == l;
    var j := RemovalIsPlanned(c, steps, k);
    AllDone(w, c, s, steps, cs, w', j);
    UnmountClears(w, c, s, steps, cs, l, j);
  }

  lemma UnmountClears(w: World, c: Case, s: Surroundings, steps: seq<Step>, cs: seq<Conditions>, l: Location, j: nat)
    requires Undisturbed(w, c, s, steps, cs) && !MountsAt(c, l) && j < |steps|
    requires steps[j].action.Unmount? && steps[j].action.record.target == l
    requires Execute(w, steps, cs, |steps|).1[j] == Done
    ensures l !in Execute(w, steps, cs, |steps|).0.table
  {
    forall m | j + 1 <= m < |steps| ensures !Touches(steps[m].action, l) {
      if Touches(steps[m].action, l) {
        StepsAt(c, steps, l, m);
        OneUnmountPerTarget(w, c, s, steps, j, m);
      }
    }
    ClearedStaysClear(w, steps, cs, j, |steps|);
  }

  lemma CleanPlace(w: World, c: Case, s: Surroundings, steps: seq<Step>, cs: seq<Conditions>, w': World, l: Location)
    requires CleanPass(w, c, s, steps, cs, w')
    ensures PlaceOutcome(w, c, w', l)
  {
    if !MountsAt(c, l) {
      if UnmountsAt(c, l) {
        CleanUnmount(w, c, s, steps, cs, w', l);
      } else {
        forall i | 0 <= i < |steps| ensures !Touches(steps[i].action, l) {
          if Touches(steps[i].action, l) { StepsAt(c, steps, l, i); }
        }
        TableFrame(w, steps, cs, 0, |steps|, l);
      }
    }
  }

  lemma CleanOutcome(w: World, c: Case, s: Surroundings, steps: seq<Step>, cs: seq<Conditions>, w': World)
    requires CleanPass(w, c, s, steps, cs, w')
    ensures Outcome(w, c, s, w')
  {
    AccurateIsReady(w, c, s, steps);
    PassKeepsInv(w, c, steps, cs, |steps|);
    forall k { CleanKey(w, c, s, steps, cs, w', k); }
    forall l { CleanPlace(w, c, s, steps, cs, w', l); }
  }
}
