/**
 Resolving sources and inspecting targets for a pass (src/reconcile/observe.rs:186-223):
 what the planner is given is true when it is made, and stays true of Byssus's own mounts.
 */
module KernelView {
  import opened Wrappers
  import opened Names
  import opened Records
  import opened Planning
  import opened Protocol
  import opened Runs
  import opened QuietPass
  import opened Discovery
  import opened Freezing
  import opened Observing
  import opened Execution

  /** Every desired target, and the target of every record that is not frozen. */
  function TargetsOf(desired: seq<DesiredMount>, state: State, frozen: set<GroupId>): set<Location> {
    (set d <- desired :: d.target) + (set k <- state | k.group !in frozen :: state[k].target)
  }

  method ResolveSources(desired: seq<DesiredMount>, s: Surroundings) returns (sources: map<RecordKey, SourceState>)
    requires DistinctKeys(desired)
    ensures forall k :: k in sources <==> exists d <- desired :: d.key == k
    ensures forall d <- desired :: sources[d.key] == s.SourceAt(d.source)
  {
    sources := map[];
    for i := 0 to |desired|
      invariant forall k :: k in sources <==> exists j | 0 <= j < i :: desired[j].key == k
      invariant forall j | 0 <= j < i :: sources[desired[j].key] == s.SourceAt(desired[j].source)
    {
      sources := sources[desired[i].key := s.SourceAt(desired[i].source)];
    }
  }

  /** What was seen of a location stays true whatever others do. */
  lemma SeenStaysTrue(w: World, l: Location, t: TargetState, es: seq<Outside>)
    requires TableOk(w) && StillTrue(w, l, t)
    ensures StillTrue(OutsideSteps(w, es), l, t)
  {
    OutsideStepsEvolve(w, es);
  }

  /** Only others have acted between `w` and `w'`. */
  predicate OnlyOutside(w: World, w': World) {
    w' == w.(table := w'.table, nextId := w'.nextId)
  }

  /** The inspections so far are still true, and exact if nobody acts meanwhile. */
  ghost predicate Inspected(w: World, w': World, targets: map<Location, TargetState>, s: Surroundings, quiet: bool) {
    && TableOk(w') && OnlyOutside(w, w') && (Inv(w) ==> Inv(w')) && Observed(w', targets)
    && (quiet ==> w' == w && forall l <- targets :: targets[l] == s.Look(w, l))
  }

  lemma InspectNext(w: World, w1: World, targets: map<Location, TargetState>, s: Surroundings, quiet: bool, l: Location, es: seq<Outside>)
    requires Inspected(w, w1, targets, s, quiet) && (quiet ==> es == [])
    ensures Inspected(w, OutsideSteps(w1, es), targets[l := s.Look(w1, l)], s, quiet)
  {
    var w2 := OutsideSteps(w1, es);
    OutsideStepsEvolve(w1, es);
    if Inv(w1) {
      OutsideKeepsInv(w1, es);
    }
    forall m <- targets ensures StillTrue(w2, m, targets[m]) {
      SeenStaysTrue(w1, m, targets[m], es);
    }
    ObservationStaysTrue(w1, l, if l in s.failures then Some(s.failures[l]) else None, l in s.readable, es);
  }

  /** `mount::inspect`: what is mounted at `l` now, if it can be told. */
  method Inspect(ex: Executor, l: Location, s: Surroundings) returns (t: TargetState)
    ensures t == s.Look(ex.View(), l)
  {
    if l in s.failures {
      return TargetState.Unavailable(s.failures[l]);
    }
    if l !in ex.kernel.table {
      return NotMounted;
    }
    var m := ex.kernel.table[l];
    t := Mounted(m.Identity(), if l in s.readable then Some(m.attrs) else None);
  }

  /** Inspects every location once; others may mount and unmount in between. */
  method InspectTargets(ex: Executor, locations: set<Location>, s: Surroundings, meanwhile: Location -> seq<Outside>, ghost quiet: bool)
    returns (targets: map<Location, TargetState>)
    requires TableOk(ex.View()) && (quiet ==> forall l :: meanwhile(l) == [])
    modifies ex.kernel
    ensures targets.Keys == locations && Inspected(old(ex.View()), ex.View(), targets, s, quiet)
  {
    targets := map[];
    var todo := locations;
    while todo != {}
      invariant targets.Keys + todo == locations && targets.Keys !! todo
      invariant Inspected(old(ex.View()), ex.View(), targets, s, quiet)
      decreases todo
    {
      var l :| l in todo;
      Handled(targets.Keys, todo, l, locations);
      InspectNext(old(ex.View()), ex.View(), targets, s, quiet, l, meanwhile(l));
      var t := Inspect(ex, l, s);
      ex.Meanwhile(meanwhile(l));
      targets, todo := targets[l := t], todo - {l};
    }
  }

  /** The keys of a set, each once. */
  method Enumerate(keys: set<RecordKey>) returns (order: seq<RecordKey>)
    ensures forall k :: k in order <==> k in keys
    ensures forall i, j | 0 <= i < j < |order| :: order[i] != order[j]
  {
    order := [];
    var todo := keys;
    while todo != {}
      invariant todo <= keys && forall k :: k in order <==> k in keys && k !in todo
      invariant forall i, j | 0 <= i < j < |order| :: order[i] != order[j]
      decreases todo
    {
      var k :| k in todo;
      order, todo := order + [k], todo - {k};
    }
  }

  method ByKey(desired: seq<DesiredMount>) returns (m: map<RecordKey, DesiredMount>)
    requires DistinctKeys(desired)
    ensures m == DesiredMap(desired)
  {
    m := map[];
    for i := 0 to |desired|
      invariant m == DesiredMap(desired[..i])
    {
      DesiredMapNext(desired, i);
      m := m[desired[i].key := desired[i]];
    }
    assert desired[..|desired|] == desired;
  }

  lemma DesiredMapNext(desired: seq<DesiredMount>, i: nat)
    requires DistinctKeys(desired) && i < |desired|
    ensures DesiredMap(desired[..i + 1]) == DesiredMap(desired[..i])[desired[i].key := desired[i]]
  {
    var front, more := desired[..i], desired[..i + 1];
    assert more == front + [desired[i]] && more[i] == desired[i] && DistinctKeys(front);
    var m := DesiredMap(front)[desired[i].key := desired[i]];
    forall k ensures (k in DesiredMap(more) <==> k in m) && (k in m ==> DesiredMap(more)[k] == m[k]) {
      DesiredMapAt(front, desired[i], k);
    }
  }

  lemma DesiredMapAt(front: seq<DesiredMount>, d: DesiredMount, k: RecordKey)
    requires DistinctKeys(front + [d]) && DistinctKeys(front)
    ensures var m := DesiredMap(front)[d.key := d];
      (k in DesiredMap(front + [d]) <==> k in m) && (k in m ==> DesiredMap(front + [d])[k] == m[k])
  {
    var more := front + [d];
    assert more[|front|] == d;
    if k in DesiredMap(front) {
      var j :| 0 <= j < |front| && front[j].key == k;
      assert more[j].key == k && more[j] == front[j];
    }
  }

  /**
   * What a pass gathers from the kernel is a valid input for the planner. Byssus's own
   * mounts are as it says when it is done; and if nobody acts meanwhile, all of it is.
   */
  method ObserveKernel(ex: Executor, desired: seq<DesiredMount>, frozen: set<GroupId>, s: Surroundings,
                       meanwhile: Location -> seq<Outside>, ghost quiet: bool)
    returns (inp: PlanInput)
    requires TableOk(ex.View()) && DistinctKeys(desired) && (forall k <- ex.state :: ex.state[k].key == k)
    requires quiet ==> forall l :: meanwhile(l) == []
    modifies ex.kernel
    ensures inp.Valid() && inp.desired == DesiredMap(desired) && inp.state == ex.state && inp.frozen == frozen
    ensures TableOk(ex.View()) && OnlyOutside(old(ex.View()), ex.View()) && Observed(ex.View(), inp.targets)
    ensures old(Inv(ex.View())) ==> Inv(ex.View())
    ensures quiet ==> ex.View() == old(ex.View()) && Accurate(ex.View(), inp, s)
  {
    var sources := ResolveSources(desired, s);
    var targets := InspectTargets(ex, TargetsOf(desired, ex.state, frozen), s, meanwhile, quiet);
    var byKey := ByKey(desired);
    var order := Enumerate(byKey.Keys + ex.state.Keys);
    inp := PlanInput(byKey, ex.state, frozen, sources, targets, order);
    DesiredAreInput(desired, inp, s, ex.View());
  }

  lemma DesiredAreInput(desired: seq<DesiredMount>, inp: PlanInput, s: Surroundings, w: World)
    requires DistinctKeys(desired) && inp.desired == DesiredMap(desired) && inp.state == w.mem
    requires inp.targets.Keys == TargetsOf(desired, w.mem, inp.frozen)
    requires forall d <- desired :: d.key in inp.sources && inp.sources[d.key] == s.SourceAt(d.source)
    ensures forall k <- inp.desired :: inp.desired[k].key == k && inp.Source(k) == s.SourceAt(inp.desired[k].source)
    ensures forall k <- inp.desired :: inp.desired[k].target in inp.targets
    ensures forall k <- inp.state | k.group !in inp.frozen :: inp.state[k].target in inp.targets
  {
    forall k <- inp.desired ensures inp.desired[k] in desired && inp.desired[k].key == k {
    }
  }
}
