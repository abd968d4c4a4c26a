/** Every state a run puts into the state file can be read back (src/state.rs:165-232). */
module Storage {
  import opened Wrappers
  import opened Names
  import opened Records
  import opened Texts
  import Templates
  import TemplateParsing
  import Interpolation
  import opened GroupNames
  import opened Planning
  import opened PlanFacts
  import opened Protocol
  import opened Runs
  import opened StateFile

  predicate StorableDesired(d: DesiredMount) {
    d.key.group.Valid() && ValidAbs(d.source.root) && ValidAbs(d.target.root)
    && CleanRelative(d.source.path) && CleanRelative(d.target.path)
  }

  predicate StorableInput(inp: PlanInput) {
    forall k <- inp.desired :: StorableDesired(inp.desired[k])
  }

  /** What observation puts together from valid templates and names can be stored. */
  lemma InterpolatedIsStorable(key: RecordKey, attrs: MountAttrs, sourceRoot: string, source: Templates.Template, targetRoot: string, target: Templates.Template)
    requires key.group.Valid() && ValidAbs(sourceRoot) && ValidAbs(targetRoot)
    requires TemplateParsing.Valid(source, false) && Interpolation.AllBound(source.components, 0)
    requires TemplateParsing.Valid(target, false) && Interpolation.AllBound(target.components, 0)
    requires Interpolation.Interpolate(source, key.name).Ok? && Interpolation.Interpolate(target, key.name).Ok?
    ensures StorableDesired(DesiredMount(
      key, Location(sourceRoot, Interpolation.Interpolate(source, key.name).value),
      Location(targetRoot, Interpolation.Interpolate(target, key.name).value), attrs))
  {
    Interpolation.InterpolateIsExact(source, key.name);
    Interpolation.InterpolateIsExact(target, key.name);
  }

  predicate StorableWorld(w: World) {
    StorableState(w.mem) && StorableState(w.file)
  }

  lemma {:induction false} OutsideKeepsStates(w: World, es: seq<Outside>)
    ensures OutsideSteps(w, es).mem == w.mem && OutsideSteps(w, es).file == w.file
  {
    if es != [] {
      OutsideKeepsStates(w, es[..|es| - 1]);
    }
  }

  lemma MountKeepsStorable(w: World, d: DesiredMount, c: Conditions)
    requires StorableWorld(w) && StorableDesired(d)
    ensures StorableWorld(MountStep(w, d, c).0)
  {
    if c.source.Some? {
      var m := NewMount(w, d, c);
      var mem' := w.mem[d.key := RecordOf(d, m)];
      assert StorableState(mem');
      OutsideKeepsStates(Attached(w, d.target, m).(file := FileAfter(w.file, mem', c.save)), c.during);
    }
  }

  lemma ActionKeepsStorable(w: World, a: Action, c: Conditions)
    requires StorableWorld(w) && (a.Mount? ==> StorableDesired(a.desired))
    ensures StorableWorld(ActionStep(w, a, c).0)
  {
    if a.Mount? {
      MountKeepsStorable(w, a.desired, c);
    }
  }

  lemma {:induction false} PassKeepsStorable(w: World, c: Case, steps: seq<Step>, cs: seq<Conditions>, n: nat)
    requires StorableWorld(w) && c.inp.Valid() && StorableInput(c.inp) && IsPlan(c, steps) && n <= |steps| && n <= |cs|
    ensures StorableWorld(Execute(w, steps, cs, n).0)
  {
    if n > 0 {
      PassKeepsStorable(w, c, steps, cs, n - 1);
      var (w1, results) := Execute(w, steps, cs, n - 1);
      OutsideKeepsStates(w1, cs[n - 1].before);
      var a := steps[n - 1].action;
      if a.Mount? {
        MountFacts(c, a);
      }
      ActionKeepsStorable(OutsideSteps(w1, cs[n - 1].before), a, cs[n - 1]);
    }
  }

  /** In every reachable state, what is in memory and what is in the file can be stored. */
  lemma {:induction false} ReachableIsStorable(w: World, evs: seq<Event>)
    requires Reaches(w, evs) && forall ev <- evs | ev.Passed? :: StorableInput(ev.c.inp)
    ensures StorableWorld(w)
    decreases |evs|
  {
    if evs != [] {
      var last := evs[|evs| - 1];
      var before :| Reaches(before, evs[..|evs| - 1]) && Enabled(before, last) && w == Apply(before, last);
      ReachableIsStorable(before, evs[..|evs| - 1]);
      assert last in evs;
      match last
      case Changed(e) =>
      case Passed(c, steps, cs, n) => PassKeepsStorable(before, c, steps, cs, n);
      case Restarted =>
      case Stopped(_) =>
    }
  }

  /** So a restart from any reachable state reads back the records that were saved. */
  lemma RestartIsFaithful(w: World, evs: seq<Event>, order: seq<RecordKey>) returns (rs: seq<MountRecord>)
    requires Reaches(w, evs) && forall ev <- evs | ev.Passed? :: StorableInput(ev.c.inp)
    requires Lists(order, w.file)
    ensures var doc := Encode(w.file, order);
      && doc.version == Some(STATE_VERSION) && FromRows(doc.mounts) == Ok(rs)
      && Consistent(rs) && Holds(w.file, rs) && forall s | Holds(s, rs) :: s == w.file
  {
    ReachableIsStorable(w, evs);
    rs := DecodeEncode(w.file, order);
    forall s | Holds(s, rs) ensures s == w.file {
      HoldsIsUnique(s, w.file, rs);
    }
  }
}
