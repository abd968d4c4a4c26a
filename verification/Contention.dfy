/** A run that reaches a state from which one pass does not converge. */
module Contention {
  import opened Wrappers
  import opened Names
  import opened Records
  import opened Planning
  import opened Protocol
  import opened Runs
  import opened QuietPass
  import opened Convergence

  const VIEW := Location("/view", "lib")
  const SOURCE := Location("/src", "lib")
  const ROOT := DevIno(8, 1, 42)
  const ATTRS := MountAttrs(true, true, false)
  const KEY_A := RecordKey(GroupId(None, ["a"]), "lib")
  const KEY_B := RecordKey(GroupId(None, ["b"]), "lib")

  function Wish(k: RecordKey): DesiredMount {
    DesiredMount(k, SOURCE, VIEW, ATTRS)
  }

  /** Only `k` is desired, and the groups of `frozen` cannot be read. */
  function Input(w: World, k: RecordKey, frozen: set<GroupId>): PlanInput {
    PlanInput(map[k := Wish(k)], w.mem, frozen, map[k := Resolved(ROOT)],
              map[VIEW := Seen(w, VIEW, None, true)], [KEY_A, KEY_B])
  }

  const ALL_WELL := Conditions([], true, Some(ROOT), true, 7,
                               ObservedAttrs(false, false, false, false, false), Saved, [], true)

  /** With a free target and every record frozen, the plan is the one mount. */
  lemma OneMountPlan(w: World, k: RecordKey, frozen: set<GroupId>)
    requires k == KEY_A || k == KEY_B
    requires VIEW !in w.table && k !in w.mem && k.group !in frozen
    requires forall j <- w.mem :: (j == KEY_A || j == KEY_B) && w.mem[j].key == j && j.group in frozen
    ensures Ready(w, Case(Input(w, k, frozen), {k}), [Step(Mount(Wish(k)), [])])
  {
    var c := Case(Input(w, k, frozen), {k});
    OneMountSound(w, k, frozen);
    forall j ensures c.Removal(j).None? && (c.WantsMount(j) <==> j == k) {
    }
    assert c.Needs(k) == {};
    OneStepPlan(c, k);
  }

  lemma OneStepPlan(c: Case, k: RecordKey)
    requires c.Sound() && k in c.inp.desired && c.inp.desired[k] == Wish(k) && c.Needs(k) == {}
    requires forall j :: c.Removal(j).None? && (c.WantsMount(j) <==> j == k)
    ensures IsPlan(c, [Step(Mount(Wish(k)), [])])
  {
    var steps := [Step(Mount(Wish(k)), [])];
    assert steps[0].action == Mount(c.inp.desired[k]);
    assert !c.WaitsFor(steps[0].action, steps[0].action);
  }

  lemma OneMountSound(w: World, k: RecordKey, frozen: set<GroupId>)
    requires k == KEY_A || k == KEY_B
    requires VIEW !in w.table && k !in w.mem && k.group !in frozen
    requires forall j <- w.mem :: (j == KEY_A || j == KEY_B) && w.mem[j].key == j && j.group in frozen
    ensures Case(Input(w, k, frozen), {k}).Sound()
  {
    var inp := Input(w, k, frozen);
    var c := Case(inp, {k});
    assert KEY_A.group.path[0] != KEY_B.group.path[0];
    assert inp.order[0] == KEY_A && inp.order[1] == KEY_B;
    assert inp.Valid();
    assert inp.Sole(k);
    forall j ensures j in c.accepted <==> inp.Accepted(j) {
      assert inp.Accepted(j) ==> inp.Active(j);
    }
  }

  lemma ReachesNext(before: World, evs: seq<Event>, ev: Event, w: World)
    requires Reaches(before, evs) && Enabled(before, ev) && w == Apply(before, ev)
    ensures Reaches(w, evs + [ev])
  {
    var evs' := evs + [ev];
    assert evs'[|evs'| - 1] == ev && evs'[..|evs'| - 1] == evs;
    assert Reaches(before, evs'[..|evs'| - 1]);
  }

  /** A pass that mounts `k`, with everything going well. */
  function MountPass(w: World, k: RecordKey, frozen: set<GroupId>): Event {
    Passed(Case(Input(w, k, frozen), {k}), [Step(Mount(Wish(k)), [])], [ALL_WELL], 1)
  }

  function MountedBy(w: World, k: RecordKey): World {
    var m := LiveMount(w.nextId, 7, ROOT, Applied(ATTRS, ALL_WELL.inherited));
    var mem' := w.mem[k := RecordOf(Wish(k), m)];
    w.(table := w.table[VIEW := m], nextId := w.nextId + 1, created := w.created + {m.id}, mem := mem', file := mem')
  }

  lemma OneMountRun(w: World, k: RecordKey, frozen: set<GroupId>)
    requires VIEW !in w.table
    ensures Apply(w, MountPass(w, k, frozen)) == MountedBy(w, k)
  {
    var steps, cs := [Step(Mount(Wish(k)), [])], [ALL_WELL];
    assert Execute(w, steps, cs, 0) == (w, []);
    assert OutsideSteps(w, []) == w;
  }

  lemma MountPassReaches(w: World, evs: seq<Event>, k: RecordKey, frozen: set<GroupId>)
    requires Reaches(w, evs)
    requires k == KEY_A || k == KEY_B
    requires VIEW !in w.table && k !in w.mem && k.group !in frozen
    requires forall j <- w.mem :: (j == KEY_A || j == KEY_B) && w.mem[j].key == j && j.group in frozen
    ensures Reaches(MountedBy(w, k), evs + [MountPass(w, k, frozen)])
  {
    OneMountPlan(w, k, frozen);
    OneMountRun(w, k, frozen);
    ReachesNext(w, evs, MountPass(w, k, frozen), MountedBy(w, k));
  }

  lemma FirstMountReachable() returns (w: World, evs: seq<Event>)
    ensures Reaches(w, evs)
    ensures w.table.Keys == {VIEW} && w.mem.Keys == {KEY_A} && w.mem[KEY_A].key == KEY_A && Agrees(w.mem[KEY_A], Wish(KEY_A))
  {
    var w0 := World(map[], 0, map[], map[], {}, {}, {});
    MountPassReaches(w0, [], KEY_A, {});
    w, evs := MountedBy(w0, KEY_A), [] + [MountPass(w0, KEY_A, {})];
  }

  lemma LostMountReachable() returns (w: World, evs: seq<Event>)
    ensures Reaches(w, evs)
    ensures w.table == map[] && w.mem.Keys == {KEY_A} && w.mem[KEY_A].key == KEY_A && Agrees(w.mem[KEY_A], Wish(KEY_A))
  {
    var w1, evs1 := FirstMountReachable();
    w, evs := OutsideStep(w1, Unmounts(VIEW)), evs1 + [Changed(Unmounts(VIEW))];
    ReachesNext(w1, evs1, Changed(Unmounts(VIEW)), w);
  }

  /**
   Group A's member is mounted; someone unmounts it; group A's directory becomes
   unreadable while a member of group B resolving to the same target is mounted
   there; then A is readable again and B's member is gone. A's record and B's mount
   now share the target: the pass unmounts B's mount but leaves A, whose mount
   looks replaced, for another pass.
   */
  lemma ContentionIsReachable() returns (w: World, evs: seq<Event>, c: Case, s: Surroundings)
    ensures Reaches(w, evs) && c.Sound() && Accurate(w, c.inp, s) && Contended(c)
  {
    assert KEY_A.group.path[0] != KEY_B.group.path[0];
    var w2, evs2 := LostMountReachable();
    MountPassReaches(w2, evs2, KEY_B, {KEY_A.group});
    w, evs := MountedBy(w2, KEY_B), evs2 + [MountPass(w2, KEY_B, {KEY_A.group})];
    c := Case(Input(w, KEY_A, {}), {KEY_A});
    s := Surroundings(map[SOURCE := ROOT], map[], {VIEW}, map[]);
    StaysAndDeparts(w, c, s);
  }

  lemma StaysAndDeparts(w: World, c: Case, s: Surroundings)
    requires c == Case(Input(w, KEY_A, {}), {KEY_A}) && s == Surroundings(map[SOURCE := ROOT], map[], {VIEW}, map[])
    requires w.mem.Keys == {KEY_A, KEY_B} && VIEW in w.table
    requires w.mem[KEY_A].key == KEY_A && Agrees(w.mem[KEY_A], Wish(KEY_A))
    requires w.mem[KEY_B] == RecordOf(Wish(KEY_B), w.table[VIEW])
    ensures c.Sound() && Accurate(w, c.inp, s) && Contended(c)
  {
    assert KEY_A.group.path[0] != KEY_B.group.path[0];
    assert c.inp.order[0] == KEY_A && c.inp.order[1] == KEY_B;
    assert c.inp.Valid();
    assert c.inp.Sole(KEY_A);
    forall j ensures j in c.accepted <==> c.inp.Accepted(j) {
      assert c.inp.Accepted(j) ==> c.inp.Active(j);
    }
    assert Contends(c, KEY_A, KEY_B);
  }
}
