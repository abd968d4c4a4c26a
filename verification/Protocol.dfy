/**
 The protocol as a state machine: the kernel mount table, the in-memory state,
 the state file, and what each executor step does to them
 (src/reconcile/execute.rs, src/mount.rs, src/state.rs).
 */
module Protocol {
  import opened Wrappers
  import opened Names
  import opened Records
  import opened Planning

  /** A visible mount; `id` is its unique mount ID, never reused. */
  datatype LiveMount = LiveMount(id: nat, mntId: nat, root: DevIno, attrs: ObservedAttrs) {
    function Identity(): MountIdentity {
      MountIdentity(mntId, Some(id), root)
    }
  }

  type Table = map<Location, LiveMount>

  /**
   Everything a run changes. `created`, `removed` and `stranded` are history:
   the unique IDs `create_bind` returned, those Byssus unmounted, and those whose
   save failed and whose rollback unmount failed too.
   */
  datatype World = World(
    table: Table, nextId: nat, mem: State, file: State,
    created: set<nat>, removed: set<nat>, stranded: set<nat>)

  /** Changes other processes make; a location in use cannot be mounted over. */
  datatype Outside =
    | Mounts(at: Location, mntId: nat, root: DevIno, attrs: ObservedAttrs)
    | Unmounts(at: Location)

  function OutsideStep(w: World, e: Outside): World {
    match e
    case Mounts(at, mntId, root, attrs) =>
      if at in w.table then w
      else w.(table := w.table[at := LiveMount(w.nextId, mntId, root, attrs)],
              nextId := w.nextId + 1)
    case Unmounts(at) => w.(table := w.table - {at})
  }

  function OutsideSteps(w: World, es: seq<Outside>): World {
    if es == [] then w else OutsideStep(OutsideSteps(w, es[..|es| - 1]), es[|es| - 1])
  }

  /** A save either succeeds, or fails leaving the old or the new file. */
  datatype SaveOutcome = Saved | KeptOld | LeftNew

  function FileAfter(old_: State, new_: State, o: SaveOutcome): State {
    if o.KeptOld? then old_ else new_
  }

  /** Everything one step cannot decide for itself. */
  datatype Conditions = Conditions(
    before: seq<Outside>,       // outside changes since the previous step
    ready: bool,                // roots open, target directory there and inspectable
    source: Option<DevIno>,     // what the source resolves to now
    accepts: bool,              // the kernel performs the mount or unmount
    mntId: nat,                 // the reusable mount ID a new mount gets
    inherited: ObservedAttrs,   // restrictions of the source's own mount
    save: SaveOutcome,
    during: seq<Outside>,       // outside changes between a failed save and its rollback
    undoes: bool)               // the kernel performs the rollback unmount

  /** The attributes of a clone of the source's mount with `attrs` added. */
  function Applied(attrs: MountAttrs, inherited: ObservedAttrs): ObservedAttrs {
    ObservedAttrs(attrs.readOnly || inherited.readOnly, true, true,
                  attrs.noexec || inherited.noexec, attrs.nosymfollow || inherited.nosymfollow)
  }

  datatype StepResult = Done | Skipped | Failed

  /** The mount at `l` is the one `expected` describes. */
  predicate Verified(t: Table, l: Location, expected: MountIdentity) {
    l in t && t[l].Identity().Matches(expected)
  }

  function Unmounted(w: World, l: Location): World
    requires l in w.table
  {
    w.(table := w.table - {l}, removed := w.removed + {w.table[l].id})
  }

  /** Unique IDs were issued before `nextId`, and no two visible mounts share one. */
  ghost predicate TableOk(w: World) {
    && (forall l <- w.table :: w.table[l].id < w.nextId)
    && (forall l, m | l in w.table && m in w.table && w.table[l].id == w.table[m].id :: l == m)
    && (forall x <- w.created :: x < w.nextId)
  }

  /** The table with a new mount of Byssus's own. */
  function Attached(w: World, l: Location, m: LiveMount): World {
    w.(table := w.table[l := m], nextId := w.nextId + 1, created := w.created + {m.id})
  }

  function RecordOf(d: DesiredMount, m: LiveMount): MountRecord {
    MountRecord(d.key, d.source, d.target, m.Identity(), d.attrs)
  }

  function NewMount(w: World, d: DesiredMount, c: Conditions): LiveMount
    requires c.source.Some?
  {
    LiveMount(w.nextId, c.mntId, c.source.value, Applied(d.attrs, c.inherited))
  }

  function MountStep(w: World, d: DesiredMount, c: Conditions): (World, StepResult) {
    if !c.ready || c.source.None? || d.target in w.table || !c.accepts then (w, Failed)
    else
      var m := NewMount(w, d, c);
      var mem' := w.mem[d.key := RecordOf(d, m)];
      var w1 := Attached(w, d.target, m).(file := FileAfter(w.file, mem', c.save));
      if c.save.Saved? then (w1.(mem := mem'), Done) else (RollBack(w1, d.target, m, c), Failed)
  }

  /** The in-memory state is as before the mount; only the mount itself is undone. */
  function RollBack(w: World, l: Location, m: LiveMount, c: Conditions): World {
    var w1 := OutsideSteps(w, c.during);
    if c.undoes && Verified(w1.table, l, m.Identity()) then Unmounted(w1, l)
    else w1.(stranded := w1.stranded + {m.id})
  }

  function Forget(w: World, k: RecordKey, save: SaveOutcome): World {
    w.(mem := w.mem - {k}, file := FileAfter(w.file, w.mem - {k}, save))
  }

  function SaveResult(save: SaveOutcome): StepResult {
    if save.Saved? then Done else Failed
  }

  function UnmountStep(w: World, r: MountRecord, c: Conditions): (World, StepResult) {
    if !c.ready || !Verified(w.table, r.target, r.identity) || !c.accepts then (w, Failed)
    else (Forget(Unmounted(w, r.target), r.key, c.save), SaveResult(c.save))
  }

  function DropStep(w: World, r: MountRecord, c: Conditions): (World, StepResult) {
    (Forget(w, r.key, c.save), SaveResult(c.save))
  }

  function ActionStep(w: World, a: Action, c: Conditions): (World, StepResult) {
    match a
    case Mount(d) => MountStep(w, d, c)
    case Unmount(r, _) => UnmountStep(w, r, c)
    case DropRecord(r, _) => DropStep(w, r, c)
  }

  predicate Blocked(step: Step, results: seq<StepResult>) {
    exists d <- step.dependsOn :: d >= |results| || results[d] != Done
  }

  /** The first `n` steps of a plan, with outside changes before each. */
  function Execute(w: World, steps: seq<Step>, cs: seq<Conditions>, n: nat): (out: (World, seq<StepResult>))
    requires n <= |steps| && n <= |cs|
    ensures |out.1| == n
  {
    if n == 0 then (w, [])
    else
      var (w1, results) := Execute(w, steps, cs, n - 1);
      var w2 := OutsideSteps(w1, cs[n - 1].before);
      if Blocked(steps[n - 1], results) then (w2, results + [Skipped])
      else
        var (w3, result) := ActionStep(w2, steps[n - 1].action, cs[n - 1]);
        (w3, results + [result])
  }

  // ----- What every step keeps -----

  /** No visible mount is the one `id` describes, and none ever will be. */
  ghost predicate Dead(w: World, id: MountIdentity) {
    && id.unique.Some? && id.unique.value < w.nextId
    && forall l <- w.table :: Some(w.table[l].id) != id.unique
  }

  /** A state whose records name distinct mounts Byssus created, each of which,
      while visible, is at its recorded target with its recorded root. */
  ghost predicate Honest(w: World, s: State) {
    && (forall k <- s :: s[k].key == k && s[k].identity.unique.Some? && s[k].identity.unique.value in w.created)
    && (forall j, k | j in s && k in s && s[j].identity.unique == s[k].identity.unique :: j == k)
    && (forall k <- s, l <- w.table | Some(w.table[l].id) == s[k].identity.unique ::
          l == s[k].target && w.table[l].Identity() == s[k].identity)
  }

  /** Every visible mount Byssus created, except stranded ones, has its record. */
  ghost predicate Covers(w: World, s: State) {
    forall l <- w.table | w.table[l].id in w.created && w.table[l].id !in w.stranded ::
      exists k <- s :: s[k].identity == w.table[l].Identity() && s[k].target == l
  }

  ghost predicate Inv(w: World) {
    && TableOk(w)
    && w.removed <= w.created && w.stranded <= w.created
    && Honest(w, w.mem) && Honest(w, w.file)
    && Covers(w, w.mem) && Covers(w, w.file)
  }

  /** From `w` to `w'` mounts only disappear or are new, and history only grows. */
  ghost predicate Evolves(w: World, w': World) {
    && w.nextId <= w'.nextId
    && w.created <= w'.created && w.stranded <= w'.stranded && w.removed <= w'.removed
    && (forall l <- w'.table :: (l in w.table && w'.table[l] == w.table[l]) || w'.table[l].id >= w.nextId)
    && (forall x <- w'.created :: x in w.created || x >= w.nextId)
  }

  lemma DeadStaysDead(w: World, w': World, id: MountIdentity)
    requires Evolves(w, w') && Dead(w, id)
    ensures Dead(w', id)
  {
  }

  lemma HonestStays(w: World, w': World, s: State)
    requires TableOk(w) && Evolves(w, w') && Honest(w, s)
    ensures Honest(w', s)
  {
  }

  /** Coverage survives when every new mount is foreign, stranded or covered. */
  lemma CoversStays(w: World, w': World, s: State)
    requires TableOk(w) && Evolves(w, w') && Covers(w, s)
    requires forall l <- w'.table | w'.table[l].id >= w.nextId && w'.table[l].id in w'.created :: w'.table[l].id in w'.stranded
    ensures Covers(w', s)
  {
  }

  /** The invariant survives when the states are unchanged. */
  lemma InvStays(w: World, w': World)
    requires Inv(w) && TableOk(w') && Evolves(w, w') && w'.mem == w.mem && w'.file == w.file
    requires w'.removed <= w'.created && w'.stranded <= w'.created
    requires forall l <- w'.table | w'.table[l].id >= w.nextId && w'.table[l].id in w'.created :: w'.table[l].id in w'.stranded
    ensures Inv(w')
  {
    HonestStays(w, w', w.mem);
    HonestStays(w, w', w.file);
    CoversStays(w, w', w.mem);
    CoversStays(w, w', w.file);
  }

  lemma OutsideEvolves(w: World, e: Outside)
    requires TableOk(w)
    ensures var w' := OutsideStep(w, e);
      && TableOk(w') && Evolves(w, w') && w' == w.(table := w'.table, nextId := w'.nextId)
      && forall l <- w'.table | w'.table[l].id in w.created :: l in w.table && w'.table[l] == w.table[l]
  {
  }

  lemma {:induction false} OutsideStepsEvolve(w: World, es: seq<Outside>)
    requires TableOk(w)
    ensures var w' := OutsideSteps(w, es);
      && TableOk(w') && Evolves(w, w') && w' == w.(table := w'.table, nextId := w'.nextId)
      && forall l <- w'.table | w'.table[l].id in w.created :: l in w.table && w'.table[l] == w.table[l]
  {
    if es != [] {
      OutsideStepsEvolve(w, es[..|es| - 1]);
      OutsideEvolves(OutsideSteps(w, es[..|es| - 1]), es[|es| - 1]);
    }
  }

  lemma OutsideKeepsInv(w: World, es: seq<Outside>)
    requires Inv(w)
    ensures Inv(OutsideSteps(w, es))
  {
    OutsideStepsEvolve(w, es);
    InvStays(w, OutsideSteps(w, es));
  }

  // ----- Unmounts and dropped records -----

  /** Shrinking the table and forgetting a record whose mount is not visible. */
  lemma ForgetKeepsInv(w: World, k: RecordKey, save: SaveOutcome)
    requires Inv(w) && k in w.mem && Dead(w, w.mem[k].identity)
    ensures Inv(Forget(w, k, save))
  {
    var mem' := w.mem - {k};
    forall l <- w.table | w.table[l].id in w.created && w.table[l].id !in w.stranded
      ensures exists j <- mem' :: mem'[j].identity == w.table[l].Identity() && mem'[j].target == l
    {
      var j :| j in w.mem && w.mem[j].identity == w.table[l].Identity() && w.mem[j].target == l;
      assert j != k;
      assert j in mem';
    }
    assert Honest(w, mem') && Covers(w, mem');
    var w' := Forget(w, k, save);
    assert Honest(w', w'.mem) && Covers(w', w'.mem);
    assert Honest(w', w'.file) && Covers(w', w'.file);
  }

  lemma UnmountedIsOwn(w: World, r: MountRecord)
    requires Inv(w) && r.key in w.mem && w.mem[r.key] == r && Verified(w.table, r.target, r.identity)
    ensures w.table[r.target].id in w.created
    ensures Inv(Unmounted(w, r.target)) && Dead(Unmounted(w, r.target), r.identity)
    ensures Evolves(w, Unmounted(w, r.target))
  {
    InvStays(w, Unmounted(w, r.target));
  }

  lemma UnmountKeepsInv(w: World, r: MountRecord, c: Conditions)
    requires Inv(w) && r.key in w.mem && w.mem[r.key] == r
    ensures Inv(UnmountStep(w, r, c).0) && Evolves(w, UnmountStep(w, r, c).0)
  {
    if UnmountStep(w, r, c).0 != w {
      UnmountedIsOwn(w, r);
      ForgetKeepsInv(Unmounted(w, r.target), r.key, c.save);
    }
  }

  lemma DropKeepsInv(w: World, r: MountRecord, c: Conditions)
    requires Inv(w) && r.key in w.mem && w.mem[r.key] == r && Dead(w, r.identity)
    ensures Inv(DropStep(w, r, c).0) && Evolves(w, DropStep(w, r, c).0)
  {
    ForgetKeepsInv(w, r.key, c.save);
  }

  // ----- Mounts -----

  /** Coverage, leaving one mount aside. */
  ghost predicate CoversBut(w: World, s: State, id: nat) {
    forall l <- w.table | w.table[l].id in w.created && w.table[l].id !in w.stranded && w.table[l].id != id ::
      exists k <- s :: s[k].identity == w.table[l].Identity() && s[k].target == l
  }

  lemma AttachedEvolves(w: World, l: Location, m: LiveMount)
    requires TableOk(w) && l !in w.table && m.id == w.nextId
    ensures TableOk(Attached(w, l, m)) && Evolves(w, Attached(w, l, m))
  {
  }

  lemma AttachedHonest(w: World, s: State, l: Location, m: LiveMount)
    requires TableOk(w) && Honest(w, s) && l !in w.table && m.id == w.nextId
    ensures Honest(Attached(w, l, m), s)
  {
    AttachedEvolves(w, l, m);
    HonestStays(w, Attached(w, l, m), s);
  }

  lemma AttachedCovers(w: World, s: State, l: Location, m: LiveMount)
    requires Covers(w, s)
    ensures CoversBut(Attached(w, l, m), s, m.id)
  {
    var w1 := Attached(w, l, m);
    forall x <- w1.table | w1.table[x].id in w1.created && w1.table[x].id !in w1.stranded && w1.table[x].id != m.id
      ensures exists k <- s :: s[k].identity == w1.table[x].Identity() && s[k].target == x
    {
      assert x in w.table && w.table[x] == w1.table[x];
    }
  }

  /** A new mount is recorded over at most a record whose mount is gone. */
  lemma RecordedHonest(w: World, s: State, d: DesiredMount, m: LiveMount)
    requires TableOk(w) && Honest(w, s) && d.target !in w.table && m.id == w.nextId
    ensures Honest(Attached(w, d.target, m), s[d.key := RecordOf(d, m)])
  {
    AttachedHonest(w, s, d.target, m);
  }

  lemma RecordedCovers(w: World, s: State, d: DesiredMount, m: LiveMount)
    requires TableOk(w) && Covers(w, s) && m.id == w.nextId
    requires d.key in s ==> Dead(w, s[d.key].identity)
    ensures Covers(Attached(w, d.target, m), s[d.key := RecordOf(d, m)])
  {
    var w1, s' := Attached(w, d.target, m), s[d.key := RecordOf(d, m)];
    forall l <- w1.table | w1.table[l].id in w1.created && w1.table[l].id !in w1.stranded
      ensures exists j <- s' :: s'[j].identity == w1.table[l].Identity() && s'[j].target == l
    {
      if l == d.target {
        assert d.key in s';
      } else {
        assert w.table[l] == w1.table[l];
        var j :| j in s && s[j].identity == w.table[l].Identity() && s[j].target == l;
        assert j != d.key && j in s';
      }
    }
  }

  lemma MountSavedKeepsInv(w: World, d: DesiredMount, c: Conditions)
    requires Inv(w) && (d.key in w.mem ==> Dead(w, w.mem[d.key].identity))
    requires MountStep(w, d, c).1 == Done
    ensures Inv(MountStep(w, d, c).0) && Evolves(w, MountStep(w, d, c).0)
  {
    var m := NewMount(w, d, c);
    AttachedEvolves(w, d.target, m);
    RecordedHonest(w, w.mem, d, m);
    RecordedCovers(w, w.mem, d, m);
    var s := w.mem[d.key := RecordOf(d, m)];
    assert MountStep(w, d, c).0 == Attached(w, d.target, m).(mem := s, file := s);
    SameTable(Attached(w, d.target, m), MountStep(w, d, c).0, s);
  }

  lemma SameTable(w: World, w': World, s: State)
    requires w' == w.(mem := w'.mem, file := w'.file)
    ensures Honest(w, s) ==> Honest(w', s)
    ensures Covers(w, s) ==> Covers(w', s)
    ensures forall id :: CoversBut(w, s, id) ==> CoversBut(w', s, id)
  {
  }

  /** What holds between a failed save and the end of its rollback. */
  ghost predicate Undoing(w: World, m: LiveMount) {
    && TableOk(w) && m.id in w.created
    && w.removed <= w.created && w.stranded <= w.created
    && Honest(w, w.mem) && Honest(w, w.file)
    && CoversBut(w, w.mem, m.id) && CoversBut(w, w.file, m.id)
  }

  lemma CoversButStays(w: World, w': World, s: State, id: nat)
    requires CoversBut(w, s, id) && w' == w.(table := w'.table, nextId := w'.nextId)
    requires forall l <- w'.table | w'.table[l].id in w.created :: l in w.table && w'.table[l] == w.table[l]
    ensures CoversBut(w', s, id)
  {
  }

  lemma RollBackKeepsInv(w: World, l: Location, m: LiveMount, c: Conditions)
    requires Undoing(w, m)
    ensures Inv(RollBack(w, l, m, c)) && Evolves(w, RollBack(w, l, m, c))
  {
    var w1 := OutsideSteps(w, c.during);
    OutsideStepsEvolve(w, c.during);
    HonestStays(w, w1, w.mem);
    HonestStays(w, w1, w.file);
    CoversButStays(w, w1, w.mem, m.id);
    CoversButStays(w, w1, w.file, m.id);
    assert Undoing(w1, m);
    UndoKeepsInv(w1, l, m, c);
  }

  lemma UndoneKeepsInv(w: World, l: Location, m: LiveMount)
    requires Undoing(w, m) && Verified(w.table, l, m.Identity())
    ensures Inv(Unmounted(w, l)) && Evolves(w, Unmounted(w, l))
  {
    var w' := Unmounted(w, l);
    assert Evolves(w, w') && TableOk(w');
    HonestStays(w, w', w.mem);
    HonestStays(w, w', w.file);
  }

  lemma StrandedKeepsInv(w: World, m: LiveMount)
    requires Undoing(w, m)
    ensures Inv(w.(stranded := w.stranded + {m.id})) && Evolves(w, w.(stranded := w.stranded + {m.id}))
  {
    var w' := w.(stranded := w.stranded + {m.id});
    HonestStays(w, w', w.mem);
    HonestStays(w, w', w.file);
  }

  lemma UndoKeepsInv(w: World, l: Location, m: LiveMount, c: Conditions)
    requires Undoing(w, m)
    ensures var w2 := if c.undoes && Verified(w.table, l, m.Identity()) then Unmounted(w, l)
                      else w.(stranded := w.stranded + {m.id});
      Inv(w2) && Evolves(w, w2)
  {
    if c.undoes && Verified(w.table, l, m.Identity()) {
      UndoneKeepsInv(w, l, m);
    } else {
      StrandedKeepsInv(w, m);
    }
  }

  lemma FailedSaveIsUndoing(w: World, d: DesiredMount, m: LiveMount, file: State)
    requires Inv(w) && d.target !in w.table && m.id == w.nextId
    requires d.key in w.mem ==> Dead(w, w.mem[d.key].identity)
    requires file == w.file || file == w.mem[d.key := RecordOf(d, m)]
    ensures Undoing(Attached(w, d.target, m).(file := file), m)
    ensures Evolves(w, Attached(w, d.target, m).(file := file))
  {
    var w0 := Attached(w, d.target, m);
    AttachedEvolves(w, d.target, m);
    AttachedHonest(w, w.mem, d.target, m);
    AttachedCovers(w, w.mem, d.target, m);
    if file == w.file {
      AttachedHonest(w, w.file, d.target, m);
      AttachedCovers(w, w.file, d.target, m);
    } else {
      RecordedHonest(w, w.mem, d, m);
      RecordedCovers(w, w.mem, d, m);
    }
    SameTable(w0, w0.(file := file), w.mem);
    SameTable(w0, w0.(file := file), file);
  }

  lemma MountUnsavedKeepsInv(w: World, d: DesiredMount, m: LiveMount, c: Conditions)
    requires Inv(w) && d.target !in w.table && m.id == w.nextId
    requires d.key in w.mem ==> Dead(w, w.mem[d.key].identity)
    ensures var w1 := Attached(w, d.target, m).(file := FileAfter(w.file, w.mem[d.key := RecordOf(d, m)], c.save));
      var w2 := RollBack(w1, d.target, m, c);
      Inv(w2) && Evolves(w1, w2) && Evolves(w, w1)
  {
    var file := FileAfter(w.file, w.mem[d.key := RecordOf(d, m)], c.save);
    FailedSaveIsUndoing(w, d, m, file);
    RollBackKeepsInv(Attached(w, d.target, m).(file := file), d.target, m, c);
  }

  lemma MountKeepsInv(w: World, d: DesiredMount, c: Conditions)
    requires Inv(w) && (d.key in w.mem ==> Dead(w, w.mem[d.key].identity))
    ensures Inv(MountStep(w, d, c).0) && Evolves(w, MountStep(w, d, c).0)
  {
    if !c.ready || c.source.None? || d.target in w.table || !c.accepts {
    } else if c.save.Saved? {
      MountSavedKeepsInv(w, d, c);
    } else {
      MountUnsavedKeepsInv(w, d, NewMount(w, d, c), c);
    }
  }
}
