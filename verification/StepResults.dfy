/** What a step's result says about the world it leaves (src/reconcile/execute.rs:81-297). */
module StepResults {
  import opened Wrappers
  import opened Names
  import opened Records
  import opened Planning
  import opened Protocol
  import opened Runs

  /** The kernel does what the step asks: a mount onto a free target, or an unmount of the
      recorded mount. A dropped record asks nothing of it. */
  predicate Works(w: World, a: Action, c: Conditions) {
    match a
    case Mount(d) => c.ready && c.accepts && c.source.Some? && d.target !in w.table
    case Unmount(r, _) =>
      c.ready && c.accepts && r.target in w.table && w.table[r.target].Identity().Matches(r.identity)
    case DropRecord(_, _) => true
  }

  /** A new mount of the source, unique, with exactly the restrictions configured or inherited, and
      always `nosuid` and `nodev`. */
  predicate IsCloneFor(m: LiveMount, d: DesiredMount, id: nat, c: Conditions) {
    && m.id == id && Some(m.root) == c.source && m.attrs.nosuid && m.attrs.nodev
    && (m.attrs.readOnly <==> d.attrs.readOnly || c.inherited.readOnly)
    && (m.attrs.noexec <==> d.attrs.noexec || c.inherited.noexec)
    && (m.attrs.nosymfollow <==> d.attrs.nosymfollow || c.inherited.nosymfollow)
  }

  /** The mount is there and recorded, in memory and in the file; nothing else has changed. */
  predicate Mounted(w: World, d: DesiredMount, c: Conditions, w': World) {
    && d.target in w'.table
    && var m := w'.table[d.target];
       && IsCloneFor(m, d, w.nextId, c)
       && w'.table == w.table[d.target := m]
       && w'.mem == w.mem[d.key := MountRecord(d.key, d.source, d.target, MountIdentity(m.mntId, Some(m.id), m.root), d.attrs)]
       && w'.file == w'.mem && w'.created == w.created + {m.id}
       && w'.removed == w.removed && w'.stranded == w.stranded
  }

  /** The record is gone from memory, and its mount if the step unmounts; no other record or mount is. */
  predicate Removed(w: World, a: Action, w': World)
    requires !a.Mount?
  {
    && w'.mem == w.mem - {a.record.key}
    && w'.table == (if a.Unmount? then w.table - {a.record.target} else w.table)
    && w'.created == w.created && w'.stranded == w.stranded && w'.nextId == w.nextId
  }

  /** The table and the records are as if nobody had tried to mount, but for what others did
      meanwhile and for a mount that could not be undone, which is known to be stranded. */
  predicate Undone(w: World, d: DesiredMount, c: Conditions, w': World) {
    && w'.mem == w.mem && w.stranded <= w'.stranded <= w.stranded + {w.nextId}
    && (forall l <- w'.table | w'.table[l].id == w.nextId :: w.nextId in w'.stranded && !c.undoes)
    && (c.undoes && c.during == [] ==> w'.table == w.table && w'.stranded == w.stranded)
    && (w'.file == w.file || c.save.LeftNew?)
  }

  // ----- One step -----

  /** A step is done iff the kernel did what it asks and the state was saved. */
  lemma DoneIffSaved(w: World, a: Action, c: Conditions)
    ensures ActionStep(w, a, c).1 != Skipped
    ensures ActionStep(w, a, c).1 == Done <==> Works(w, a, c) && c.save.Saved?
  {
  }

  lemma NothingHappens(w: World, a: Action, c: Conditions)
    requires !Works(w, a, c)
    ensures ActionStep(w, a, c).0 == w
  {
  }

  lemma DoneMountEffect(w: World, d: DesiredMount, c: Conditions)
    requires Works(w, Mount(d), c) && c.save.Saved?
    ensures Mounted(w, d, c, MountStep(w, d, c).0)
  {
  }

  /** Removing a record has the same effect on the table and the memory whether the save works or not. */
  lemma RemovalEffect(w: World, a: Action, c: Conditions)
    requires !a.Mount? && Works(w, a, c)
    ensures var w' := ActionStep(w, a, c).0;
      && Removed(w, a, w')
      && (c.save.Saved? ==> w'.file == w'.mem)
      && (w'.file == w.file || w'.file == w'.mem)
  {
  }

  /** A mount whose save fails is undone, unless the kernel refuses or others got there first. */
  lemma FailedMountEffect(w: World, d: DesiredMount, c: Conditions)
    requires TableOk(w) && Works(w, Mount(d), c) && !c.save.Saved?
    ensures Undone(w, d, c, MountStep(w, d, c).0)
  {
    var m := NewMount(w, d, c);
    var file := FileAfter(w.file, w.mem[d.key := RecordOf(d, m)], c.save);
    RollBackEffect(w, d, m, c, Attached(w, d.target, m).(file := file));
  }

  lemma RollBackEffect(w: World, d: DesiredMount, m: LiveMount, c: Conditions, w1: World)
    requires TableOk(w) && d.target !in w.table && m.id == w.nextId
    requires w1 == Attached(w, d.target, m).(file := w1.file) && (w1.file == w.file || c.save.LeftNew?)
    ensures Undone(w, d, c, RollBack(w1, d.target, m, c))
  {
    var w2 := OutsideSteps(w1, c.during);
    assert TableOk(w1);
    OutsideStepsEvolve(w1, c.during);
    OnlyThere(w1, w2, d.target, m);
    assert w1.table - {d.target} == w.table;
    UndoEffect(w, d, m, c, w2);
  }

  lemma OnlyThere(w1: World, w2: World, at: Location, m: LiveMount)
    requires TableOk(w1) && at in w1.table && w1.table[at] == m && m.id in w1.created
    requires forall l <- w2.table | w2.table[l].id in w1.created :: l in w1.table && w2.table[l] == w1.table[l]
    ensures forall l <- w2.table | w2.table[l].id == m.id :: l == at && w2.table[l] == m
  {
  }

  lemma UndoEffect(w: World, d: DesiredMount, m: LiveMount, c: Conditions, w2: World)
    requires m.id == w.nextId && w2.mem == w.mem && w2.stranded == w.stranded && (w2.file == w.file || c.save.LeftNew?)
    requires forall l <- w2.table | w2.table[l].id == m.id :: l == d.target && w2.table[l] == m
    requires c.during == [] ==> w2.table == w.table[d.target := m] && d.target !in w.table
    ensures var verified := c.undoes && Verified(w2.table, d.target, m.Identity());
      Undone(w, d, c, if verified then Unmounted(w2, d.target) else w2.(stranded := w2.stranded + {m.id}))
  {
    assert m.Identity().Matches(m.Identity());
    assert c.during == [] ==> w2.table - {d.target} == w.table;
  }

  // ----- Any step of any pass -----

  /** What the pass's `j`th step meets, and what it leaves. */
  function Meets(w: World, steps: seq<Step>, cs: seq<Conditions>, j: nat): World
    requires j < |steps| && j < |cs|
  {
    OutsideSteps(Execute(w, steps, cs, j).0, cs[j].before)
  }

  lemma NextStep(w: World, steps: seq<Step>, cs: seq<Conditions>, j: nat)
    requires j < |steps| && j < |cs|
    ensures var w1 := Meets(w, steps, cs, j); var (w2, results) := Execute(w, steps, cs, j + 1);
      if Blocked(steps[j], Execute(w, steps, cs, j).1) then w2 == w1 && results[j] == Skipped
      else (w2, results[j]) == ActionStep(w1, steps[j].action, cs[j])
  {
  }

  /** The result is the truth, in any pass, whatever others do: a step is done iff everything it
      waits for is, the kernel did what it asks and the state was saved; then the file holds what
      is in memory. A skipped step changes nothing. */
  lemma ResultIsTrue(w: World, steps: seq<Step>, cs: seq<Conditions>, j: nat)
    requires j < |steps| && j < |cs|
    ensures var w1 := Meets(w, steps, cs, j); var (w2, results) := Execute(w, steps, cs, j + 1);
      && (results[j] == Skipped <==> exists d <- steps[j].dependsOn :: d >= j || results[d] != Done)
      && (results[j] == Done <==> results[j] != Skipped && Works(w1, steps[j].action, cs[j]) && cs[j].save.Saved?)
      && (results[j] == Done ==> w2.file == w2.mem)
      && (results[j] == Skipped ==> w2 == w1)
  {
    var w1, a := Meets(w, steps, cs, j), steps[j].action;
    NextStep(w, steps, cs, j);
    BlockedIffUndone(w, steps, cs, j);
    DoneIffSaved(w1, a, cs[j]);
    if Works(w1, a, cs[j]) && cs[j].save.Saved? {
      DoneIsSaved(w1, a, cs[j]);
    }
  }

  lemma DoneIsSaved(w: World, a: Action, c: Conditions)
    requires Works(w, a, c) && c.save.Saved?
    ensures ActionStep(w, a, c).0.file == ActionStep(w, a, c).0.mem
  {
    if a.Mount? {
      DoneMountEffect(w, a.desired, c);
    } else {
      RemovalEffect(w, a, c);
    }
  }

  lemma BlockedIffUndone(w: World, steps: seq<Step>, cs: seq<Conditions>, j: nat)
    requires j < |steps| && j < |cs|
    ensures var results := Execute(w, steps, cs, j + 1).1;
      Blocked(steps[j], Execute(w, steps, cs, j).1) <==> exists d <- steps[j].dependsOn :: d >= j || results[d] != Done
  {
    var before, after := Execute(w, steps, cs, j).1, Execute(w, steps, cs, j + 1).1;
    assert after[..j] == before;
    assert forall d | 0 <= d < j :: after[d] == after[..j][d];
  }

  /** What each step of a pass does to the mount table, the memory and the file. */
  lemma StepEffect(w: World, c: Case, steps: seq<Step>, cs: seq<Conditions>, j: nat)
    requires Inv(w) && Ready(w, c, steps) && j < |steps| && j < |cs|
    requires Execute(w, steps, cs, j + 1).1[j] != Skipped
    ensures var a := steps[j].action; var w1 := Meets(w, steps, cs, j); var w2 := Execute(w, steps, cs, j + 1).0;
      if !Works(w1, a, cs[j]) then w2 == w1
      else if !a.Mount? then Removed(w1, a, w2)
      else if cs[j].save.Saved? then Mounted(w1, a.desired, cs[j], w2)
      else Undone(w1, a.desired, cs[j], w2)
  {
    var w1, a := Meets(w, steps, cs, j), steps[j].action;
    NextStep(w, steps, cs, j);
    if !Works(w1, a, cs[j]) {
      NothingHappens(w1, a, cs[j]);
    } else if !a.Mount? {
      RemovalEffect(w1, a, cs[j]);
    } else if cs[j].save.Saved? {
      DoneMountEffect(w1, a.desired, cs[j]);
    } else {
      PassKeepsInv(w, c, steps, cs, j);
      OutsideKeepsInv(Execute(w, steps, cs, j).0, cs[j].before);
      FailedMountEffect(w1, a.desired, cs[j]);
    }
  }
}
