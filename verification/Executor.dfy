/** The executor as the program runs it (src/reconcile/execute.rs), against a kernel and a state file. */
module Execution {
  import opened Wrappers
  import opened Names
  import opened Records
  import opened Planning
  import opened Protocol

  /** The mount table, which other processes also change. */
  class Kernel {
    var table: Table
    var nextId: nat
    ghost var created: set<nat>
    ghost var removed: set<nat>

    constructor (t: Table, n: nat)
      ensures table == t && nextId == n && created == {} && removed == {}
    {
      table, nextId, created, removed := t, n, {}, {};
    }

    /** `mount::create_bind`: attaches a clone of the source with `attrs` added. */
    method CreateBind(target: Location, root: DevIno, attrs: MountAttrs, c: Conditions) returns (m: LiveMount)
      requires target !in table
      modifies this
      ensures m == LiveMount(old(nextId), c.mntId, root, Applied(attrs, c.inherited))
      ensures table == old(table)[target := m] && nextId == old(nextId) + 1
      ensures created == old(created) + {m.id} && removed == old(removed)
    {
      m := LiveMount(nextId, c.mntId, root, Applied(attrs, c.inherited));
      table := table[target := m];
      created := created + {nextId};
      nextId := nextId + 1;
    }

    /** `mount::unmount_verified`: unmounts only the mount `expected` describes. */
    method UnmountVerified(l: Location, expected: MountIdentity, accepts: bool) returns (ok: bool)
      modifies this`table, this`removed
      ensures ok == (accepts && Verified(old(table), l, expected))
      ensures table == if ok then old(table) - {l} else old(table)
      ensures removed == if ok then old(removed) + {old(table)[l].id} else old(removed)
    {
      if l !in table || !table[l].Identity().Matches(expected) || !accepts {
        return false;
      }
      removed := removed + {table[l].id};
      table := table - {l};
      ok := true;
    }

    method Mount(e: Outside)
      requires e.Mounts?
      modifies this`table, this`nextId
      ensures e.at in old(table) ==> table == old(table) && nextId == old(nextId)
      ensures e.at !in old(table) ==>
        table == old(table)[e.at := LiveMount(old(nextId), e.mntId, e.root, e.attrs)] && nextId == old(nextId) + 1
    {
      if e.at !in table {
        table := table[e.at := LiveMount(nextId, e.mntId, e.root, e.attrs)];
        nextId := nextId + 1;
      }
    }
  }

  /** `StateStore`: replaces the state file, or fails leaving either content. */
  class StateStore {
    var file: State

    constructor (s: State)
      ensures file == s
    {
      file := s;
    }

    method Save(s: State, o: SaveOutcome) returns (ok: bool)
      modifies this
      ensures ok == o.Saved? && file == FileAfter(old(file), s, o)
    {
      if !o.KeptOld? {
        file := s;
      }
      ok := o.Saved?;
    }
  }

  method IsBlocked(step: Step, results: seq<StepResult>) returns (blocked: bool)
    ensures blocked == Blocked(step, results)
  {
    for i := 0 to |step.dependsOn|
      invariant forall j | 0 <= j < i :: step.dependsOn[j] < |results| && results[step.dependsOn[j]] == Done
    {
      var d := step.dependsOn[i];
      if d >= |results| || results[d] != Done {
        return true;
      }
    }
    blocked := false;
  }

  class Executor {
    const kernel: Kernel
    const sink: StateStore
    var state: State
    ghost var stranded: set<nat>

    constructor (k: Kernel, store: StateStore)
      ensures kernel == k && sink == store && state == store.file && stranded == {}
    {
      kernel, sink, state, stranded := k, store, store.file, {};
    }

    ghost function View(): World
      reads this, kernel, sink
    {
      World(kernel.table, kernel.nextId, state, sink.file, kernel.created, kernel.removed, stranded)
    }

    /** What other processes do meanwhile. */
    method Meanwhile(es: seq<Outside>)
      modifies kernel
      ensures View() == OutsideSteps(old(View()), es)
    {
      for i := 0 to |es|
        invariant View() == OutsideSteps(old(View()), es[..i])
      {
        assert es[..i + 1][..i] == es[..i];
        match es[i]
        case Mounts(_, _, _, _) => kernel.Mount(es[i]);
        case Unmounts(at) => kernel.table := kernel.table - {at};
      }
      assert es[..|es|] == es;
    }

    method TryMount(d: DesiredMount, c: Conditions) returns (r: StepResult)
      modifies this, kernel, sink
      ensures (View(), r) == MountStep(old(View()), d, c)
      ensures r == Done ==> c.save.Saved? && sink.file == state
    {
      if !c.ready || c.source.None? || d.target in kernel.table || !c.accepts {
        return Failed;
      }
      var m := kernel.CreateBind(d.target, c.source.value, d.attrs, c);
      var previous := if d.key in state then Some(state[d.key]) else None;
      ghost var before := state;
      state := state[d.key := RecordOf(d, m)];
      var saved := sink.Save(state, c.save);
      if saved {
        return Done;
      }
      // Never leave a mount that is not recorded: restore the state and roll back.
      state := if previous.Some? then state[d.key := previous.value] else state - {d.key};
      assert state == before;
      Meanwhile(c.during);
      var undone := kernel.UnmountVerified(d.target, m.Identity(), c.undoes);
      if !undone {
        stranded := stranded + {m.id};
      }
      r := Failed;
    }

    method TryUnmount(record: MountRecord, c: Conditions) returns (r: StepResult)
      modifies this, kernel, sink
      ensures (View(), r) == UnmountStep(old(View()), record, c)
      ensures r == Done ==> c.save.Saved? && sink.file == state
    {
      if !c.ready {
        return Failed;
      }
      var unmounted := kernel.UnmountVerified(record.target, record.identity, c.accepts);
      if !unmounted {
        return Failed;
      }
      state := state - {record.key};
      var saved := sink.Save(state, c.save);
      r := if saved then Done else Failed;
    }

    method DropRecord(record: MountRecord, c: Conditions) returns (r: StepResult)
      modifies this, sink
      ensures (View(), r) == DropStep(old(View()), record, c)
      ensures r == Done ==> c.save.Saved? && sink.file == state
    {
      state := state - {record.key};
      var saved := sink.Save(state, c.save);
      r := if saved then Done else Failed;
    }

    method Run(a: Action, c: Conditions) returns (r: StepResult)
      modifies this, kernel, sink
      ensures (View(), r) == ActionStep(old(View()), a, c)
    {
      match a
      case Mount(d) => r := TryMount(d, c);
      case Unmount(record, _) => r := TryUnmount(record, c);
      case DropRecord(record, _) => r := DropRecord(record, c);
    }

    /** Runs every step of `plan` in order, skipping those whose dependencies are not done. */
    method Execute(plan: seq<Step>, cs: seq<Conditions>) returns (results: seq<StepResult>)
      requires |cs| == |plan|
      modifies this, kernel, sink
      ensures (View(), results) == Protocol.Execute(old(View()), plan, cs, |plan|)
    {
      results := [];
      for n := 0 to |plan|
        invariant (View(), results) == Protocol.Execute(old(View()), plan, cs, n)
      {
        Meanwhile(cs[n].before);
        var blocked := IsBlocked(plan[n], results);
        var result := Skipped;
        if !blocked {
          result := Run(plan[n].action, cs[n]);
        }
        results := results + [result];
      }
    }
  }
}
