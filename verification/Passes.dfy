/** One reconciliation pass from end to end (src/reconcile/mod.rs:132-168). */
module Passes {
  import opened Wrappers
  import opened Names
  import opened Records
  import opened Planning
  import opened Protocol
  import opened Runs
  import opened QuietPass
  import opened Freezing
  import opened Observing
  import opened KernelView
  import opened Building
  import opened Execution

  /** The conditions the steps of a plan meet, in order. */
  function Meets(conditions: nat -> Conditions, n: nat): seq<Conditions> {
    seq(n, i requires 0 <= i < n => conditions(i))
  }

  /** What the observation and the planner promise is what the theorems about runs ask for. */
  lemma PassIsReady(w: World, inp: PlanInput, c: Case, plan: seq<Step>)
    requires inp.state == w.mem && Observed(w, inp.targets) && c.inp == inp && c.Sound() && IsPlan(c, plan)
    ensures Ready(w, c, plan)
    ensures forall cs: seq<Conditions>, n: nat | n <= |plan| && n <= |cs| :: Enabled(w, Passed(c, plan, cs, n))
  {
  }

  /**
   * Observes, plans and executes. Between observing and the first step others have acted
   * only as they always may; from there the pass is a pass of the run theorems: its plan is
   * for the state in memory and a true observation, and the world after it is the one its
   * steps lead to, where the invariant holds again. Among groups with records, frozen are
   * exactly those that must be left alone.
   */
  method RunPass(ex: Executor, rt: Runtime, degraded: Degraded, read: GroupId -> Membership, s: Surroundings,
                 meanwhile: Location -> seq<Outside>, conditions: nat -> Conditions, ghost quiet: bool)
    returns (plan: seq<Step>, findings: set<Finding>, results: seq<StepResult>, c: Case, ghost seen: World)
    requires Inv(ex.View()) && ValidSets(rt.sets) && ValidGroups(rt.groups)
    requires quiet ==> forall l :: meanwhile(l) == []
    modifies ex, ex.kernel, ex.sink, rt
    ensures OnlyOutside(old(ex.View()), seen) && Ready(seen, c, plan)
    ensures (ex.View(), results) == Protocol.Execute(seen, plan, Meets(conditions, |plan|), |plan|)
    ensures Inv(seen) && Inv(ex.View())
    ensures quiet ==> seen == old(ex.View()) && Accurate(seen, c.inp, s)
    ensures ValidGroups(rt.groups) && DesiresMembers(c.inp.desired, rt.groups, c.inp.frozen, read)
    ensures forall f :: f in findings <==> c.Reported(f)
    ensures forall k <- seen.mem | k.group.Valid() :: k.group in c.inp.frozen <==> MustFreeze(rt.sets, degraded, rt.groups, read, k.group)
  {
    var start, frozen, desired := DiscoverAndObserve(rt, ex.state, degraded, read);
    var inp := ObserveKernel(ex, desired, frozen, s, meanwhile, quiet);
    seen := ex.View();
    DesiredAreMembers(desired, rt.groups, start, frozen, read);
    plan, findings, c := Plan(inp);
    PassIsReady(seen, inp, c, plan);
    results := ex.Execute(plan, Meets(conditions, |plan|));
    PassKeepsInv(seen, c, plan, Meets(conditions, |plan|), |plan|);
  }
}
