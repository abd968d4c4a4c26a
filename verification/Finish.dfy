/** Turning builder steps into a plan: `Builder::finish` (src/reconcile/plan.rs). */
module Finishing {
  import opened Records
  import opened Planning

  /** An action with its dependencies as builder ids; its own id is its index. */
  type Draft = seq<(Action, seq<nat>)>

  /** Dependencies point backwards, and never from a removal to a mount. */
  ghost predicate WellFounded(d: Draft) {
    forall s, k | 0 <= s < |d| && 0 <= k < |d[s].1| ::
      d[s].1[k] < s && d[d[s].1[k]].0.Phase() <= d[s].0.Phase()
  }

  /** `s` comes before `t` when sorted by phase, ties by builder order. */
  predicate Before(d: Draft, s: nat, t: nat)
    requires s < |d| && t < |d|
  {
    d[s].0.Phase() < d[t].0.Phase() || (d[s].0.Phase() == d[t].0.Phase() && s < t)
  }

  /** `order` lists every builder id once, sorted stably by phase. */
  ghost predicate PhaseOrder(d: Draft, order: seq<nat>) {
    && |order| == |d|
    && (forall i | 0 <= i < |order| :: order[i] < |d|)
    && (forall s | 0 <= s < |d| :: s in order)
    && (forall i, j | 0 <= i < j < |order| :: Before(d, order[i], order[j]))
  }

  /** `step` is builder step `s` with its dependencies renumbered by `at`. */
  ghost predicate Moved(d: Draft, at: seq<nat>, s: nat, step: Step)
    requires |at| == |d| && s < |d|
  {
    && step.action == d[s].0
    && Increasing(step.dependsOn)
    && (forall j <- step.dependsOn :: j < at[s])
    && (forall t | 0 <= t < |d| :: at[t] in step.dependsOn <==> t in d[s].1)
  }

  /** `plan` is `d` with step `s` moved to `at[s]`: the same actions, the same
      dependency graph, removals before mounts, builder order otherwise. */
  ghost predicate Renumbered(d: Draft, plan: seq<Step>, at: seq<nat>) {
    && |plan| == |d| == |at|
    && (forall s | 0 <= s < |d| :: at[s] < |plan|)
    && (forall i | 0 <= i < |plan| :: i in at)
    && (forall s, t | 0 <= s < |d| && 0 <= t < |d| :: at[s] < at[t] <==> Before(d, s, t))
    && (forall s | 0 <= s < |d| :: Moved(d, at, s, plan[at[s]]))
  }

  method SortByPhase(d: Draft) returns (order: seq<nat>)
    ensures PhaseOrder(d, order)
  {
    var removals: seq<nat>, mounts: seq<nat> := [], [];
    for id := 0 to |d|
      invariant |removals| + |mounts| == id
      invariant forall i | 0 <= i < |removals| :: removals[i] < id && d[removals[i]].0.Phase() == 0
      invariant forall i | 0 <= i < |mounts| :: mounts[i] < id && d[mounts[i]].0.Phase() == 1
      invariant Increasing(removals) && Increasing(mounts)
      invariant forall s | 0 <= s < id :: s in removals || s in mounts
    {
      if d[id].0.Phase() == 0 {
        removals := removals + [id];
      } else {
        mounts := mounts + [id];
      }
    }
    order := removals + mounts;
  }

  /** The distinct elements of `ids`, all below `bound`, in ascending order. */
  method SortDedup(ids: seq<nat>, bound: nat) returns (sorted: seq<nat>)
    requires forall i <- ids :: i < bound
    ensures Increasing(sorted)
    ensures forall i :: i in sorted <==> i in ids
  {
    sorted := [];
    for i := 0 to bound
      invariant Increasing(sorted)
      invariant forall j | 0 <= j < |sorted| :: sorted[j] < i
      invariant forall j :: j in sorted <==> j in ids && j < i
    {
      if i in ids {
        sorted := sorted + [i];
      }
    }
  }

  method Renumber(deps: seq<nat>, at: seq<nat>, self: nat) returns (out: seq<nat>)
    requires self < |at|
    requires forall i | 0 <= i < |deps| :: deps[i] < |at| && at[deps[i]] < at[self]
    requires forall s, t | 0 <= s < t < |at| :: at[s] != at[t]
    ensures Increasing(out)
    ensures forall j <- out :: j < at[self]
    ensures forall t | 0 <= t < |at| :: at[t] in out <==> t in deps
  {
    var mapped: seq<nat> := [];
    for i := 0 to |deps|
      invariant |mapped| == i && forall j | 0 <= j < i :: mapped[j] == at[deps[j]]
    {
      mapped := mapped + [at[deps[i]]];
    }
    out := SortDedup(mapped, at[self]);
    forall t | 0 <= t < |at| && t in deps
      ensures at[t] in mapped
    {
      var i :| 0 <= i < |deps| && deps[i] == t;
      assert mapped[i] == at[t];
    }
  }

  /** `at` is the inverse of `order`. */
  ghost predicate Inverse(order: seq<nat>, at: seq<nat>) {
    && |at| == |order|
    && (forall i | 0 <= i < |order| :: order[i] < |at| && at[order[i]] == i)
    && (forall s | 0 <= s < |at| :: at[s] < |order| && order[at[s]] == s)
  }

  method Invert(d: Draft, order: seq<nat>) returns (at: seq<nat>)
    requires PhaseOrder(d, order)
    ensures Inverse(order, at)
  {
    var index := new nat[|d|](_ => 0);
    for i := 0 to |order|
      invariant forall j | 0 <= j < i :: index[order[j]] == j
    {
      index[order[i]] := i;
    }
    at := index[..];
    forall s | 0 <= s < |d|
      ensures at[s] < |order| && order[at[s]] == s
    {
      assert s in order;
    }
  }

  lemma InverseIsMonotone(d: Draft, order: seq<nat>, at: seq<nat>, s: nat, t: nat)
    requires PhaseOrder(d, order) && Inverse(order, at) && s < |d| && t < |d|
    ensures at[s] < at[t] <==> Before(d, s, t)
  {
    assert order[at[s]] == s && order[at[t]] == t;
  }

  method Finish(d: Draft) returns (plan: seq<Step>, at: seq<nat>)
    requires WellFounded(d)
    ensures Renumbered(d, plan, at)
  {
    var order := SortByPhase(d);
    at := Invert(d, order);
    forall s, t | 0 <= s < |d| && 0 <= t < |d|
      ensures at[s] < at[t] <==> Before(d, s, t)
    {
      InverseIsMonotone(d, order, at, s, t);
    }
    plan := [];
    for i := 0 to |order|
      invariant |plan| == i
      invariant forall j | 0 <= j < i :: Moved(d, at, order[j], plan[j])
    {
      var s := order[i];
      forall k | 0 <= k < |d[s].1|
        ensures d[s].1[k] < |at| && at[d[s].1[k]] < at[s]
      {
        assert Before(d, d[s].1[k], s);
      }
      var deps := Renumber(d[s].1, at, s);
      plan := plan + [Step(d[s].0, deps)];
    }
    forall s | 0 <= s < |d|
      ensures Moved(d, at, s, plan[at[s]])
    {
      assert order[at[s]] == s;
    }
    forall i | 0 <= i < |plan|
      ensures i in at
    {
      assert at[order[i]] == i;
    }
  }
}
