/** Nothing is left undone in silence (findings of src/reconcile/plan.rs). */
module Reports {
  import opened Wrappers
  import opened Names
  import opened Records
  import opened Planning
  import opened QuietPass
  import opened Convergence

  /** The finding names this member. */
  predicate Mentions(f: Finding, k: RecordKey) {
    match f
    case Conflict(k', _, _) => k' == k
    case SourceUnavailable(k', _, _) => k' == k
    case TargetUnavailable(k', _, _) => k' == k
    case RelocationBlocked(k', _) => k' == k
    case Collision(_, members, _) => k in members
  }

  lemma RejectedIsReported(c: Case, k: RecordKey) returns (f: Finding)
    requires c.Sound() && c.inp.Active(k) && k !in c.accepted
    ensures c.Reported(f) && Mentions(f, k)
  {
    var l := c.inp.desired[k].target;
    var members := c.inp.MembersAt(l);
    var kept: Option<RecordKey> := None;
    if k' :| k' in members && c.inp.Kept(k') {
      kept := Some(k');
    }
    f := Collision(l, members, kept);
    assert !c.inp.Sole(k);
    var other :| c.inp.Rivals(k, other) && other != k;
    assert k in members && other in members;
    assert c.inp.IsCollision(f);
  }

  /** A desired member of a readable group that the pass will not leave live is
      named in a finding, or is unmounted because its source is gone. */
  lemma UnattainableIsReported(c: Case, k: RecordKey)
    requires c.Sound() && c.inp.Active(k) && !Attainable(c, k)
    ensures || (exists f :: c.Reported(f) && Mentions(f, k))
            || (c.Removal(k).Some? && c.Removal(k).value.Unmount? && c.Removal(k).value.why.SourceGone?)
  {
    if k !in c.accepted {
      var f := RejectedIsReported(c, k);
    } else if c.MemberFindings(k) != {} {
      var f :| f in c.MemberFindings(k);
      assert c.Reported(f) && Mentions(f, k);
    }
  }

  /** For an accepted member: live after the pass exactly when nothing is reported
      about it and it is not unmounted for want of a source. */
  lemma AttainableIffNotReported(c: Case, k: RecordKey)
    requires c.Sound() && c.inp.Active(k) && k in c.accepted
    ensures Attainable(c, k) <==>
      && c.MemberFindings(k) == {}
      && !(c.Removal(k).Some? && c.Removal(k).value.Unmount? && c.Removal(k).value.why.SourceGone?)
  {
  }
}
