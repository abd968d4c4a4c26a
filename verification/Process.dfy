/** Applying a privilege plan to the process and verifying the result (src/privileges/apply.rs). */
module Processes {
  import opened Wrappers
  import opened Privileges
  import opened Normalizing

  datatype ApplyError = MultiThreaded(threads: nat) | Refused(op: Op) | Verification(problems: set<Problem>)

  /** The process differs from the plan's promise in the way `p` says. */
  predicate Differs(plan: PrivilegePlan, s: Creds, p: Problem) {
    match p
    case WrongGids => plan.finalGroups.Some? && !s.gids.All(plan.finalGroups.value.gid)
    case WrongGroups => plan.finalGroups.Some? && Members(s.groups) != Members(plan.finalGroups.value.groups)
    case WrongUids => !s.uids.All(plan.finalUid)
    case WrongEffective => s.effective != plan.finalCaps
    case WrongPermitted => s.permitted != plan.finalCaps
    case Inheritable => s.inheritable != {}
    case Ambient => s.ambient != {}
    case NewPrivsAllowed => !s.noNewPrivs
    case MissingSecureBits => exists op <- plan.ops :: op.SetSecureBits? && !(op.bits <= s.secureBits)
    case BoundingTooLarge => (exists op <- plan.ops :: op.DropBoundingExcept?) && !(s.bounding <= plan.finalCaps)
  }

  /** A process is accepted iff it differs in no way. */
  lemma NoProblems(plan: PrivilegePlan, s: Creds)
    ensures (forall p :: !Differs(plan, s, p)) <==> Accepts(plan, s)
  {
    if forall p :: !Differs(plan, s, p) {
      assert !Differs(plan, s, WrongGids) && !Differs(plan, s, WrongGroups) && !Differs(plan, s, WrongUids);
      assert !Differs(plan, s, WrongEffective) && !Differs(plan, s, WrongPermitted) && !Differs(plan, s, Inheritable);
      assert !Differs(plan, s, Ambient) && !Differs(plan, s, NewPrivsAllowed);
      assert !Differs(plan, s, MissingSecureBits) && !Differs(plan, s, BoundingTooLarge);
    }
  }

  class Process {
    var creds: Creds
    const threads: nat

    constructor (s: Creds, n: nat)
      ensures creds == s && threads == n
    {
      creds, threads := s, n;
    }

    /** `PR_CAPBSET_DROP`, one capability. */
    method DropFromBounding(cap: nat) returns (ok: bool)
      modifies this
      ensures ok == (SETPCAP in old(creds).effective)
      ensures creds == if ok then old(creds).(bounding := old(creds).bounding - {cap}) else old(creds)
    {
      ok := SETPCAP in creds.effective;
      if ok {
        creds := creds.(bounding := creds.bounding - {cap});
      }
    }

    /** Drops every capability outside `keep` from the bounding set, one at a time. */
    method DropBounding(keep: Caps) returns (ok: bool)
      requires forall x <- creds.bounding :: x < CAP_LIMIT
      modifies this
      ensures Perform(old(creds), DropBoundingExcept(keep)) == if ok then Some(creds) else None
      ensures !ok ==> creds == old(creds)
    {
      var excess := creds.bounding - keep;
      for n := 0 to CAP_LIMIT
        invariant forall x <- old(creds).bounding :: x < CAP_LIMIT
        invariant creds == old(creds).(bounding := creds.bounding)
        invariant forall x :: x in creds.bounding <==> x in old(creds).bounding && (x in keep || x >= n)
        invariant creds.bounding != old(creds).bounding ==> SETPCAP in creds.effective
      {
        if n in excess {
          var dropped := DropFromBounding(n);
          if !dropped {
            assert n in old(creds).bounding && n !in keep;
            return false;
          }
        }
      }
      assert creds.bounding == old(creds).bounding * keep;
      assert old(creds).bounding <= keep ==> creds.bounding == old(creds).bounding;
      ok := true;
    }

    method ApplyOp(op: Op) returns (ok: bool)
      requires forall x <- creds.bounding :: x < CAP_LIMIT
      modifies this
      ensures Perform(old(creds), op) == if ok then Some(creds) else None
      ensures !ok ==> creds == old(creds)
      ensures forall x <- creds.bounding :: x < CAP_LIMIT
    {
      if op.DropBoundingExcept? {
        ok := DropBounding(op.keep);
      } else {
        var next := Perform(creds, op);
        ok := next.Some?;
        if ok {
          creds := next.value;
        }
      }
    }

    /** Collects every way the process differs from what the plan promised. */
    method Verify(plan: PrivilegePlan) returns (problems: set<Problem>)
      ensures forall p :: p in problems <==> Differs(plan, creds, p)
      ensures problems == {} <==> Accepts(plan, creds)
    {
      var ids := VerifyIds(plan);
      var caps := VerifyCaps(plan);
      var settings := VerifySettings(plan);
      problems := ids + caps + settings;
      NoProblems(plan, creds);
    }

    method VerifyCaps(plan: PrivilegePlan) returns (problems: set<Problem>)
      ensures forall p :: p in problems <==> p in {WrongEffective, WrongPermitted, Inheritable, Ambient} && Differs(plan, creds, p)
    {
      problems := {};
      if creds.effective != plan.finalCaps { problems := problems + {WrongEffective}; }
      if creds.permitted != plan.finalCaps { problems := problems + {WrongPermitted}; }
      if creds.inheritable != {} { problems := problems + {Inheritable}; }
      if creds.ambient != {} { problems := problems + {Ambient}; }
    }

    method VerifySettings(plan: PrivilegePlan) returns (problems: set<Problem>)
      ensures forall p :: p in problems <==> p in {NewPrivsAllowed, MissingSecureBits, BoundingTooLarge} && Differs(plan, creds, p)
    {
      problems := {};
      if !creds.noNewPrivs { problems := problems + {NewPrivsAllowed}; }
      var bits, drops := CheckOps(plan);
      if !bits { problems := problems + {MissingSecureBits}; }
      if drops && !(creds.bounding <= plan.finalCaps) { problems := problems + {BoundingTooLarge}; }
    }

    method VerifyIds(plan: PrivilegePlan) returns (problems: set<Problem>)
      ensures forall p :: p in problems <==> p in {WrongGids, WrongGroups, WrongUids} && Differs(plan, creds, p)
    {
      problems := {};
      if plan.finalGroups.Some? {
        if !creds.gids.All(plan.finalGroups.value.gid) { problems := problems + {WrongGids}; }
        if Members(creds.groups) != Members(plan.finalGroups.value.groups) { problems := problems + {WrongGroups}; }
      }
      if !creds.uids.All(plan.finalUid) { problems := problems + {WrongUids}; }
    }

    /** Whether all planned securebits are set, and whether the bounding set was to be dropped. */
    method CheckOps(plan: PrivilegePlan) returns (bits: bool, drops: bool)
      ensures bits <==> forall op <- plan.ops | op.SetSecureBits? :: op.bits <= creds.secureBits
      ensures drops <==> exists op <- plan.ops :: op.DropBoundingExcept?
    {
      bits, drops := true, false;
      for i := 0 to |plan.ops|
        invariant bits <==> forall j | 0 <= j < i && plan.ops[j].SetSecureBits? :: plan.ops[j].bits <= creds.secureBits
        invariant drops <==> exists j :: 0 <= j < i && plan.ops[j].DropBoundingExcept?
      {
        if plan.ops[i].SetSecureBits? && !(plan.ops[i].bits <= creds.secureBits) {
          bits := false;
        }
        if plan.ops[i].DropBoundingExcept? {
          drops := true;
        }
      }
    }

    /** Applies the plan's operations in order, stopping at the first refused one, then verifies. */
    method Apply(plan: PrivilegePlan) returns (r: Result<Creds, ApplyError>)
      requires forall x <- creds.bounding :: x < CAP_LIMIT
      modifies this
      ensures threads != 1 ==> r == Err(MultiThreaded(threads)) && creds == old(creds)
      ensures threads == 1 && PerformAll(old(creds), plan.ops).None? ==> exists i :: IsRefused(old(creds), plan, i, creds, r)
      ensures threads == 1 && PerformAll(old(creds), plan.ops).Some? ==>
        && creds == PerformAll(old(creds), plan.ops).value
        && (if Accepts(plan, creds) then r == Ok(creds) else IsRejected(plan, creds, r))
    {
      if threads != 1 {
        return Err(MultiThreaded(threads));
      }
      for i := 0 to |plan.ops|
        invariant forall x <- creds.bounding :: x < CAP_LIMIT
        invariant PerformAll(old(creds), plan.ops[..i]) == Some(creds)
      {
        PerformNext(old(creds), plan.ops, i, creds);
        var ok := ApplyOp(plan.ops[i]);
        if !ok {
          r := Err(Refused(plan.ops[i]));
          assert IsRefused(old(creds), plan, i, creds, r);
          return;
        }
      }
      assert plan.ops[..|plan.ops|] == plan.ops;
      var problems := Verify(plan);
      r := if problems == {} then Ok(creds) else Err(Verification(problems));
    }
  }

  /** Operation `i` is the first the kernel refuses, and the process is as it was before it. */
  ghost predicate IsRefused(s: Creds, plan: PrivilegePlan, i: int, now: Creds, r: Result<Creds, ApplyError>) {
    && 0 <= i < |plan.ops| && r == Err(Refused(plan.ops[i]))
    && PerformAll(s, plan.ops[..i]) == Some(now) && Perform(now, plan.ops[i]).None?
  }

  ghost predicate IsRejected(plan: PrivilegePlan, s: Creds, r: Result<Creds, ApplyError>) {
    r.Err? && r.error.Verification? && forall p :: p in r.error.problems <==> Differs(plan, s, p)
  }

  /** Doing one more operation, or finding that the rest cannot be done. */
  lemma PerformNext(s: Creds, ops: seq<Op>, i: nat, now: Creds)
    requires i < |ops| && PerformAll(s, ops[..i]) == Some(now)
    ensures PerformAll(s, ops[..i + 1]) == Perform(now, ops[i])
    ensures Perform(now, ops[i]).None? ==> PerformAll(s, ops).None?
  {
    assert ops[..i + 1] == ops[..i] + [ops[i]];
    PerformConcat(s, ops[..i], [ops[i]]);
    PerformOne(now, ops[i]);
    assert ops == ops[..i + 1] + ops[i + 1..];
    PerformConcat(s, ops[..i + 1], ops[i + 1..]);
  }

  lemma AcceptedExactly(s: Creds, request: Request)
    requires Plan(s.uids, s.Sets(), request).Ok?
    ensures forall s' :: Accepts(Plan(s.uids, s.Sets(), request).value, s') <==> Normalized(s, request, s')
  {
    forall s' {
      AcceptedIsNormalized(s, request, s');
    }
  }

  /** Planning for a process and applying the plan succeeds exactly when it can. */
  method Normalize(p: Process, request: Request) returns (planned: bool, normalized: bool)
    requires p.creds.Valid() && p.threads == 1
    modifies p
    ensures var plan := Plan(old(p.creds).uids, old(p.creds).Sets(), request);
      && planned == plan.Ok?
      && (plan.Ok? ==> normalized == CanNormalize(old(p.creds), plan.value))
      && (plan.Ok? && normalized ==> Accepts(plan.value, p.creds))
    ensures normalized <==> planned && Normalizable(old(p.creds), request)
    ensures normalized ==> Normalized(old(p.creds), request, p.creds)
  {
    var plan := Plan(p.creds.uids, p.creds.Sets(), request);
    planned, normalized := plan.Ok?, false;
    if planned {
      PrivilegeSimulation(p.creds, request);
      NormalizableIsExact(p.creds, request);
      AcceptedExactly(p.creds, request);
      var r := p.Apply(plan.value);
      normalized := r.Ok?;
    }
  }
}
