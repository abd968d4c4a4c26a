/**
 What privilege normalization is for, in terms of the process and the request alone
 (src/privileges/plan.rs:177-284, src/privileges/apply.rs:215-287).
 */
module Normalizing {
  import opened Wrappers
  import opened Privileges

  /** A process with a root user ID, asked to become somebody. */
  predicate Switches(uids: Ids, request: Request) {
    (uids.own == 0 || uids.effective == 0 || uids.saved == 0) && request.user.Some?
  }

  /** The capabilities it may end with. */
  predicate OnlyGoal(caps: Caps, goal: Goal) {
    match goal
    case KeepSysAdmin => caps == {SYS_ADMIN}
    case DropAll => caps == {}
  }

  /** Root gains nothing on exec, and no capability survives or follows a change of user; for good. */
  predicate LockedDown(bits: set<SecureBit>) {
    && NoRoot in bits && NoRootLocked in bits
    && NoSetuidFixup in bits && NoSetuidFixupLocked in bits
    && KeepCapsLocked in bits
    && NoCapAmbientRaise in bits && NoCapAmbientRaiseLocked in bits
  }

  ghost predicate IsUser(s: Creds, user: ServiceUser) {
    && s.uids == Ids(user.uid, user.uid, user.uid) && s.gids == Ids(user.gid, user.gid, user.gid)
    && forall g :: g in s.groups <==> g in user.groups || g == user.gid
  }

  /** A process that started as `s` is now `s'`, as the request asks. */
  ghost predicate Normalized(s: Creds, request: Request, s': Creds) {
    && OnlyGoal(s'.effective, request.goal) && OnlyGoal(s'.permitted, request.goal)
    && s'.inheritable == {} && s'.ambient == {} && s'.noNewPrivs
    && (SETPCAP in s.permitted ==> s'.bounding <= s'.permitted && LockedDown(s'.secureBits))
    && (if Switches(s.uids, request) then IsUser(s', request.user.value)
        else s'.uids == Ids(s.uids.effective, s.uids.effective, s.uids.effective))
  }

  lemma SameMembers(a: seq<nat>, b: seq<nat>)
    ensures Members(a) == Members(b) <==> forall g :: g in a <==> g in b
  {
    assert forall g :: g in Members(a) <==> g in a;
    assert forall g :: g in Members(b) <==> g in b;
  }

  lemma AcceptedUser(s': Creds, user: ServiceUser)
    ensures IsUser(s', user) <==>
      s'.uids.All(user.uid) && s'.gids.All(user.Groups().gid) && Members(s'.groups) == Members(user.Groups().groups)
  {
    SameMembers(s'.groups, user.Groups().groups);
  }

  /** Whether the plan locks securebits and drops the bounding set. */
  lemma PlansLocking(uids: Ids, caps: CapSets, request: Request)
    requires Plan(uids, caps, request).Ok? && SETPCAP in caps.permitted
    ensures var p := Plan(uids, caps, request).value;
      SetSecureBits(LOCKED_SECURE_BITS) in p.ops && exists op <- p.ops :: op.DropBoundingExcept?
  {
    var user := PlanShape(uids, caps, request);
    var p := Plan(uids, caps, request).value;
    var lock := LockOps(true, p.finalCaps);
    assert lock[0] in p.ops && lock[1] in p.ops;
  }

  /** Whatever was done to it: `verify` accepts a process iff it is as the request asks. */
  lemma AcceptedIsNormalized(s: Creds, request: Request, s': Creds)
    requires Plan(s.uids, s.Sets(), request).Ok?
    ensures Accepts(Plan(s.uids, s.Sets(), request).value, s') <==> Normalized(s, request, s')
  {
    var p := Plan(s.uids, s.Sets(), request).value;
    var user := PlanShape(s.uids, s.Sets(), request);
    LockingOps(s.uids, s.Sets(), request);
    if user.Some? {
      AcceptedUser(s', user.value);
    }
    if SETPCAP in s.permitted {
      PlansLocking(s.uids, s.Sets(), request);
    }
    assert s.Sets().permitted == s.permitted;
  }

  // ----- When it can be done -----

  /** Whether there is a plan, and if not, why. */
  lemma PlanOrError(uids: Ids, caps: CapSets, request: Request)
    ensures var r := Plan(uids, caps, request); var root := uids.own == 0 || uids.effective == 0 || uids.saved == 0;
      if request.goal.KeepSysAdmin? && SYS_ADMIN !in caps.permitted then r == Err(MissingSysAdmin)
      else if root && request.user.None? && request.goal.KeepSysAdmin? && !request.allowRoot then r == Err(RootWithoutUser)
      else if Switches(uids, request) && request.user.value.uid == 0 then r == Err(ServiceUserIsRoot(request.user.value.name))
      else if Switches(uids, request) && SETUID !in caps.permitted then r == Err(CannotSwitchUser(request.user.value.name, "CAP_SETUID"))
      else if Switches(uids, request) && SETGID !in caps.permitted then r == Err(CannotSwitchUser(request.user.value.name, "CAP_SETGID"))
      else r.Ok?
  {
  }

  /** A plan warns iff the process goes on as root, or is not root and somebody else than asked for. */
  lemma PlanWarns(uids: Ids, caps: CapSets, request: Request, x: Warning)
    requires Plan(uids, caps, request).Ok?
    ensures x in Plan(uids, caps, request).value.warnings <==>
      var root := uids.own == 0 || uids.effective == 0 || uids.saved == 0;
      match x
      case RunningAsRoot => root && request.user.None? && request.goal.KeepSysAdmin?
      case UserNotApplied(name, id) =>
        !root && request.user.Some? && name == request.user.value.name && id == uids.effective && id != request.user.value.uid
  {
  }

  /** What must hold of the process for its plan to be carried out. */
  predicate Normalizable(s: Creds, request: Request) {
    && (SETPCAP in s.permitted ==>
          && (NoRootLocked in s.secureBits ==> NoRoot in s.secureBits)
          && (NoSetuidFixupLocked in s.secureBits ==> NoSetuidFixup in s.secureBits)
          && (NoCapAmbientRaiseLocked in s.secureBits ==> NoCapAmbientRaise in s.secureBits))
    && (if Switches(s.uids, request) then
          var user := request.user.value;
          && (SETPCAP in s.permitted || KeepCapsLocked !in s.secureBits)
          && NO_ID !in user.groups && user.gid != NO_ID && user.uid != NO_ID
          && |user.groups| + (if user.gid in user.groups then 0 else 1) <= NGROUPS_MAX
        else s.uids.own == s.uids.effective == s.uids.saved)
  }

  lemma NormalizableIsExact(s: Creds, request: Request)
    requires Plan(s.uids, s.Sets(), request).Ok?
    ensures CanNormalize(s, Plan(s.uids, s.Sets(), request).value) <==> Normalizable(s, request)
  {
    var user := PlanShape(s.uids, s.Sets(), request);
  }

  /**
   Privilege normalization: run under the kernel's rules, the planned operations are all permitted
   and leave the process as the request asks if and only if it is normalizable.
   */
  lemma NormalizesExactly(s: Creds, request: Request)
    requires s.Valid() && Plan(s.uids, s.Sets(), request).Ok?
    ensures var r := PerformAll(s, Plan(s.uids, s.Sets(), request).value.ops);
      Normalizable(s, request) <==> r.Some? && Normalized(s, request, r.value)
  {
    var p := Plan(s.uids, s.Sets(), request).value;
    PrivilegeSimulation(s, request);
    NormalizableIsExact(s, request);
    var r := PerformAll(s, p.ops);
    if r.Some? {
      AcceptedIsNormalized(s, request, r.value);
    }
  }
}
