/**
 Privilege normalization: the planned operations (src/privileges/plan.rs), the
 kernel's rules for them (capabilities(7), credentials(7)), and applying and
 verifying them (src/privileges/apply.rs).
 */
module Privileges {
  import opened Wrappers

  type Caps = set<nat>

  const SETGID: nat := 6
  const SETUID: nat := 7
  const SETPCAP: nat := 8
  const SYS_ADMIN: nat := 21
  const CAP_LIMIT: nat := 64

  /** The ID that means "leave unchanged" and is nobody's. */
  const NO_ID: nat := 0xFFFF_FFFF
  const NGROUPS_MAX: nat := 65536

  datatype SecureBit =
    | NoRoot | NoRootLocked | NoSetuidFixup | NoSetuidFixupLocked
    | KeepCaps | KeepCapsLocked | NoCapAmbientRaise | NoCapAmbientRaiseLocked

  const LOCKED_SECURE_BITS: set<SecureBit> :=
    {NoRoot, NoRootLocked, NoSetuidFixup, NoSetuidFixupLocked, KeepCapsLocked,
     NoCapAmbientRaise, NoCapAmbientRaiseLocked}

  datatype CapSets = CapSets(effective: Caps, permitted: Caps, inheritable: Caps)

  /** Real, effective and saved IDs. */
  datatype Ids = Ids(own: nat, effective: nat, saved: nat) {
    predicate Has(id: nat) {
      own == id || effective == id || saved == id
    }

    predicate All(id: nat) {
      own == id && effective == id && saved == id
    }
  }

  datatype FinalGroups = FinalGroups(gid: nat, groups: seq<nat>)

  datatype ServiceUser = ServiceUser(name: string, uid: nat, gid: nat, groups: seq<nat>) {
    /** The primary group is also among the supplementary groups. */
    function Groups(): FinalGroups {
      FinalGroups(gid, if gid in groups then groups else [gid] + groups)
    }
  }

  datatype Goal = KeepSysAdmin | DropAll

  datatype Request = Request(goal: Goal, user: Option<ServiceUser>, allowRoot: bool)

  datatype Op =
    | ClearAmbient
    | SetCaps(sets: CapSets)
    | DropBoundingExcept(keep: Caps)
    | SetSecureBits(bits: set<SecureBit>)
    | SetKeepCaps(enable: bool)
    | SetGroups(groups: seq<nat>)
    | SetResGid(gid: nat)
    | SetResUid(uid: nat)
    | SetNoNewPrivs

  datatype Warning = RunningAsRoot | UserNotApplied(user: string, effectiveUid: nat)

  datatype PlanError =
    | MissingSysAdmin | RootWithoutUser | ServiceUserIsRoot(name: string)
    | CannotSwitchUser(user: string, missing: string)

  datatype PrivilegePlan = PrivilegePlan(
    ops: seq<Op>, warnings: seq<Warning>, finalUid: nat, finalCaps: Caps, finalGroups: Option<FinalGroups>)

  // ----- The planner -----

  function Keep(goal: Goal): Caps {
    if goal.KeepSysAdmin? then {SYS_ADMIN} else {}
  }

  /** Which user to switch to, and the warnings. */
  function SwitchTo(uids: Ids, request: Request): Result<(Option<ServiceUser>, seq<Warning>), PlanError> {
    if uids.Has(0) then
      match request.user
      case Some(user) => if user.uid == 0 then Err(ServiceUserIsRoot(user.name)) else Ok((Some(user), []))
      case None =>
        if request.goal.KeepSysAdmin? then
          if request.allowRoot then Ok((None, [RunningAsRoot])) else Err(RootWithoutUser)
        else Ok((None, []))
    else
      match request.user
      case Some(user) =>
        Ok((None, if uids.effective != user.uid then [UserNotApplied(user.name, uids.effective)] else []))
      case None => Ok((None, []))
  }

  function Needed(permitted: Caps, switching: bool): Caps {
    (if SETPCAP in permitted then {SETPCAP} else {}) + (if switching then {SETUID, SETGID} else {})
  }

  /** The operations that switch to `user`. */
  function SwitchOps(user: ServiceUser, hasSetpcap: bool): seq<Op> {
    (if hasSetpcap then [] else [SetKeepCaps(true)])
    + [SetGroups(user.Groups().groups), SetResGid(user.Groups().gid), SetResUid(user.uid)]
    + (if hasSetpcap then [] else [SetKeepCaps(false)])
  }

  function RaiseOps(caps: CapSets, needed: Caps): seq<Op> {
    if needed <= caps.effective then []
    else [SetCaps(CapSets(caps.effective + needed, caps.permitted, {}))]
  }

  function LockOps(hasSetpcap: bool, keep: Caps): seq<Op> {
    if hasSetpcap then [DropBoundingExcept(keep), SetSecureBits(LOCKED_SECURE_BITS)] else []
  }

  function Plan(uids: Ids, caps: CapSets, request: Request): Result<PrivilegePlan, PlanError> {
    var keep, permitted := Keep(request.goal), caps.permitted;
    if request.goal.KeepSysAdmin? && SYS_ADMIN !in permitted then Err(MissingSysAdmin)
    else
      match SwitchTo(uids, request)
      case Err(e) => Err(e)
      case Ok((user, warnings)) =>
        if user.Some? && SETUID !in permitted then Err(CannotSwitchUser(user.value.name, "CAP_SETUID"))
        else if user.Some? && SETGID !in permitted then Err(CannotSwitchUser(user.value.name, "CAP_SETGID"))
        else
          var hasSetpcap := SETPCAP in permitted;
          Ok(PrivilegePlan(
               [ClearAmbient]
               + RaiseOps(caps, Needed(permitted, user.Some?))
               + LockOps(hasSetpcap, keep)
               + (if user.Some? then SwitchOps(user.value, hasSetpcap) else [])
               + [SetCaps(CapSets(keep, keep, {})), SetNoNewPrivs],
               warnings,
               if user.Some? then user.value.uid else uids.effective,
               keep,
               if user.Some? then Some(user.value.Groups()) else None))
  }

  // ----- The kernel's rules -----

  /** The calling thread's credentials. */
  datatype Creds = Creds(
    uids: Ids, gids: Ids, groups: seq<nat>,
    inheritable: Caps, permitted: Caps, effective: Caps, bounding: Caps, ambient: Caps,
    secureBits: set<SecureBit>, noNewPrivs: bool)
  {
    /** What the kernel guarantees of any thread. */
    ghost predicate Valid() {
      && effective <= permitted && ambient <= permitted * inheritable
      && !uids.Has(NO_ID) && !gids.Has(NO_ID)
      && (forall x <- bounding :: x < CAP_LIMIT)
    }

    function Sets(): CapSets {
      CapSets(effective, permitted, inheritable)
    }
  }

  /** A bit may change only while its lock bit is clear. */
  predicate LocksAllow(old_: set<SecureBit>, new_: set<SecureBit>) {
    && (NoRootLocked in old_ ==> (NoRoot in old_ <==> NoRoot in new_))
    && (NoSetuidFixupLocked in old_ ==> (NoSetuidFixup in old_ <==> NoSetuidFixup in new_))
    && (KeepCapsLocked in old_ ==> (KeepCaps in old_ <==> KeepCaps in new_))
    && (NoCapAmbientRaiseLocked in old_ ==> (NoCapAmbientRaise in old_ <==> NoCapAmbientRaise in new_))
  }

  /** Lock bits are never cleared. */
  predicate LocksStay(old_: set<SecureBit>, new_: set<SecureBit>) {
    old_ * {NoRootLocked, NoSetuidFixupLocked, KeepCapsLocked, NoCapAmbientRaiseLocked} <= new_
  }

  /** "Effect of user ID changes on capabilities", capabilities(7). */
  function FixCaps(old_: Creds, uids: Ids): Creds {
    if NoSetuidFixup in old_.secureBits then old_.(uids := uids)
    else
      var leavesRoot := old_.uids.Has(0) && !uids.Has(0);
      var permitted := if leavesRoot && KeepCaps !in old_.secureBits then {} else old_.permitted;
      var ambient := if leavesRoot then {} else old_.ambient;
      var effective :=
        if leavesRoot && KeepCaps !in old_.secureBits then {}
        else if old_.uids.effective == 0 && uids.effective != 0 then {}
        else if old_.uids.effective != 0 && uids.effective == 0 then permitted
        else old_.effective;
      old_.(uids := uids, permitted := permitted, effective := effective, ambient := ambient)
  }

  function Replace(ids: Ids, id: nat): Ids {
    if id == NO_ID then ids else Ids(id, id, id)
  }

  /** One operation, or `None` if the kernel refuses it. */
  function Perform(s: Creds, op: Op): Option<Creds> {
    match op
    case ClearAmbient => Some(s.(ambient := {}))
    case SetCaps(n) =>
      if && n.permitted <= s.permitted && n.effective <= n.permitted
         && n.inheritable <= s.inheritable + s.bounding
         && (SETPCAP in s.effective || n.inheritable <= s.inheritable + s.permitted)
      then Some(s.(effective := n.effective, permitted := n.permitted, inheritable := n.inheritable,
                   ambient := s.ambient * n.permitted * n.inheritable))
      else None
    case DropBoundingExcept(keep) =>
      if s.bounding <= keep then Some(s)
      else if SETPCAP in s.effective then Some(s.(bounding := s.bounding * keep)) else None
    case SetSecureBits(bits) =>
      var bits' := s.secureBits + bits;
      if SETPCAP in s.effective && LocksAllow(s.secureBits, bits') && LocksStay(s.secureBits, bits')
      then Some(s.(secureBits := bits')) else None
    case SetKeepCaps(enable) =>
      if KeepCapsLocked in s.secureBits then None
      else Some(s.(secureBits := if enable then s.secureBits + {KeepCaps} else s.secureBits - {KeepCaps}))
    case SetGroups(groups) =>
      if SETGID in s.effective && |groups| <= NGROUPS_MAX && NO_ID !in groups
      then Some(s.(groups := groups)) else None
    case SetResGid(gid) =>
      if SETGID in s.effective || gid == NO_ID || s.gids.Has(gid)
      then Some(s.(gids := Replace(s.gids, gid))) else None
    case SetResUid(uid) =>
      if SETUID in s.effective || uid == NO_ID || s.uids.Has(uid)
      then Some(FixCaps(s, Replace(s.uids, uid))) else None
    case SetNoNewPrivs => Some(s.(noNewPrivs := true))
  }

  /** The operations in order, stopping at the first refusal. */
  function PerformAll(s: Creds, ops: seq<Op>): Option<Creds>
    decreases |ops|
  {
    if ops == [] then Some(s)
    else
      match Perform(s, ops[0])
      case None => None
      case Some(s') => PerformAll(s', ops[1..])
  }

  // ----- Verification -----

  datatype Problem =
    | WrongGids | WrongGroups | WrongUids | WrongEffective | WrongPermitted
    | Inheritable | Ambient | NewPrivsAllowed | MissingSecureBits | BoundingTooLarge

  function Members(groups: seq<nat>): set<nat> {
    set g | g in groups
  }

  /** What `verify` accepts. */
  ghost predicate Accepts(plan: PrivilegePlan, s: Creds) {
    && (plan.finalGroups.Some? ==>
          && s.gids.All(plan.finalGroups.value.gid)
          && Members(s.groups) == Members(plan.finalGroups.value.groups))
    && s.uids.All(plan.finalUid)
    && s.effective == plan.finalCaps && s.permitted == plan.finalCaps
    && s.inheritable == {} && s.ambient == {} && s.noNewPrivs
    && (forall op <- plan.ops | op.SetSecureBits? :: op.bits <= s.secureBits)
    && ((exists op <- plan.ops :: op.DropBoundingExcept?) ==> s.bounding <= plan.finalCaps)
  }

  // ----- The plan against the rules -----

  /** No lock bit holds a bit the plan sets at zero. */
  predicate NoLockConflict(bits: set<SecureBit>) {
    && (NoRootLocked in bits ==> NoRoot in bits)
    && (NoSetuidFixupLocked in bits ==> NoSetuidFixup in bits)
    && (NoCapAmbientRaiseLocked in bits ==> NoCapAmbientRaise in bits)
  }

  /** What must hold before: nothing locked the wrong way, a switch to real IDs, and
      without a switch one user ID only. */
  predicate CanNormalize(s: Creds, plan: PrivilegePlan) {
    && (SETPCAP in s.permitted ==> NoLockConflict(s.secureBits))
    && (match plan.finalGroups
        case Some(g) =>
          && (SETPCAP !in s.permitted ==> KeepCapsLocked !in s.secureBits)
          && |g.groups| <= NGROUPS_MAX && NO_ID !in g.groups && plan.finalUid != NO_ID
        case None => s.uids.All(s.uids.effective))
  }

  lemma {:induction false} PerformConcat(s: Creds, a: seq<Op>, b: seq<Op>)
    ensures PerformAll(s, a + b) ==
      match PerformAll(s, a)
      case None => None
      case Some(s') => PerformAll(s', b)
    decreases |a|
  {
    if a == [] {
      assert a + b == b;
    } else {
      assert (a + b)[0] == a[0] && (a + b)[1..] == a[1..] + b;
      match Perform(s, a[0])
      case None =>
      case Some(s') => PerformConcat(s', a[1..], b);
    }
  }

  lemma PerformOne(s: Creds, op: Op)
    ensures PerformAll(s, [op]) == Perform(s, op)
  {
    assert [op][1..] == [];
  }

  /** Clearing the ambient set and raising what is needed always succeeds. */
  lemma RaiseStage(s: Creds, needed: Caps) returns (s': Creds)
    requires s.Valid() && needed <= s.permitted
    ensures PerformAll(s, [ClearAmbient] + RaiseOps(s.Sets(), needed)) == Some(s')
    ensures s'.Valid() && s'.ambient == {} && needed <= s'.effective
    ensures s' == s.(ambient := {}, effective := s'.effective, inheritable := s'.inheritable)
  {
    PerformConcat(s, [ClearAmbient], RaiseOps(s.Sets(), needed));
    PerformOne(s, ClearAmbient);
    var s1 := s.(ambient := {});
    if needed <= s.effective {
      s' := s1;
    } else {
      assert RaiseOps(s.Sets(), needed) == [RaiseOps(s.Sets(), needed)[0]];
      PerformOne(s1, RaiseOps(s.Sets(), needed)[0]);
      s' := s1.(effective := s.effective + needed, inheritable := {});
      assert s1.ambient * s.permitted * {} == {};
    }
  }

  /** Locking succeeds exactly when no lock conflicts. */
  lemma LockStage(s: Creds, keep: Caps)
    requires s.Valid() && SETPCAP in s.effective
    ensures var r := PerformAll(s, LockOps(true, keep));
      if NoLockConflict(s.secureBits)
      then r == Some(s.(bounding := s.bounding * keep, secureBits := s.secureBits + LOCKED_SECURE_BITS))
      else r == None
  {
    PerformConcat(s, [DropBoundingExcept(keep)], [SetSecureBits(LOCKED_SECURE_BITS)]);
    PerformOne(s, DropBoundingExcept(keep));
    assert s.bounding <= keep ==> s.bounding * keep == s.bounding;
    PerformOne(s.(bounding := s.bounding * keep), SetSecureBits(LOCKED_SECURE_BITS));
    assert LockOps(true, keep) == [DropBoundingExcept(keep)] + [SetSecureBits(LOCKED_SECURE_BITS)];
  }

  predicate RealIds(user: ServiceUser) {
    |user.Groups().groups| <= NGROUPS_MAX && NO_ID !in user.Groups().groups
  }

  /** The three ID changes, with both capabilities effective. */
  lemma IdStage(s: Creds, user: ServiceUser)
    requires SETUID in s.effective && SETGID in s.effective
    ensures PerformAll(s, [SetGroups(user.Groups().groups), SetResGid(user.gid), SetResUid(user.uid)]) ==
      if RealIds(user)
      then Some(FixCaps(s.(groups := user.Groups().groups, gids := Replace(s.gids, user.gid)), Replace(s.uids, user.uid)))
      else None
  {
    var a, b, c := SetGroups(user.Groups().groups), SetResGid(user.gid), SetResUid(user.uid);
    assert [a, b, c] == [a] + [b, c] && [b, c] == [b] + [c];
    PerformConcat(s, [a], [b, c]);
    PerformOne(s, a);
    var s1 := s.(groups := user.Groups().groups);
    PerformConcat(s1, [b], [c]);
    PerformOne(s1, b);
    PerformOne(s1.(gids := Replace(s.gids, user.gid)), c);
  }

  /** The switch under NO_SETUID_FIXUP: only the IDs change. */
  lemma LockedSwitchStage(s: Creds, user: ServiceUser)
    requires SETUID in s.effective && SETGID in s.effective && NoSetuidFixup in s.secureBits
    ensures PerformAll(s, SwitchOps(user, true)) ==
      if RealIds(user)
      then Some(s.(groups := user.Groups().groups, gids := Replace(s.gids, user.gid), uids := Replace(s.uids, user.uid)))
      else None
  {
    IdStage(s, user);
    assert SwitchOps(user, true) == [SetGroups(user.Groups().groups), SetResGid(user.gid), SetResUid(user.uid)];
  }

  /** The switch under keep-caps: the permitted set survives. */
  lemma KeptSwitchStage(s: Creds, user: ServiceUser)
    requires SETUID in s.effective && SETGID in s.effective && s.ambient == {} && s.effective <= s.permitted
    ensures var r := PerformAll(s, SwitchOps(user, false));
      if KeepCapsLocked in s.secureBits || !RealIds(user) then r == None
      else
        && r.Some? && r.value.effective <= r.value.permitted
        && r.value == s.(groups := user.Groups().groups, gids := Replace(s.gids, user.gid), uids := Replace(s.uids, user.uid),
                         effective := r.value.effective, secureBits := s.secureBits - {KeepCaps})
  {
    var on, ids, off := SetKeepCaps(true), [SetGroups(user.Groups().groups), SetResGid(user.gid), SetResUid(user.uid)], SetKeepCaps(false);
    assert SwitchOps(user, false) == [on] + (ids + [off]);
    PerformConcat(s, [on], ids + [off]);
    PerformOne(s, on);
    if KeepCapsLocked !in s.secureBits {
      var s1 := s.(secureBits := s.secureBits + {KeepCaps});
      PerformConcat(s1, ids, [off]);
      IdStage(s1, user);
      if RealIds(user) {
        var s2 := FixCaps(s1.(groups := user.Groups().groups, gids := Replace(s.gids, user.gid)), Replace(s.uids, user.uid));
        PerformOne(s2, off);
        assert s2.secureBits - {KeepCaps} == s.secureBits - {KeepCaps};
      }
    }
  }

  /** The last two operations always succeed and leave exactly `keep`. */
  lemma FinishStage(s: Creds, keep: Caps)
    requires keep <= s.permitted
    ensures PerformAll(s, [SetCaps(CapSets(keep, keep, {})), SetNoNewPrivs]) ==
      Some(s.(effective := keep, permitted := keep, inheritable := {}, ambient := {}, noNewPrivs := true))
  {
    var a, b := SetCaps(CapSets(keep, keep, {})), SetNoNewPrivs;
    assert [a, b] == [a] + [b] && s.ambient * keep * {} == {};
    PerformConcat(s, [a], [b]);
    PerformOne(s, a);
    PerformOne(s.(effective := keep, permitted := keep, inheritable := {}, ambient := {}), b);
  }

  /** What every successful plan consists of. */
  lemma PlanShape(uids: Ids, caps: CapSets, request: Request) returns (user: Option<ServiceUser>)
    requires Plan(uids, caps, request).Ok?
    ensures var p := Plan(uids, caps, request).value; var hasSetpcap := SETPCAP in caps.permitted;
      && p.ops == [ClearAmbient] + RaiseOps(caps, Needed(caps.permitted, user.Some?))
                  + LockOps(hasSetpcap, p.finalCaps)
                  + (if user.Some? then SwitchOps(user.value, hasSetpcap) else [])
                  + [SetCaps(CapSets(p.finalCaps, p.finalCaps, {})), SetNoNewPrivs]
      && p.finalCaps == Keep(request.goal) && p.finalCaps <= caps.permitted
      && p.finalUid == (if user.Some? then user.value.uid else uids.effective)
      && p.finalGroups == (if user.Some? then Some(user.value.Groups()) else None)
    ensures Needed(caps.permitted, user.Some?) <= caps.permitted
    ensures user.Some? <==> uids.Has(0) && request.user.Some?
    ensures user.Some? ==> user == request.user && user.value.uid != 0
  {
    user := SwitchTo(uids, request).value.0;
  }

  /** The state after the middle stages: locked, if that was possible, and switched. */
  lemma MiddleStage(s: Creds, user: Option<ServiceUser>, keep: Caps)
    requires s.Valid() && s.ambient == {} && Needed(s.permitted, user.Some?) <= s.effective
    ensures var hasSetpcap := SETPCAP in s.permitted;
      var r := PerformAll(s, LockOps(hasSetpcap, keep) + (if user.Some? then SwitchOps(user.value, hasSetpcap) else []));
      if (hasSetpcap && !NoLockConflict(s.secureBits))
         || (user.Some? && (!RealIds(user.value) || (!hasSetpcap && KeepCapsLocked in s.secureBits)))
      then r == None
      else
        && r.Some? && r.value.permitted == s.permitted
        && (hasSetpcap ==> LOCKED_SECURE_BITS <= r.value.secureBits && r.value.bounding <= keep)
        && (match user
            case None => r.value.uids == s.uids
            case Some(u) => r.value.uids == Replace(s.uids, u.uid) && r.value.gids == Replace(s.gids, u.gid)
                            && r.value.groups == u.Groups().groups)
  {
    var hasSetpcap := SETPCAP in s.permitted;
    var switch := if user.Some? then SwitchOps(user.value, hasSetpcap) else [];
    PerformConcat(s, LockOps(hasSetpcap, keep), switch);
    if hasSetpcap {
      LockStage(s, keep);
      if NoLockConflict(s.secureBits) && user.Some? {
        LockedSwitchStage(s.(bounding := s.bounding * keep, secureBits := s.secureBits + LOCKED_SECURE_BITS), user.value);
      }
    } else if user.Some? {
      KeptSwitchStage(s, user.value);
    }
  }

  lemma UidsEqual(ids: Ids, id: nat)
    ensures id != NO_ID ==> Replace(ids, id).All(id)
    ensures id == NO_ID && !ids.Has(NO_ID) ==> !Replace(ids, id).All(id)
  {
  }

  /** Only a start with CAP_SETPCAP locks securebits or drops the bounding set. */
  lemma LockingOps(uids: Ids, caps: CapSets, request: Request)
    requires Plan(uids, caps, request).Ok?
    ensures forall op <- Plan(uids, caps, request).value.ops ::
      && (op.SetSecureBits? ==> SETPCAP in caps.permitted && op.bits == LOCKED_SECURE_BITS)
      && (op.DropBoundingExcept? ==> SETPCAP in caps.permitted)
  {
    var _ := PlanShape(uids, caps, request);
  }

  function Finished(s: Creds, keep: Caps): Creds {
    s.(effective := keep, permitted := keep, inheritable := {}, ambient := {}, noNewPrivs := true)
  }

  /** `verify` accepts the finished state exactly when the user IDs came out right. */
  lemma FinalState(s: Creds, request: Request, user: Option<ServiceUser>, s2: Creds)
    requires s.Valid() && Plan(s.uids, s.Sets(), request).Ok?
    requires var p := Plan(s.uids, s.Sets(), request).value;
      && p.finalUid == (if user.Some? then user.value.uid else s.uids.effective)
      && p.finalGroups == (if user.Some? then Some(user.value.Groups()) else None)
      && (SETPCAP in s.permitted ==> LOCKED_SECURE_BITS <= s2.secureBits && s2.bounding <= p.finalCaps)
    requires match user
      case None => s2.uids == s.uids
      case Some(u) => RealIds(u) && s2.uids == Replace(s.uids, u.uid) && s2.gids == Replace(s.gids, u.gid)
                      && s2.groups == u.Groups().groups
    ensures var p := Plan(s.uids, s.Sets(), request).value;
      Accepts(p, Finished(s2, p.finalCaps)) <==>
      if user.Some? then user.value.uid != NO_ID else s.uids.All(s.uids.effective)
  {
    LockingOps(s.uids, s.Sets(), request);
    if user.Some? {
      UidsEqual(s.uids, user.value.uid);
      UidsEqual(s.gids, user.value.gid);
      assert user.value.gid in user.value.Groups().groups;
    }
  }

  /** Running a plan is running its three parts. */
  lemma PlanRun(s: Creds, request: Request, user: Option<ServiceUser>) returns (s1: Creds)
    requires s.Valid() && Plan(s.uids, s.Sets(), request).Ok?
    requires var p := Plan(s.uids, s.Sets(), request).value; var hasSetpcap := SETPCAP in s.permitted;
      && Needed(s.permitted, user.Some?) <= s.permitted
      && p.ops == [ClearAmbient] + RaiseOps(s.Sets(), Needed(s.permitted, user.Some?))
                  + LockOps(hasSetpcap, p.finalCaps)
                  + (if user.Some? then SwitchOps(user.value, hasSetpcap) else [])
                  + [SetCaps(CapSets(p.finalCaps, p.finalCaps, {})), SetNoNewPrivs]
    ensures s1.Valid() && s1.ambient == {} && Needed(s.permitted, user.Some?) <= s1.effective
    ensures s1 == s.(ambient := {}, effective := s1.effective, inheritable := s1.inheritable)
    ensures var p := Plan(s.uids, s.Sets(), request).value; var hasSetpcap := SETPCAP in s.permitted;
      var middle := LockOps(hasSetpcap, p.finalCaps) + (if user.Some? then SwitchOps(user.value, hasSetpcap) else []);
      PerformAll(s, p.ops) ==
        match PerformAll(s1, middle)
        case None => None
        case Some(s2) => PerformAll(s2, [SetCaps(CapSets(p.finalCaps, p.finalCaps, {})), SetNoNewPrivs])
  {
    var p := Plan(s.uids, s.Sets(), request).value;
    var hasSetpcap := SETPCAP in s.permitted;
    var raise := [ClearAmbient] + RaiseOps(s.Sets(), Needed(s.permitted, user.Some?));
    var middle := LockOps(hasSetpcap, p.finalCaps) + (if user.Some? then SwitchOps(user.value, hasSetpcap) else []);
    var finish := [SetCaps(CapSets(p.finalCaps, p.finalCaps, {})), SetNoNewPrivs];
    assert p.ops == raise + (middle + finish);
    PerformConcat(s, raise, middle + finish);
    s1 := RaiseStage(s, Needed(s.permitted, user.Some?));
    PerformConcat(s1, middle, finish);
  }

  /**
   Privilege simulation: run under the kernel's rules, a plan's operations are all
   permitted and end in a state `verify` accepts if and only if nothing was locked
   the wrong way, the user to switch to has real IDs, and, when no switch is
   planned, the process had a single user ID.
   */
  lemma PrivilegeSimulation(s: Creds, request: Request)
    requires s.Valid() && Plan(s.uids, s.Sets(), request).Ok?
    ensures var p := Plan(s.uids, s.Sets(), request).value;
      CanNormalize(s, p) <==> PerformAll(s, p.ops).Some? && Accepts(p, PerformAll(s, p.ops).value)
  {
    var p := Plan(s.uids, s.Sets(), request).value;
    var user := PlanShape(s.uids, s.Sets(), request);
    var s1 := PlanRun(s, request, user);
    var middle := LockOps(SETPCAP in s.permitted, p.finalCaps)
      + (if user.Some? then SwitchOps(user.value, SETPCAP in s.permitted) else []);
    MiddleStage(s1, user, p.finalCaps);
    match PerformAll(s1, middle)
    case None =>
    case Some(s2) =>
      FinishStage(s2, p.finalCaps);
      FinalState(s, request, user, s2);
  }
}
