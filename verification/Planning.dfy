/**
 What a reconciliation plan must contain (src/reconcile/plan.rs), stated key by
 key and independently of the loops that build it.
 */
module Planning {
  import opened Wrappers
  import opened Names
  import opened Records

  datatype SourceState = Resolved(root: DevIno) | Unavailable(reason: string)

  datatype TargetState =
    | NotMounted
    | Mounted(identity: MountIdentity, attrs: Option<ObservedAttrs>)
    | Unavailable(reason: string)

  datatype UnmountReason =
    | NotMember | Relocated | SourceGone(reason: string) | SourceChanged
    | TargetCollision | AttributesChanged | AttributesDrifted

  datatype DropReason = MountGone | ForeignMountAtTarget | SourceLost(reason: string)

  datatype Action =
    | Unmount(record: MountRecord, why: UnmountReason)
    | DropRecord(record: MountRecord, reason: DropReason)
    | Mount(desired: DesiredMount)
  {
    function Key(): RecordKey {
      if Mount? then desired.key else record.key
    }

    /** Removals run in phase 0, mounts in phase 1. */
    function Phase(): nat {
      if Mount? then 1 else 0
    }
  }

  datatype Step = Step(action: Action, dependsOn: seq<nat>)

  datatype ConflictKind = ForeignMount | TargetReplaced

  datatype Finding =
    | Conflict(key: RecordKey, target: Location, kind: ConflictKind)
    | SourceUnavailable(key: RecordKey, source: Location, reason: string)
    | TargetUnavailable(key: RecordKey, target: Location, reason: string)
    | Collision(target: Location, members: set<RecordKey>, kept: Option<RecordKey>)
    | RelocationBlocked(key: RecordKey, oldTarget: Location)

  /** The record is of this member at its desired source and target. */
  predicate Agrees(r: MountRecord, d: DesiredMount) {
    r.source == d.source && r.target == d.target
  }

  /**
   Planner inputs. `order` is the order in which the source's ordered maps
   iterate over keys; every result below holds for every such enumeration.
   */
  datatype PlanInput = PlanInput(
    desired: map<RecordKey, DesiredMount>,
    state: State,
    frozen: set<GroupId>,
    sources: map<RecordKey, SourceState>,
    targets: map<Location, TargetState>,
    order: seq<RecordKey>)
  {
    ghost predicate Valid() {
      && (forall k <- desired :: desired[k].key == k)
      && (forall k <- state :: state[k].key == k)
      && (forall i, j | 0 <= i < j < |order| :: order[i] != order[j])
      && (forall k <- desired :: k in order)
      && (forall k <- state :: k in order)
    }

    /** Where `k` comes in the iteration order. */
    ghost function Position(k: RecordKey): (i: nat)
      requires k in order
      ensures i < |order| && order[i] == k
    {
      var i :| 0 <= i < |order| && order[i] == k; i
    }

    ghost predicate Precedes(k: RecordKey, k': RecordKey) {
      k in order && k' in order && Position(k) < Position(k')
    }

    function Target(l: Location): TargetState {
      if l in targets then targets[l] else TargetState.Unavailable("target was not observed")
    }

    function Source(k: RecordKey): SourceState {
      if k in sources then sources[k] else SourceState.Unavailable("source was not observed")
    }

    /** Desired, and not in a frozen group. */
    predicate Active(k: RecordKey) {
      k in desired && k.group !in frozen
    }

    predicate Rivals(k: RecordKey, k': RecordKey) {
      Active(k) && Active(k') && desired[k].target == desired[k'].target
    }

    predicate MatchesTarget(r: MountRecord) {
      Target(r.target).Mounted? && Target(r.target).identity.Matches(r.identity)
    }

    /** Already mounted at its desired target as a verified Byssus mount. */
    predicate InPlace(k: RecordKey) {
      Active(k) && k in state && Agrees(state[k], desired[k]) && MatchesTarget(state[k])
    }

    ghost predicate Sole(k: RecordKey) {
      Active(k) && forall k' {:trigger Rivals(k, k')} | Rivals(k, k') :: k' == k
    }

    /** The first rival, in key order, that is already in place. */
    ghost predicate Kept(k: RecordKey) {
      InPlace(k) && forall k' {:trigger Rivals(k', k)} | Rivals(k', k) && Precedes(k', k) :: !InPlace(k')
    }

    /** Survives collision resolution. */
    ghost predicate Accepted(k: RecordKey) {
      Sole(k) || Kept(k)
    }

    function MembersAt(l: Location): set<RecordKey> {
      set k <- desired | Active(k) && desired[k].target == l
    }

    /** A correct collision report: several members at one target, and the one kept. */
    ghost predicate IsCollision(f: Finding) {
      && f.Collision?
      && f.members == MembersAt(f.target)
      && (exists k, k' :: k in f.members && k' in f.members && k != k')
      && match f.kept
         case Some(k) => k in f.members && Kept(k)
         case None => forall k <- f.members :: !Kept(k)
    }
  }

  /** An input with its collisions resolved: `accepted` are the members to process. */
  datatype Case = Case(inp: PlanInput, accepted: set<RecordKey>) {
    ghost predicate Sound() {
      inp.Valid() && forall k :: k in accepted <==> inp.Accepted(k)
    }

    predicate Member(k: RecordKey) {
      k in accepted && k in inp.desired
    }

    /** Recorded at its desired location (rows 4-9 of the decision table). */
    predicate Staying(k: RecordKey) {
      && k in inp.state && Member(k)
      && Agrees(inp.state[k], inp.desired[k])
    }

    /** Recorded, but not desired there (rows 10-12). */
    predicate Departing(k: RecordKey) {
      k in inp.state && k.group !in inp.frozen && !Staying(k)
    }

    /** A departing record's verified mount at `l` is unmounted by this plan. */
    predicate Frees(k: RecordKey, l: Location) {
      Departing(k) && inp.state[k].target == l && inp.MatchesTarget(inp.state[k])
    }

    /** For each location that departing records free, the last of them among
        the first `n` keys. */
    function FreedUpTo(n: nat): map<Location, RecordKey>
      requires n <= |inp.order|
    {
      if n == 0 then map[]
      else
        var k := inp.order[n - 1];
        if Departing(k) && inp.MatchesTarget(inp.state[k])
        then FreedUpTo(n - 1)[inp.state[k].target := k]
        else FreedUpTo(n - 1)
    }

    function Freed(): map<Location, RecordKey> {
      FreedUpTo(|inp.order|)
    }

    predicate FreedBy(k: RecordKey, l: Location) {
      l in Freed() && Freed()[l] == k
    }

    function DepartReason(k: RecordKey): UnmountReason {
      if k in accepted then Relocated else if k in inp.desired then TargetCollision else NotMember
    }

    function DepartingRemoval(k: RecordKey): Option<Action>
      requires k in inp.state
    {
      var r := inp.state[k];
      match inp.Target(r.target)
      case NotMounted => Some(DropRecord(r, MountGone))
      case Mounted(id, _) =>
        if id.Matches(r.identity) then Some(Unmount(r, DepartReason(k)))
        else Some(DropRecord(r, ForeignMountAtTarget))
      case Unavailable(_) => None
    }

    /** The departing records, each with its removal, if it has one. */
    ghost function Departures(): map<RecordKey, Option<Action>> {
      map k <- inp.state | Departing(k) :: DepartingRemoval(k)
    }

    function StayingRemoval(k: RecordKey): Option<Action>
      requires k in inp.state && k in inp.desired
    {
      var r, d := inp.state[k], inp.desired[k];
      match inp.Target(r.target)
      case Mounted(id, attrs) =>
        if !id.Matches(r.identity) then None
        else (match inp.Source(k)
              case Unavailable(why) => Some(Unmount(r, SourceGone(why)))
              case Resolved(root) =>
                if root != r.identity.root then Some(Unmount(r, SourceChanged))
                else if r.attrs != d.attrs then Some(Unmount(r, AttributesChanged))
                else if attrs.Some? && !attrs.value.Enforce(d.attrs) then Some(Unmount(r, AttributesDrifted))
                else None)
      case NotMounted =>
        if inp.Source(k).Unavailable? then Some(DropRecord(r, SourceLost(inp.Source(k).reason))) else None
      case Unavailable(_) => None
    }

    /** The one step that removes `k`'s record, if any. */
    function Removal(k: RecordKey): Option<Action> {
      if Departing(k) then DepartingRemoval(k)
      else if Staying(k) then StayingRemoval(k)
      else None
    }

    predicate WantsMount(k: RecordKey) {
      && Member(k)
      && inp.Source(k).Resolved?
      && var t := inp.Target(inp.desired[k].target);
         if Staying(k) then
           t.NotMounted? || (Removal(k).Some? && Removal(k).value.Unmount?)
         else
           (k in inp.state ==> Removal(k).Some?) && TargetOpen(inp.desired[k].target)
    }

    /** Nothing is mounted at `l`, or what is will be unmounted. */
    predicate TargetOpen(l: Location) {
      inp.Target(l).NotMounted? || (inp.Target(l).Mounted? && l in Freed())
    }

    /** The plan calls for this action. */
    predicate Called(a: Action) {
      if a.Mount? then WantsMount(a.desired.key) && a.desired == inp.desired[a.desired.key]
      else Removal(a.record.key) == Some(a)
    }

    /** Removing `k'`'s record must succeed before `k` can be mounted: it is
        `k`'s own old record, or its unmount is the last that frees `k`'s target. */
    predicate Blocks(k': RecordKey, k: RecordKey) {
      && Member(k) && Removal(k').Some?
      && (|| k' == k
          || (!Staying(k) && inp.Target(inp.desired[k].target).Mounted? && FreedBy(k', inp.desired[k].target)))
    }

    /** The removals the mount of `k` must wait for. */
    function Needs(k: RecordKey): set<Action> {
      set k' <- inp.state | Blocks(k', k) :: Removal(k').value
    }

    /** What is reported about `k`'s departing record. */
    function DepartingFindings(k: RecordKey): set<Finding> {
      if Departing(k) && inp.Target(inp.state[k].target).Unavailable?
      then {TargetUnavailable(k, inp.state[k].target, inp.Target(inp.state[k].target).reason)}
      else {}
    }

    /** What is reported about a member recorded at its desired location. */
    function RecordedFindings(k: RecordKey): set<Finding>
      requires Staying(k)
    {
      var d := inp.desired[k];
      match inp.Target(d.target)
      case Mounted(id, _) =>
        if id.Matches(inp.state[k].identity) then {} else {Conflict(k, d.target, TargetReplaced)}
      case NotMounted =>
        if inp.Source(k).Unavailable? then {SourceUnavailable(k, d.source, inp.Source(k).reason)} else {}
      case Unavailable(why) => {TargetUnavailable(k, d.target, why)}
    }

    /** What is reported about any other member. */
    function UnrecordedFindings(k: RecordKey): set<Finding>
      requires Member(k)
    {
      if k in inp.state && Removal(k).None? then {RelocationBlocked(k, inp.state[k].target)}
      else TargetFindings(inp.desired[k])
    }

    function TargetFindings(d: DesiredMount): set<Finding> {
      match inp.Target(d.target)
      case Mounted(_, _) =>
        if d.target in Freed() then SourceFindings(d) else {Conflict(d.key, d.target, ForeignMount)}
      case NotMounted => SourceFindings(d)
      case Unavailable(why) => {TargetUnavailable(d.key, d.target, why)}
    }

    function SourceFindings(d: DesiredMount): set<Finding> {
      match inp.Source(d.key)
      case Resolved(_) => {}
      case Unavailable(why) => {SourceUnavailable(d.key, d.source, why)}
    }

    /** What is reported about `k` as a member. */
    function MemberFindings(k: RecordKey): set<Finding> {
      if Staying(k) then RecordedFindings(k)
      else if Member(k) then UnrecordedFindings(k)
      else {}
    }

    ghost predicate Reported(f: Finding) {
      || inp.IsCollision(f)
      || (exists k <- inp.state :: f in DepartingFindings(k))
      || (exists k <- inp.desired :: f in MemberFindings(k))
    }

    /** `a` must wait for `b`. */
    predicate WaitsFor(a: Action, b: Action) {
      a.Mount? && b in Needs(a.desired.key)
    }
  }

  ghost predicate Increasing(s: seq<nat>) {
    forall i, j | 0 <= i < j < |s| :: s[i] < s[j]
  }

  /** `steps` is a correct plan for `c`: exactly the actions called for, each
      once, removals first, waiting for exactly the steps they need. */
  ghost predicate IsPlan(c: Case, steps: seq<Step>) {
    && (forall i | 0 <= i < |steps| :: c.Called(steps[i].action))
    && (forall k <- c.inp.state | c.Removal(k).Some? ::
          exists i :: 0 <= i < |steps| && steps[i].action == c.Removal(k).value)
    && (forall k <- c.inp.desired | c.WantsMount(k) ::
          exists i :: 0 <= i < |steps| && steps[i].action == Mount(c.inp.desired[k]))
    && (forall i, j | 0 <= i < j < |steps| :: steps[i].action != steps[j].action)
    && (forall i, j | 0 <= i < j < |steps| :: steps[i].action.Phase() <= steps[j].action.Phase())
    && (forall i | 0 <= i < |steps| :: Increasing(steps[i].dependsOn))
    && (forall i, j | 0 <= i < |steps| && j in steps[i].dependsOn :: j < |steps|)
    && (forall i, j | 0 <= i < |steps| && 0 <= j < |steps| ::
          j in steps[i].dependsOn <==> c.WaitsFor(steps[i].action, steps[j].action))
  }
}
