/** Mount identities, attributes and records (src/identity.rs, src/state.rs, src/reconcile/plan.rs). */
module Records {
  import opened Wrappers
  import opened Names

  /** A path beneath a trusted root. */
  datatype Location = Location(root: string, path: string)

  datatype DevIno = DevIno(major: nat, minor: nat, ino: nat)

  datatype MountIdentity = MountIdentity(mntId: nat, unique: Option<nat>, root: DevIno) {
    /** Whether this observed mount is the one a `recorded` identity describes. */
    predicate Matches(recorded: MountIdentity) {
      && root == recorded.root
      && if unique.Some? && recorded.unique.Some? then unique == recorded.unique
         else mntId == recorded.mntId
    }
  }

  datatype MountAttrs = MountAttrs(readOnly: bool, noexec: bool, nosymfollow: bool)

  datatype ObservedAttrs =
    ObservedAttrs(readOnly: bool, nosuid: bool, nodev: bool, noexec: bool, nosymfollow: bool)
  {
    /** At least the configured restrictions; `nosuid` and `nodev` always. */
    predicate Enforce(attrs: MountAttrs) {
      && nosuid && nodev
      && (attrs.readOnly ==> readOnly)
      && (attrs.noexec ==> noexec)
      && (attrs.nosymfollow ==> nosymfollow)
    }
  }

  datatype MountRecord = MountRecord(
    key: RecordKey, source: Location, target: Location, identity: MountIdentity, attrs: MountAttrs)

  datatype DesiredMount = DesiredMount(
    key: RecordKey, source: Location, target: Location, attrs: MountAttrs)

  /** The state file's content and its in-memory copy: at most one record per member. */
  type State = map<RecordKey, MountRecord>
}
