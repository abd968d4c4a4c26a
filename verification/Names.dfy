/** Member and group names (src/name.rs). */
module Names {
  import opened Wrappers

  const MAX_NAME_LEN: nat := 255
  const MAX_SET_DEPTH: nat := 2

  predicate IsAllowed(c: char) {
    'A' <= c <= 'Z' || 'a' <= c <= 'z' || '0' <= c <= '9' || c == '.' || c == '_' || c == '-'
  }

  predicate ValidName(s: string) {
    0 < |s| <= MAX_NAME_LEN && s[0] != '.' && forall c <- s :: IsAllowed(c)
  }

  type Name = s: string | ValidName(s) witness "a"

  /** A static group (`acme`) or one found in a group set (`set/group[/subgroup]`). */
  datatype GroupId = GroupId(inSet: Option<Name>, path: seq<Name>) {
    predicate Valid() {
      if inSet.None? then |path| == 1 else 1 <= |path| <= MAX_SET_DEPTH
    }

    /** Whether this group is `prefix` or lies beneath it. */
    predicate StartsWith(prefix: GroupId) {
      inSet == prefix.inSet && prefix.path <= path
    }
  }

  datatype RecordKey = RecordKey(group: GroupId, name: Name)
}
