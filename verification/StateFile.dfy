/** The state file's content: encoding and decoding records (src/state.rs:165-232). */
module StateFile {
  import opened Wrappers
  import opened Names
  import opened Records
  import opened Texts
  import opened GroupNames

  const STATE_VERSION: nat := 1

  /** One element of the file's `mounts` list, as the text format carries it. */
  datatype Row = Row(
    group: string, name: string, sourceRoot: string, source: string, targetRoot: string, target: string,
    identity: MountIdentity, attrs: MountAttrs)

  /** The document after the text format's own parsing; `version` may be missing. */
  datatype Document = Document(version: Option<nat>, mounts: seq<Row>)

  datatype DecodeError = UnsupportedVersion(version: nat) | Malformed

  function ToRow(r: MountRecord): Row {
    Row(ShowGroup(r.key.group), r.key.name, r.source.root, r.source.path, r.target.root, r.target.path, r.identity, r.attrs)
  }

  /** Reading one row's typed fields. */
  function FromRow(row: Row): Result<MountRecord, DecodeError> {
    match (ParseGroup(row.group), NewName(row.name), NewAbs(row.sourceRoot), NewAbs(row.targetRoot))
    case (Ok(group), Ok(name), Ok(sourceRoot), Ok(targetRoot)) =>
      Ok(MountRecord(RecordKey(group, name), Location(sourceRoot, row.source), Location(targetRoot, row.target), row.identity, row.attrs))
    case _ => Err(Malformed)
  }

  function FromRows(rows: seq<Row>): Result<seq<MountRecord>, DecodeError> {
    if rows == [] then Ok([])
    else
      match (FromRow(rows[0]), FromRows(rows[1..]))
      case (Ok(r), Ok(rest)) => Ok([r] + rest)
      case _ => Err(Malformed)
  }

  predicate Clean(r: MountRecord) {
    CleanRelative(r.source.path) && CleanRelative(r.target.path)
  }

  /** Records as the program builds them: typed fields and clean paths. */
  predicate Storable(r: MountRecord) {
    r.key.group.Valid() && ValidAbs(r.source.root) && ValidAbs(r.target.root) && Clean(r)
  }

  predicate StorableState(s: State) {
    forall k <- s :: s[k].key == k && Storable(s[k])
  }

  /** `order` lists the keys of `s`, each once; the program's map is sorted by key. */
  predicate Lists(order: seq<RecordKey>, s: State) {
    && (forall k <- order :: k in s)
    && (forall k <- s :: k in order)
    && (forall i, j | 0 <= i < j < |order| :: order[i] != order[j])
  }

  function Encode(s: State, order: seq<RecordKey>): Document
    requires Lists(order, s)
  {
    Document(Some(STATE_VERSION), seq(|order|, i requires 0 <= i < |order| => assert order[i] in order; ToRow(s[order[i]])))
  }

  /** What the rows say together, if they are clean and no two share a key. */
  predicate Consistent(rs: seq<MountRecord>) {
    && (forall r <- rs :: Clean(r))
    && (forall i, j | 0 <= i < j < |rs| :: rs[i].key != rs[j].key)
  }

  /** `s` holds the records of `rs` under their keys, and nothing else. */
  predicate Holds(s: State, rs: seq<MountRecord>) {
    && (forall i | 0 <= i < |rs| :: rs[i].key in s && s[rs[i].key] == rs[i])
    && (forall k <- s :: exists i | 0 <= i < |rs| :: rs[i].key == k)
  }

  /** Reads a document: the version first, then every record, then paths and duplicates. */
  method Decode(doc: Document) returns (r: Result<State, DecodeError>)
    ensures doc.version.None? ==> r == Err(Malformed)
    ensures doc.version.Some? && doc.version.value != STATE_VERSION ==> r == Err(UnsupportedVersion(doc.version.value))
    ensures doc.version == Some(STATE_VERSION) ==>
      var rows := FromRows(doc.mounts);
      if rows.Ok? && Consistent(rows.value) then r.Ok? && Holds(r.value, rows.value) else r == Err(Malformed)
    ensures r.Ok? ==> |r.value| == |doc.mounts|
    ensures r.Ok? ==> forall k <- r.value ::
      && r.value[k].key == k && k.group.Valid() && ValidAbs(r.value[k].source.root) && ValidAbs(r.value[k].target.root)
      && CleanRelative(r.value[k].source.path) && CleanRelative(r.value[k].target.path)
  {
    if doc.version.None? {
      return Err(Malformed);
    }
    if doc.version.value != STATE_VERSION {
      return Err(UnsupportedVersion(doc.version.value));
    }
    var rows := FromRows(doc.mounts);
    if rows.Err? {
      return Err(rows.error);
    }
    RowsAreTyped(doc.mounts);
    r := Collect(rows.value);
  }

  lemma {:induction false} RowsAreTyped(rows: seq<Row>)
    requires FromRows(rows).Ok?
    ensures |FromRows(rows).value| == |rows|
    ensures forall r <- FromRows(rows).value :: r.key.group.Valid() && ValidAbs(r.source.root) && ValidAbs(r.target.root)
  {
    if rows != [] {
      RowsAreTyped(rows[1..]);
      RowIsExact(rows[0], FromRow(rows[0]).value);
    }
  }

  method Collect(rs: seq<MountRecord>) returns (r: Result<State, DecodeError>)
    ensures if Consistent(rs) then r.Ok? && Holds(r.value, rs) else r == Err(Malformed)
    ensures r.Ok? ==> |r.value| == |rs|
    ensures r.Ok? ==> forall k <- r.value ::
      r.value[k] in rs && r.value[k].key == k && CleanRelative(r.value[k].source.path) && CleanRelative(r.value[k].target.path)
  {
    var state: State := map[];
    for i := 0 to |rs|
      invariant Consistent(rs[..i]) && Holds(state, rs[..i]) && |state| == i
      invariant forall k <- state ::
        state[k] in rs && state[k].key == k && CleanRelative(state[k].source.path) && CleanRelative(state[k].target.path)
    {
      var record := rs[i];
      assert rs[i] in rs;
      if !CleanRelative(record.source.path) || !CleanRelative(record.target.path) {
        return Err(Malformed);
      }
      if record.key in state {
        var j :| 0 <= j < |rs[..i]| && rs[..i][j].key == record.key;
        assert rs[j].key == rs[i].key;
        return Err(Malformed);
      }
      CollectStep(state, rs, i);
      state := state[record.key := record];
    }
    assert rs[..|rs|] == rs;
    r := Ok(state);
  }

  lemma CollectStep(s: State, rs: seq<MountRecord>, i: nat)
    requires i < |rs| && Consistent(rs[..i]) && Holds(s, rs[..i]) && Clean(rs[i]) && rs[i].key !in s
    ensures Consistent(rs[..i + 1]) && Holds(s[rs[i].key := rs[i]], rs[..i + 1])
  {
    var before, after := rs[..i], rs[..i + 1];
    assert after == before + [rs[i]];
    assert forall j | 0 <= j < i :: after[j] == before[j] && before[j].key in s;
    var t := s[rs[i].key := rs[i]];
    forall k <- t ensures exists j | 0 <= j < |after| :: after[j].key == k {
      if k == rs[i].key {
        assert after[i].key == k;
      } else {
        var j :| 0 <= j < |before| && before[j].key == k;
        assert after[j].key == k;
      }
    }
  }

  // ----- Round trip -----

  lemma RowRoundTrip(r: MountRecord)
    requires Storable(r)
    ensures FromRow(ToRow(r)) == Ok(r)
  {
    GroupRoundTrip(ShowGroup(r.key.group), r.key.group);
    AbsRoundTrip(r.source.root, r.source.root);
    AbsRoundTrip(r.target.root, r.target.root);
  }

  /** `raw` names the absolute path `p`: it is written so, with at most one trailing '/'. */
  predicate WrittenAs(raw: string, p: string) {
    ValidAbs(p) && (raw == p || (raw == p + "/" && p != "/"))
  }

  /** A row is read as a record iff each of its fields is the record's field of that name. */
  lemma RowIsExact(row: Row, r: MountRecord)
    ensures FromRow(row) == Ok(r) <==>
      && row.group == ShowGroup(r.key.group) && r.key.group.Valid() && row.name == r.key.name
      && WrittenAs(row.sourceRoot, r.source.root) && row.source == r.source.path
      && WrittenAs(row.targetRoot, r.target.root) && row.target == r.target.path
      && row.identity == r.identity && row.attrs == r.attrs
  {
    GroupRoundTrip(row.group, r.key.group);
    AbsRoundTrip(row.sourceRoot, r.source.root);
    AbsRoundTrip(row.targetRoot, r.target.root);
  }

  lemma {:induction false} RowsRoundTrip(rs: seq<MountRecord>, rows: seq<Row>)
    requires |rows| == |rs| && forall i | 0 <= i < |rs| :: Storable(rs[i]) && rows[i] == ToRow(rs[i])
    ensures FromRows(rows) == Ok(rs)
  {
    if rs != [] {
      RowRoundTrip(rs[0]);
      RowsRoundTrip(rs[1..], rows[1..]);
      assert rs == [rs[0]] + rs[1..];
    }
  }

  /** At most one state holds a list of records. */
  lemma HoldsIsUnique(s: State, t: State, rs: seq<MountRecord>)
    requires Holds(s, rs) && Holds(t, rs)
    ensures s == t
  {
    assert forall k <- s :: k in t && s[k] == t[k];
    assert forall k <- t :: k in s;
  }

  lemma ListedRecords(s: State, order: seq<RecordKey>, rs: seq<MountRecord>)
    requires StorableState(s) && Lists(order, s)
    requires |rs| == |order| && forall i | 0 <= i < |order| :: order[i] in s && rs[i] == s[order[i]]
    ensures Consistent(rs) && Holds(s, rs) && forall i | 0 <= i < |rs| :: Storable(rs[i])
  {
    forall k <- s ensures exists i | 0 <= i < |rs| :: rs[i].key == k {
      var i :| 0 <= i < |order| && order[i] == k;
      assert rs[i].key == k;
    }
  }

  /** Decoding what was encoded gives back the state, whatever order the keys come in. */
  lemma DecodeEncode(s: State, order: seq<RecordKey>) returns (rs: seq<MountRecord>)
    requires StorableState(s) && Lists(order, s)
    ensures var doc := Encode(s, order);
      && doc.version == Some(STATE_VERSION) && FromRows(doc.mounts) == Ok(rs)
      && Consistent(rs) && Holds(s, rs)
  {
    assert forall i | 0 <= i < |order| :: order[i] in order;
    rs := seq(|order|, i requires 0 <= i < |order| => s[order[i]]);
    ListedRecords(s, order, rs);
    RowsRoundTrip(rs, Encode(s, order).mounts);
  }

  /** A save followed by a load, as the program runs them. */
  method SaveAndLoad(s: State, order: seq<RecordKey>) returns (r: Result<State, DecodeError>)
    requires StorableState(s) && Lists(order, s)
    ensures r == Ok(s)
  {
    ghost var rs := DecodeEncode(s, order);
    r := Decode(Encode(s, order));
    HoldsIsUnique(s, r.value, rs);
  }
}
