/** Reporting observation notes once across passes: `NoteLog` (src/reconcile/mod.rs:190-256). */
module Notes {

  /** What a note is about: a group or set label, and an entry name or "". */
  type Key = (string, string)

  type Active = map<Key, string>

  datatype Note =
    | Rejected(group: string, entry: string, reason: string)
    | InterpolationFailed(group: string, name: string, field: string, error: string)
    | MembershipDeleted(group: string)
    | MembershipUnreadable(group: string, error: string)
    | SetEntryRejected(setName: string, entry: string, reason: string)
    | SetRootDeleted(setName: string)
    | SetRootUnreadable(setName: string, error: string)
  {
    function Key(): Key {
      match this
      case Rejected(group, entry, _) => (group, entry)
      case InterpolationFailed(group, name, _, _) => (group, name)
      case MembershipDeleted(group) => (group, "")
      case MembershipUnreadable(group, _) => (group, "")
      case SetEntryRejected(s, entry, _) => (SetLabel(s), entry)
      case SetRootDeleted(s) => (SetLabel(s), "")
      case SetRootUnreadable(s, _) => (SetLabel(s), "")
    }

    function Detail(): string {
      match this
      case Rejected(_, _, reason) => reason
      case InterpolationFailed(_, _, field, error) => field + " template: " + error
      case MembershipDeleted(_) => "deleted"
      case MembershipUnreadable(_, error) => error
      case SetEntryRejected(_, _, reason) => reason
      case SetRootDeleted(_) => "deleted"
      case SetRootUnreadable(_, error) => error
    }
  }

  function SetLabel(name: string): string {
    name + "/*"
  }

  /** What one pass observed. */
  datatype Seen = Seen(members: set<string>, scannedSets: set<string>, notes: seq<Note>) {
    ghost predicate Valid() {
      forall i, j | 0 <= i < j < |notes| :: notes[i].Key() != notes[j].Key()
    }

    /** The groups and sets this pass looked at. */
    ghost predicate Examined(what: string) {
      || what in members
      || (exists s <- scannedSets :: SetLabel(s) == what)
      || (exists n <- notes :: n.Key().0 == what)
    }

    ghost predicate Noted(k: Key) {
      exists n <- notes :: n.Key() == k
    }
  }

  datatype NoteEvent = Raised(note: Note) | Cleared(group: string, subject: string) {
    function Key(): Key {
      if Raised? then note.Key() else (group, subject)
    }
  }

  predicate Current(active: Active, n: Note) {
    n.Key() in active && active[n.Key()] == n.Detail()
  }

  /** Which events a pass must emit. */
  ghost predicate Called(active: Active, seen: Seen, e: NoteEvent) {
    match e
    case Raised(n) => n in seen.notes && !Current(active, n)
    case Cleared(g, s) => (g, s) in active && !seen.Noted((g, s)) && seen.Examined(g)
  }

  /** Exactly the events called for, each once. */
  ghost predicate IsReport(active: Active, seen: Seen, events: seq<NoteEvent>) {
    && (forall i | 0 <= i < |events| :: Called(active, seen, events[i]))
    && (forall e | Called(active, seen, e) :: e in events)
    && (forall i, j | 0 <= i < j < |events| :: events[i] != events[j])
  }

  /** The active notes after a pass: those noted now, and those of groups nobody looked at. */
  ghost predicate IsNext(active: Active, seen: Seen, next: Active) {
    && (forall n <- seen.notes :: Current(next, n))
    && (forall k <- active | !seen.Noted(k) && !seen.Examined(k.0) :: k in next && next[k] == active[k])
    && (forall k <- next :: seen.Noted(k) || (k in active && !seen.Examined(k.0)))
  }

  /** `current` holds exactly what `notes` say. */
  ghost predicate IsNoted(notes: seq<Note>, current: Active) {
    && (forall n <- notes :: Current(current, n))
    && (forall k <- current :: exists n <- notes :: n.Key() == k)
  }

  /** `events` raise exactly what is new in `notes`. */
  ghost predicate IsRaised(active: Active, notes: seq<Note>, events: seq<NoteEvent>) {
    && (forall i | 0 <= i < |events| ::
          events[i].Raised? && events[i].note in notes && !Current(active, events[i].note))
    && (forall n <- notes | !Current(active, n) :: Raised(n) in events)
    && (forall i, j | 0 <= i < j < |events| :: events[i] != events[j])
  }

  /** The second half, over the keys not in `todo`: notes no longer there are cleared
      if somebody looked, kept otherwise. */
  ghost predicate IsCleared(active: Active, noted: Active, examined: set<string>, todo: set<Key>,
                            events: seq<NoteEvent>, current: Active)
  {
    && (forall k <- noted :: k in current && current[k] == noted[k])
    && (forall k <- active | k !in todo && k !in noted && k.0 !in examined :: k in current && current[k] == active[k])
    && (forall k <- current | k !in noted :: k in active && k !in todo && k.0 !in examined)
    && (forall i | 0 <= i < |events| ::
          && events[i].Cleared? && events[i].Key() in active && events[i].Key() !in todo
          && events[i].Key() !in noted && events[i].group in examined)
    && (forall k <- active | k !in todo && k !in noted && k.0 in examined :: Cleared(k.0, k.1) in events)
    && (forall i, j | 0 <= i < j < |events| :: events[i] != events[j])
  }

  lemma RaiseNext(active: Active, notes: seq<Note>, n: Note, events: seq<NoteEvent>)
    requires n !in notes && IsRaised(active, notes, events)
    ensures IsRaised(active, notes + [n], if Current(active, n) then events else events + [Raised(n)])
  {
  }

  lemma NoteNext(notes: seq<Note>, n: Note, current: Active)
    requires (forall m <- notes :: m.Key() != n.Key()) && IsNoted(notes, current)
    ensures IsNoted(notes + [n], current[n.Key() := n.Detail()])
  {
    var notes', current' := notes + [n], current[n.Key() := n.Detail()];
    forall k | k in current' ensures exists m <- notes' :: m.Key() == k {
      if k == n.Key() {
        assert n in notes';
      } else {
        var m :| m in notes && m.Key() == k;
        assert m in notes';
      }
    }
  }

  method RaiseNew(active: Active, seen: Seen) returns (events: seq<NoteEvent>, current: Active)
    requires seen.Valid()
    ensures IsRaised(active, seen.notes, events) && IsNoted(seen.notes, current)
  {
    events, current := [], map[];
    for i := 0 to |seen.notes|
      invariant IsRaised(active, seen.notes[..i], events) && IsNoted(seen.notes[..i], current)
    {
      var n := seen.notes[i];
      assert seen.notes[..i + 1] == seen.notes[..i] + [n];
      RaiseNext(active, seen.notes[..i], n, events);
      NoteNext(seen.notes[..i], n, current);
      if n.Key() !in active || active[n.Key()] != n.Detail() {
        events := events + [Raised(n)];
      }
      current := current[n.Key() := n.Detail()];
    }
    assert seen.notes[..|seen.notes|] == seen.notes;
  }

  method ClearOld(active: Active, noted: Active, examined: set<string>) returns (events: seq<NoteEvent>, current: Active)
    ensures IsCleared(active, noted, examined, {}, events, current)
  {
    events, current := [], noted;
    var todo := active.Keys;
    while todo != {}
      invariant todo <= active.Keys
      invariant IsCleared(active, noted, examined, todo, events, current)
    {
      var k :| k in todo;
      todo := todo - {k};
      if k !in noted {
        if k.0 in examined {
          assert Cleared(k.0, k.1).Key() == k;
          events := events + [Cleared(k.0, k.1)];
        } else {
          current := current[k := active[k]];
        }
      }
    }
  }

  method Labels(seen: Seen) returns (labels: set<string>)
    ensures forall l :: l in labels <==> seen.Examined(l)
  {
    labels := seen.members + (set s <- seen.scannedSets :: SetLabel(s)) + (set n <- seen.notes :: n.Key().0);
  }

  lemma HalvesAreReport(active: Active, seen: Seen, examined: set<string>, raised: seq<NoteEvent>, noted: Active,
                        cleared: seq<NoteEvent>, current: Active)
    requires seen.Valid() && (forall l :: l in examined <==> seen.Examined(l))
    requires IsRaised(active, seen.notes, raised) && IsNoted(seen.notes, noted)
    requires IsCleared(active, noted, examined, {}, cleared, current)
    ensures IsReport(active, seen, raised + cleared) && IsNext(active, seen, current)
  {
    assert forall k :: k in noted <==> seen.Noted(k);
    HalvesAreCalled(active, seen, examined, raised, noted, cleared, current);
    CallsAreInHalves(active, seen, examined, raised, noted, cleared, current);
    HalvesAreDistinct(active, seen, examined, raised, noted, cleared, current);
    HalvesAreNext(active, seen, examined, noted, cleared, current);
  }

  lemma CallsAreInHalves(active: Active, seen: Seen, examined: set<string>, raised: seq<NoteEvent>, noted: Active,
                         cleared: seq<NoteEvent>, current: Active)
    requires seen.Valid() && (forall l :: l in examined <==> seen.Examined(l)) && (forall k :: k in noted <==> seen.Noted(k))
    requires IsRaised(active, seen.notes, raised) && IsCleared(active, noted, examined, {}, cleared, current)
    ensures forall e | Called(active, seen, e) :: e in raised + cleared
  {
    forall e | Called(active, seen, e) ensures e in raised + cleared {
      if e.Cleared? { assert e == Cleared(e.Key().0, e.Key().1); }
    }
  }

  lemma HalvesAreDistinct(active: Active, seen: Seen, examined: set<string>, raised: seq<NoteEvent>, noted: Active,
                          cleared: seq<NoteEvent>, current: Active)
    requires IsRaised(active, seen.notes, raised) && IsCleared(active, noted, examined, {}, cleared, current)
    ensures forall i, j | 0 <= i < j < |raised + cleared| :: (raised + cleared)[i] != (raised + cleared)[j]
  {
  }

  lemma HalvesAreNext(active: Active, seen: Seen, examined: set<string>, noted: Active, cleared: seq<NoteEvent>, current: Active)
    requires seen.Valid() && (forall l :: l in examined <==> seen.Examined(l)) && (forall k :: k in noted <==> seen.Noted(k))
    requires IsNoted(seen.notes, noted) && IsCleared(active, noted, examined, {}, cleared, current)
    ensures IsNext(active, seen, current)
  {
  }

  lemma HalvesAreCalled(active: Active, seen: Seen, examined: set<string>, raised: seq<NoteEvent>, noted: Active,
                        cleared: seq<NoteEvent>, current: Active)
    requires seen.Valid() && (forall l :: l in examined <==> seen.Examined(l)) && (forall k :: k in noted <==> seen.Noted(k))
    requires IsRaised(active, seen.notes, raised) && IsCleared(active, noted, examined, {}, cleared, current)
    ensures forall i | 0 <= i < |raised + cleared| :: Called(active, seen, (raised + cleared)[i])
  {
  }

  class NoteLog {
    var active: Active

    constructor ()
      ensures active == map[]
    {
      active := map[];
    }

    /** Updates the active notes from a pass and returns what changed. */
    method Update(seen: Seen) returns (events: seq<NoteEvent>)
      requires seen.Valid()
      modifies this
      ensures IsNext(old(active), seen, active)
      ensures IsReport(old(active), seen, events)
    {
      var examined := Labels(seen);
      var raised, noted := RaiseNew(active, seen);
      var cleared, current := ClearOld(active, noted, examined);
      HalvesAreReport(active, seen, examined, raised, noted, cleared, current);
      active := current;
      events := raised + cleared;
    }
  }

  // ----- Replaying the events -----

  function Replay(active: Active, events: seq<NoteEvent>): Active {
    if events == [] then active
    else
      var before := Replay(active, events[..|events| - 1]);
      match events[|events| - 1]
      case Raised(n) => before[n.Key() := n.Detail()]
      case Cleared(g, s) => before - {(g, s)}
  }

  /** Events about other keys leave `k` alone. */
  lemma {:induction false} ReplayOthers(active: Active, events: seq<NoteEvent>, k: Key)
    requires forall i | 0 <= i < |events| :: events[i].Key() != k
    ensures (k in Replay(active, events) <==> k in active) && (k in active ==> Replay(active, events)[k] == active[k])
    decreases |events|
  {
    if events != [] {
      assert forall i | 0 <= i < |events| - 1 :: events[..|events| - 1][i] == events[i];
      ReplayOthers(active, events[..|events| - 1], k);
    }
  }

  /** The only event about `k` decides it. */
  lemma {:induction false} ReplayOnly(active: Active, events: seq<NoteEvent>, i: nat)
    requires i < |events| && forall j | 0 <= j < |events| && j != i :: events[j].Key() != events[i].Key()
    ensures match events[i]
      case Raised(n) => Current(Replay(active, events), n)
      case Cleared(g, s) => (g, s) !in Replay(active, events)
    decreases |events|
  {
    var before := events[..|events| - 1];
    assert forall j | 0 <= j < |before| :: before[j] == events[j];
    if i < |before| {
      ReplayOnly(active, before, i);
    }
  }

  /** A pass emits at most one event about each key. */
  lemma OneEventPerKey(active: Active, seen: Seen, events: seq<NoteEvent>, i: nat, j: nat)
    requires seen.Valid() && IsReport(active, seen, events)
    requires i < |events| && j < |events| && events[i].Key() == events[j].Key()
    ensures i == j
  {
    if events[i].Raised? && events[j].Raised? {
      var a :| 0 <= a < |seen.notes| && seen.notes[a] == events[i].note;
      var b :| 0 <= b < |seen.notes| && seen.notes[b] == events[j].note;
    }
  }

  /** Replaying a pass's events over what was active gives what is active. */
  lemma ReplayPass(active: Active, seen: Seen, events: seq<NoteEvent>, next: Active)
    requires seen.Valid() && IsReport(active, seen, events) && IsNext(active, seen, next)
    ensures Replay(active, events) == next
  {
    forall k ensures (k in Replay(active, events) <==> k in next) && (k in next ==> Replay(active, events)[k] == next[k]) {
      ReplayKey(active, seen, events, next, k);
    }
  }

  lemma ReplayKey(active: Active, seen: Seen, events: seq<NoteEvent>, next: Active, k: Key)
    requires seen.Valid() && IsReport(active, seen, events) && IsNext(active, seen, next)
    ensures (k in Replay(active, events) <==> k in next) && (k in next ==> Replay(active, events)[k] == next[k])
  {
    if i :| 0 <= i < |events| && events[i].Key() == k {
      forall j | 0 <= j < |events| && j != i ensures events[j].Key() != k {
        if events[j].Key() == k { OneEventPerKey(active, seen, events, i, j); }
      }
      ReplayOnly(active, events, i);
    } else {
      ReplayOthers(active, events, k);
      NoEventMeansSame(active, seen, events, next, k);
    }
  }

  lemma NoEventMeansSame(active: Active, seen: Seen, events: seq<NoteEvent>, next: Active, k: Key)
    requires seen.Valid() && IsReport(active, seen, events) && IsNext(active, seen, next)
    requires forall i | 0 <= i < |events| :: events[i].Key() != k
    ensures (k in next <==> k in active) && (k in next ==> next[k] == active[k])
  {
    if seen.Noted(k) {
      var n :| n in seen.notes && n.Key() == k;
      assert !Called(active, seen, Raised(n));
    } else {
      assert Cleared(k.0, k.1).Key() == k;
      assert !Called(active, seen, Cleared(k.0, k.1));
    }
  }

  // ----- Any number of passes -----

  /** The log after each pass, with the events each pass emitted. */
  ghost predicate IsHistory(log: seq<Active>, passes: seq<Seen>, events: seq<seq<NoteEvent>>) {
    && |log| == |passes| + 1 && |events| == |passes| && log[0] == map[]
    && (forall i | 0 <= i < |passes| ::
          passes[i].Valid() && IsReport(log[i], passes[i], events[i]) && IsNext(log[i], passes[i], log[i + 1]))
  }

  lemma PassOfHistory(log: seq<Active>, passes: seq<Seen>, events: seq<seq<NoteEvent>>, i: nat)
    requires IsHistory(log, passes, events) && i < |passes|
    ensures passes[i].Valid() && IsReport(log[i], passes[i], events[i]) && IsNext(log[i], passes[i], log[i + 1])
  {
  }

  function Concat(events: seq<seq<NoteEvent>>): seq<NoteEvent> {
    if events == [] then [] else Concat(events[..|events| - 1]) + events[|events| - 1]
  }

  lemma {:induction false} ReplayConcat(active: Active, a: seq<NoteEvent>, b: seq<NoteEvent>)
    ensures Replay(active, a + b) == Replay(Replay(active, a), b)
    decreases |b|
  {
    if b == [] {
      assert a + b == a;
    } else {
      assert (a + b)[..|a + b| - 1] == a + b[..|b| - 1];
      ReplayConcat(active, a, b[..|b| - 1]);
    }
  }

  /** Replaying everything ever emitted gives the active notes. */
  lemma {:induction false} ReplayHistory(log: seq<Active>, passes: seq<Seen>, events: seq<seq<NoteEvent>>, n: nat)
    requires IsHistory(log, passes, events) && n <= |passes|
    ensures Replay(map[], Concat(events[..n])) == log[n]
  {
    if n > 0 {
      ReplayHistory(log, passes, events, n - 1);
      assert events[..n][..n - 1] == events[..n - 1] && events[..n][n - 1] == events[n - 1];
      ReplayConcat(map[], Concat(events[..n - 1]), events[n - 1]);
      ReplayPass(log[n - 1], passes[n - 1], events[n - 1], log[n]);
    }
  }

  /** In this pass the note is there unchanged, or nobody looked at its group. */
  ghost predicate Persists(n: Note, seen: Seen) {
    if seen.Noted(n.Key()) then exists m <- seen.notes :: m.Key() == n.Key() && m.Detail() == n.Detail()
    else !seen.Examined(n.Key().0)
  }

  ghost predicate Silent(events: seq<NoteEvent>, k: Key) {
    forall e <- events :: e.Key() != k
  }

  lemma {:induction false} StaysCurrent(log: seq<Active>, passes: seq<Seen>, events: seq<seq<NoteEvent>>, n: Note, lo: nat, hi: nat)
    requires IsHistory(log, passes, events) && lo <= hi <= |passes| && Current(log[lo], n)
    requires forall i | lo <= i < hi :: Persists(n, passes[i])
    ensures Current(log[hi], n)
    decreases hi - lo
  {
    if lo < hi {
      StaysCurrent(log, passes, events, n, lo, hi - 1);
      PersistsInHistory(log, passes, events, n, hi - 1);
    }
  }

  /** A note once active stays active, without a further event, while it persists:
      it was raised once and is raised again only after it was cleared or changed. */
  lemma RaisedOnce(log: seq<Active>, passes: seq<Seen>, events: seq<seq<NoteEvent>>, n: Note, lo: nat, hi: nat)
    requires IsHistory(log, passes, events) && lo <= hi <= |passes| && Current(log[lo], n)
    requires forall i | lo <= i < hi :: Persists(n, passes[i])
    ensures Current(log[hi], n)
    ensures forall i {:trigger events[i]} | lo <= i < hi :: Silent(events[i], n.Key())
  {
    StaysCurrent(log, passes, events, n, lo, hi);
    forall i {:trigger events[i]} | lo <= i < hi ensures Silent(events[i], n.Key()) {
      StaysCurrent(log, passes, events, n, lo, i);
      PersistsInHistory(log, passes, events, n, i);
    }
  }

  lemma PersistsInHistory(log: seq<Active>, passes: seq<Seen>, events: seq<seq<NoteEvent>>, n: Note, i: nat)
    requires IsHistory(log, passes, events) && i < |passes| && Current(log[i], n) && Persists(n, passes[i])
    ensures Current(log[i + 1], n) && Silent(events[i], n.Key())
  {
    PassOfHistory(log, passes, events, i);
    PersistsQuietly(log[i], passes[i], events[i], log[i + 1], n);
  }

  lemma PersistsQuietly(active: Active, seen: Seen, events: seq<NoteEvent>, next: Active, n: Note)
    requires seen.Valid() && IsReport(active, seen, events) && IsNext(active, seen, next)
    requires Current(active, n) && Persists(n, seen)
    ensures Current(next, n) && Silent(events, n.Key())
  {
    forall e <- events ensures e.Key() != n.Key() {
      assert Called(active, seen, e);
    }
  }

  /** A note of a group nobody looked at is never cleared. */
  lemma UnexaminedKept(active: Active, seen: Seen, events: seq<NoteEvent>, next: Active, k: Key)
    requires seen.Valid() && IsReport(active, seen, events) && IsNext(active, seen, next)
    requires k in active && !seen.Examined(k.0)
    ensures k in next && next[k] == active[k] && Cleared(k.0, k.1) !in events
  {
  }

  /** This pass looked at the group, or at the set, that `what` stands for, or noted something of it. */
  ghost predicate LookedAt(what: string, seen: Seen) {
    || what in seen.members
    || (exists s <- seen.scannedSets :: what == s + "/*")
    || (exists n <- seen.notes :: About(n) == what)
  }

  /** The group or set a note is about. */
  function About(n: Note): string {
    match n
    case Rejected(group, _, _) => group
    case InterpolationFailed(group, _, _, _) => group
    case MembershipDeleted(group) => group
    case MembershipUnreadable(group, _) => group
    case SetEntryRejected(s, _, _) => s + "/*"
    case SetRootDeleted(s) => s + "/*"
    case SetRootUnreadable(s, _) => s + "/*"
  }

  /** The entry a note is about, or "" for the directory itself. */
  function Entry(n: Note): string {
    match n
    case Rejected(_, entry, _) => entry
    case InterpolationFailed(_, name, _, _) => name
    case SetEntryRejected(_, entry, _) => entry
    case _ => ""
  }

  lemma LookedAtIsExamined(what: string, seen: Seen)
    ensures LookedAt(what, seen) <==> seen.Examined(what)
  {
    assert forall n <- seen.notes :: n.Key().0 == About(n);
    assert forall s <- seen.scannedSets :: SetLabel(s) == s + "/*";
  }

  /**
   What is active after a pass, entry by entry: what the pass noted about it; or, if it noted nothing
   about it, what was active before, but only of groups and sets it did not look at. An entry is
   heard of once if that changes what is active about it, and not otherwise.
   */
  lemma ActiveExactly(active: Active, seen: Seen, events: seq<NoteEvent>, next: Active, what: string, entry: string)
    requires seen.Valid() && IsReport(active, seen, events) && IsNext(active, seen, next)
    ensures (exists n <- seen.notes :: About(n) == what && Entry(n) == entry) ==>
      exists n <- seen.notes :: About(n) == what && Entry(n) == entry && (what, entry) in next && next[(what, entry)] == n.Detail()
    ensures !(exists n <- seen.notes :: About(n) == what && Entry(n) == entry) ==>
      if LookedAt(what, seen) then (what, entry) !in next
      else ((what, entry) in next <==> (what, entry) in active) && ((what, entry) in next ==> next[(what, entry)] == active[(what, entry)])
  {
    assert forall n <- seen.notes :: n.Key() == (About(n), Entry(n));
    LookedAtIsExamined(what, seen);
    if n :| n in seen.notes && About(n) == what && Entry(n) == entry {
      assert Current(next, n);
    } else {
      assert !seen.Noted((what, entry));
    }
  }

  /** An event about an entry is emitted iff what is active about it changes. */
  lemma HeardIffChanged(active: Active, seen: Seen, events: seq<NoteEvent>, next: Active, k: Key)
    requires seen.Valid() && IsReport(active, seen, events) && IsNext(active, seen, next)
    ensures (exists e <- events :: e.Key() == k) <==> (k in active) != (k in next) || (k in next && active[k] != next[k])
  {
    if e :| e in events && e.Key() == k {
      assert Called(active, seen, e);
    } else {
      NoEventMeansSame(active, seen, events, next, k);
    }
  }
}
