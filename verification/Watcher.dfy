/** inotify watch bookkeeping (src/watcher.rs). */
module Watching {
  import opened Wrappers
  import opened Names

  /** A watch descriptor; the kernel does not reuse them. */
  type Wd = nat
  type Inode = nat

  datatype Watched = Group(id: GroupId) | SetRoot(name: Name)

  /** What adding a watch at a path meets. */
  datatype Lookup = Names(inode: Inode) | NotFound | Failed

  /** `watches`, `set_groups` and the kernel's own watch set, `kernel`. */
  datatype View = View(watches: map<Wd, Watched>, setGroups: map<GroupId, Wd>, kernel: map<Wd, Inode>, next: Wd)

  /** The label of a directory found in a set, which may come and go. */
  predicate OfSet(w: Watched) {
    w.Group? && w.id.inSet.Some?
  }

  predicate Injective(kernel: map<Wd, Inode>) {
    forall a <- kernel, b <- kernel | kernel[a] == kernel[b] :: a == b
  }

  /** No leaks: every watch labelled for a set directory is some set directory's. */
  predicate Valid(v: View) {
    && Injective(v.kernel)
    && (forall wd <- v.kernel :: wd < v.next) && (forall wd <- v.watches :: wd < v.next)
    && (forall g <- v.setGroups :: g.inSet.Some? && v.setGroups[g] < v.next)
    && (forall wd <- v.watches | OfSet(v.watches[wd]) :: wd in v.setGroups.Values)
  }

  // ----- The steps -----

  /** `inotify_add_watch`: a directory that is watched already keeps its descriptor. */
  ghost function AddWatch(v: View, i: Inode): (View, Wd) {
    if i in v.kernel.Values then
      var wd :| wd in v.kernel && v.kernel[wd] == i;
      (v, wd)
    else (v.(kernel := v.kernel[v.next := i], next := v.next + 1), v.next)
  }

  function Release(v: View, wd: Wd): View {
    if wd in v.setGroups.Values || wd !in v.watches || !OfSet(v.watches[wd]) then v
    else v.(watches := v.watches - {wd}, kernel := v.kernel - {wd})
  }

  function Forget(v: View, id: GroupId): View {
    if id in v.setGroups then Release(v.(setGroups := v.setGroups - {id}), v.setGroups[id]) else v
  }

  /** Points `id` at `wd`, releasing what it had and labelling `wd` unless it has a label. */
  function Assign(v: View, id: GroupId, wd: Wd): View {
    var v1 := v.(setGroups := v.setGroups[id := wd]);
    var v2 := if id in v.setGroups && v.setGroups[id] != wd then Release(v1, v.setGroups[id]) else v1;
    if wd in v2.watches then v2 else v2.(watches := v2.watches[wd := Group(id)])
  }

  ghost function Track(v: View, id: GroupId, at: Lookup): View {
    match at
    case Failed => v
    case NotFound => Forget(v, id)
    case Names(i) => var (v1, wd) := AddWatch(v, i); Assign(v1, id, wd)
  }

  // ----- What the steps keep -----

  /** Watches of static groups and set roots are as they were, in the table and in the kernel. */
  ghost predicate SameStatics(v: View, v': View) {
    && (forall wd <- v.watches | !OfSet(v.watches[wd]) :: wd in v'.watches && v'.watches[wd] == v.watches[wd])
    && (forall wd <- v'.watches | !OfSet(v'.watches[wd]) :: wd in v.watches && v.watches[wd] == v'.watches[wd])
    && (forall wd <- v.watches | !OfSet(v.watches[wd]) :: (wd in v.kernel <==> wd in v'.kernel) && (wd in v.kernel ==> v'.kernel[wd] == v.kernel[wd]))
  }

  /** Every other set directory keeps its watch. */
  ghost predicate OthersKept(v: View, v': View, id: GroupId) {
    && (forall g | g != id :: (g in v'.setGroups <==> g in v.setGroups) && (g in v.setGroups ==> v'.setGroups[g] == v.setGroups[g]))
    && (forall g <- v.setGroups | g != id :: Kept(v, v', v.setGroups[g]))
  }

  ghost predicate Kept(v: View, v': View, wd: Wd) {
    && (wd in v.kernel ==> wd in v'.kernel && v'.kernel[wd] == v.kernel[wd])
    && (wd in v.watches ==> wd in v'.watches && v'.watches[wd] == v.watches[wd])
  }

  /** `id` is watched at the directory its path names. */
  ghost predicate Follows(v: View, id: GroupId, i: Inode) {
    && id in v.setGroups && v.setGroups[id] in v.watches
    && v.setGroups[id] in v.kernel && v.kernel[v.setGroups[id]] == i
  }

  lemma ReleaseKeeps(v: View, v0: View, id: GroupId, wd: Wd)
    requires Valid(v0) && v == v0.(setGroups := v.setGroups) && id.inSet.Some?
    requires forall g <- v.setGroups :: g.inSet.Some? && v.setGroups[g] < v.next
    requires forall w <- v0.setGroups.Values :: w == wd || w in v.setGroups.Values
    ensures Valid(Release(v, wd)) && SameStatics(v0, Release(v, wd))
    ensures forall w <- v.setGroups.Values :: Kept(v0, Release(v, wd), w)
    ensures Release(v, wd).setGroups == v.setGroups && Release(v, wd).next == v.next
  {
  }

  lemma ForgetKeeps(v: View, id: GroupId)
    requires Valid(v) && id.inSet.Some?
    ensures var v' := Forget(v, id);
      Valid(v') && SameStatics(v, v') && OthersKept(v, v', id) && id !in v'.setGroups
  {
    if id in v.setGroups {
      var v1 := v.(setGroups := v.setGroups - {id});
      assert forall g <- v1.setGroups :: v1.setGroups[g] in v1.setGroups.Values;
      assert forall w <- v.setGroups.Values :: w == v.setGroups[id] || w in v1.setGroups.Values by {
        forall w <- v.setGroups.Values ensures w == v.setGroups[id] || w in v1.setGroups.Values {
          var g :| g in v.setGroups && v.setGroups[g] == w;
          if g != id {
            assert v1.setGroups[g] == w;
          }
        }
      }
      ReleaseKeeps(v1, v, id, v.setGroups[id]);
    }
  }

  lemma AddWatchKeeps(v: View, i: Inode)
    requires Valid(v)
    ensures var (v', wd) := AddWatch(v, i);
      && Valid(v') && v'.watches == v.watches && v'.setGroups == v.setGroups && v.next <= v'.next
      && wd in v'.kernel && v'.kernel[wd] == i
      && (forall w <- v.kernel :: w in v'.kernel && v'.kernel[w] == v.kernel[w])
      && (forall w <- v'.kernel | w < v.next :: w in v.kernel)
  {
  }

  lemma ValuesKept(m: map<GroupId, Wd>, id: GroupId, m': map<GroupId, Wd>)
    requires forall g <- m | g != id :: g in m' && m'[g] == m[g]
    ensures forall w <- m.Values :: (id in m && w == m[id]) || w in m'.Values
  {
    forall w <- m.Values ensures (id in m && w == m[id]) || w in m'.Values {
      var g :| g in m && m[g] == w;
      if g != id {
        assert m'[g] == w;
      }
    }
  }

  /** What `Assign` has once the old watch is released. */
  function Moved(v: View, id: GroupId, wd: Wd): View {
    var v1 := v.(setGroups := v.setGroups[id := wd]);
    if id in v.setGroups && v.setGroups[id] != wd then Release(v1, v.setGroups[id]) else v1
  }

  lemma MovedKeeps(v: View, id: GroupId, wd: Wd)
    requires Valid(v) && id.inSet.Some? && wd in v.kernel
    ensures var v' := Moved(v, id, wd);
      && Valid(v') && SameStatics(v, v') && OthersKept(v, v', id) && Kept(v, v', wd)
      && v'.setGroups == v.setGroups[id := wd] && wd in v'.kernel
  {
    var v1 := v.(setGroups := v.setGroups[id := wd]);
    assert v1.setGroups[id] == wd;
    assert forall g <- v1.setGroups :: v1.setGroups[g] in v1.setGroups.Values;
    ValuesKept(v.setGroups, id, v1.setGroups);
    if id in v.setGroups && v.setGroups[id] != wd {
      ReleaseKeeps(v1, v, id, v.setGroups[id]);
    }
  }

  lemma LabelKeeps(v: View, v': View, id: GroupId, wd: Wd)
    requires Valid(v) && Valid(v') && SameStatics(v, v') && OthersKept(v, v', id) && Kept(v, v', wd)
    requires wd in v'.kernel && v'.setGroups == v.setGroups[id := wd] && id.inSet.Some? && wd !in v'.watches
    ensures var v4 := v'.(watches := v'.watches[wd := Group(id)]);
      Valid(v4) && SameStatics(v, v4) && OthersKept(v, v4, id)
  {
    assert v'.setGroups[id] == wd;
  }

  lemma AssignKeeps(v: View, id: GroupId, wd: Wd)
    requires Valid(v) && id.inSet.Some? && wd in v.kernel
    ensures var v' := Assign(v, id, wd);
      Valid(v') && SameStatics(v, v') && OthersKept(v, v', id) && Follows(v', id, v.kernel[wd])
  {
    MovedKeeps(v, id, wd);
    var v2 := Moved(v, id, wd);
    if wd !in v2.watches {
      LabelKeeps(v, v2, id, wd);
    }
  }

  lemma AssignPoints(v: View, id: GroupId, wd: Wd)
    ensures Assign(v, id, wd).setGroups[id] == wd
  {
  }

  lemma AddThenAssign(v: View, v1: View, v2: View, id: GroupId)
    requires Valid(v) && SameStatics(v1, v2) && OthersKept(v1, v2, id)
    requires v1.watches == v.watches && v1.setGroups == v.setGroups
    requires forall w <- v.kernel :: w in v1.kernel && v1.kernel[w] == v.kernel[w]
    requires forall w <- v1.kernel | w < v.next :: w in v.kernel
    ensures SameStatics(v, v2) && OthersKept(v, v2, id)
  {
  }

  /** How `id` stands after its path was looked up. */
  ghost predicate Settled(v0: View, v: View, id: GroupId, at: Lookup) {
    match at
    case Names(i) => Follows(v, id, i) && (Follows(v0, id, i) ==> v.setGroups[id] == v0.setGroups[id])
    case NotFound => id !in v.setGroups
    case Failed => (id in v.setGroups <==> id in v0.setGroups) && (id in v.setGroups ==> v.setGroups[id] == v0.setGroups[id])
  }

  lemma TrackKeeps(v: View, id: GroupId, at: Lookup)
    requires Valid(v) && id.inSet.Some?
    ensures var v' := Track(v, id, at);
      Valid(v') && SameStatics(v, v') && OthersKept(v, v', id) && Settled(v, v', id, at)
  {
    match at
    case Failed =>
    case NotFound => ForgetKeeps(v, id);
    case Names(i) =>
      AddWatchKeeps(v, i);
      var (v1, wd) := AddWatch(v, i);
      AssignKeeps(v1, id, wd);
      AssignPoints(v1, id, wd);
      AddThenAssign(v, v1, Assign(v1, id, wd), id);
  }

  // ----- A whole sync -----

  /** The sync so far: `done` have been looked up, and nothing else has moved. */
  ghost predicate Synced(v0: View, v: View, current: map<GroupId, Lookup>, done: set<GroupId>) {
    && Valid(v) && SameStatics(v0, v)
    && (forall id <- done :: id in current && Settled(v0, v, id, current[id]))
    && (forall id <- current | id !in done :: Untouched(v0, v, id))
  }

  /** `id` has the watch it had, if any, and the watch is as it was. */
  ghost predicate Untouched(v0: View, v: View, id: GroupId) {
    && (id in v.setGroups <==> id in v0.setGroups)
    && (id in v0.setGroups ==> v.setGroups[id] == v0.setGroups[id] && Kept(v0, v, v0.setGroups[id]))
  }

  lemma StillUntouched(v0: View, v: View, v': View, id: GroupId, other: GroupId)
    requires Untouched(v0, v, other) && OthersKept(v, v', id) && other != id
    ensures Untouched(v0, v', other)
  {
  }

  /** Looked up after others, `id` settles as if it had been looked up first. */
  lemma SettledFromStart(v0: View, v: View, v': View, id: GroupId, at: Lookup)
    requires Untouched(v0, v, id) && Settled(v, v', id, at)
    ensures Settled(v0, v', id, at)
  {
  }

  lemma SameStaticsChain(a: View, b: View, c: View)
    requires SameStatics(a, b) && SameStatics(b, c)
    ensures SameStatics(a, c)
  {
  }

  lemma StillSettled(v0: View, v: View, v': View, id: GroupId, other: GroupId, at: Lookup)
    requires Settled(v0, v, other, at) && OthersKept(v, v', id) && other != id
    ensures Settled(v0, v', other, at)
  {
  }

  lemma SyncStep(v0: View, v: View, current: map<GroupId, Lookup>, done: set<GroupId>, id: GroupId)
    requires Synced(v0, v, current, done) && id in current && id !in done && id.inSet.Some?
    ensures Synced(v0, Track(v, id, current[id]), current, done + {id})
    ensures forall g <- Track(v, id, current[id]).setGroups :: g == id || g in v.setGroups
  {
    var v' := Track(v, id, current[id]);
    TrackKeeps(v, id, current[id]);
    SameStaticsChain(v0, v, v');
    SettledFromStart(v0, v, v', id, current[id]);
    forall other <- done ensures Settled(v0, v', other, current[other]) {
      StillSettled(v0, v, v', id, other, current[other]);
    }
    forall other <- current | other !in done + {id} ensures Untouched(v0, v', other) {
      StillUntouched(v0, v, v', id, other);
    }
  }

  lemma GoneStep(v0: View, v: View, current: map<GroupId, Lookup>, id: GroupId)
    requires Synced(v0, v, current, {}) && id !in current && id.inSet.Some?
    ensures Synced(v0, Forget(v, id), current, {})
    ensures forall g :: g in Forget(v, id).setGroups <==> g in v.setGroups && g != id
  {
    ForgetKeeps(v, id);
    SameStaticsChain(v0, v, Forget(v, id));
    forall other <- current ensures Untouched(v0, Forget(v, id), other) {
      StillUntouched(v0, v, Forget(v, id), id, other);
    }
  }

  // ----- Start-up -----

  /** Labels of static groups and set roots are on the directories those were opened as. */
  predicate LabelsOwn(v: View, home: map<Watched, Inode>) {
    forall wd <- v.watches | !OfSet(v.watches[wd]) ::
      v.watches[wd] in home && (wd in v.kernel ==> v.kernel[wd] == home[v.watches[wd]])
  }

  /** Watch `wd` reports changes of `p` at inode `i`; those of static groups and roots have labels of their own. */
  predicate WatchOf(v: View, p: Watched, i: Inode, wd: Wd) {
    Hears(v, i, wd) && (OfSet(p) || !OfSet(v.watches[wd]))
  }

  /** Watch `wd` reports changes of directory `i`, under whatever label. */
  predicate Hears(v: View, i: Inode, wd: Wd) {
    wd in v.watches && wd in v.kernel && v.kernel[wd] == i
  }

  ghost function Opened(v: View, p: Watched, i: Inode): View {
    var (v1, wd) := AddWatch(v, i);
    v1.(watches := v1.watches[wd := p])
  }

  /** The places in `home` are open and watched, and nothing else is. */
  ghost predicate AllOpen(v: View, home: map<Watched, Inode>) {
    && Valid(v) && v.setGroups == map[] && LabelsOwn(v, home)
    && (forall p <- home :: !OfSet(p) && exists wd :: WatchOf(v, p, home[p], wd))
  }

  lemma OpenedKeeps(v: View, home: map<Watched, Inode>, p: Watched, i: Inode)
    requires AllOpen(v, home) && p !in home && !OfSet(p)
    ensures AllOpen(Opened(v, p, i), home[p := i])
  {
    OpenedIsValid(v, home, p, i);
    var v', home' := Opened(v, p, i), home[p := i];
    forall q <- home' ensures !OfSet(q) && exists x :: WatchOf(v', q, home'[q], x) {
      OpenedWatches(v, home, p, i, q, home'[q]);
    }
  }

  lemma OpenedIsValid(v: View, home: map<Watched, Inode>, p: Watched, i: Inode)
    requires Valid(v) && v.setGroups == map[] && LabelsOwn(v, home) && p !in home && !OfSet(p)
    ensures var v' := Opened(v, p, i); Valid(v') && v'.setGroups == map[] && LabelsOwn(v', home[p := i])
  {
    AddWatchKeeps(v, i);
  }

  lemma OpenedWatches(v: View, home: map<Watched, Inode>, p: Watched, i: Inode, q: Watched, j: Inode)
    requires AllOpen(v, home) && p !in home && !OfSet(p) && if q == p then j == i else q in home && j == home[q]
    ensures exists x :: WatchOf(Opened(v, p, i), q, j, x)
  {
    AddWatchKeeps(v, i);
    var (v1, wd) := AddWatch(v, i);
    if q == p {
      assert WatchOf(Opened(v, p, i), p, i, wd);
    } else {
      var x :| WatchOf(v, q, home[q], x);
      assert WatchOf(Opened(v, p, i), q, j, x);
    }
  }
}
