/**
 How changes to membership directories wake the daemon: the inotify queue, the
 debounced pending pass, passes that list, watch and read, and reloads
 (src/daemon.rs:147-345, src/watcher.rs, src/runtime.rs:254-383, src/reconcile/mod.rs:76-114).
 Times are in milliseconds.
 */
module Wakeup {
  import opened Wrappers
  import opened Names
  import opened Watching
  import opened WatcherLoops

  const DEBOUNCE: nat := 150
  const MAX_DEBOUNCE: nat := 1000

  /** A pass that inotify events asked for. */
  datatype Pending = Pending(first: nat, due: nat)

  function Min(a: nat, b: nat): nat {
    if a < b then a else b
  }

  /** Each burst of changes puts the pass off, but never beyond the bound. */
  function Debounced(p: Option<Pending>, now: nat): Pending {
    var first := if p.Some? then p.value.first else now;
    Pending(first, Min(now + DEBOUNCE, first + MAX_DEBOUNCE))
  }

  /** A directory's entries; every change makes a new version. */
  datatype Dir = Dir(version: nat, entries: map<Name, Inode>)

  datatype Phase = Idle | Listing | Reading

  /**
   `home`: the directory each static group, set root and discovered directory was opened
   as. `seen`: what its last read began with. `steady`: those with one and the same watch
   since that read. `todo`: what the current pass has still to read. `depths`: how many
   levels each set has. `displaced`: roots whose path no longer names the directory they
   were opened as, because a directory above was renamed.
   */
  datatype World = World(
    now: nat, dirs: map<Inode, Dir>, queue: seq<Event>, v: View,
    home: map<Watched, Inode>, seen: map<Watched, Dir>, steady: set<Watched>, degraded: set<Watched>,
    depths: map<Name, nat>, displaced: set<Watched>, pending: Option<Pending>, phase: Phase, todo: set<Watched>)

  // ----- Directories of a set -----

  /** The root of the set a discovered directory is in. */
  function RootOf(p: Watched): Watched
    requires OfSet(p)
  {
    SetRoot(p.id.inSet.value)
  }

  /** The directory a discovered one was found in. */
  function Parent(p: Watched): Watched
    requires OfSet(p)
  {
    if |p.id.path| <= 1 then RootOf(p) else Group(GroupId(p.id.inSet, p.id.path[..|p.id.path| - 1]))
  }

  function Child(d: Watched, n: Name): Watched
    requires d.SetRoot? || OfSet(d)
  {
    if d.SetRoot? then Group(GroupId(Some(d.name), [n])) else Group(GroupId(d.id.inSet, d.id.path + [n]))
  }

  function Level(d: Watched): nat
    requires d.SetRoot? || OfSet(d)
  {
    if d.SetRoot? then 0 else |d.id.path|
  }

  lemma ParentOfChild(d: Watched, n: Name)
    requires d.SetRoot? || (OfSet(d) && d.id.path != [])
    ensures var p := Child(d, n);
      OfSet(p) && Parent(p) == d && p.id.path != [] && p.id.path[|p.id.path| - 1] == n && Level(p) == Level(d) + 1
  {
  }

  /** Set roots and intermediate directories: a pass lists these, before it sets watches. */
  predicate Lists(depths: map<Name, nat>, p: Watched) {
    p.SetRoot? || (OfSet(p) && p.id.inSet.value in depths && |p.id.path| < depths[p.id.inSet.value])
  }

  predicate Intermediate(depths: map<Name, nat>, p: Watched) {
    OfSet(p) && Lists(depths, p)
  }

  /** `p` is watched before it is read: static and set groups are read after watches are set,
      and a root under a label of its own has been watched since it was opened. */
  ghost predicate FirstWatched(w: World, p: Watched) {
    !Lists(w.depths, p) || (p.SetRoot? && p in w.home && exists wd :: WatchOf(w.v, p, w.home[p], wd))
  }

  // ----- What is out of date, and what will be noticed -----

  /** `p` is watched, and neither it nor its set is degraded. */
  ghost predicate Covered(w: World, p: Watched) {
    && p in w.home && p !in w.degraded && (OfSet(p) ==> RootOf(p) !in w.degraded)
    && exists wd :: Hears(w.v, w.home[p], wd)
  }

  predicate Stale(w: World, p: Watched)
    requires p in w.home && w.home[p] in w.dirs
  {
    p !in w.seen || w.seen[p] != w.dirs[w.home[p]]
  }

  /** An event about `p`, or an overflow marker, is queued. */
  ghost predicate Queued(w: World, p: Watched)
    requires p in w.home
  {
    || Overflow in w.queue
    || exists wd | Hears(w.v, w.home[p], wd) :: Event(wd, false) in w.queue
  }

  /** Something will make the daemon read `p` again. */
  ghost predicate Alert(w: World, p: Watched)
    requires p in w.home
  {
    p in w.todo || w.pending.Some? || Queued(w, p)
  }

  // ----- Steps -----

  datatype Step =
    // Other processes and the kernel
    | Change(i: Inode, entries: map<Name, Inode>, dropped: bool)
    | NewDir(i: Inode)
    | SelfEvent(wd: Wd)
    | Unwatched(wd: Wd)
    | Tick(t: nat)
    | Rename(displaced': set<Watched>)
    // The daemon
    | Drain(c: Changes)
    | StartPass
    | ListDir(d: Watched)
    | OpenEntry(d: Watched, n: Name)
    | ListFails(d: Watched)
    | Sync(current: map<GroupId, Lookup>, v': View)
    | Read(p: Watched)
    | EndPass(gone: set<Watched>)
    | Reload(home': map<Watched, Inode>, depths': map<Name, nat>, fresh_: View, queue': seq<Event>)
    | ReloadFails

  /** The kernel does not queue an event equal to the last one. */
  function Enqueue(q: seq<Event>, e: Event): seq<Event> {
    if q != [] && q[|q| - 1] == e then q else q + [e]
  }

  ghost function Notify(w: World, i: Inode, dropped: bool): seq<Event> {
    if i !in w.v.kernel.Values then w.queue
    else
      var wd :| wd in w.v.kernel && w.v.kernel[wd] == i;
      Enqueue(w.queue, if dropped then Overflow else Event(wd, false))
  }

  function LostPlaces(c: Changes): set<Watched> {
    (set g <- c.lost :: Group(g)) + (set s <- c.lostSets :: SetRoot(s))
  }

  /** Where a path leads from directory `i`. */
  function Walk(dirs: map<Inode, Dir>, i: Inode, path: seq<Name>): Option<Inode>
    decreases |path|
  {
    if path == [] then Some(i)
    else if i in dirs && path[0] in dirs[i].entries then Walk(dirs, dirs[i].entries[path[0]], path[1..])
    else None
  }

  /** What looking up a discovered directory's path can meet: anything, once its root's path names
      another directory or none; and it may always fail for other reasons. */
  predicate LooksUp(w: World, id: GroupId, at: Lookup) {
    && id.inSet.Some? && RootOf(Group(id)) in w.home
    && (RootOf(Group(id)) in w.displaced || Leads(w, id, at))
  }

  predicate Leads(w: World, id: GroupId, at: Lookup)
    requires id.inSet.Some? && RootOf(Group(id)) in w.home
  {
    && var found := Walk(w.dirs, w.home[RootOf(Group(id))], id.path);
       match at
       case Names(i) => found == Some(i)
       case NotFound => found == None
       case Failed => true
  }

  /** The whole set of `d`, or `d` alone, is given up for this pass. */
  function GivenUp(w: World, d: Watched): set<Watched> {
    if d.SetRoot? then set p <- w.home | OfSet(p) && RootOf(p) == d else {d}
  }

  ghost predicate Enabled(w: World, s: Step) {
    match s
    case Change(i, _, _) => i in w.dirs
    case NewDir(i) => i !in w.dirs
    case SelfEvent(_) => true
    case Unwatched(_) => true
    case Tick(_) => true
    case Rename(_) => true
    case Drain(c) => w.phase.Idle? && Counted(w.v.watches, w.queue, c)
    case StartPass => w.phase.Idle?
    case ListDir(d) => w.phase.Listing? && Lists(w.depths, d) && d in w.todo && d in w.home && w.home[d] in w.dirs
    case OpenEntry(d, n) =>
      && w.phase.Listing? && Lists(w.depths, d) && d in w.home && d in w.seen && d !in w.todo && w.home[d] in w.dirs
      && n in w.dirs[w.home[d]].entries && w.dirs[w.home[d]].entries[n] in w.dirs 
      && Child(d, n) !in w.home && forall p <- w.home | OfSet(p) :: Parent(p) != Child(d, n)
    case ListFails(d) => w.phase.Listing? && Lists(w.depths, d) && d in w.home
    case Sync(current, v') =>
      && w.phase.Listing? && (forall p <- w.todo :: !Lists(w.depths, p))
      && (forall id :: id in current <==> id.inSet.Some? && Group(id) in w.home)
      && (forall id <- current :: LooksUp(w, id, current[id]) && Settled(w.v, v', id, current[id]))
      && Valid(v') && SameStatics(w.v, v') && v'.setGroups.Keys <= current.Keys
    case Read(p) => w.phase.Reading? && p in w.todo && p in w.home && w.home[p] in w.dirs
    case EndPass(_) => w.phase.Reading? && w.todo == {}
    case Reload(home, _, fresh_, _) =>
      w.phase.Idle? && AllOpen(fresh_, home) && (forall p <- home :: home[p] in w.dirs)
    case ReloadFails => true
  }

  ghost function Apply(w: World, s: Step): World
    requires Enabled(w, s)
  {
    match s
    case Change(i, entries, dropped) =>
      w.(dirs := w.dirs[i := Dir(w.dirs[i].version + 1, entries)], queue := Notify(w, i, dropped))
    case NewDir(i) => w.(dirs := w.dirs[i := Dir(0, map[])])
    case SelfEvent(wd) => w.(queue := Enqueue(w.queue, Event(wd, true)))
    case Unwatched(wd) => w.(v := w.v.(kernel := w.v.kernel - {wd}), queue := Enqueue(w.queue, Event(wd, true)))
    case Tick(t) => w.(now := w.now + t)
    case Rename(displaced) => w.(displaced := displaced)
    case Drain(c) =>
      w.(queue := [], degraded := w.degraded + LostPlaces(c), v := AfterDrain(w.v, c),
         pending := if c.membershipChanged || c.overflow then Some(Debounced(w.pending, w.now)) else w.pending)
    case StartPass => Begin(w, map p <- w.home | !OfSet(p) :: w.home[p])
    case ListDir(d) => ReadNow(w, d)
    case OpenEntry(d, n) =>
      w.(home := w.home[Child(d, n) := w.dirs[w.home[d]].entries[n]], todo := w.todo + {Child(d, n)})
    case ListFails(d) => GiveUp(w, GivenUp(w, d))
    case Sync(_, v') => Resynced(w, v')
    case Read(p) => ReadNow(w, p)
    case EndPass(gone) => w.(phase := Idle, degraded := w.degraded + gone)
    case Reload(home, depths, fresh_, queue) =>
      Begin(w.(seen := map[], v := fresh_, queue := queue, depths := depths, displaced := {}, degraded := {}), home)
    case ReloadFails => w
  }

  ghost function Resynced(w: World, v': View): World {
    w.(v := v', phase := Reading, steady := set p <- w.steady | StaysWatched(w, v', p))
  }

  /** A watch of `p` is the same before and after. */
  ghost predicate StaysWatched(w: World, v': View, p: Watched) {
    p in w.home && exists wd :: Hears(w.v, w.home[p], wd) && Hears(v', w.home[p], wd)
  }

  /** A pass begins: nothing is pending, and everything that is not degraded is to be read. */
  function Begin(w: World, home: map<Watched, Inode>): World {
    w.(home := home, seen := map p <- w.seen | p in home :: w.seen[p], steady := {},
       pending := None, phase := Listing, todo := set p <- home | p !in w.degraded)
  }

  ghost function ReadNow(w: World, p: Watched): World
    requires p in w.home && w.home[p] in w.dirs
  {
    w.(seen := w.seen[p := w.dirs[w.home[p]]], todo := w.todo - {p},
       steady := if exists wd :: Hears(w.v, w.home[p], wd) then w.steady + {p} else w.steady - {p})
  }

  /** A listing that fails: a root's whole set goes, an intermediate directory only itself. */
  function GiveUp(w: World, gone: set<Watched>): World {
    w.(home := w.home - gone, seen := w.seen - gone, steady := w.steady - gone, todo := w.todo - gone)
  }

  // ----- What every step keeps -----

  /** The bound on how long changes can put a pass off; nothing is pending while one runs. */
  predicate InTime(w: World) {
    && (w.pending.Some? ==> w.pending.value.first <= w.now && w.pending.value.due <= w.pending.value.first + MAX_DEBOUNCE)
    && (!w.phase.Idle? ==> w.pending.None?)
  }

  ghost predicate Places(w: World) {
    && Valid(w.v) && LabelsOwn(w.v, w.home) && (forall p <- w.home :: w.home[p] in w.dirs)
    && w.todo <= w.home.Keys && (w.phase.Idle? ==> w.todo == {}) && w.steady <= w.seen.Keys
    && (forall p <- w.seen :: p in w.home && w.seen[p].version <= w.dirs[w.home[p]].version)
  }

  /** The parent's entry for `p` is the directory `p` was opened as. */
  predicate PathLeadsTo(w: World, p: Watched, parent: Dir)
    requires OfSet(p) && p in w.home
  {
    var n := |p.id.path| - 1;
    n >= 0 && p.id.path[n] in parent.entries && parent.entries[p.id.path[n]] == w.home[p]
  }

  /** A discovered directory is what its parent named when that was listed. */
  ghost predicate Discovered(w: World, p: Watched)
    requires Places(w) && OfSet(p) && p in w.home
  {
    var d := Parent(p);
    && p.id.path != [] && RootOf(p) in w.home
    && (d in w.home ==>
          && d in w.seen && d !in w.todo
          && (w.seen[d] == w.dirs[w.home[d]] ==> PathLeadsTo(w, p, w.seen[d])))
  }

  ghost predicate AllDiscovered(w: World)
    requires Places(w)
  {
    forall p <- w.home | OfSet(p) :: Discovered(w, p)
  }

  /** No membership change is lost: what is out of date and has kept its watch will be read again. */
  ghost predicate NoLoss(w: World)
    requires Places(w)
  {
    forall p <- w.home | Covered(w, p) && p in w.steady && Stale(w, p) :: Alert(w, p)
  }

  /** What is not listed is read once watches are set. */
  predicate ReadLater(w: World) {
    w.phase.Listing? ==> forall p <- w.home | !Lists(w.depths, p) && p !in w.degraded :: p in w.todo
  }

  /** What is watched before it is read has kept its watch since, or is still to be read. */
  ghost predicate WatchedFirst(w: World) {
    forall p <- w.home | Covered(w, p) && FirstWatched(w, p) :: p in w.todo || p in w.steady
  }

  ghost predicate Inv(w: World) {
    Places(w) && InTime(w) && AllDiscovered(w) && ReadLater(w) && NoLoss(w) && WatchedFirst(w)
  }

  lemma Enqueued(q: seq<Event>, e: Event)
    ensures forall x :: x in Enqueue(q, e) <==> x in q || x == e
  {
    if q != [] && q[|q| - 1] == e {
      assert e in q;
    }
  }

  lemma NotifyKeeps(w: World, i: Inode, dropped: bool)
    ensures forall e <- w.queue :: e in Notify(w, i, dropped)
  {
    if i in w.v.kernel.Values {
      var wd :| wd in w.v.kernel && w.v.kernel[wd] == i && Notify(w, i, dropped) == Enqueue(w.queue, if dropped then Overflow else Event(wd, false));
      Enqueued(w.queue, if dropped then Overflow else Event(wd, false));
    }
  }

  /** A change to a watched directory is queued under its watch, or as an overflow. */
  lemma NotifyTells(w: World, i: Inode, dropped: bool, wd: Wd)
    requires Injective(w.v.kernel) && wd in w.v.kernel && w.v.kernel[wd] == i
    ensures Event(wd, false) in Notify(w, i, dropped) || Overflow in Notify(w, i, dropped)
  {
    assert i in w.v.kernel.Values;
    Enqueued(w.queue, if dropped then Overflow else Event(wd, false));
  }

  // ----- Other processes and the kernel -----

  lemma ChangeKeepsPlaces(w: World, i: Inode, entries: map<Name, Inode>, dropped: bool)
    requires Places(w) && AllDiscovered(w) && i in w.dirs
    ensures var w' := Apply(w, Change(i, entries, dropped)); Places(w') && AllDiscovered(w')
  {
    var w' := Apply(w, Change(i, entries, dropped));
    assert Places(w');
    forall p <- w'.home | OfSet(p) ensures Discovered(w', p) {
      assert Discovered(w, p);
    }
  }

  lemma ChangeKeeps(w: World, i: Inode, entries: map<Name, Inode>, dropped: bool)
    requires Inv(w) && i in w.dirs
    ensures Inv(Apply(w, Change(i, entries, dropped)))
  {
    var w' := Apply(w, Change(i, entries, dropped));
    NotifyKeeps(w, i, dropped);
    ChangeKeepsPlaces(w, i, entries, dropped);
    forall p <- w'.home | Covered(w', p) ensures Covered(w, p) {
    }
    forall p <- w'.home | Covered(w', p) && p in w'.steady && Stale(w', p) ensures Alert(w', p) {
      if w.home[p] == i {
        var wd :| Hears(w.v, i, wd);
        NotifyTells(w, i, dropped, wd);
      } else {
        assert Stale(w, p) && Alert(w, p);
      }
    }
  }

  lemma AlertStays(w: World, w': World, p: Watched, wd: Wd)
    requires Injective(w.v.kernel) && p in w.home && p in w'.home && w'.home[p] == w.home[p] && Alert(w, p)
    requires Hears(w.v, w.home[p], wd) && Hears(w'.v, w.home[p], wd)
    requires (p in w.todo ==> p in w'.todo) && w'.pending == w.pending && forall e <- w.queue :: e in w'.queue
    ensures Alert(w', p)
  {
    if Queued(w, p) && Overflow !in w.queue {
      var x :| Hears(w.v, w.home[p], x) && Event(x, false) in w.queue;
      assert x == wd;
    }
  }

  /** No watch and no label is new. */
  ghost predicate Fewer(v: View, v': View) {
    && (forall wd <- v'.kernel :: wd in v.kernel && v'.kernel[wd] == v.kernel[wd])
    && (forall wd <- v'.watches :: wd in v.watches && v'.watches[wd] == v.watches[wd])
  }

  lemma FewerKeeps(w: World, w': World)
    requires WatchedFirst(w) && Fewer(w.v, w'.v) && w'.home == w.home && w'.depths == w.depths
    requires w'.todo == w.todo && w'.steady == w.steady && w.degraded <= w'.degraded
    ensures WatchedFirst(w')
    ensures forall p | Covered(w', p) :: Covered(w, p)
  {
    forall p | Covered(w', p) ensures Covered(w, p) && (FirstWatched(w', p) ==> FirstWatched(w, p)) {
      var wd :| Hears(w'.v, w'.home[p], wd);
      assert Hears(w.v, w.home[p], wd);
      if FirstWatched(w', p) && Lists(w.depths, p) {
        var x :| WatchOf(w'.v, p, w'.home[p], x);
        assert WatchOf(w.v, p, w.home[p], x);
      }
    }
  }

  /** Fewer watches and more events: what was covered stays accounted for. */
  lemma ShrinkKeeps(w: World, w': World)
    requires Inv(w) && Places(w') && w' == w.(v := w'.v, queue := w'.queue)
    requires (forall e <- w.queue :: e in w'.queue) && Fewer(w.v, w'.v)
    ensures Inv(w')
  {
    FewerKeeps(w, w');
    ShrinkLosesNothing(w, w');
    forall p <- w'.home | OfSet(p) ensures Discovered(w', p) {
      assert Discovered(w, p);
    }
  }

  lemma ShrinkLosesNothing(w: World, w': World)
    requires Inv(w) && Places(w') && w' == w.(v := w'.v, queue := w'.queue)
    requires (forall e <- w.queue :: e in w'.queue) && Fewer(w.v, w'.v)
    ensures NoLoss(w')
  {
    forall p <- w'.home | Covered(w', p) && p in w'.steady && Stale(w', p) ensures Alert(w', p) {
      var wd :| Hears(w'.v, w'.home[p], wd);
      assert Hears(w.v, w.home[p], wd) && Covered(w, p) && Stale(w, p);
      AlertStays(w, w', p, wd);
    }
  }

  lemma SelfEventKeeps(w: World, wd: Wd, kernel: map<Wd, Inode>)
    requires Inv(w) && (kernel == w.v.kernel || kernel == w.v.kernel - {wd})
    ensures Inv(w.(v := w.v.(kernel := kernel), queue := Enqueue(w.queue, Event(wd, true))))
  {
    Enqueued(w.queue, Event(wd, true));
    ShrinkKeeps(w, w.(v := w.v.(kernel := kernel), queue := Enqueue(w.queue, Event(wd, true))));
  }

  lemma NewDirKeeps(w: World, i: Inode)
    requires Inv(w) && i !in w.dirs
    ensures Inv(Apply(w, NewDir(i)))
  {
    var w' := Apply(w, NewDir(i));
    assert Places(w');
    forall p <- w'.home | OfSet(p) ensures Discovered(w', p) {
      assert Discovered(w, p);
    }
    forall p <- w'.home | Covered(w', p) ensures Covered(w, p) && (p in w'.steady && Stale(w', p) ==> Alert(w', p)) {
    }
  }

  /** Time passing, and a pass ending with some directories found deleted. */
  lemma QuietKeeps(w: World, w': World)
    requires Inv(w) && w' == w.(now := w'.now, displaced := w'.displaced, phase := w'.phase, degraded := w'.degraded)
    requires w.now <= w'.now && w.degraded <= w'.degraded && (w'.phase == w.phase || (w'.phase.Idle? && w.todo == {}))
    ensures Inv(w')
  {
    assert Places(w');
    forall p <- w'.home | OfSet(p) ensures Discovered(w', p) {
      assert Discovered(w, p);
    }
    forall p <- w'.home | Covered(w', p) ensures Covered(w, p) && (p in w'.steady && Stale(w', p) ==> Alert(w', p)) {
    }
  }

  // ----- The daemon -----

  lemma DrainKeepsPlaces(w: World, c: Changes)
    requires Inv(w) && Enabled(w, Drain(c))
    ensures var w' := Apply(w, Drain(c)); Places(w') && AllDiscovered(w') && InTime(w')
  {
    var w' := Apply(w, Drain(c));
    assert forall wd <- w'.v.watches :: wd in w.v.watches && w'.v.watches[wd] == w.v.watches[wd];
    assert Places(w');
    forall p <- w'.home | OfSet(p) ensures Discovered(w', p) {
      assert Discovered(w, p);
    }
  }

  lemma DrainKeeps(w: World, c: Changes)
    requires Inv(w) && Enabled(w, Drain(c))
    ensures Inv(Apply(w, Drain(c)))
  {
    DrainKeepsPlaces(w, c);
    FewerKeeps(w, Apply(w, Drain(c)));
    DrainLosesNothing(w, c);
  }

  lemma DrainLosesNothing(w: World, c: Changes)
    requires Inv(w) && Enabled(w, Drain(c)) && Places(Apply(w, Drain(c)))
    ensures NoLoss(Apply(w, Drain(c)))
  {
    var w' := Apply(w, Drain(c));
    FewerKeeps(w, w');
    forall p <- w'.home | Covered(w', p) && p in w'.steady && Stale(w', p) ensures Alert(w', p) {
      assert Covered(w, p) && Stale(w, p) && Alert(w, p);
      if w.pending.None? {
        QueuedIsCounted(w, c, p);
      }
    }
  }

  /** An event of a place, or an overflow, asks for a pass when it is drained. */
  lemma QueuedIsCounted(w: World, c: Changes, p: Watched)
    requires Counted(w.v.watches, w.queue, c) && p in w.home && Queued(w, p)
    ensures c.membershipChanged || c.overflow
  {
    if Overflow !in w.queue {
      var x :| Hears(w.v, w.home[p], x) && Event(x, false) in w.queue;
      assert !Loses(w.v.watches[x], false);
    }
  }

  lemma BeginKeeps(w: World, home: map<Watched, Inode>)
    requires Valid(w.v) && LabelsOwn(w.v, home) && (forall p <- home :: !OfSet(p) && home[p] in w.dirs)
    requires forall p <- w.seen | p in home :: w.seen[p].version <= w.dirs[home[p]].version
    ensures Inv(Begin(w, home))
  {
    var w' := Begin(w, home);
    assert Places(w');
    assert forall p <- w'.home | Covered(w', p) :: p in w'.todo;
  }

  lemma ReadKeepsPlaces(w: World, p: Watched)
    requires Inv(w) && p in w.todo && (w.phase.Reading? || (w.phase.Listing? && Lists(w.depths, p)))
    ensures Places(ReadNow(w, p)) && AllDiscovered(ReadNow(w, p))
  {
    var w' := ReadNow(w, p);
    assert Places(w');
    forall q <- w'.home | OfSet(q) ensures Discovered(w', q) {
      assert Discovered(w, q);
    }
  }

  lemma ReadKeeps(w: World, p: Watched)
    requires Inv(w) && p in w.todo && (w.phase.Reading? || (w.phase.Listing? && Lists(w.depths, p)))
    ensures Inv(ReadNow(w, p))
  {
    var w' := ReadNow(w, p);
    ReadKeepsPlaces(w, p);
    forall q <- w'.home | Covered(w', q) ensures Covered(w, q) && (q in w'.steady && Stale(w', q) ==> Alert(w', q)) {
      if q != p && q in w.steady && Stale(w, q) {
        assert Alert(w, q);
      }
    }
  }

  lemma OpenKeeps(w: World, d: Watched, n: Name)
    requires Inv(w) && Enabled(w, OpenEntry(d, n))
    ensures Inv(Apply(w, OpenEntry(d, n)))
  {
    var w', p := Apply(w, OpenEntry(d, n)), Child(d, n);
    OpenKeepsPlaces(w, d, n);
    forall q <- w'.home | Covered(w', q) && q != p ensures Covered(w, q) && (q in w'.steady && Stale(w', q) ==> Alert(w', q)) {
      if q in w.steady && Stale(w, q) {
        assert Alert(w, q);
      }
    }
  }

  lemma OpenKeepsPlaces(w: World, d: Watched, n: Name)
    requires Inv(w) && Enabled(w, OpenEntry(d, n))
    ensures var w' := Apply(w, OpenEntry(d, n)); Places(w') && AllDiscovered(w')
  {
    var w', p := Apply(w, OpenEntry(d, n)), Child(d, n);
    if OfSet(d) {
      assert Discovered(w, d);
    }
    ParentOfChild(d, n);
    assert Places(w');
    forall q <- w'.home | OfSet(q) ensures Discovered(w', q) {
      if q != p {
        assert Discovered(w, q);
      }
    }
  }

  lemma ListFailsKeeps(w: World, d: Watched)
    requires Inv(w) && Enabled(w, ListFails(d))
    ensures Inv(Apply(w, ListFails(d)))
  {
    var w' := Apply(w, ListFails(d));
    assert forall q <- w'.home :: q in w.home && q !in GivenUp(w, d) && w'.home[q] == w.home[q];
    assert Places(w');
    forall q <- w'.home | OfSet(q) ensures Discovered(w', q) {
      assert Discovered(w, q);
    }
    forall q <- w'.home | Covered(w', q) ensures Covered(w, q) && (q in w'.steady && Stale(w', q) ==> Alert(w', q)) {
      if q in w.steady && Stale(w, q) {
        assert Alert(w, q);
      }
    }
  }

  lemma RootsStayWatched(w: World, v': View, p: Watched)
    requires SameStatics(w.v, v') && p in w.home && p.SetRoot?
    requires exists wd :: WatchOf(v', p, w.home[p], wd)
    ensures exists wd :: WatchOf(w.v, p, w.home[p], wd)
    ensures StaysWatched(w, v', p)
  {
    var wd :| WatchOf(v', p, w.home[p], wd);
    assert WatchOf(w.v, p, w.home[p], wd) && Hears(w.v, w.home[p], wd) && Hears(v', w.home[p], wd);
  }

  lemma SyncKeepsPlaces(w: World, v': View)
    requires Places(w) && w.phase.Listing? && Valid(v') && SameStatics(w.v, v')
    ensures Places(Resynced(w, v'))
  {
  }

  lemma SyncKeepsDiscovered(w: World, v': View)
    requires Places(w) && w.phase.Listing? && Valid(v') && SameStatics(w.v, v') && AllDiscovered(w)
    ensures Places(Resynced(w, v')) && AllDiscovered(Resynced(w, v'))
  {
    SyncKeepsPlaces(w, v');
    var w' := Resynced(w, v');
    forall q <- w'.home | OfSet(q) ensures Discovered(w', q) {
      assert Discovered(w, q);
    }
  }

  lemma SyncKeepsWatch(w: World, v': View)
    requires Places(w) && w.phase.Listing? && Valid(v') && SameStatics(w.v, v')
    requires NoLoss(w) && ReadLater(w) && WatchedFirst(w)
    ensures Places(Resynced(w, v')) && NoLoss(Resynced(w, v')) && WatchedFirst(Resynced(w, v'))
  {
    SyncKeepsPlaces(w, v');
    SyncLosesNothing(w, v');
    SyncKeepsWatched(w, v');
  }

  lemma SyncKeepsTimes(w: World, v': View)
    requires InTime(w) && ReadLater(w) && w.phase.Listing?
    ensures InTime(Resynced(w, v')) && ReadLater(Resynced(w, v'))
  {
  }

  lemma SyncKeeps(w: World, v': View)
    requires Inv(w) && w.phase.Listing? && Valid(v') && SameStatics(w.v, v')
    ensures Inv(Resynced(w, v'))
  {
    SyncKeepsDiscovered(w, v');
    SyncKeepsWatch(w, v');
    SyncKeepsTimes(w, v');
  }

  lemma SyncLosesNothing(w: World, v': View)
    requires Places(w) && NoLoss(w) && Places(Resynced(w, v'))
    ensures NoLoss(Resynced(w, v'))
  {
    var w' := Resynced(w, v');
    forall q <- w'.home | Covered(w', q) && q in w'.steady && Stale(w', q) ensures Alert(w', q) {
      SyncAlerts(w, v', q);
    }
  }

  lemma SyncAlerts(w: World, v': View, q: Watched)
    requires Places(w) && NoLoss(w)
    requires var w' := Resynced(w, v'); Covered(w', q) && q in w'.steady && w.home[q] in w.dirs && Stale(w', q)
    ensures Alert(Resynced(w, v'), q)
  {
    var wd :| Hears(w.v, w.home[q], wd) && Hears(v', w.home[q], wd);
    assert Covered(w, q) && Stale(w, q) && Alert(w, q);
    AlertStays(w, Resynced(w, v'), q, wd);
  }

  lemma SyncKeepsWatched(w: World, v': View)
    requires ReadLater(w) && WatchedFirst(w) && w.phase.Listing? && SameStatics(w.v, v')
    ensures WatchedFirst(Resynced(w, v'))
  {
    var w' := Resynced(w, v');
    forall q <- w'.home | Covered(w', q) && FirstWatched(w', q) ensures q in w'.todo || q in w'.steady {
      SyncStaysWatched(w, v', q);
    }
  }

  lemma SyncStaysWatched(w: World, v': View, q: Watched)
    requires ReadLater(w) && WatchedFirst(w) && w.phase.Listing? && SameStatics(w.v, v')
    requires Covered(Resynced(w, v'), q) && FirstWatched(Resynced(w, v'), q)
    ensures q in w.todo || q in Resynced(w, v').steady
  {
    if Lists(w.depths, q) {
      RootsStayWatched(w, v', q);
      var wd :| WatchOf(w.v, q, w.home[q], wd);
      assert Hears(w.v, w.home[q], wd);
      assert Covered(w, q) && FirstWatched(w, q);
    }
  }

  lemma StepKeepsInv(w: World, s: Step)
    requires Inv(w) && Enabled(w, s)
    ensures Inv(Apply(w, s))
  {
    match s
    case Change(i, entries, dropped) => ChangeKeeps(w, i, entries, dropped);
    case NewDir(i) => NewDirKeeps(w, i);
    case SelfEvent(wd) => SelfEventKeeps(w, wd, w.v.kernel);
    case Unwatched(wd) => SelfEventKeeps(w, wd, w.v.kernel - {wd});
    case Tick(t) => QuietKeeps(w, Apply(w, s));
    case Rename(_) => QuietKeeps(w, Apply(w, s));
    case Drain(c) => DrainKeeps(w, c);
    case StartPass => BeginKeeps(w, map p <- w.home | !OfSet(p) :: w.home[p]);
    case ListDir(d) => ReadKeeps(w, d);
    case OpenEntry(d, n) => OpenKeeps(w, d, n);
    case ListFails(d) => ListFailsKeeps(w, d);
    case Sync(_, v') => SyncKeeps(w, v');
    case Read(p) => ReadKeeps(w, p);
    case EndPass(gone) => QuietKeeps(w, Apply(w, s));
    case Reload(home, depths, fresh_, queue) =>
      BeginKeeps(w.(seen := map[], v := fresh_, queue := queue, depths := depths, displaced := {}, degraded := {}), home);
    case ReloadFails =>
  }

  // ----- Whole runs -----

  /** At start-up watches are set and the first pass begins. */
  ghost predicate Starts(w: World) {
    && AllOpen(w.v, w.home) && (forall p <- w.home :: w.home[p] in w.dirs)
    && w.seen == map[] && w.steady == {} && w.pending.None? && w.phase.Listing? && w.degraded == {} && w.todo == w.home.Keys
  }

  ghost predicate Reaches(w: World, steps: seq<Step>)
    decreases |steps|
  {
    if steps == [] then Starts(w)
    else
      var last := steps[|steps| - 1];
      exists before :: Reaches(before, steps[..|steps| - 1]) && Enabled(before, last) && w == Apply(before, last)
  }

  lemma {:induction false} ReachableInv(w: World, steps: seq<Step>)
    requires Reaches(w, steps)
    ensures Inv(w)
    decreases |steps|
  {
    if steps != [] {
      var last := steps[|steps| - 1];
      var before :| Reaches(before, steps[..|steps| - 1]) && Enabled(before, last) && w == Apply(before, last);
      ReachableInv(before, steps[..|steps| - 1]);
      StepKeepsInv(before, last);
    }
  }

  /**
   * No lost membership change. Whenever the entries of a watched static group's directory,
   * set root or group directory differ from those its last read began with, an event or an
   * overflow marker is queued, or a pass is pending, or the current pass has still to read
   * it; and a pending pass is due within a second of its first change. For an intermediate
   * directory the same holds if it has kept one watch since that read. All this holds
   * across reloads, failed or not.
   */
  lemma NoLostChange(w: World, steps: seq<Step>, p: Watched)
    requires Reaches(w, steps) && Covered(w, p) && (FirstWatched(w, p) || p in w.steady)
    ensures w.home[p] in w.dirs
    ensures p !in w.seen || w.seen[p].entries != w.dirs[w.home[p]].entries ==> Alert(w, p)
    ensures w.pending.Some? ==> w.pending.value.due <= w.pending.value.first + MAX_DEBOUNCE
  {
    ReachableInv(w, steps);
  }

  /** Nor is a directory's replacement or removal: its parent is then out of date, and will be listed again. */
  lemma NoLostGroup(w: World, steps: seq<Step>, p: Watched)
    requires Reaches(w, steps) && p in w.home && OfSet(p) && Covered(w, Parent(p)) && w.home[Parent(p)] in w.dirs
    requires FirstWatched(w, Parent(p)) || Parent(p) in w.steady
    requires !PathLeadsTo(w, p, w.dirs[w.home[Parent(p)]])
    ensures Alert(w, Parent(p))
  {
    ReachableInv(w, steps);
    assert Discovered(w, p);
  }

  // ----- When watches are set -----

  /** The directories above `p` are as they were when they were listed. */
  predicate Fresh(w: World, p: Watched)
    requires OfSet(p)
    decreases |p.id.path|
  {
    && Parent(p) in w.home && w.home[Parent(p)] in w.dirs && !Stale(w, Parent(p))
    && (OfSet(Parent(p)) && p.id.path != [] ==> Fresh(w, Parent(p)))
  }

  lemma {:induction false} WalkSnoc(dirs: map<Inode, Dir>, i: Inode, path: seq<Name>, n: Name)
    ensures Walk(dirs, i, path + [n]) ==
      match Walk(dirs, i, path)
      case None => None
      case Some(j) => if j in dirs && n in dirs[j].entries then Some(dirs[j].entries[n]) else None
    decreases |path|
  {
    if path == [] {
      assert path + [n] == [n] && [n][1..] == [];
    } else {
      assert (path + [n])[0] == path[0] && (path + [n])[1..] == path[1..] + [n];
      if i in dirs && path[0] in dirs[i].entries {
        WalkSnoc(dirs, dirs[i].entries[path[0]], path[1..], n);
      }
    }
  }

  /** Then its path still names the directory it was opened as. */
  lemma {:induction false} FreshIsNamed(w: World, p: Watched)
    requires Inv(w) && p in w.home && OfSet(p) && Fresh(w, p)
    ensures RootOf(p) in w.home && Walk(w.dirs, w.home[RootOf(p)], p.id.path) == Some(w.home[p])
    decreases |p.id.path|
  {
    assert Discovered(w, p);
    var d := Parent(p);
    if OfSet(d) {
      FreshIsNamed(w, d);
    }
    NamedBelow(w, p, d, w.home[RootOf(p)]);
  }

  lemma NamedBelow(w: World, p: Watched, d: Watched, root: Inode)
    requires Places(w) && p in w.home && OfSet(p) && p.id.path != [] && d == Parent(p) && d in w.home
    requires PathLeadsTo(w, p, w.dirs[w.home[d]])
    requires Walk(w.dirs, root, p.id.path[..|p.id.path| - 1]) == Some(w.home[d])
    ensures Walk(w.dirs, root, p.id.path) == Some(w.home[p])
  {
    var n := |p.id.path| - 1;
    assert p.id.path == p.id.path[..n] + [p.id.path[n]];
    WalkSnoc(w.dirs, root, p.id.path[..n], p.id.path[n]);
  }

  /**
   * A sync watches every discovered directory at the inode it was opened as, unless adding
   * the watch fails or a directory above has changed; group directories are read only after.
   * A directory that was followed before keeps its watch.
   */
  lemma SyncWatches(w: World, current: map<GroupId, Lookup>, v': View, p: Watched)
    requires Inv(w) && Enabled(w, Sync(current, v')) && p in w.home && OfSet(p)
    ensures !current[p.id].Failed? && RootOf(p) !in w.displaced && Fresh(w, p) ==> exists wd :: Hears(v', w.home[p], wd)
    ensures !current[p.id].Failed? && RootOf(p) !in w.displaced && Fresh(w, p) && Follows(w.v, p.id, w.home[p]) ==> StaysWatched(w, v', p)
    ensures !Lists(w.depths, p) && p !in w.degraded ==> p in w.todo
  {
    assert Discovered(w, p);
    if !current[p.id].Failed? && RootOf(p) !in w.displaced && Fresh(w, p) {
      FreshIsNamed(w, p);
      assert LooksUp(w, p.id, current[p.id]) && Settled(w.v, v', p.id, current[p.id]);
      assert Hears(v', w.home[p], v'.setGroups[p.id]);
    }
  }
}
