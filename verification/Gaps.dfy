/** The changes the wake-up protocol can miss, and exactly where they come from. */
module Gaps {
  import opened Wrappers
  import opened Names
  import opened Watching
  import opened WatcherLoops
  import opened Wakeup

  // ----- Places that share a directory -----

  /** The label of `wd` is of a static group or set root, and a directory of that goes. */
  predicate LosesLabel(w: World, wd: Wd)
    requires wd in w.v.watches
  {
    var q := w.v.watches[wd];
    !OfSet(q) && exists e <- w.queue :: e.Event? && e.itself && e.wd in w.v.watches && w.v.watches[e.wd] == q
  }

  /** A drain silences the watch on a place's directory iff it loses its label, whose owner
      was opened as the same directory and is degraded. */
  lemma DrainSilences(w: World, c: Changes, p: Watched, wd: Wd)
    requires Inv(w) && Enabled(w, Drain(c)) && p in w.home && Hears(w.v, w.home[p], wd)
    ensures var w', q := Apply(w, Drain(c)), w.v.watches[wd];
      && (!Hears(w'.v, w.home[p], wd) <==> LosesLabel(w, wd))
      && (LosesLabel(w, wd) ==> q in w.home && w.home[q] == w.home[p] && q in w'.degraded)
  {
    LabelLostExactly(w.v, w.queue, c, wd);
  }

  /** A place is silenced without being degraded iff it shares its directory with another
      place whose label its watch bears, and that label is lost. */
  lemma SilencedUndegraded(w: World, c: Changes, p: Watched, wd: Wd)
    requires Inv(w) && Enabled(w, Drain(c)) && p in w.home && Hears(w.v, w.home[p], wd)
    requires p !in Apply(w, Drain(c)).degraded
    ensures !Hears(Apply(w, Drain(c)).v, w.home[p], wd) <==>
      var q := w.v.watches[wd]; q != p && q in w.home && w.home[q] == w.home[p] && LosesLabel(w, wd)
  {
    DrainSilences(w, c, p, wd);
  }

  /** So a place that shares its directory with no other static group or set root is heard or degraded. */
  lemma UnsharedStaysHeard(w: World, c: Changes, p: Watched, wd: Wd)
    requires Inv(w) && Enabled(w, Drain(c)) && p in w.home && Hears(w.v, w.home[p], wd)
    requires forall q <- w.home | q != p && !OfSet(q) :: w.home[q] != w.home[p]
    ensures Hears(Apply(w, Drain(c)).v, w.home[p], wd) || p in Apply(w, Drain(c)).degraded
  {
    DrainSilences(w, c, p, wd);
  }

  // ----- Changes that are missed -----

  /** What was read last differs from what is there, and nothing will make the daemon read again. */
  ghost predicate Missed(w: World, p: Watched)
    requires p in w.home && w.home[p] in w.dirs
  {
    Stale(w, p) && !Alert(w, p)
  }

  /**
   * A change that the kernel watches is missed in two ways only: its watch has no label,
   * or it is of a directory that is listed, and got its watch after it was listed.
   */
  lemma MissedIsUnheard(w: World, steps: seq<Step>, p: Watched, wd: Wd)
    requires Reaches(w, steps) && p in w.home && w.home[p] in w.dirs
    requires p !in w.degraded && (OfSet(p) ==> RootOf(p) !in w.degraded) && wd in w.v.kernel && w.v.kernel[wd] == w.home[p]
    requires Missed(w, p)
    ensures wd !in w.v.watches || (Lists(w.depths, p) && p !in w.steady && !FirstWatched(w, p))
  {
    ReachableInv(w, steps);
    if wd in w.v.watches {
      assert Hears(w.v, w.home[p], wd) && Covered(w, p);
    }
  }

  lemma UnnoticedIsUnlabelled(w: World, steps: seq<Step>, p: Watched, wd: Wd)
    requires Reaches(w, steps) && p in w.home && w.home[p] in w.dirs && !Lists(w.depths, p)
    requires p !in w.degraded && (OfSet(p) ==> RootOf(p) !in w.degraded) && wd in w.v.kernel && w.v.kernel[wd] == w.home[p]
    requires p in w.seen && w.seen[p].entries != w.dirs[w.home[p]].entries && !Alert(w, p)
    ensures wd !in w.v.watches
  {
    MissedIsUnheard(w, steps, p, wd);
  }

  /**
   * Exactly when a change is noticed, for every place and at every moment: a pass is due to
   * read the place anyway, or an overflow is queued, or the change itself is queued, because
   * the kernel watches the directory and either the watch has a label or the queue is full.
   */
  lemma ChangeIsNoticed(w: World, p: Watched, entries: map<Name, Inode>, dropped: bool)
    requires Inv(w) && p in w.home && w.home[p] in w.dirs
    ensures var w' := Apply(w, Change(w.home[p], entries, dropped));
      && Stale(w', p)
      && (Alert(w', p) <==>
            || p in w.todo || w.pending.Some? || Overflow in w.queue
            || (dropped && w.home[p] in w.v.kernel.Values)
            || exists wd :: Hears(w.v, w.home[p], wd))
  {
    var i := w.home[p];
    var w' := Apply(w, Change(i, entries, dropped));
    NotifyKeeps(w, i, dropped);
    if wd :| Hears(w.v, i, wd) {
      NotifyTells(w, i, dropped, wd);
    } else {
      NotifyOnly(w, i, dropped);
    }
  }

  /** A change queues nothing but its own event, or an overflow in its place. */
  lemma NotifyOnly(w: World, i: Inode, dropped: bool)
    ensures forall e <- Notify(w, i, dropped) ::
      e in w.queue || (i in w.v.kernel.Values && if dropped then e == Overflow else e.Event? && e.wd in w.v.kernel && w.v.kernel[e.wd] == i)
    ensures i in w.v.kernel.Values && dropped ==> Overflow in Notify(w, i, dropped)
  {
    if i in w.v.kernel.Values {
      var wd :| wd in w.v.kernel && w.v.kernel[wd] == i && Notify(w, i, dropped) == Enqueue(w.queue, if dropped then Overflow else Event(wd, false));
      Enqueued(w.queue, if dropped then Overflow else Event(wd, false));
    }
  }

  // ----- When a missed change is noticed after all -----

  /** The steps that make the daemon read a place it had missed a change of. */
  ghost predicate Notices(w: World, s: Step, p: Watched)
    requires p in w.home
  {
    match s
    case Change(i, _, dropped) => i in w.v.kernel.Values && (dropped || (i == w.home[p] && exists wd :: Hears(w.v, i, wd)))
    case Drain(c) => c.membershipChanged || c.overflow
    case StartPass => p !in w.degraded
    case Sync(_, v') => exists wd :: Hears(v', w.home[p], wd) && Event(wd, false) in w.queue
    case Reload(_, _, _, _) => true
    case _ => false
  }

  lemma ChangeNotices(w: World, p: Watched, i: Inode, entries: map<Name, Inode>, dropped: bool)
    requires Inv(w) && p in w.home && w.home[p] in w.dirs && i in w.dirs && Missed(w, p)
    ensures var s := Change(i, entries, dropped); p in Apply(w, s).home && Accounted(w, Apply(w, s), s, p)
  {
    if i == w.home[p] {
      ChangeIsNoticed(w, p, entries, dropped);
      if wd :| Hears(w.v, i, wd) {
        assert i in w.v.kernel.Values;
      }
    } else {
      NotifyKeeps(w, i, dropped);
      NotifyOnly(w, i, dropped);
    }
  }

  lemma QuietNotices(w: World, w': World, p: Watched)
    requires p in w.home && w.home[p] in w.dirs && Missed(w, p) && w'.home == w.home && w.home[p] in w'.dirs && w'.dirs[w.home[p]] == w.dirs[w.home[p]]
    requires (p in w.seen <==> p in w'.seen) && (p in w.seen ==> w'.seen[p] == w.seen[p])
    requires w'.todo <= w.todo && (w'.pending.Some? ==> w.pending.Some?)
    requires forall e <- w'.queue :: e in w.queue || (e.Event? && e.itself)
    requires forall wd | Hears(w'.v, w.home[p], wd) :: Hears(w.v, w.home[p], wd)
    ensures Missed(w', p)
  {
  }

  /**
   * Once missed, a change stays missed until a step of these kinds: a new change that is
   * queued or overflows the queue, a drain or reload or resync that brings a pass, or a sync
   * that comes upon an event already queued for the directory.
   */
  lemma MissedUntilNoticed(w: World, s: Step, p: Watched)
    requires Inv(w) && Enabled(w, s) && p in w.home && w.home[p] in w.dirs && Missed(w, p)
    requires p in Apply(w, s).home
    ensures Accounted(w, Apply(w, s), s, p)
  {
    if s.Change? {
      ChangeNotices(w, p, s.i, s.entries, s.dropped);
    } else if s.Reload? {
      ReloadNotices(w, s, p);
    } else if OfTheDaemon(s) {
      DaemonNotices(w, s, p);
    } else {
      IdleNotices(w, s, p);
    }
  }

  /** The place is out of date still, and the daemon will read it iff the step makes it. */
  ghost predicate Accounted(w: World, w': World, s: Step, p: Watched)
    requires p in w.home && p in w'.home
  {
    w'.home[p] in w'.dirs && Stale(w', p) && (Alert(w', p) <==> Notices(w, s, p))
  }

  lemma ReloadNotices(w: World, s: Step, p: Watched)
    requires Inv(w) && Enabled(w, s) && s.Reload? && p in w.home && p in Apply(w, s).home
    ensures Accounted(w, Apply(w, s), s, p)
  {
  }

  predicate OfTheDaemon(s: Step) {
    s.Drain? || s.StartPass? || s.ListDir? || s.OpenEntry? || s.ListFails? || s.Sync? || s.Read?
  }

  lemma DaemonNotices(w: World, s: Step, p: Watched)
    requires Inv(w) && Enabled(w, s) && p in w.home && w.home[p] in w.dirs && Missed(w, p)
    requires OfTheDaemon(s) && p in Apply(w, s).home
    ensures Accounted(w, Apply(w, s), s, p)
  {
    match s
    case Drain(c) => DrainNotices(w, c, p);
    case StartPass => StartNotices(w, p);
    case ListDir(d) => ReadNotices(w, d, p);
    case OpenEntry(d, n) => OpenNotices(w, d, n, p);
    case ListFails(d) => FailNotices(w, d, p);
    case Sync(_, v') => SyncNotices(w, v', p);
    case Read(q) => ReadNotices(w, q, p);
  }

  /** Steps after which nothing about a place is different. */
  lemma IdleNotices(w: World, s: Step, p: Watched)
    requires Enabled(w, s) && p in w.home && w.home[p] in w.dirs && Missed(w, p)
    requires !OfTheDaemon(s) && !s.Change? && !s.Reload?
    ensures p in Apply(w, s).home && Accounted(w, Apply(w, s), s, p)
  {
    if s.SelfEvent? || s.Unwatched? {
      Enqueued(w.queue, Event(s.wd, true));
    }
    QuietNotices(w, Apply(w, s), p);
  }

  lemma DrainNotices(w: World, c: Changes, p: Watched)
    requires Inv(w) && Enabled(w, Drain(c)) && p in w.home && w.home[p] in w.dirs && Missed(w, p)
    ensures var w' := Apply(w, Drain(c)); Stale(w', p) && (Alert(w', p) <==> c.membershipChanged || c.overflow)
  {
  }

  lemma StartNotices(w: World, p: Watched)
    requires Inv(w) && w.phase.Idle? && p in w.home && !OfSet(p) && w.home[p] in w.dirs && Missed(w, p)
    ensures var w' := Apply(w, StartPass); p in w'.home && w'.home[p] == w.home[p] && Stale(w', p) && (Alert(w', p) <==> p !in w.degraded)
  {
  }

  lemma ReadNotices(w: World, q: Watched, p: Watched)
    requires p in w.home && w.home[p] in w.dirs && Missed(w, p) && q in w.todo && q in w.home && w.home[q] in w.dirs
    ensures Missed(ReadNow(w, q), p)
  {
    QuietNotices(w, ReadNow(w, q), p);
  }

  lemma OpenNotices(w: World, d: Watched, n: Name, p: Watched)
    requires Inv(w) && Enabled(w, OpenEntry(d, n)) && p in w.home && w.home[p] in w.dirs && Missed(w, p)
    ensures var w' := Apply(w, OpenEntry(d, n)); w'.home[p] == w.home[p] && Missed(w', p)
  {
  }

  lemma FailNotices(w: World, d: Watched, p: Watched)
    requires Inv(w) && Enabled(w, ListFails(d)) && p in w.home && w.home[p] in w.dirs && Missed(w, p) && p in Apply(w, ListFails(d)).home
    ensures var w' := Apply(w, ListFails(d)); w'.home[p] == w.home[p] && Missed(w', p)
  {
  }

  lemma SyncNotices(w: World, v': View, p: Watched)
    requires p in w.home && w.home[p] in w.dirs && Missed(w, p)
    ensures var w' := Resynced(w, v');
      Stale(w', p) && (Alert(w', p) <==> exists wd :: Hears(v', w.home[p], wd) && Event(wd, false) in w.queue)
  {
  }

  /**
   * An intermediate directory that is listed and changes before the sync of that pass: the
   * change is noticed iff the directory is watched already, or an overflow tells; the first
   * watch comes too late for it.
   */
  lemma ChangedBeforeSync(w: World, p: Watched, entries: map<Name, Inode>, v': View)
    requires Inv(w) && w.phase.Listing? && Lists(w.depths, p) && p in w.home && w.home[p] in w.dirs && p !in w.todo
    requires Overflow !in w.queue && Valid(v')
    requires var queue := Notify(w, w.home[p], false); forall wd | Hears(v', w.home[p], wd) && !Hears(w.v, w.home[p], wd) :: Event(wd, false) !in queue
    ensures var w1 := Apply(w, Change(w.home[p], entries, false));
      && (Missed(w1, p) <==> !exists wd :: Hears(w.v, w.home[p], wd))
      && (Missed(w1, p) ==> Missed(Resynced(w1, v'), p))
  {
    ChangeIsNoticed(w, p, entries, false);
    var w1 := Apply(w, Change(w.home[p], entries, false));
    if Missed(w1, p) {
      SyncNotices(w1, v', p);
    }
  }

  // ----- Runs -----

  lemma Next(w: World, steps: seq<Step>, s: Step) returns (w': World, steps': seq<Step>)
    requires Reaches(w, steps) && Enabled(w, s)
    ensures w' == Apply(w, s) && Reaches(w', steps')
  {
    w', steps' := Apply(w, s), steps + [s];
    assert steps'[..|steps'| - 1] == steps && steps'[|steps'| - 1] == s;
  }

  /** A drain in which the labels of `lost` go and nothing asks for a pass. */
  lemma NextDrain(w: World, steps: seq<Step>, c: Changes) returns (w': World, steps': seq<Step>)
    requires Reaches(w, steps) && w.phase.Idle? && Counted(w.v.watches, w.queue, c) && !c.membershipChanged && !c.overflow
    ensures w' == w.(queue := [], degraded := w.degraded + LostPlaces(c), v := AfterDrain(w.v, c)) && Reaches(w', steps')
  {
    w', steps' := Next(w, steps, Drain(c));
  }

  lemma NextSync(w: World, steps: seq<Step>, at: Lookup, v': View) returns (w': World, steps': seq<Step>)
    requires Reaches(w, steps) && w.phase.Listing? && (forall p <- w.todo :: !Lists(w.depths, p))
    requires forall p :: p in w.home && OfSet(p) <==> p == FOUND
    requires LooksUp(w, ID, at) && Settled(w.v, v', ID, at) && Valid(v') && SameStatics(w.v, v') && v'.setGroups.Keys <= {ID}
    ensures w' == Resynced(w, v') && Reaches(w', steps')
  {
    var current := map[ID := at];
    FoundMaySync(w, current, v');
    w', steps' := Next(w, steps, Sync(current, v'));
  }

  lemma FoundMaySync(w: World, current: map<GroupId, Lookup>, v': View)
    requires w.phase.Listing? && (forall p <- w.todo :: !Lists(w.depths, p)) && current.Keys == {ID}
    requires forall p :: p in w.home && OfSet(p) <==> p == FOUND
    requires LooksUp(w, ID, current[ID]) && Settled(w.v, v', ID, current[ID])
    requires Valid(v') && SameStatics(w.v, v') && v'.setGroups.Keys <= {ID}
    ensures Enabled(w, Sync(current, v'))
  {
    assert forall id :: id in current <==> id.inSet.Some? && Group(id) in w.home;
  }

  const STATIC: Watched := Group(GroupId(None, ["g"]))
  const ROOT: Watched := SetRoot("s")
  const ID: GroupId := GroupId(Some("s"), ["b"])
  const FOUND: Watched := Group(ID)

  /** The root holds one directory, `b`, which is directory 7; directory 8 is the root. */
  const DIRS: map<Inode, Dir> := map[7 := Dir(0, map[]), 8 := Dir(0, map["b" := 7])]

  function Started(home: map<Watched, Inode>, v: View, depth: nat): World {
    World(0, DIRS, [], v, home, map[], {}, {}, map["s" := depth], {}, None, Listing, home.Keys)
  }

  // ----- A static group and a set group opened as directory 7 -----

  const HOME: map<Watched, Inode> := map[STATIC := 7, ROOT := 8]
  const VIEW: View := View(map[1 := STATIC, 2 := ROOT], map[], map[1 := 7, 2 := 8], 3)

  lemma SharedStarts()
    ensures Reaches(Started(HOME, VIEW, 1), [])
  {
    assert WatchOf(VIEW, STATIC, 7, 1) && WatchOf(VIEW, ROOT, 8, 2);
    assert VIEW.setGroups.Values == {};
  }

  lemma SharedLists() returns (w: World, steps: seq<Step>)
    ensures Reaches(w, steps)
    ensures w.home == HOME[FOUND := 7] && w.seen == map[ROOT := DIRS[8]] && w.todo == {STATIC, FOUND} && w.v == VIEW
    ensures w.dirs == DIRS && w.queue == [] && w.degraded == {} && w.pending == None && w.phase == Listing && w.depths == map["s" := 1]
  {
    var w1, steps1 := SharedRoot();
    assert Child(ROOT, "b") == FOUND && DIRS[8].entries["b"] == 7;
    assert forall p <- w1.home :: !OfSet(p);
    w, steps := Next(w1, steps1, OpenEntry(ROOT, "b"));
  }

  lemma SharedRoot() returns (w: World, steps: seq<Step>)
    ensures Reaches(w, steps)
    ensures w.home == HOME && w.seen == map[ROOT := DIRS[8]] && w.todo == {STATIC} && w.v == VIEW
    ensures w.dirs == DIRS && w.queue == [] && w.degraded == {} && w.pending == None && w.phase == Listing && w.depths == map["s" := 1]
  {
    SharedStarts();
    w, steps := Next(Started(HOME, VIEW, 1), [], ListDir(ROOT));
  }

  lemma SharedSyncs() returns (w: World, steps: seq<Step>)
    ensures Reaches(w, steps)
    ensures w.home == HOME[FOUND := 7] && w.seen == map[ROOT := DIRS[8]] && w.todo == {STATIC, FOUND}
    ensures w.v == VIEW.(setGroups := map[ID := 1])
    ensures w.dirs == DIRS && w.queue == [] && w.degraded == {} && w.pending == None && w.phase == Reading && w.depths == map["s" := 1]
  {
    var w1, steps1 := SharedLists();
    FoundIsNamed(w1);
    SharedSync();
    w, steps := NextSync(w1, steps1, Names(7), VIEW.(setGroups := map[ID := 1]));
  }

  lemma FoundIsNamed(w: World)
    requires 8 in w.dirs && w.dirs[8] == DIRS[8] && ROOT in w.home && w.home[ROOT] == 8
    ensures LooksUp(w, ID, Names(7))
  {
    assert Walk(w.dirs, 8, ["b"]) == Walk(w.dirs, 7, []);
  }

  lemma SharedSync()
    ensures var v' := VIEW.(setGroups := map[ID := 1]);
      Valid(v') && SameStatics(VIEW, v') && Settled(VIEW, v', ID, Names(7)) && v'.setGroups.Keys <= {ID}
  {
    var v' := VIEW.(setGroups := map[ID := 1]);
    assert v'.setGroups[ID] == 1 && v'.kernel[1] == 7;
  }

  lemma SharedReads() returns (w: World, steps: seq<Step>)
    ensures Reaches(w, steps)
    ensures w.home == HOME[FOUND := 7] && FOUND in w.seen && w.seen[FOUND] == DIRS[7] && w.todo == {}
    ensures w.v == VIEW.(setGroups := map[ID := 1])
    ensures w.dirs == DIRS && w.queue == [] && w.degraded == {} && w.pending == None && w.phase == Idle && w.depths == map["s" := 1]
  {
    w, steps := SharedSyncs();
    w, steps := Next(w, steps, Read(STATIC));
    w, steps := Next(w, steps, Read(FOUND));
    w, steps := Next(w, steps, EndPass({}));
  }

  /** The static group's directory goes: its label goes, and so does the set group's ear. */
  lemma SharedIsLost() returns (w: World, steps: seq<Step>)
    ensures Reaches(w, steps)
    ensures w.home == HOME[FOUND := 7] && FOUND in w.seen && w.seen[FOUND] == DIRS[7] && w.todo == {}
    ensures w.v == View(map[2 := ROOT], map[ID := 1], map[1 := 7, 2 := 8], 3)
    ensures w.dirs == DIRS && w.queue == [] && w.degraded == {STATIC} && w.pending == None && w.phase == Idle && w.depths == map["s" := 1]
  {
    var w1, steps1 := SharedReads();
    var w2, steps2 := NextSelfEvent(w1, steps1);
    var c := Changes(false, false, {STATIC.id}, {});
    StaticLossCounts(w2.v.watches, w2.queue, c);
    StaticLossUnlabels(c);
    w, steps := NextDrain(w2, steps2, c);
  }

  lemma StaticLossUnlabels(c: Changes)
    requires c == Changes(false, false, {STATIC.id}, {})
    ensures AfterDrain(VIEW.(setGroups := map[ID := 1]), c) == View(map[2 := ROOT], map[ID := 1], map[1 := 7, 2 := 8], 3)
    ensures LostPlaces(c) == {STATIC}
  {
    var watches := AfterDrain(VIEW.(setGroups := map[ID := 1]), c).watches;
    assert VIEW.watches[1] == STATIC && VIEW.watches[2] == ROOT;
    assert watches == map[2 := ROOT];
  }

  lemma NextSelfEvent(w: World, steps: seq<Step>) returns (w': World, steps': seq<Step>)
    requires Reaches(w, steps) && w.queue == []
    ensures w' == w.(queue := [Event(1, true)]) && Reaches(w', steps')
  {
    w', steps' := Next(w, steps, SelfEvent(1));
  }

  lemma StaticLossCounts(watches: map<Wd, Watched>, es: seq<Event>, c: Changes)
    requires watches == VIEW.watches && es == [Event(1, true)] && c == Changes(false, false, {STATIC.id}, {})
    ensures Counted(watches, es, c)
  {
    assert es[0] == Event(1, true) && Loses(watches[1], true);
    assert watches[1] == STATIC;
  }

  /**
   * Then a change to the set group's directory, which the kernel still watches, is read
   * by no one: its event counts as nothing, and nothing else asks for a pass.
   */
  lemma SharedWatchGoesDeaf() returns (w: World, steps: seq<Step>)
    ensures Reaches(w, steps)
    ensures FOUND in w.home && w.home[FOUND] in w.dirs && !Intermediate(w.depths, FOUND)
    ensures FOUND !in w.degraded && RootOf(FOUND) !in w.degraded
    ensures 1 in w.v.kernel && w.v.kernel[1] == w.home[FOUND]
    ensures FOUND in w.seen && w.seen[FOUND].entries != w.dirs[w.home[FOUND]].entries && !Alert(w, FOUND)
  {
    w, steps := SharedIsUnheard();
  }

  lemma SharedIsUnheard() returns (w: World, steps: seq<Step>)
    ensures Reaches(w, steps)
    ensures w.home == HOME[FOUND := 7] && FOUND in w.seen && w.seen[FOUND] == DIRS[7] && w.todo == {}
    ensures 7 in w.dirs && w.dirs[7].entries != DIRS[7].entries && w.v.kernel == map[1 := 7, 2 := 8]
    ensures w.queue == [] && w.degraded == {STATIC} && w.pending == None && w.depths == map["s" := 1]
  {
    var w1, steps1 := SharedIsLost();
    var w2, steps2 := FoundChanges(w1, steps1);
    var none := Changes(false, false, {}, {});
    NothingIsHeard(w2.v.watches, w2.queue);
    w, steps := NextDrain(w2, steps2, none);
    assert LostPlaces(none) == {};
  }

  lemma NothingIsHeard(watches: map<Wd, Watched>, es: seq<Event>)
    requires 1 !in watches && es == [Event(1, false)]
    ensures Counted(watches, es, Changes(false, false, {}, {}))
  {
    assert es[..|es| - 1] == [] && Heard(watches, []) == [] && Heard(watches, es) == [];
    UnlabelledIsUnheard(watches, es, Changes(false, false, {}, {}));
  }

  lemma FoundChanges(w: World, steps: seq<Step>) returns (w': World, steps': seq<Step>)
    requires Reaches(w, steps) && Injective(w.v.kernel) && 1 in w.v.kernel && w.v.kernel[1] == 7 && w.queue == [] && 7 in w.dirs && w.dirs[7] == DIRS[7]
    ensures Reaches(w', steps') && w'.queue == [Event(1, false)] && w' == w.(dirs := w'.dirs, queue := w'.queue)
    ensures 7 in w'.dirs && w'.dirs[7].entries != DIRS[7].entries
  {
    var entries: map<Name, Inode> := map["m" := 9];
    assert "m" in entries && w.v.kernel[1] == 7 && 7 in w.v.kernel.Values;
    w', steps' := Next(w, steps, Change(7, entries, false));
  }

  // ----- Two static groups with the same membership directory -----

  const OTHER: Watched := Group(GroupId(None, ["h"]))
  const TWIN_HOME: map<Watched, Inode> := map[STATIC := 7, OTHER := 7]
  const TWIN_VIEW: View := View(map[1 := OTHER], map[], map[1 := 7], 2)

  lemma TwinsStart() returns (w: World, steps: seq<Step>)
    ensures Reaches(w, steps) && w == Started(TWIN_HOME, TWIN_VIEW, 1)
  {
    assert WatchOf(TWIN_VIEW, STATIC, 7, 1) && WatchOf(TWIN_VIEW, OTHER, 7, 1);
    assert TWIN_VIEW.setGroups.Values == {};
    w, steps := Started(TWIN_HOME, TWIN_VIEW, 1), [];
  }

  lemma TwinsSync() returns (w: World, steps: seq<Step>)
    ensures Reaches(w, steps)
    ensures w.home == TWIN_HOME && w.v == TWIN_VIEW && w.todo == {STATIC, OTHER} && w.phase == Reading
    ensures w.dirs == DIRS && w.queue == [] && w.degraded == {} && w.pending == None
  {
    var w1, steps1 := TwinsStart();
    var none: map<GroupId, Lookup> := map[];
    TwinsMaySync(w1, none);
    w, steps := Next(w1, steps1, Sync(none, TWIN_VIEW));
  }

  lemma TwinsMaySync(w: World, none: map<GroupId, Lookup>)
    requires w == Started(TWIN_HOME, TWIN_VIEW, 1) && none == map[]
    ensures Enabled(w, Sync(none, TWIN_VIEW))
  {
    assert forall p <- w.home :: !OfSet(p);
    assert TWIN_VIEW.setGroups.Values == {};
  }

  lemma TwinsRead() returns (w: World, steps: seq<Step>)
    ensures Reaches(w, steps)
    ensures w.home == TWIN_HOME && w.v == TWIN_VIEW && STATIC in w.seen && w.seen[STATIC] == DIRS[7] && w.todo == {}
    ensures w.dirs == DIRS && w.queue == [] && w.degraded == {} && w.pending == None && w.phase == Idle
  {
    assert STATIC.id.path[0] != OTHER.id.path[0];
    w, steps := TwinsSync();
    w, steps := Next(w, steps, Read(STATIC));
    w, steps := Next(w, steps, Read(OTHER));
    w, steps := NextEndPass(w, steps);
  }

  lemma TwinIsLost() returns (w: World, steps: seq<Step>)
    ensures Reaches(w, steps)
    ensures w.home == TWIN_HOME && w.v.watches == map[] && w.v.kernel == map[1 := 7] && STATIC in w.seen && w.seen[STATIC] == DIRS[7]
    ensures w.todo == {} && w.dirs == DIRS && w.queue == [] && w.degraded == {OTHER} && w.pending == None && w.phase == Idle
  {
    var w1, steps1 := TwinsRead();
    var w2, steps2 := NextSelfEvent(w1, steps1);
    var c := Changes(false, false, {OTHER.id}, {});
    TwinLossCounts(w2.v.watches, w2.queue, c);
    w, steps := NextDrain(w2, steps2, c);
    assert w.v.watches == map[] && LostPlaces(c) == {OTHER};
  }

  lemma TwinLossCounts(watches: map<Wd, Watched>, es: seq<Event>, c: Changes)
    requires watches == TWIN_VIEW.watches && es == [Event(1, true)] && c == Changes(false, false, {OTHER.id}, {})
    ensures Counted(watches, es, c)
  {
    assert es[0] == Event(1, true) && Loses(watches[1], true);
    assert watches[1] == OTHER;
  }

  /**
   * Opening the second group gives the one watch its label. When the directory is moved
   * only that group is degraded; later changes are read for neither, though the kernel
   * still watches and the first group is not degraded.
   */
  lemma TwinGoesDeaf() returns (w: World, steps: seq<Step>)
    ensures Reaches(w, steps)
    ensures STATIC in w.home && w.home[STATIC] in w.dirs && !OfSet(STATIC) && STATIC !in w.degraded
    ensures 1 in w.v.kernel && w.v.kernel[1] == w.home[STATIC]
    ensures STATIC in w.seen && w.seen[STATIC].entries != w.dirs[w.home[STATIC]].entries && !Alert(w, STATIC)
  {
    assert STATIC.id.path[0] != OTHER.id.path[0];
    var w1, steps1 := TwinIsLost();
    var w2, steps2 := FoundChanges(w1, steps1);
    NothingIsHeard(w2.v.watches, w2.queue);
    w, steps := NextDrain(w2, steps2, Changes(false, false, {}, {}));
    assert LostPlaces(Changes(false, false, {}, {})) == {};
  }

  // ----- An intermediate directory changed after it was listed and before it is watched -----

  const DEEP_HOME: map<Watched, Inode> := map[ROOT := 8]
  const DEEP_VIEW: View := View(map[1 := ROOT], map[], map[1 := 8], 2)
  const DEEP_SYNCED: View := View(map[1 := ROOT, 2 := FOUND], map[ID := 2], map[1 := 8, 2 := 7], 3)

  lemma DeepRoot() returns (w: World, steps: seq<Step>)
    ensures Reaches(w, steps)
    ensures w.home == DEEP_HOME && w.seen == map[ROOT := DIRS[8]] && w.todo == {} && w.v == DEEP_VIEW
    ensures w.dirs == DIRS && w.queue == [] && w.degraded == {} && w.pending == None && w.phase == Listing && w.depths == map["s" := 2]
  {
    assert WatchOf(DEEP_VIEW, ROOT, 8, 1) && DEEP_VIEW.setGroups.Values == {};
    w, steps := Next(Started(DEEP_HOME, DEEP_VIEW, 2), [], ListDir(ROOT));
  }

  lemma DeepOpens() returns (w: World, steps: seq<Step>)
    ensures Reaches(w, steps)
    ensures w.home == DEEP_HOME[FOUND := 7] && w.todo == {FOUND} && w.v == DEEP_VIEW
    ensures w.dirs == DIRS && w.queue == [] && w.degraded == {} && w.pending == None && w.phase == Listing && w.depths == map["s" := 2]
  {
    var w1, steps1 := DeepRoot();
    assert Child(ROOT, "b") == FOUND && DIRS[8].entries["b"] == 7;
    assert forall p <- w1.home :: !OfSet(p);
    w, steps := Next(w1, steps1, OpenEntry(ROOT, "b"));
  }

  lemma DeepLists() returns (w: World, steps: seq<Step>)
    ensures Reaches(w, steps)
    ensures w.home == DEEP_HOME[FOUND := 7] && w.todo == {} && w.v == DEEP_VIEW && FOUND in w.seen && w.seen[FOUND] == DIRS[7]
    ensures w.dirs == DIRS && w.queue == [] && w.degraded == {} && w.pending == None && w.phase == Listing && w.depths == map["s" := 2]
  {
    w, steps := DeepOpens();
    w, steps := Next(w, steps, ListDir(FOUND));
  }

  lemma DeepChanges() returns (w: World, steps: seq<Step>)
    ensures Reaches(w, steps)
    ensures w.home == DEEP_HOME[FOUND := 7] && w.todo == {} && w.v == DEEP_VIEW && FOUND in w.seen && w.seen[FOUND] == DIRS[7]
    ensures w.dirs.Keys == {7, 8} && w.dirs[7].entries != DIRS[7].entries && w.dirs[8] == DIRS[8]
    ensures w.queue == [] && w.degraded == {} && w.pending == None && w.phase == Listing && w.depths == map["s" := 2]
  {
    var w1, steps1 := DeepLists();
    var entries: map<Name, Inode> := map["m" := 9];
    assert "m" in entries && 7 !in w1.v.kernel.Values;
    w, steps := Next(w1, steps1, Change(7, entries, false));
  }

  /** The intermediate directory is watched now, out of date, and nothing will tell. */
  lemma ListedBeforeWatched() returns (w: World, steps: seq<Step>)
    ensures Reaches(w, steps) && Intermediate(w.depths, FOUND) && Covered(w, FOUND)
    ensures w.home[FOUND] in w.dirs && FOUND in w.seen && w.seen[FOUND].entries != w.dirs[w.home[FOUND]].entries
    ensures !Alert(w, FOUND)
  {
    var w1, steps1 := DeepChanges();
    FoundIsNamed(w1);
    DeepSync();
    var w2, steps2 := NextSync(w1, steps1, Names(7), DEEP_SYNCED);
    w, steps := NextEndPass(w2, steps2);
    assert Hears(w.v, 7, 2);
  }

  lemma NextEndPass(w: World, steps: seq<Step>) returns (w': World, steps': seq<Step>)
    requires Reaches(w, steps) && w.phase.Reading? && w.todo == {}
    ensures w' == w.(phase := Idle) && Reaches(w', steps')
  {
    w', steps' := Next(w, steps, EndPass({}));
  }

  lemma DeepSync()
    ensures Valid(DEEP_SYNCED) && SameStatics(DEEP_VIEW, DEEP_SYNCED) && Settled(DEEP_VIEW, DEEP_SYNCED, ID, Names(7))
  {
    assert DEEP_SYNCED.setGroups[ID] == 2;
  }
}
