/** The watcher as the program runs it (src/watcher.rs). */
module WatcherLoops {
  import opened Wrappers
  import opened Names
  import opened Watching

  /** The kernel's side of an inotify instance. */
  class Inotify {
    var watched: map<Wd, Inode>
    var next: Wd

    constructor ()
      ensures watched == map[] && next == 1
    {
      watched, next := map[], 1;
    }

    method Add(i: Inode) returns (wd: Wd)
      requires Injective(watched)
      modifies this
      ensures if i in old(watched).Values then wd in old(watched) && old(watched)[wd] == i && watched == old(watched) && next == old(next)
              else wd == old(next) && watched == old(watched)[wd := i] && next == old(next) + 1
    {
      if i in watched.Values {
        wd :| wd in watched && watched[wd] == i;
      } else {
        wd, watched, next := next, watched[next := i], next + 1;
      }
    }

    method Remove(wd: Wd)
      modifies this`watched
      ensures watched == old(watched) - {wd}
    {
      watched := watched - {wd};
    }
  }

  datatype Event = Overflow | Event(wd: Wd, itself: bool)

  datatype Changes = Changes(membershipChanged: bool, overflow: bool, lost: set<GroupId>, lostSets: set<Name>)

  /** What an event about a known watch means: the directory itself went, or its entries changed. */
  predicate Loses(w: Watched, itself: bool) {
    itself && !OfSet(w)
  }

  class Watcher {
    const inotify: Inotify
    var watches: map<Wd, Watched>
    var setGroups: map<GroupId, Wd>

    constructor ()
      ensures fresh(inotify) && Valid(Look()) && watches == map[] && setGroups == map[]
    {
      inotify := new Inotify();
      watches, setGroups := map[], map[];
    }

    function Look(): View
      reads this, inotify
    {
      View(watches, setGroups, inotify.watched, inotify.next)
    }

    /** Stops watching `wd` unless another set directory still uses it. */
    method ReleaseWatch(wd: Wd)
      modifies this`watches, inotify
      ensures Look() == Release(old(Look()), wd)
    {
      if wd in setGroups.Values {
        return;
      }
      if wd in watches && OfSet(watches[wd]) {
        watches := watches - {wd};
        inotify.Remove(wd);
      }
    }

    method ForgetGroup(id: GroupId)
      modifies this, inotify
      ensures Look() == Forget(old(Look()), id)
    {
      if id in setGroups {
        var wd := setGroups[id];
        setGroups := setGroups - {id};
        ReleaseWatch(wd);
      }
    }

    method AssignGroup(id: GroupId, wd: Wd)
      modifies this, inotify
      ensures Look() == Assign(old(Look()), id, wd)
    {
      var old_ := if id in setGroups then Some(setGroups[id]) else None;
      setGroups := setGroups[id := wd];
      if old_.Some? && old_.value != wd {
        ReleaseWatch(old_.value);
      }
      if wd !in watches {
        watches := watches[wd := Group(id)];
      }
    }

    method TrackGroup(id: GroupId, at: Lookup)
      requires Valid(Look())
      modifies this, inotify
      ensures Look() == Track(old(Look()), id, at)
    {
      match at
      case Failed =>
      case NotFound => ForgetGroup(id);
      case Names(i) =>
        var wd := inotify.Add(i);
        assert (Look(), wd) == AddWatch(old(Look()), i);
        AssignGroup(id, wd);
    }

    /**
     * Watches every directory found in sets at the path it has now, and lets go of the
     * rest. Nothing leaks, and static groups and set roots keep their watches.
     */
    method Sync(current: map<GroupId, Lookup>)
      requires Valid(Look()) && forall id <- current :: id.inSet.Some?
      modifies this, inotify
      ensures Valid(Look()) && SameStatics(old(Look()), Look())
      ensures forall id <- current :: Settled(old(Look()), Look(), id, current[id])
      ensures setGroups.Keys <= current.Keys
    {
      ghost var v0 := Look();
      var gone := set id <- setGroups | id !in current;
      while gone != {}
        invariant Synced(v0, Look(), current, {})
        invariant forall id <- gone :: id in setGroups && id !in current
        invariant forall id <- setGroups :: id in current || id in gone
        decreases gone
      {
        var id :| id in gone;
        GoneStep(v0, Look(), current, id);
        ForgetGroup(id);
        gone := gone - {id};
      }
      var todo := current.Keys;
      ghost var done: set<GroupId> := {};
      while todo != {}
        invariant done + todo == current.Keys && done !! todo
        invariant Synced(v0, Look(), current, done)
        invariant setGroups.Keys <= current.Keys
        decreases todo
      {
        var id :| id in todo;
        SyncStep(v0, Look(), current, done, id);
        TrackGroup(id, current[id]);
        done, todo := done + {id}, todo - {id};
      }
    }

    /** Watches a static group's directory or a set's root at start-up, under its own label. */
    method Open(p: Watched, i: Inode)
      requires Valid(Look())
      modifies this`watches, inotify
      ensures Look() == Opened(old(Look()), p, i)
      ensures exists wd :: Hears(Look(), i, wd) && watches[wd] == p
    {
      var wd := inotify.Add(i);
      assert (View(watches, setGroups, inotify.watched, inotify.next), wd) == AddWatch(old(Look()), i);
      watches := watches[wd := p];
      assert Hears(Look(), i, wd);
    }

    /** Start-up: every static group and set root is watched under a label of its own, or none of it counts. */
    method OpenAll(places: map<Watched, Lookup>) returns (ok: bool)
      requires Valid(Look()) && watches == map[] && setGroups == map[] && forall p <- places :: !OfSet(p)
      modifies this, inotify
      ensures ok <==> forall p <- places :: places[p].Names?
      ensures ok ==> AllOpen(Look(), Homes(places))
    {
      var todo := places.Keys;
      ghost var home: map<Watched, Inode> := map[];
      while todo != {}
        invariant home.Keys + todo == places.Keys && home.Keys !! todo
        invariant forall p <- home :: places[p].Names? && home[p] == places[p].inode
        invariant AllOpen(Look(), home)
        decreases todo
      {
        var p :| p in todo;
        if !places[p].Names? {
          return false;
        }
        OpenedKeeps(Look(), home, p, places[p].inode);
        OneMore(places, home, todo, p);
        Open(p, places[p].inode);
        home, todo := home[p := places[p].inode], todo - {p};
      }
      HomesAre(places, home);
      ok := true;
    }

    /** Reads the queued events: none about a known watch is passed over. */
    method Drain(events: seq<Event>) returns (c: Changes)
      requires Valid(Look())
      modifies this`watches
      ensures c.overflow <==> Overflow in events
      ensures c.membershipChanged <==>
        exists e <- events :: e.Event? && e.wd in old(watches) && !Loses(old(watches)[e.wd], e.itself)
      ensures forall g :: g in c.lost <==>
        exists e <- events :: e.Event? && e.wd in old(watches) && Loses(old(watches)[e.wd], e.itself) && old(watches)[e.wd] == Group(g)
      ensures forall s :: s in c.lostSets <==>
        exists e <- events :: e.Event? && e.wd in old(watches) && Loses(old(watches)[e.wd], e.itself) && old(watches)[e.wd] == SetRoot(s)
      ensures Look() == AfterDrain(old(Look()), c) && Valid(Look())
    {
      c := Changes(false, false, {}, {});
      for i := 0 to |events|
        invariant watches == old(watches)
        invariant Counted(watches, events[..i], c)
      {
        CountedStep(watches, events, i, c);
        c := Count(watches, events[i], c);
      }
      assert events[..|events|] == events;
      watches := map wd <- watches | !IsLost(c, watches[wd]) :: watches[wd];
    }
  }

  /** The directories the places were opened as. */
  function Homes(places: map<Watched, Lookup>): map<Watched, Inode> {
    map p <- places | places[p].Names? :: places[p].inode
  }

  /** One more place has been opened as the directory its path names. */
  lemma OneMore(places: map<Watched, Lookup>, home: map<Watched, Inode>, todo: set<Watched>, p: Watched)
    requires home.Keys + todo == places.Keys && home.Keys !! todo && p in todo && places[p].Names?
    requires forall q <- home :: places[q].Names? && home[q] == places[q].inode
    ensures var home' := home[p := places[p].inode];
      && home'.Keys + (todo - {p}) == places.Keys && home'.Keys !! todo - {p}
      && forall q <- home' :: places[q].Names? && home'[q] == places[q].inode
  {
  }

  lemma HomesAre(places: map<Watched, Lookup>, home: map<Watched, Inode>)
    requires home.Keys == places.Keys && forall p <- home :: places[p].Names? && home[p] == places[p].inode
    ensures home == Homes(places)
  {
  }

  predicate IsLost(c: Changes, w: Watched) {
    match w
    case Group(g) => g in c.lost
    case SetRoot(s) => s in c.lostSets
  }

  /** Classifies one event. */
  function Count(watches: map<Wd, Watched>, e: Event, c: Changes): Changes {
    match e
    case Overflow => c.(overflow := true)
    case Event(wd, itself) =>
      if wd !in watches then c
      else
        match watches[wd]
        case Group(g) => if itself && g.inSet.None? then c.(lost := c.lost + {g}) else c.(membershipChanged := true)
        case SetRoot(s) => if itself then c.(lostSets := c.lostSets + {s}) else c.(membershipChanged := true)
  }

  ghost predicate Counted(watches: map<Wd, Watched>, es: seq<Event>, c: Changes) {
    && (c.overflow <==> Overflow in es)
    && (c.membershipChanged <==> exists e <- es :: e.Event? && e.wd in watches && !Loses(watches[e.wd], e.itself))
    && (forall g :: g in c.lost <==> exists e <- es :: e.Event? && e.wd in watches && Loses(watches[e.wd], e.itself) && watches[e.wd] == Group(g))
    && (forall s :: s in c.lostSets <==> exists e <- es :: e.Event? && e.wd in watches && Loses(watches[e.wd], e.itself) && watches[e.wd] == SetRoot(s))
  }

  lemma CountedStep(watches: map<Wd, Watched>, es: seq<Event>, i: nat, c: Changes)
    requires i < |es| && Counted(watches, es[..i], c)
    ensures Counted(watches, es[..i + 1], Count(watches, es[i], c))
  {
    assert es[..i + 1] == es[..i] + [es[i]];
    assert forall e :: e in es[..i + 1] <==> e in es[..i] || e == es[i];
  }

  // ----- Labels lost, and what is then not heard -----

  /** The labels left after a drain. */
  function AfterDrain(v: View, c: Changes): View {
    v.(watches := map wd <- v.watches | !IsLost(c, v.watches[wd]) :: v.watches[wd])
  }

  /** A watch loses its label iff that is of a static group or set root, and one of its directories goes. */
  lemma LabelLostExactly(v: View, es: seq<Event>, c: Changes, wd: Wd)
    requires Counted(v.watches, es, c) && wd in v.watches
    ensures wd !in AfterDrain(v, c).watches <==>
      && !OfSet(v.watches[wd])
      && exists e <- es :: e.Event? && e.itself && e.wd in v.watches && v.watches[e.wd] == v.watches[wd]
  {
  }

  /**
   * Exactly when a directory of a set goes deaf: the watch it follows bears the label of
   * a static group or set root, and an event says that one of that label's directories
   * went. No pass is asked for iff every other event is of that kind or of an unknown watch.
   */
  lemma DeafExactly(v: View, id: GroupId, i: Inode, es: seq<Event>, c: Changes)
    requires Valid(v) && Follows(v, id, i) && Counted(v.watches, es, c)
    ensures var v' := AfterDrain(v, c); var l := v.watches[v.setGroups[id]];
      && v'.setGroups == v.setGroups && v'.kernel == v.kernel
      && (!Follows(v', id, i) <==> !OfSet(l) && exists e <- es :: e.Event? && e.itself && e.wd in v.watches && v.watches[e.wd] == l)
    ensures !c.membershipChanged && !c.overflow <==>
      forall e <- es :: e.Event? && (e.wd in v.watches ==> Loses(v.watches[e.wd], e.itself))
  {
    LabelLostExactly(v, es, c, v.setGroups[id]);
  }

  /** The events under a label. */
  function Heard(watches: map<Wd, Watched>, es: seq<Event>): seq<Event> {
    if es == [] then []
    else
      var front, e := Heard(watches, es[..|es| - 1]), es[|es| - 1];
      if e.Event? && e.wd !in watches then front else front + [e]
  }

  lemma {:induction false} HeardExactly(watches: map<Wd, Watched>, es: seq<Event>)
    ensures forall e :: e in Heard(watches, es) <==> e in es && (e.Event? ==> e.wd in watches)
  {
    if es != [] {
      HeardExactly(watches, es[..|es| - 1]);
      assert es == es[..|es| - 1] + [es[|es| - 1]];
    }
  }

  /** An event of a watch without a label changes nothing that a drain reports. */
  lemma UnlabelledIsUnheard(watches: map<Wd, Watched>, es: seq<Event>, c: Changes)
    ensures Counted(watches, es, c) <==> Counted(watches, Heard(watches, es), c)
    ensures Heard(watches, es) == [] && Counted(watches, es, c) ==> c == Changes(false, false, {}, {})
  {
    HeardExactly(watches, es);
  }
}
