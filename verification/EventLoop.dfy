/** The daemon's event loop and reloads: when a pass starts, and what wakes the loop (src/daemon.rs:147-398). */
module EventLoop {
  import opened Wrappers
  import opened Names
  import opened Watching
  import opened WatcherLoops
  import opened Wakeup

  datatype Trigger = Inotify | Resync

  function Earliest(a: Option<nat>, b: Option<nat>): Option<nat> {
    if a.None? then b else if b.None? then a else Some(Min(a.value, b.value))
  }

  /** What the loop goes by. */
  datatype Loop = Loop(now: nat, pending: Option<Pending>, nextResync: Option<nat>)

  /**
   What one iteration meets: when the watcher will have events and what they mean, when
   something else will be ready, how long handling, checking and a pass take, and what
   a pass finds deleted.
   */
  datatype Turn = Turn(
    events: Option<(nat, Changes)>, other: nat, handling: nat, checking: nat, passing: nat, gone: set<Watched>)

  function Due(p: Option<Pending>): Option<nat> {
    if p.Some? then Some(p.value.due) else None
  }

  /** How long the wait lasts: until something is ready, and never beyond the timeout. */
  function Waited(timeout: Option<nat>, t: Turn): nat {
    var ready := if t.events.Some? then Min(t.events.value.0, t.other) else t.other;
    if timeout.Some? then Min(timeout.value, ready) else ready
  }

  function Asks(t: Turn, waited: nat): bool {
    t.events.Some? && t.events.value.0 <= waited && (t.events.value.1.membershipChanged || t.events.value.1.overflow)
  }

  /** The directories an iteration finds lost: by its events, if it hears any, and by its pass, if it runs one. */
  function Losses(t: Turn, waited: nat, passes: bool): set<Watched> {
    (if t.events.Some? && t.events.value.0 <= waited then LostPlaces(t.events.value.1) else {}) + (if passes then t.gone else {})
  }

  // ----- The epoll instance -----

  type Fd = nat

  class Epoll {
    var registered: set<Fd>

    constructor (fds: set<Fd>)
      ensures registered == fds
    {
      registered := fds;
    }

    method Add(fd: Fd, works: bool) returns (ok: bool)
      modifies this
      ensures ok == works && registered == if ok then old(registered) + {fd} else old(registered)
    {
      if works { registered := registered + {fd}; }
      ok := works;
    }

    method Delete(fd: Fd, works: bool) returns (ok: bool)
      modifies this
      ensures ok == works && registered == if ok then old(registered) - {fd} else old(registered)
    {
      if works { registered := registered - {fd}; }
      ok := works;
    }

    /** Closing a descriptor takes it out of the instance. */
    method Close(fd: Fd)
      modifies this
      ensures registered == old(registered) - {fd}
    {
      registered := registered - {fd};
    }
  }

  /** A configuration on disk, and whether everything it needs opens; `watcher` is its new inotify instance. */
  datatype Candidate = Candidate(loads: bool, stateDir: string, opens: bool, interval: Option<nat>, watcher: Fd)

  // ----- The daemon -----

  class Daemon {
    var now: nat
    var pending: Option<Pending>
    var nextResync: Option<nat>
    var resyncInterval: Option<nat>
    var degraded: set<Watched>
    var watcher: Fd
    const signals: Fd
    const stateDir: string
    const epoll: Epoll

    constructor (interval: Option<nat>, dir: string, signals: Fd, watcher: Fd)
      requires signals != watcher
      ensures Registered() && fresh(epoll) && pending.None? && nextResync.None? && resyncInterval == interval && degraded == {}
    {
      now, pending, nextResync, resyncInterval, degraded := 0, None, None, interval, {};
      this.watcher, this.signals, stateDir := watcher, signals, dir;
      epoll := new Epoll({signals, watcher});
    }

    /** The loop is woken by signals and by the daemon's own watcher, and by nothing else. */
    predicate Registered()
      reads this, epoll
    {
      signals != watcher && epoll.registered == {signals, watcher}
    }

    function Look(): Loop
      reads this
    {
      Loop(now, pending, nextResync)
    }

    /** How long to wait: never beyond what is due, and not at all once it is. */
    method Timeout() returns (wait: Option<nat>)
      ensures wait.None? <==> pending.None? && nextResync.None?
      ensures pending.Some? ==> wait.value == 0 || now + wait.value <= pending.value.due
      ensures nextResync.Some? ==> wait.value == 0 || now + wait.value <= nextResync.value
      ensures wait == Until(Look())
    {
      var deadline := Earliest(nextResync, Due(pending));
      wait := if deadline.None? then None else Some(if deadline.value > now then deadline.value - now else 0);
    }

    /** Directories that are gone degrade their groups; anything else asks for a pass. */
    method HandleInotify(c: Changes)
      requires pending.Some? ==> pending.value.first <= now
      modifies this`pending, this`degraded
      ensures degraded == old(degraded) + LostPlaces(c)
      ensures pending == if c.membershipChanged || c.overflow then Some(Debounced(old(pending), now)) else old(pending)
      ensures pending.Some? && pending != old(pending) ==>
        pending.value.first <= now && pending.value.due <= now + DEBOUNCE && pending.value.due <= pending.value.first + MAX_DEBOUNCE
      ensures c.membershipChanged || c.overflow ==>
        && pending.Some? && pending.value.first == (if old(pending).Some? then old(pending).value.first else now)
        && (pending.value.due == now + 150 || pending.value.due == pending.value.first + 1000)
        && pending.value.due <= now + 150 && pending.value.due <= pending.value.first + 1000
    {
      degraded := degraded + LostPlaces(c);
      if c.membershipChanged || c.overflow {
        var first := if pending.Some? then pending.value.first else now;
        pending := Some(Pending(first, Min(now + DEBOUNCE, first + MAX_DEBOUNCE)));
      }
    }

    /** Waits, and handles what is ready: the watcher's events, if its descriptor is registered. */
    method Listen(t: Turn)
      requires Registered() && (pending.Some? ==> pending.value.first <= now)
      modifies this`now, this`pending, this`degraded
      ensures Look() == Handled(old(Look()), t)
      ensures degraded == old(degraded) + Losses(t, Waited(Until(old(Look())), t), false)
    {
      var timeout := Timeout();
      var heard := watcher in epoll.registered && t.events.Some?;
      var ready := if heard then Min(t.events.value.0, t.other) else t.other;
      var waited := if timeout.Some? then Min(timeout.value, ready) else ready;
      now := now + waited + t.handling;
      if heard && t.events.value.0 <= waited {
        HandleInotify(t.events.value.1);
      }
    }

    /** One iteration: wait, handle what is ready, and run a pass if one is due. */
    method Iterate(t: Turn) returns (start: Option<(Trigger, nat)>)
      requires Registered() && (pending.Some? ==> pending.value.first <= now)
      modifies this`now, this`pending, this`degraded, this`nextResync
      ensures (Look(), start) == Turned(old(Look()), t, resyncInterval)
      ensures degraded == old(degraded) + Losses(t, Waited(Until(old(Look())), t), start.Some?)
      ensures start.Some? ==> pending.None?
      ensures start.Some? ==>
        nextResync == if resyncInterval.Some? then Some(start.value.1 + t.passing + resyncInterval.value) else None
      ensures Registered()
    {
      Listen(t);
      now := now + t.checking;
      start := None;
      if pending.Some? && now >= pending.value.due {
        start := Some((Inotify, now));
      }
      if start.None? && nextResync.Some? && now >= nextResync.value {
        start := Some((Resync, now));
      }
      if start.Some? {
        pending, now := None, now + t.passing;
        degraded := degraded + t.gone;
        nextResync := if resyncInterval.Some? then Some(now + resyncInterval.value) else None;
      }
    }

    /** Registers the new watcher, then lets go of the old one; either call may fail. */
    method SwapWatcher(next: Fd, adds: bool, deletes: bool) returns (ok: bool)
      modifies epoll
      ensures ok == (adds && deletes)
      ensures epoll.registered == if !adds then old(epoll.registered) else if !deletes then old(epoll.registered) + {next}
        else old(epoll.registered) + {next} - {watcher}
    {
      ok := epoll.Add(next, adds);
      if ok {
        ok := epoll.Delete(watcher, deletes);
      }
    }

    /**
     A reload that fails anywhere leaves the daemon as it was, and what it had opened is
     closed. Either way the loop is woken by exactly the watcher the daemon has now.
     */
    method Reload(c: Candidate, adds: bool, deletes: bool) returns (applied: bool)
      requires Registered() && c.watcher !in epoll.registered
      modifies this`watcher, this`pending, this`degraded, this`resyncInterval, epoll
      ensures Registered()
      ensures applied <==> c.loads && c.stateDir == stateDir && c.opens && adds && deletes
      ensures watcher == if applied then c.watcher else old(watcher)
      ensures pending == if applied then None else old(pending)
      ensures degraded == if applied then {} else old(degraded)
      ensures resyncInterval == if applied then c.interval else old(resyncInterval)
    {
      if !c.loads || c.stateDir != stateDir || !c.opens {
        return false;
      }
      var swapped := SwapWatcher(c.watcher, adds, deletes);
      if !swapped {
        epoll.Close(c.watcher);
        return false;
      }
      epoll.Close(watcher);
      watcher, degraded, resyncInterval, pending := c.watcher, {}, c.interval, None;
      applied := true;
    }
  }

  // ----- One iteration, as a function -----

  function Until(l: Loop): Option<nat> {
    match Earliest(l.nextResync, Due(l.pending))
    case None => None
    case Some(d) => Some(if d > l.now then d - l.now else 0)
  }

  /** The loop when it has handled what was ready. */
  function Handled(l: Loop, t: Turn): Loop {
    var waited := Waited(Until(l), t);
    var at := l.now + waited + t.handling;
    Loop(at, if Asks(t, waited) then Some(Debounced(l.pending, at)) else l.pending, l.nextResync)
  }

  function Turned(l: Loop, t: Turn, interval: Option<nat>): (Loop, Option<(Trigger, nat)>) {
    var h := Handled(l, t);
    var at := h.now + t.checking;
    var start :=
      if h.pending.Some? && at >= h.pending.value.due then Some((Inotify, at))
      else if h.nextResync.Some? && at >= h.nextResync.value then Some((Resync, at))
      else None;
    if start.Some? then
      (Loop(at + t.passing, None, if interval.Some? then Some(at + t.passing + interval.value) else None), start)
    else (Loop(at, h.pending, h.nextResync), None)
  }

  // ----- When a pass starts -----

  /** A pass is pending, asked for at `first`, and not yet due. */
  predicate Waits(l: Loop, first: nat) {
    && l.pending.Some? && l.pending.value.first == first
    && first <= l.now < l.pending.value.due <= first + MAX_DEBOUNCE
  }

  /** One iteration with a pass pending: it starts no later than its bound and the time
      the iteration takes to handle and check, or goes on waiting before its bound. */
  lemma WaitingTurn(l: Loop, t: Turn, interval: Option<nat>, first: nat, slack: nat)
    requires Waits(l, first) && t.handling + t.checking <= slack
    ensures var (l', start) := Turned(l, t, interval);
      if start.Some? then start.value.1 <= first + MAX_DEBOUNCE + slack else Waits(l', first)
  {
  }

  /** The iteration that hears of the first change: the bound counts from then. */
  lemma AskingTurn(l: Loop, t: Turn, interval: Option<nat>, slack: nat)
    requires l.pending.None? && t.handling + t.checking <= slack
    requires t.events.Some? && t.events.value.0 <= Waited(Until(l), t)
    requires t.events.value.1.membershipChanged || t.events.value.1.overflow
    ensures var first := l.now + Waited(Until(l), t) + t.handling; var (l', start) := Turned(l, t, interval);
      if start.Some? then start.value.1 <= first + slack else Waits(l', first)
  {
  }

  /** When the first pass of a run of iterations starts, and the loop if none does. */
  function FirstStart(l: Loop, ts: seq<Turn>, interval: Option<nat>): (Loop, Option<nat>)
    decreases |ts|
  {
    if ts == [] then (l, None)
    else
      var (l', start) := Turned(l, ts[0], interval);
      if start.Some? then (l', Some(start.value.1)) else FirstStart(l', ts[1..], interval)
  }

  /**
   Over any iterations, a pass that was asked for at `first` starts no later than one
   second after, plus what the iteration takes; as long as none has started the second
   is not over.
   */
  lemma {:induction false} StartsInTime(l: Loop, ts: seq<Turn>, interval: Option<nat>, first: nat, slack: nat)
    requires Waits(l, first) && forall t <- ts :: t.handling + t.checking <= slack
    ensures var (l', start) := FirstStart(l, ts, interval);
      if start.Some? then start.value <= first + MAX_DEBOUNCE + slack
      else l'.now < first + MAX_DEBOUNCE
    decreases |ts|
  {
    if ts != [] {
      WaitingTurn(l, ts[0], interval, first, slack);
      var (l', start) := Turned(l, ts[0], interval);
      if start.None? {
        StartsInTime(l', ts[1..], interval, first, slack);
      }
    }
  }

  // ----- The regular pass -----

  function Max(a: nat, b: nat): nat {
    if a < b then b else a
  }

  /** After every pass the next regular one is an interval away from its end, if there is one. */
  lemma ResyncFollows(l: Loop, t: Turn, interval: Option<nat>)
    requires Turned(l, t, interval).1.Some?
    ensures var (l', start) := Turned(l, t, interval);
      && l'.pending.None? && l'.now == start.value.1 + t.passing
      && (interval.None? <==> l'.nextResync.None?)
      && (interval.Some? ==> l'.nextResync.value == l'.now + interval.value)
  {
  }

  lemma ResyncTurn(l: Loop, t: Turn, interval: Option<nat>, due: nat, slack: nat)
    requires l.nextResync == Some(due) && t.handling + t.checking <= slack
    ensures var (l', start) := Turned(l, t, interval);
      if start.Some? then start.value.1 <= Max(due, l.now) + slack else l'.now < due && l'.nextResync == Some(due)
  {
  }

  /**
   Over any iterations, a pass starts no later than the regular one is due, or than now if that is
   past, plus what the iteration takes; as long as none has started it is not due.
   */
  lemma {:induction false} ResyncsInTime(l: Loop, ts: seq<Turn>, interval: Option<nat>, due: nat, slack: nat)
    requires l.nextResync == Some(due) && ts != [] && forall t <- ts :: t.handling + t.checking <= slack
    ensures var (l', start) := FirstStart(l, ts, interval);
      if start.Some? then start.value <= Max(due, l.now) + slack else l'.now < due && l'.nextResync == Some(due)
    decreases |ts|
  {
    ResyncTurn(l, ts[0], interval, due, slack);
    var (l', start) := Turned(l, ts[0], interval);
    if start.None? && |ts| > 1 {
      ResyncsInTime(l', ts[1..], interval, due, slack);
    }
  }

  // ----- No pass before its time -----

  /** Nothing is due before `t`. */
  predicate NothingBefore(l: Loop, t: nat) {
    && (l.nextResync.Some? ==> t <= l.nextResync.value)
    && (l.pending.Some? ==> t <= l.pending.value.due)
  }

  /** What handling events leaves pending. */
  predicate InBounds(l: Loop) {
    l.pending.Some? ==>
      && l.pending.value.first <= l.now
      && l.pending.value.due <= l.now + DEBOUNCE && l.pending.value.due <= l.pending.value.first + MAX_DEBOUNCE
  }

  lemma EarlyTurn(l: Loop, t: Turn, interval: Option<nat>, early: nat)
    requires InBounds(l) && l.pending.Some? && NothingBefore(l, early)
    ensures var (l', start) := Turned(l, t, interval);
      if start.Some? then early <= start.value.1 else InBounds(l') && l'.pending.Some? && NothingBefore(l', early)
  {
  }

  /** A pass nothing asked for is a regular one that is due; without regular passes, one starts only
      when changes asked for it. */
  lemma TriggerIsRight(l: Loop, t: Turn, interval: Option<nat>)
    requires Turned(l, t, interval).1.Some?
    ensures var (trigger, at) := Turned(l, t, interval).1.value;
      && (l.pending.None? && !Asks(t, Waited(Until(l), t)) ==> trigger == Resync && l.nextResync.Some? && l.nextResync.value <= at)
      && (l.nextResync.None? ==> trigger == Inotify && (l.pending.Some? || Asks(t, Waited(Until(l), t))))
  {
  }

  /** Over any iterations, a pass that was asked for waits until it or the regular one is due:
      further changes never bring it forward. */
  lemma {:induction false} NeverEarly(l: Loop, ts: seq<Turn>, interval: Option<nat>, early: nat)
    requires InBounds(l) && l.pending.Some? && NothingBefore(l, early)
    ensures FirstStart(l, ts, interval).1.Some? ==> early <= FirstStart(l, ts, interval).1.value
    decreases |ts|
  {
    if ts != [] {
      EarlyTurn(l, ts[0], interval, early);
      var (l', start) := Turned(l, ts[0], interval);
      if start.None? {
        NeverEarly(l', ts[1..], interval, early);
      }
    }
  }
}
