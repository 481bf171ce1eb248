/** The epoll set and the timers agree with the watches and timeouts after every run of callbacks. */
module EventLoopTheorems {
  import opened Options
  import opened EventLoopIndex

  // ---------------------------------------------------------------- agreement

  /** Descriptors of different kinds are different open files. */
  ghost predicate Apart(s: System) {
    var watchFds, timerFds := WatchFds(s.loop.watches), TimerFds(s.loop.timeouts);
    && s.loop.wakeFd !in watchFds + timerFds
    && watchFds !! timerFds
    && DistinctFds(s.loop.timeouts)
    && -1 !in s.kernel.epoll
  }

  ghost predicate Agrees(s: System) {
    && s.kernel.epoll.Keys == {s.loop.wakeFd} + WatchFds(s.loop.watches) + TimerFds(s.loop.timeouts)
    && s.kernel.epoll[s.loop.wakeFd] == {IN}
    && (forall fd :: fd in WatchFds(s.loop.watches) ==>
          s.kernel.epoll[fd] == Mask(s.loop.watches, s.bus.enabled, fd))
    && (forall fd :: fd in TimerFds(s.loop.timeouts) ==> s.kernel.epoll[fd] == {IN})
    && s.kernel.armed.Keys == TimerFds(s.loop.timeouts)
  }

  /** The timer that each timeout uses has that timeout's period. */
  ghost predicate Armed(s: System)
    requires s.kernel.armed.Keys == TimerFds(s.loop.timeouts)
  {
    forall t :: TimerFdFor(s.loop.timeouts, t) in s.kernel.armed ==>
      s.kernel.armed[TimerFdFor(s.loop.timeouts, t)] == Period(s.bus.due, t)
  }

  /** Descriptors come from the kernel, so a new one differs from those in use for another purpose. */
  predicate Fresh(s: System, c: Callback) {
    match c
    case AddingWatch(w, _) => w.fd >= 0 && w.fd != s.loop.wakeFd && w.fd !in TimerFds(s.loop.timeouts)
    case RemovingWatch(w) => w.fd != s.loop.wakeFd && w.fd !in TimerFds(s.loop.timeouts)
    case SettingWatch(w, _) => w.fd != s.loop.wakeFd && w.fd !in TimerFds(s.loop.timeouts)
    case AddingTimeout(_, fd, _, _) => fd >= 0 && fd !in s.kernel.epoll
    case _ => true
  }

  predicate ArmOk(c: Callback) {
    (c.AddingTimeout? || c.SettingTimeout?) ==> c.armOk
  }

  ghost predicate Legal(s: System, callbacks: seq<Callback>)
    decreases |callbacks|
  {
    callbacks != [] ==> Fresh(s, callbacks[0]) && Legal(Step(s, callbacks[0]), callbacks[1..])
  }

  // ---------------------------------------------------------------- small facts

  lemma {:induction false} MaskIgnores(watches: seq<Watch>, a: set<Watch>, b: set<Watch>, fd: int)
    requires forall w :: w in watches && w.fd == fd ==> (w in a <==> w in b)
    ensures Mask(watches, a, fd) == Mask(watches, b, fd)
  {
    if watches != [] {
      MaskIgnores(watches[..|watches| - 1], a, b, fd);
    }
  }

  lemma {:induction false} MaskNothing(watches: seq<Watch>, enabled: set<Watch>, fd: int)
    requires fd !in WatchFds(watches)
    ensures Mask(watches, enabled, fd) == {}
  {
    if watches != [] {
      assert watches[|watches| - 1] in watches;
      MaskNothing(watches[..|watches| - 1], enabled, fd);
    }
  }

  lemma {:induction false} MaskConcat(a: seq<Watch>, b: seq<Watch>, enabled: set<Watch>, fd: int)
    ensures Mask(a + b, enabled, fd) == Mask(a, enabled, fd) + Mask(b, enabled, fd)
  {
    if b == [] {
      assert a + b == a;
    } else {
      var n := |b| - 1;
      assert (a + b)[..|a + b| - 1] == a + b[..n];
      MaskConcat(a, b[..n], enabled, fd);
    }
  }

  lemma {:induction false} EraseWatchMembers(watches: seq<Watch>, w: Watch)
    ensures forall v :: v in EraseWatch(watches, w) <==> v in watches && v != w
    decreases |watches|
  {
    if watches != [] {
      EraseWatchMembers(watches[1..], w);
      assert watches == [watches[0]] + watches[1..];
    }
  }

  /** Erasing a watch leaves the mask of any other descriptor alone. */
  lemma {:induction false} EraseWatchMask(watches: seq<Watch>, w: Watch, enabled: set<Watch>, fd: int)
    requires fd != w.fd
    ensures Mask(EraseWatch(watches, w), enabled, fd) == Mask(watches, enabled, fd)
    decreases |watches|
  {
    if watches != [] {
      EraseWatchMask(watches[1..], w, enabled, fd);
      assert watches == [watches[0]] + watches[1..];
      MaskConcat([watches[0]], watches[1..], enabled, fd);
      if watches[0] == w {
        MaskNothing([w], enabled, fd);
        assert EraseWatch(watches, w) == EraseWatch(watches[1..], w);
      } else {
        MaskConcat([watches[0]], EraseWatch(watches[1..], w), enabled, fd);
      }
    }
  }

  lemma {:induction false} TimerFdMember(timeouts: seq<(Timeout, int)>, t: Timeout)
    ensures TimerFdFor(timeouts, t) == -1 || (t, TimerFdFor(timeouts, t)) in timeouts
    decreases |timeouts|
  {
    if timeouts != [] && timeouts[0].0 != t {
      TimerFdMember(timeouts[1..], t);
    }
  }

  lemma {:induction false} EraseTimeoutMembers(timeouts: seq<(Timeout, int)>, t: Timeout)
    ensures forall p :: p in EraseTimeout(timeouts, t) <==> p in timeouts && p.0 != t
    decreases |timeouts|
  {
    if timeouts != [] {
      EraseTimeoutMembers(timeouts[1..], t);
      assert timeouts == [timeouts[0]] + timeouts[1..];
    }
  }

  ghost predicate DistinctFds(timeouts: seq<(Timeout, int)>) {
    forall i, j :: 0 <= i < j < |timeouts| ==> timeouts[i].1 != timeouts[j].1
  }

  lemma {:induction false} EraseTimeoutDistinct(timeouts: seq<(Timeout, int)>, t: Timeout)
    requires DistinctFds(timeouts)
    ensures DistinctFds(EraseTimeout(timeouts, t))
    decreases |timeouts|
  {
    if timeouts != [] {
      var rest := EraseTimeout(timeouts[1..], t);
      EraseTimeoutDistinct(timeouts[1..], t);
      EraseTimeoutMembers(timeouts[1..], t);
      if timeouts[0].0 != t {
        var all := EraseTimeout(timeouts, t);
        assert all == [timeouts[0]] + rest;
        forall j | 0 < j < |all| ensures all[0].1 != all[j].1 {
          assert all[j] in rest;
        }
      } else {
        assert EraseTimeout(timeouts, t) == rest;
      }
    }
  }

  lemma {:induction false} EraseTimeoutLookup(timeouts: seq<(Timeout, int)>, t: Timeout, u: Timeout)
    ensures TimerFdFor(EraseTimeout(timeouts, t), u) == if u == t then -1 else TimerFdFor(timeouts, u)
    decreases |timeouts|
  {
    if timeouts != [] {
      EraseTimeoutLookup(timeouts[1..], t, u);
      var rest := EraseTimeout(timeouts[1..], t);
      if timeouts[0].0 == t {
        assert EraseTimeout(timeouts, t) == rest;
      } else {
        assert EraseTimeout(timeouts, t)[1..] == rest;
      }
    }
  }

  lemma {:induction false} TimerFdAppended(timeouts: seq<(Timeout, int)>, t: Timeout, fd: int, u: Timeout)
    requires -1 !in TimerFds(timeouts)
    ensures TimerFdFor(timeouts + [(t, fd)], u) ==
      if TimerFdFor(timeouts, u) != -1 then TimerFdFor(timeouts, u) else if u == t then fd else -1
    decreases |timeouts|
  {
    if timeouts != [] {
      assert timeouts[0].1 in TimerFds(timeouts);
      assert TimerFds(timeouts[1..]) <= TimerFds(timeouts);
      assert (timeouts + [(t, fd)])[1..] == timeouts[1..] + [(t, fd)];
      TimerFdAppended(timeouts[1..], t, fd, u);
    }
  }

  // ---------------------------------------------------------------- every callback

  ghost predicate Invariant(s: System) {
    Apart(s) && Agrees(s)
  }

  lemma AddWatchAgrees(s: System, w: Watch, ok: bool)
    requires Invariant(s) && Fresh(s, AddingWatch(w, ok))
    ensures Invariant(AddWatch(s, w, ok))
  {
    var r := AddWatch(s, w, ok);
    if r != s {
      assert WatchFds(r.loop.watches) == WatchFds(s.loop.watches) + {w.fd} by {
        forall v ensures v in r.loop.watches <==> v in s.loop.watches || v == w {
        }
      }
      forall fd | fd in WatchFds(r.loop.watches) && fd != w.fd
        ensures r.kernel.epoll[fd] == Mask(r.loop.watches, r.bus.enabled, fd)
      {
        assert r.loop.watches[..|s.loop.watches|] == s.loop.watches;
      }
    }
  }

  lemma RemoveWatchAgrees(s: System, w: Watch)
    requires Invariant(s) && Fresh(s, RemovingWatch(w))
    ensures Invariant(RemoveWatch(s, w))
  {
    var r := RemoveWatch(s, w);
    EraseWatchMembers(s.loop.watches, w);
    assert WatchFds(r.loop.watches) + {w.fd} == WatchFds(s.loop.watches) + {w.fd} by {
      forall v | v in s.loop.watches ensures v == w || v in r.loop.watches {
      }
    }
    forall fd | fd in WatchFds(r.loop.watches) && fd != w.fd
      ensures r.kernel.epoll[fd] == Mask(r.loop.watches, r.bus.enabled, fd)
    {
      EraseWatchMask(s.loop.watches, w, s.bus.enabled, fd);
    }
  }

  lemma SetWatchAgrees(s: System, w: Watch, on: bool)
    requires Invariant(s) && Fresh(s, SettingWatch(w, on))
    ensures Invariant(SetWatch(s, w, on))
  {
    var r := SetWatch(s, w, on);
    forall fd | fd in WatchFds(s.loop.watches) && fd != w.fd
      ensures Mask(s.loop.watches, r.bus.enabled, fd) == Mask(s.loop.watches, s.bus.enabled, fd)
    {
      MaskIgnores(s.loop.watches, r.bus.enabled, s.bus.enabled, fd);
    }
  }

  lemma AddTimeoutAgrees(s: System, t: Timeout, fd: int, ok: bool, armOk: bool)
    requires Invariant(s) && Fresh(s, AddingTimeout(t, fd, ok, armOk))
    ensures Invariant(AddTimeout(s, t, fd, ok, armOk))
  {
    var r := AddTimeout(s, t, fd, ok, armOk);
    if r != s {
      assert TimerFds(r.loop.timeouts) == TimerFds(s.loop.timeouts) + {fd} by {
        forall p ensures p in r.loop.timeouts <==> p in s.loop.timeouts || p == (t, fd) {
        }
      }
      forall i | 0 <= i < |s.loop.timeouts| ensures s.loop.timeouts[i].1 != fd {
        assert s.loop.timeouts[i] in s.loop.timeouts;
      }
    }
  }

  lemma RemoveTimeoutAgrees(s: System, t: Timeout)
    requires Invariant(s)
    ensures Invariant(RemoveTimeout(s, t))
  {
    var r := RemoveTimeout(s, t);
    EraseTimeoutMembers(s.loop.timeouts, t);
    EraseTimeoutDistinct(s.loop.timeouts, t);
    TimerFdMember(s.loop.timeouts, t);
    var fd := TimerFdFor(s.loop.timeouts, t);
    assert TimerFds(r.loop.timeouts) <= TimerFds(s.loop.timeouts);
    if fd != -1 {
      assert fd in TimerFds(s.loop.timeouts);
      assert fd !in TimerFds(r.loop.timeouts) by {
        if fd in TimerFds(r.loop.timeouts) {
          var p :| p in r.loop.timeouts && p.1 == fd;
          SameFdSameEntry(s.loop.timeouts, p, (t, fd));
        }
      }
    }
  }

  lemma SameFdSameEntry(timeouts: seq<(Timeout, int)>, p: (Timeout, int), q: (Timeout, int))
    requires DistinctFds(timeouts) && p in timeouts && q in timeouts && p.1 == q.1
    ensures p == q
  {
  }

  lemma StepAgrees(s: System, c: Callback)
    requires Invariant(s) && Fresh(s, c)
    ensures Invariant(Step(s, c))
  {
    match c
    case AddingWatch(w, ok) => AddWatchAgrees(s, w, ok);
    case RemovingWatch(w) => RemoveWatchAgrees(s, w);
    case SettingWatch(w, on) => SetWatchAgrees(s, w, on);
    case AddingTimeout(t, fd, ok, armOk) => AddTimeoutAgrees(s, t, fd, ok, armOk);
    case RemovingTimeout(t) => RemoveTimeoutAgrees(s, t);
    case SettingTimeout(_, _, _) =>
  }

  lemma SharedTimer(timeouts: seq<(Timeout, int)>, t: Timeout, u: Timeout)
    requires DistinctFds(timeouts)
    requires TimerFdFor(timeouts, t) == TimerFdFor(timeouts, u) != -1
    ensures t == u
  {
    TimerFdMember(timeouts, t);
    TimerFdMember(timeouts, u);
    SameFdSameEntry(timeouts, (t, TimerFdFor(timeouts, t)), (u, TimerFdFor(timeouts, u)));
  }

  /** Setting the timer of one timeout gives it its period and leaves the others theirs. */
  lemma UpdateTimerArms(s: System, t: Timeout)
    requires Invariant(s)
    requires forall u :: u != t && TimerFdFor(s.loop.timeouts, u) in s.kernel.armed ==>
      s.kernel.armed[TimerFdFor(s.loop.timeouts, u)] == Period(s.bus.due, u)
    ensures Armed(UpdateTimer(s, t, true))
  {
    forall u | u != t && TimerFdFor(s.loop.timeouts, u) in s.kernel.armed
      ensures TimerFdFor(s.loop.timeouts, u) != TimerFdFor(s.loop.timeouts, t)
    {
      if TimerFdFor(s.loop.timeouts, u) == TimerFdFor(s.loop.timeouts, t) {
        SharedTimer(s.loop.timeouts, u, t);
      }
    }
  }

  lemma AddTimeoutArms(s: System, t: Timeout, fd: int, ok: bool)
    requires Invariant(s) && Armed(s) && Fresh(s, AddingTimeout(t, fd, ok, true))
    ensures var r := AddTimeout(s, t, fd, ok, true);
      r.kernel.armed.Keys == TimerFds(r.loop.timeouts) && Armed(r)
  {
    AddTimeoutAgrees(s, t, fd, ok, true);
    if ok && fd !in s.kernel.epoll {
      var before := AddTimeout(s, t, fd, ok, false);
      AddTimeoutAgrees(s, t, fd, ok, false);
      forall u | u != t && TimerFdFor(before.loop.timeouts, u) in before.kernel.armed
        ensures before.kernel.armed[TimerFdFor(before.loop.timeouts, u)] == Period(s.bus.due, u)
      {
        OtherTimerKept(s, t, fd, u);
      }
      UpdateTimerArms(before, t);
    }
  }

  lemma OtherTimerKept(s: System, t: Timeout, fd: int, u: Timeout)
    requires Invariant(s) && fd >= 0 && fd !in s.kernel.epoll && u != t
    requires TimerFdFor(s.loop.timeouts + [(t, fd)], u) != -1
    ensures TimerFdFor(s.loop.timeouts + [(t, fd)], u) == TimerFdFor(s.loop.timeouts, u) != fd
    ensures TimerFdFor(s.loop.timeouts, u) in s.kernel.armed
  {
    TimerFdAppended(s.loop.timeouts, t, fd, u);
    TimerFdMember(s.loop.timeouts, u);
    assert (u, TimerFdFor(s.loop.timeouts, u)) in s.loop.timeouts;
    assert TimerFdFor(s.loop.timeouts, u) in TimerFds(s.loop.timeouts);
  }

  lemma RemoveTimeoutArms(s: System, t: Timeout)
    requires Invariant(s) && Armed(s)
    ensures var r := RemoveTimeout(s, t);
      r.kernel.armed.Keys == TimerFds(r.loop.timeouts) && Armed(r)
  {
    var r := RemoveTimeout(s, t);
    RemoveTimeoutAgrees(s, t);
    forall u ensures TimerFdFor(r.loop.timeouts, u) == if u == t then -1 else TimerFdFor(s.loop.timeouts, u) {
      EraseTimeoutLookup(s.loop.timeouts, t, u);
    }
    assert -1 !in r.kernel.armed;
  }

  lemma WatchesKeepTimers(s: System, c: Callback)
    requires c.AddingWatch? || c.RemovingWatch? || c.SettingWatch?
    ensures var r := Step(s, c);
      r.kernel.armed == s.kernel.armed && r.loop.timeouts == s.loop.timeouts && r.bus.due == s.bus.due
  {
  }

  lemma StepArms(s: System, c: Callback)
    requires Invariant(s) && Armed(s) && Fresh(s, c) && ArmOk(c)
    ensures Invariant(Step(s, c)) && Armed(Step(s, c))
  {
    StepAgrees(s, c);
    match c
    case AddingTimeout(t, fd, ok, _) => AddTimeoutArms(s, t, fd, ok);
    case RemovingTimeout(t) => RemoveTimeoutArms(s, t);
    case SettingTimeout(t, interval, _) => UpdateTimerArms(SetTimeout(s, t, interval, false), t);
    case _ => WatchesKeepTimers(s, c);
  }

  // ---------------------------------------------------------------- every run

  lemma InitialAgrees(wakeFd: int, bus: Bus)
    requires wakeFd >= 0
    ensures Invariant(Initial(wakeFd, bus)) && Armed(Initial(wakeFd, bus))
  {
  }

  lemma {:induction false} RunAgrees(s: System, callbacks: seq<Callback>)
    requires Invariant(s) && Legal(s, callbacks)
    ensures Invariant(Run(s, callbacks))
    ensures Armed(s) && (forall k :: 0 <= k < |callbacks| ==> ArmOk(callbacks[k])) ==> Armed(Run(s, callbacks))
    decreases |callbacks|
  {
    if callbacks != [] {
      StepAgrees(s, callbacks[0]);
      if Armed(s) && ArmOk(callbacks[0]) {
        StepArms(s, callbacks[0]);
      }
      RunAgrees(Step(s, callbacks[0]), callbacks[1..]);
    }
  }

  /**
   After any run of callbacks, epoll holds exactly the wake-up pipe, the
   watched descriptors and the timers, each watched descriptor with the union of
   what its watches ask for; and if no timer was refused, each has its period.
   */
  lemma {:induction false} IndexAgreement(wakeFd: int, bus: Bus, callbacks: seq<Callback>)
    requires wakeFd >= 0 && Legal(Initial(wakeFd, bus), callbacks)
    ensures Agrees(Run(Initial(wakeFd, bus), callbacks))
    ensures (forall k :: 0 <= k < |callbacks| ==> ArmOk(callbacks[k])) ==> Armed(Run(Initial(wakeFd, bus), callbacks))
  {
    InitialAgrees(wakeFd, bus);
    RunAgrees(Initial(wakeFd, bus), callbacks);
  }

  /** An enabled watch on the descriptor has the flag. */
  ghost predicate Asks(s: System, fd: int, f: WatchFlag) {
    exists w :: w in s.loop.watches && w.fd == fd && w in s.bus.enabled && f in w.flags
  }

  /** What one watch has epoll look for. */
  lemma EventsOfWatch(w: Watch, enabled: set<Watch>)
    ensures IN in FlagsToEpollEvents(w, enabled) <==> w in enabled && READABLE in w.flags
    ensures OUT in FlagsToEpollEvents(w, enabled) <==> w in enabled && WRITABLE in w.flags
    ensures HUP in FlagsToEpollEvents(w, enabled) <==> w in enabled
    ensures ERR in FlagsToEpollEvents(w, enabled) <==> w in enabled
  {
  }

  /**
   In the terms of either side: after any run, epoll looks for input on a watched
   descriptor exactly if an enabled watch there wants to read, for output exactly
   if one wants to write, and for hang-up and error exactly if one is enabled.
   */
  lemma {:induction false} EpollLooksForExactly(wakeFd: int, bus: Bus, callbacks: seq<Callback>, fd: int)
    requires wakeFd >= 0 && Legal(Initial(wakeFd, bus), callbacks)
    requires fd in WatchFds(Run(Initial(wakeFd, bus), callbacks).loop.watches)
    ensures var r := Run(Initial(wakeFd, bus), callbacks);
      && fd in r.kernel.epoll
      && (IN in r.kernel.epoll[fd] <==> Asks(r, fd, READABLE))
      && (OUT in r.kernel.epoll[fd] <==> Asks(r, fd, WRITABLE))
      && (HUP in r.kernel.epoll[fd] <==> exists w :: w in r.loop.watches && w.fd == fd && w in r.bus.enabled)
      && (ERR in r.kernel.epoll[fd] <==> exists w :: w in r.loop.watches && w.fd == fd && w in r.bus.enabled)
  {
    var r := Run(Initial(wakeFd, bus), callbacks);
    IndexAgreement(wakeFd, bus, callbacks);
    forall e ensures e in r.kernel.epoll[fd] <==>
      exists w :: w in r.loop.watches && w.fd == fd && e in FlagsToEpollEvents(w, r.bus.enabled)
    {
      MaskIsUnion(r.loop.watches, r.bus.enabled, fd, e);
    }
    forall w: Watch {
      EventsOfWatch(w, r.bus.enabled);
    }
  }

  /**
   After any run in which no timer was refused, every listed timeout has a timer
   that runs with exactly its interval if it is enabled, and not at all if it is not.
   */
  lemma {:induction false} TimersRunExactly(wakeFd: int, bus: Bus, callbacks: seq<Callback>, t: Timeout)
    requires wakeFd >= 0 && Legal(Initial(wakeFd, bus), callbacks)
    requires forall k :: 0 <= k < |callbacks| ==> ArmOk(callbacks[k])
    requires exists p :: p in Run(Initial(wakeFd, bus), callbacks).loop.timeouts && p.0 == t
    ensures var r := Run(Initial(wakeFd, bus), callbacks);
      var fd := TimerFdFor(r.loop.timeouts, t);
      && (t, fd) in r.loop.timeouts && fd in r.kernel.epoll && r.kernel.epoll[fd] == {IN} && fd in r.kernel.armed
      && var period := r.kernel.armed[fd];
         if t in r.bus.due then period.sec * 1000000000 + period.nsec == r.bus.due[t] * 1000000
         else period.sec == 0 && period.nsec == 0
  {
    var r := Run(Initial(wakeFd, bus), callbacks);
    var fd := TimerFdFor(r.loop.timeouts, t);
    IndexAgreement(wakeFd, bus, callbacks);
    ListedHasTimer(r.loop.timeouts, t);
    assert fd in TimerFds(r.loop.timeouts);
    PeriodIsExact(r.bus.due, t);
  }

  lemma PeriodIsExact(due: map<Timeout, int>, t: Timeout)
    ensures var period := Period(due, t);
      if t in due then period.sec * 1000000000 + period.nsec == due[t] * 1000000
      else period.sec == 0 && period.nsec == 0
  {
    if t in due {
      TimespecIsExact(due[t]);
    }
  }

  lemma {:induction false} ListedHasTimer(timeouts: seq<(Timeout, int)>, t: Timeout)
    requires exists p :: p in timeouts && p.0 == t
    ensures (t, TimerFdFor(timeouts, t)) in timeouts
    decreases |timeouts|
  {
    if timeouts[0].0 == t {
      assert timeouts[0] == (t, timeouts[0].1);
    } else {
      assert timeouts == [timeouts[0]] + timeouts[1..];
      ListedHasTimer(timeouts[1..], t);
    }
  }

  // ---------------------------------------------------------------- what an event leads to

  /** An event is asked for on a descriptor exactly when some watch on that descriptor asks for it. */
  lemma {:induction false} MaskIsUnion(watches: seq<Watch>, enabled: set<Watch>, fd: int, e: PollEvent)
    ensures e in Mask(watches, enabled, fd) <==>
      exists w :: w in watches && w.fd == fd && e in FlagsToEpollEvents(w, enabled)
  {
    if watches != [] {
      var n := |watches| - 1;
      MaskIsUnion(watches[..n], enabled, fd, e);
      assert watches == watches[..n] + [watches[n]];
    }
  }

  lemma {:induction false} EnabledWatchesMembers(watches: seq<Watch>, enabled: set<Watch>, fd: int)
    ensures forall w :: w in EnabledWatches(watches, enabled, fd) <==> w in watches && w.fd == fd && w in enabled
    ensures EnabledWatches(watches, enabled, fd) == [] <==> forall w :: w in watches && w in enabled ==> w.fd != fd
  {
    if watches != [] {
      var n := |watches| - 1;
      EnabledWatchesMembers(watches[..n], enabled, fd);
      assert watches == watches[..n] + [watches[n]];
    }
  }

  /** The watches of a descriptor are handled in the order in which they are listed, whatever else is listed. */
  lemma {:induction false} WatchesInOrder(a: seq<Watch>, b: seq<Watch>, enabled: set<Watch>, fd: int)
    ensures EnabledWatches(a + b, enabled, fd) == EnabledWatches(a, enabled, fd) + EnabledWatches(b, enabled, fd)
  {
    if b == [] {
      assert a + b == a;
    } else {
      var n := |b| - 1;
      assert (a + b)[..|a + b| - 1] == a + b[..n];
      WatchesInOrder(a, b[..n], enabled, fd);
    }
  }

  lemma FlagsDistribute(a: set<PollEvent>, b: set<PollEvent>)
    ensures EpollEventsToFlags(a + b) == EpollEventsToFlags(a) + EpollEventsToFlags(b)
  {
  }

  lemma FlagsTranslateBack(w: Watch, enabled: set<Watch>, f: WatchFlag)
    ensures f in EpollEventsToFlags(FlagsToEpollEvents(w, enabled)) <==>
      w in enabled && (f in w.flags || f == HANGUP || f == ERROR)
  {
  }

  /**
   Translated back, the mask of a descriptor holds exactly the flags that some
   enabled watch on it asks for, and hang-up and error if there is such a watch.
   */
  lemma {:induction false} MaskTranslatesBack(watches: seq<Watch>, enabled: set<Watch>, fd: int, f: WatchFlag)
    ensures f in EpollEventsToFlags(Mask(watches, enabled, fd)) <==>
      exists w :: w in watches && w.fd == fd && w in enabled && (f in w.flags || f == HANGUP || f == ERROR)
  {
    if watches != [] {
      var n := |watches| - 1;
      var last := if watches[n].fd == fd then FlagsToEpollEvents(watches[n], enabled) else {};
      MaskTranslatesBack(watches[..n], enabled, fd, f);
      FlagsDistribute(Mask(watches[..n], enabled, fd), last);
      FlagsTranslateBack(watches[n], enabled, f);
      assert watches == watches[..n] + [watches[n]];
    }
  }

  /** In one state: a flag that is reported and is not hang-up or error was asked for by some enabled watch. */
  lemma FlagHasAsker(watches: seq<Watch>, enabled: set<Watch>, fd: int, reported: set<PollEvent>, f: WatchFlag)
    requires reported <= Mask(watches, enabled, fd) + {HUP, ERR}
    requires f in EpollEventsToFlags(reported) && f != HANGUP && f != ERROR
    ensures exists w :: w in EnabledWatches(watches, enabled, fd) && f in w.flags
  {
    var e := if f == READABLE then IN else OUT;
    assert e in Mask(watches, enabled, fd);
    MaskIsUnion(watches, enabled, fd, e);
    var w :| w in watches && w.fd == fd && e in FlagsToEpollEvents(w, enabled);
    EnabledWatchesMembers(watches, enabled, fd);
    assert w in EnabledWatches(watches, enabled, fd) && f in w.flags;
  }

  /**
   Epoll reports only events asked for, besides hang-up and error.  The flags
   handed to the watches of a descriptor name exactly the events reported, and each
   of them is one that an enabled watch there asked for, or hang-up or error.
   */
  lemma {:induction false} FlagsWereRequested(s: System, callbacks: seq<Callback>, fd: int, reported: set<PollEvent>)
    requires Invariant(s) && Legal(s, callbacks)
    requires fd in WatchFds(Run(s, callbacks).loop.watches)
    requires fd in Run(s, callbacks).kernel.epoll && reported <= Run(s, callbacks).kernel.epoll[fd] + {HUP, ERR}
    ensures var r, handed := Run(s, callbacks), EpollEventsToFlags(reported);
      && (READABLE in handed <==> IN in reported)
      && (WRITABLE in handed <==> OUT in reported)
      && (HANGUP in handed <==> HUP in reported)
      && (ERROR in handed <==> ERR in reported)
      && forall f :: f in handed && f != HANGUP && f != ERROR ==>
           exists w :: w in EnabledWatches(r.loop.watches, r.bus.enabled, fd) && f in w.flags
  {
    var r := Run(s, callbacks);
    RunAgrees(s, callbacks);
    forall f | f in EpollEventsToFlags(reported) && f != HANGUP && f != ERROR
      ensures exists w :: w in EnabledWatches(r.loop.watches, r.bus.enabled, fd) && f in w.flags
    {
      FlagHasAsker(r.loop.watches, r.bus.enabled, fd, reported, f);
    }
  }

  /** No enabled watch on the descriptor asks to read or write where `w` does not. */
  ghost predicate AsksForAll(watches: seq<Watch>, enabled: set<Watch>, w: Watch) {
    forall v :: v in watches && v.fd == w.fd && v in enabled ==> v.flags * {READABLE, WRITABLE} <= w.flags
  }

  /** Whatever epoll may report, the watch is handed only flags it asked for, or hang-up or error. */
  ghost predicate OnlyOwnFlags(events: set<PollEvent>, w: Watch) {
    forall reported :: reported <= events + {HUP, ERR} ==>
      EpollEventsToFlags(reported) <= w.flags + {HANGUP, ERROR}
  }

  lemma OwnFlagsExactly(watches: seq<Watch>, enabled: set<Watch>, w: Watch)
    ensures OnlyOwnFlags(Mask(watches, enabled, w.fd), w) <==> AsksForAll(watches, enabled, w)
  {
    var events := Mask(watches, enabled, w.fd);
    EnabledWatchesMembers(watches, enabled, w.fd);
    if AsksForAll(watches, enabled, w) {
      forall reported, f | reported <= events + {HUP, ERR} && f in EpollEventsToFlags(reported)
        ensures f in w.flags + {HANGUP, ERROR}
      {
        if f != HANGUP && f != ERROR {
          FlagHasAsker(watches, enabled, w.fd, reported, f);
          assert f in {READABLE, WRITABLE};
        }
      }
    }
    if OnlyOwnFlags(events, w) {
      assert EpollEventsToFlags(events) <= w.flags + {HANGUP, ERROR};
      forall v, f | v in watches && v.fd == w.fd && v in enabled && f in v.flags * {READABLE, WRITABLE}
        ensures f in w.flags
      {
        MaskTranslatesBack(watches, enabled, w.fd, f);
      }
    }
  }

  /**
   Watches that share a descriptor share its events.  So after any run a watch
   is never handed the flags of another one if and only if it asks itself for all
   that the enabled watches on its descriptor ask for.
   */
  lemma {:induction false} FlagsAreOwnExactly(s: System, callbacks: seq<Callback>, w: Watch)
    requires Invariant(s) && Legal(s, callbacks)
    requires var r := Run(s, callbacks); w in EnabledWatches(r.loop.watches, r.bus.enabled, w.fd)
    ensures var r := Run(s, callbacks);
      && w.fd in r.kernel.epoll
      && (OnlyOwnFlags(r.kernel.epoll[w.fd], w) <==> AsksForAll(r.loop.watches, r.bus.enabled, w))
  {
    var r := Run(s, callbacks);
    RunAgrees(s, callbacks);
    EnabledWatchesMembers(r.loop.watches, r.bus.enabled, w.fd);
    assert w.fd in WatchFds(r.loop.watches);
    OwnFlagsExactly(r.loop.watches, r.bus.enabled, w);
  }

  lemma TwoWatchesAdded(s: System, a: Watch, b: Watch)
    requires s == Initial(s.loop.wakeFd, s.bus) && s.loop.wakeFd != a.fd == b.fd >= 0
    ensures var callbacks := [AddingWatch(a, true), AddingWatch(b, true)];
      && Legal(s, callbacks)
      && Run(s, callbacks).loop.watches == [a, b] && Run(s, callbacks).bus == s.bus
  {
    var callbacks := [AddingWatch(a, true), AddingWatch(b, true)];
    var s1 := Step(s, callbacks[0]);
    assert callbacks[1..][1..] == [];
    assert Run(s, callbacks) == Run(s1, callbacks[1..]) == Run(Step(s1, callbacks[1]), []);
  }

  /** A legal run in which a reader and a writer share a descriptor, and the reader is handed the writer's flag. */
  lemma FlagsAreShared(wakeFd: int, reader: Watch, writer: Watch)
    requires 0 <= wakeFd != reader.fd && 0 <= reader.fd == writer.fd
    requires reader.flags == {READABLE} && writer.flags == {WRITABLE}
    ensures var s, callbacks := Initial(wakeFd, Bus({reader, writer}, map[])),
        [AddingWatch(reader, true), AddingWatch(writer, true)];
      && Legal(s, callbacks)
      && reader in EnabledWatches(Run(s, callbacks).loop.watches, {reader, writer}, reader.fd)
      && Run(s, callbacks).bus == s.bus && reader.fd in Run(s, callbacks).kernel.epoll
      && !OnlyOwnFlags(Run(s, callbacks).kernel.epoll[reader.fd], reader)
  {
    var s := Initial(wakeFd, Bus({reader, writer}, map[]));
    var callbacks := [AddingWatch(reader, true), AddingWatch(writer, true)];
    var r := Run(s, callbacks);
    InitialAgrees(wakeFd, s.bus);
    TwoWatchesAdded(s, reader, writer);
    EnabledWatchesMembers(r.loop.watches, s.bus.enabled, reader.fd);
    FlagsAreOwnExactly(s, callbacks, reader);
    assert writer in r.loop.watches && WRITABLE in writer.flags * {READABLE, WRITABLE};
  }

  // ---------------------------------------------------------------- what a caller is told

  lemma TimeoutReportedExactly(s: System, t: Timeout, fd: int, ok: bool, armOk: bool)
    requires Invariant(s) && Fresh(s, AddingTimeout(t, fd, ok, armOk))
    ensures TimeoutReported(s, t, fd, ok, armOk) <==> ok && armOk
    ensures (t, fd) in AddTimeout(s, t, fd, ok, armOk).loop.timeouts <==> ok
  {
    var after := AddTimeout(s, t, fd, ok, armOk);
    AddTimeoutAgrees(s, t, fd, ok, armOk);
    assert forall p :: p in s.loop.timeouts ==> p.1 in TimerFds(s.loop.timeouts);
    if ok {
      TimerFdAppended(s.loop.timeouts, t, fd, t);
      TimerFdMember(after.loop.timeouts, t);
      assert (t, TimerFdFor(after.loop.timeouts, t)) in after.loop.timeouts;
    }
  }

  /**
   After any run, the caller is told that a timeout was added exactly when it is
   listed with its timer, unless the kernel registers the timer but refuses to arm it.
   */
  lemma {:induction false} ReportIsTrueExactly(
    s: System, callbacks: seq<Callback>, t: Timeout, fd: int, ok: bool, armOk: bool)
    requires Invariant(s) && Legal(s, callbacks)
    requires Fresh(Run(s, callbacks), AddingTimeout(t, fd, ok, armOk))
    ensures var r := Run(s, callbacks);
      (TimeoutReported(r, t, fd, ok, armOk) <==> (t, fd) in AddTimeout(r, t, fd, ok, armOk).loop.timeouts)
      <==> (ok ==> armOk)
  {
    RunAgrees(s, callbacks);
    TimeoutReportedExactly(Run(s, callbacks), t, fd, ok, armOk);
  }

  /** A refused timer: the first timeout of a loop is reported as not added, yet stays listed and in epoll. */
  lemma RefusedTimerStays(wakeFd: int, bus: Bus, t: Timeout, fd: int)
    requires 0 <= wakeFd != fd && 0 <= fd
    ensures var s, refused := Initial(wakeFd, bus), AddingTimeout(t, fd, true, false);
      && Legal(s, [refused])
      && !TimeoutReported(s, t, fd, true, false)
      && (t, fd) in Run(s, [refused]).loop.timeouts
      && fd in Run(s, [refused]).kernel.epoll
  {
    var s, refused := Initial(wakeFd, bus), AddingTimeout(t, fd, true, false);
    InitialAgrees(wakeFd, bus);
    assert Run(s, [refused]) == Run(Step(s, refused), []);
    TimeoutReportedExactly(s, t, fd, true, false);
  }

  // ---------------------------------------------------------------- timer events

  lemma {:induction false} TimeoutFound(timeouts: seq<(Timeout, int)>, due: map<Timeout, int>, t: Timeout, fd: int)
    requires DistinctFds(timeouts) && (t, fd) in timeouts
    ensures EnabledTimeoutFor(timeouts, due, fd) == if t in due then Some(t) else None
    decreases |timeouts|
  {
    if timeouts[0].1 == fd {
      SameFdSameEntry(timeouts, timeouts[0], (t, fd));
      if t !in due {
        NoTimeoutFound(timeouts[1..], due, fd);
      }
    } else {
      assert timeouts == [timeouts[0]] + timeouts[1..];
      TimeoutFound(timeouts[1..], due, t, fd);
    }
  }

  lemma {:induction false} NoTimeoutFound(timeouts: seq<(Timeout, int)>, due: map<Timeout, int>, fd: int)
    requires forall p :: p in timeouts ==> p.1 != fd
    ensures EnabledTimeoutFor(timeouts, due, fd) == None
    decreases |timeouts|
  {
    if timeouts != [] {
      assert timeouts == [timeouts[0]] + timeouts[1..];
      NoTimeoutFound(timeouts[1..], due, fd);
    }
  }

  /** An event on a timer reaches the timeout that owns the timer, if it is enabled, and nothing else. */
  lemma TimerEventReachesItsTimeout(s: System, t: Timeout, fd: int)
    requires Invariant(s) && (t, fd) in s.loop.timeouts
    ensures EnabledWatches(s.loop.watches, s.bus.enabled, fd) == []
    ensures EnabledTimeoutFor(s.loop.timeouts, s.bus.due, fd) == if t in s.bus.due then Some(t) else None
  {
    assert fd in TimerFds(s.loop.timeouts);
    forall w | w in s.loop.watches ensures w.fd != fd {
      assert w.fd in WatchFds(s.loop.watches);
    }
    EnabledWatchesMembers(s.loop.watches, s.bus.enabled, fd);
    TimeoutFound(s.loop.timeouts, s.bus.due, t, fd);
  }

  /** An event on a watched descriptor reaches no timeout. */
  lemma WatchEventReachesNoTimeout(s: System, fd: int)
    requires Invariant(s) && fd in WatchFds(s.loop.watches)
    ensures EnabledTimeoutFor(s.loop.timeouts, s.bus.due, fd) == None
  {
    forall p | p in s.loop.timeouts ensures p.1 != fd {
      assert p.1 in TimerFds(s.loop.timeouts);
    }
    NoTimeoutFound(s.loop.timeouts, s.bus.due, fd);
  }

  /**
   The converted interval is exact, its parts never differ in sign, and it is one
   that the kernel accepts exactly when it is not negative.
   */
  lemma TimespecIsExact(msec: int)
    ensures var spec := MsecToTimespec(msec);
      && spec.sec * 1000000000 + spec.nsec == msec * 1000000
      && -1000000000 < spec.nsec < 1000000000
      && (spec.sec > 0 ==> spec.nsec >= 0) && (spec.sec < 0 ==> spec.nsec <= 0)
      && (spec.sec >= 0 && 0 <= spec.nsec <==> msec >= 0)
  {
  }
}
