/** What epoll watches, read off the history of callbacks without any stepping. */
module EventLoopHistory {
  import opened Histories
  import opened Options
  import opened EventLoopIndex
  import opened EventLoopTheorems

  function After(s: System, callbacks: seq<Callback>, n: nat): System
    requires n <= |callbacks|
  {
    Run(s, callbacks[..n])
  }

  lemma {:induction false} RunSplit(s: System, first: seq<Callback>, rest: seq<Callback>)
    ensures Run(s, first + rest) == Run(Run(s, first), rest)
    decreases |first|
  {
    if first == [] {
      assert first + rest == rest;
    } else {
      assert (first + rest)[1..] == first[1..] + rest;
      RunSplit(Step(s, first[0]), first[1..], rest);
    }
  }

  lemma Advance(s: System, callbacks: seq<Callback>, n: nat)
    requires n < |callbacks|
    ensures After(s, callbacks, n + 1) == Step(After(s, callbacks, n), callbacks[n])
  {
    assert callbacks[..n + 1] == callbacks[..n] + [callbacks[n]];
    RunSplit(s, callbacks[..n], [callbacks[n]]);
    assert [callbacks[n]][1..] == [];
  }

  lemma {:induction false} LegalPrefix(s: System, callbacks: seq<Callback>, n: nat)
    requires n <= |callbacks| && Legal(s, callbacks)
    ensures Legal(s, callbacks[..n])
    ensures n < |callbacks| ==> Fresh(After(s, callbacks, n), callbacks[n])
    decreases |callbacks|
  {
    if callbacks != [] && n > 0 {
      LegalPrefix(Step(s, callbacks[0]), callbacks[1..], n - 1);
      assert callbacks[..n][1..] == callbacks[1..][..n - 1];
    }
  }

  // ---------------------------------------------------------------- watches and timeouts

  /**
   The watch is added at `i`, and the kernel accepts its descriptor, or some
   watch on the same descriptor has been taken before and not been removed since.
   */
  ghost predicate WatchTaken(callbacks: seq<Callback>, w: Watch, i: nat)
    decreases i
  {
    && i < |callbacks| && callbacks[i].AddingWatch? && callbacks[i].w == w
    && (callbacks[i].ok
        || exists v: Watch, j: nat :: v.fd == w.fd && j < i && WatchTaken(callbacks, v, j)
             && forall k: nat :: j < k < i ==> !DropsWatch(callbacks, v)(k))
  }

  ghost function TakesWatch(callbacks: seq<Callback>, w: Watch): nat -> bool {
    (i: nat) => WatchTaken(callbacks, w, i)
  }

  function DropsWatch(callbacks: seq<Callback>, w: Watch): nat -> bool {
    (i: nat) => i < |callbacks| && callbacks[i] == RemovingWatch(w)
  }

  function TakesTimeout(callbacks: seq<Callback>, t: Timeout, fd: int): nat -> bool {
    (i: nat) => i < |callbacks| && callbacks[i].AddingTimeout? && callbacks[i].t == t
      && callbacks[i].fd == fd && callbacks[i].ok
  }

  function DropsTimeout(callbacks: seq<Callback>, t: Timeout): nat -> bool {
    (i: nat) => i < |callbacks| && callbacks[i] == RemovingTimeout(t)
  }

  lemma {:induction false} WatchedSinceAdded(s: System, callbacks: seq<Callback>, n: nat, w: Watch)
    requires Invariant(s) && Legal(s, callbacks) && s.loop.watches == [] && n <= |callbacks|
    ensures w in After(s, callbacks, n).loop.watches <==>
      Since(n, TakesWatch(callbacks, w), DropsWatch(callbacks, w))
  {
    if n > 0 {
      var before := After(s, callbacks, n - 1);
      forall v: Watch
        ensures v in before.loop.watches <==> Since(n - 1, TakesWatch(callbacks, v), DropsWatch(callbacks, v))
      {
        WatchedSinceAdded(s, callbacks, n - 1, v);
      }
      Advance(s, callbacks, n - 1);
      LegalPrefix(s, callbacks, n - 1);
      RunAgrees(s, callbacks[..n - 1]);
      SinceNext(n - 1, TakesWatch(callbacks, w), DropsWatch(callbacks, w));
      WatchesAfter(before, callbacks[n - 1], w);
      WatchTakenExactly(before, callbacks, n - 1, w);
    }
  }

  /** The kernel's answer matters only for a descriptor that is not yet watched. */
  lemma WatchTakenExactly(before: System, callbacks: seq<Callback>, i: nat, w: Watch)
    requires i < |callbacks|
    requires forall v: Watch ::
      v in before.loop.watches <==> Since(i, TakesWatch(callbacks, v), DropsWatch(callbacks, v))
    ensures WatchTaken(callbacks, w, i) <==>
      && callbacks[i].AddingWatch? && callbacks[i].w == w
      && (callbacks[i].ok || w.fd in WatchFds(before.loop.watches))
  {
    forall v: Watch
      ensures v in before.loop.watches <==>
        exists j: nat :: j < i && WatchTaken(callbacks, v, j)
          && forall k: nat :: j < k < i ==> !DropsWatch(callbacks, v)(k)
    {
      assert v in before.loop.watches <==> Since(i, TakesWatch(callbacks, v), DropsWatch(callbacks, v));
      assert forall j: nat :: TakesWatch(callbacks, v)(j) == WatchTaken(callbacks, v, j);
    }
  }

  lemma WatchesAfter(s: System, c: Callback, w: Watch)
    requires Invariant(s) && Fresh(s, c)
    ensures w in Step(s, c).loop.watches <==>
      || (c.AddingWatch? && c.w == w && (c.ok || w.fd in WatchFds(s.loop.watches)))
      || (w in s.loop.watches && c != RemovingWatch(w))
  {
    if c.RemovingWatch? {
      EraseWatchMembers(s.loop.watches, c.w);
    }
  }

  lemma {:induction false} TimedSinceAdded(s: System, callbacks: seq<Callback>, n: nat, t: Timeout, fd: int)
    requires Invariant(s) && Legal(s, callbacks) && s.loop.timeouts == [] && n <= |callbacks|
    ensures (t, fd) in After(s, callbacks, n).loop.timeouts <==>
      Since(n, TakesTimeout(callbacks, t, fd), DropsTimeout(callbacks, t))
  {
    if n > 0 {
      TimedSinceAdded(s, callbacks, n - 1, t, fd);
      Advance(s, callbacks, n - 1);
      LegalPrefix(s, callbacks, n - 1);
      SinceNext(n - 1, TakesTimeout(callbacks, t, fd), DropsTimeout(callbacks, t));
      TimeoutsAfter(After(s, callbacks, n - 1), callbacks[n - 1], t, fd);
    }
  }

  lemma TimeoutsAfter(s: System, c: Callback, t: Timeout, fd: int)
    requires Fresh(s, c)
    ensures (t, fd) in Step(s, c).loop.timeouts <==>
      || (c.AddingTimeout? && c.t == t && c.fd == fd && c.ok)
      || ((t, fd) in s.loop.timeouts && c != RemovingTimeout(t))
  {
    if c.RemovingTimeout? {
      EraseTimeoutMembers(s.loop.timeouts, c.t);
    }
  }

  // ---------------------------------------------------------------- what libdbus has enabled

  function Is(callbacks: seq<Callback>, c: Callback): nat -> bool {
    (i: nat) => i < |callbacks| && callbacks[i] == c
  }

  /** A watch is enabled if it was last switched on, or was on from the beginning and never switched off. */
  lemma {:induction false} EnabledSinceSet(s: System, callbacks: seq<Callback>, n: nat, w: Watch)
    requires n <= |callbacks|
    ensures w in After(s, callbacks, n).bus.enabled <==>
      Lasts(n, w in s.bus.enabled, Is(callbacks, SettingWatch(w, true)), Is(callbacks, SettingWatch(w, false)))
  {
    if n > 0 {
      EnabledSinceSet(s, callbacks, n - 1, w);
      Advance(s, callbacks, n - 1);
      LastsNext(n - 1, w in s.bus.enabled,
                Is(callbacks, SettingWatch(w, true)), Is(callbacks, SettingWatch(w, false)));
    }
  }

  predicate Due(s: System, t: Timeout, ms: int) {
    t in s.bus.due && s.bus.due[t] == ms
  }

  function Sets(callbacks: seq<Callback>, t: Timeout): nat -> bool {
    (i: nat) => i < |callbacks| && callbacks[i].SettingTimeout? && callbacks[i].t == t
  }

  function SetsTo(callbacks: seq<Callback>, t: Timeout, ms: int): nat -> bool {
    (i: nat) => i < |callbacks| && callbacks[i].SettingTimeout? && callbacks[i].t == t
      && callbacks[i].interval == Some(ms)
  }

  /** A timeout is enabled with the interval it was last given, or the one it had if it was never given another. */
  lemma {:induction false} DueSinceSet(s: System, callbacks: seq<Callback>, n: nat, t: Timeout, ms: int)
    requires n <= |callbacks|
    ensures Due(After(s, callbacks, n), t, ms) <==>
      Lasts(n, Due(s, t, ms), SetsTo(callbacks, t, ms), Sets(callbacks, t))
  {
    if n > 0 {
      DueSinceSet(s, callbacks, n - 1, t, ms);
      Advance(s, callbacks, n - 1);
      LastsNext(n - 1, Due(s, t, ms), SetsTo(callbacks, t, ms), Sets(callbacks, t));
    }
  }

  // ---------------------------------------------------------------- epoll

  /**
   A descriptor is registered with epoll exactly if it is the wake-up pipe, or a
   watch on it has been added and not removed since, or it is the timer of a
   timeout added and not removed since.
   */
  lemma EpollFollowsHistory(wakeFd: int, bus: Bus, callbacks: seq<Callback>, fd: int)
    requires wakeFd >= 0 && Legal(Initial(wakeFd, bus), callbacks)
    ensures var s, n := Initial(wakeFd, bus), |callbacks|;
      fd in Run(s, callbacks).kernel.epoll <==>
      || fd == wakeFd
      || (exists w: Watch :: w.fd == fd && Since(n, TakesWatch(callbacks, w), DropsWatch(callbacks, w)))
      || (exists t: Timeout :: Since(n, TakesTimeout(callbacks, t, fd), DropsTimeout(callbacks, t)))
  {
    var s, n := Initial(wakeFd, bus), |callbacks|;
    var r := Run(s, callbacks);
    assert callbacks[..n] == callbacks;
    InitialAgrees(wakeFd, bus);
    RunAgrees(s, callbacks);
    WakeFdStays(s, callbacks);
    forall w: Watch ensures w in r.loop.watches <==> Since(n, TakesWatch(callbacks, w), DropsWatch(callbacks, w)) {
      WatchedSinceAdded(s, callbacks, n, w);
    }
    forall t: Timeout ensures (t, fd) in r.loop.timeouts <==>
      Since(n, TakesTimeout(callbacks, t, fd), DropsTimeout(callbacks, t))
    {
      TimedSinceAdded(s, callbacks, n, t, fd);
    }
    if fd in TimerFds(r.loop.timeouts) {
      var p :| p in r.loop.timeouts && p.1 == fd;
      assert (p.0, fd) in r.loop.timeouts;
    }
  }

  lemma {:induction false} WakeFdStays(s: System, callbacks: seq<Callback>)
    ensures Run(s, callbacks).loop.wakeFd == s.loop.wakeFd
    decreases |callbacks|
  {
    if callbacks != [] {
      WakeFdStays(Step(s, callbacks[0]), callbacks[1..]);
    }
  }
}
