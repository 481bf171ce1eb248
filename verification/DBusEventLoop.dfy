/** The callbacks of the event loop as libdbus makes them, over vectors updated in place. */
module DBusEventLoops {
  import opened Options
  import opened EventLoopIndex

  /** The state that libdbus keeps of its watches and timeouts. */
  class LibDBus {
    var enabled: set<Watch>
    var due: map<Timeout, int>
  }

  /** The epoll instance and the timers behind the loop's descriptors. */
  class EpollSet {
    var epoll: map<int, set<PollEvent>>
    var armed: map<int, Timespec>

    function View(): Kernel
      reads this
    {
      Kernel(epoll, armed)
    }

    method Add(fd: int, events: set<PollEvent>, ok: bool) returns (failed: bool)
      modifies this`epoll
      ensures failed == (!ok || fd in old(epoll))
      ensures epoll == if failed then old(epoll) else old(epoll)[fd := events]
    {
      failed := !ok || fd in epoll;
      if !failed {
        epoll := epoll[fd := events];
      }
    }

    method Modify(fd: int, events: set<PollEvent>)
      modifies this`epoll
      ensures epoll == EventLoopIndex.Modify(old(epoll), fd, events)
    {
      if fd in epoll {
        epoll := epoll[fd := events];
      }
    }

    method Delete(fd: int)
      modifies this`epoll
      ensures epoll == old(epoll) - {fd}
    {
      epoll := epoll - {fd};
    }

    method TimerSet(fd: int, spec: Timespec, ok: bool) returns (failed: bool)
      modifies this`armed
      ensures failed == (!ok || fd !in old(armed))
      ensures armed == if failed then old(armed) else old(armed)[fd := spec]
    {
      failed := !ok || fd !in armed;
      if !failed {
        armed := armed[fd := spec];
      }
    }

    /** Closing a timer descriptor takes it out of epoll. */
    method Close(fds: set<int>)
      modifies this
      ensures View() == Kernel(old(epoll) - fds, old(armed) - fds)
    {
      epoll, armed := epoll - fds, armed - fds;
    }
  }

  class DBusEventLoop {
    const bus: LibDBus
    const kernel: EpollSet
    const wakeFd: int
    var watches: seq<Watch>
    var timeouts: seq<(Timeout, int)>

    function View(): System
      reads this, bus, kernel
    {
      System(Loop(wakeFd, watches, timeouts), kernel.View(), Bus(bus.enabled, bus.due))
    }

    constructor (bus: LibDBus, kernel: EpollSet, wakeFd: int)
      requires kernel.epoll == map[] && kernel.armed == map[]
      modifies kernel
      ensures this.bus == bus && this.kernel == kernel
      ensures View() == Initial(wakeFd, Bus(bus.enabled, bus.due))
    {
      this.bus, this.kernel, this.wakeFd := bus, kernel, wakeFd;
      watches, timeouts := [], [];
      new;
      var failed := kernel.Add(wakeFd, {IN}, true);
    }

    // -------------------------------------------------------------- watches

    method AddWatch(w: Watch, ok: bool) returns (added: bool)
      modifies this`watches, kernel
      ensures View() == EventLoopIndex.AddWatch(old(View()), w, ok)
      ensures watches == if added then old(watches) + [w] else old(watches)
    {
      var watched := IsWatched(w.fd);
      if !watched {
        var failed := kernel.Add(w.fd, {}, ok);
        if failed {
          return false;
        }
      }
      watches := watches + [w];
      UpdateEventsForWatchFd(w.fd);
      return true;
    }

    method RemoveWatch(w: Watch)
      modifies this`watches, kernel
      ensures View() == EventLoopIndex.RemoveWatch(old(View()), w)
    {
      watches := EraseWatch(watches, w);
      var watched := IsWatched(w.fd);
      if !watched {
        kernel.Delete(w.fd);
      } else {
        UpdateEventsForWatchFd(w.fd);
      }
    }

    /** libdbus has just enabled or disabled the watch. */
    method ToggleWatch(w: Watch)
      modifies kernel
      ensures View() == UpdateEvents(old(View()), w.fd)
    {
      UpdateEventsForWatchFd(w.fd);
    }

    method UpdateEventsForWatchFd(fd: int)
      modifies kernel
      ensures View() == UpdateEvents(old(View()), fd)
    {
      var events := EpollEventsForWatchFd(fd);
      kernel.Modify(fd, events);
    }

    method IsWatched(fd: int) returns (watched: bool)
      ensures watched <==> fd in WatchFds(watches)
    {
      for i := 0 to |watches|
        invariant forall j :: 0 <= j < i ==> watches[j].fd != fd
      {
        if watches[i].fd == fd {
          return true;
        }
      }
      return false;
    }

    method EpollEventsForWatchFd(fd: int) returns (events: set<PollEvent>)
      ensures events == Mask(watches, bus.enabled, fd)
    {
      events := {};
      for i := 0 to |watches|
        invariant events == Mask(watches[..i], bus.enabled, fd)
      {
        assert watches[..i + 1][..i] == watches[..i];
        if watches[i].fd == fd {
          events := events + FlagsToEpollEvents(watches[i], bus.enabled);
        }
      }
      assert watches[..|watches|] == watches;
    }

    method EnabledWatchesFor(fd: int) returns (found: seq<Watch>)
      ensures found == EnabledWatches(watches, bus.enabled, fd)
    {
      found := [];
      for i := 0 to |watches|
        invariant found == EnabledWatches(watches[..i], bus.enabled, fd)
      {
        assert watches[..i + 1][..i] == watches[..i];
        if watches[i].fd == fd && watches[i] in bus.enabled {
          found := found + [watches[i]];
        }
      }
      assert watches[..|watches|] == watches;
    }

    // -------------------------------------------------------------- timeouts

    method AddTimeout(t: Timeout, fd: int, ok: bool, armOk: bool) returns (added: bool)
      modifies this`timeouts, kernel
      ensures View() == EventLoopIndex.AddTimeout(old(View()), t, fd, ok, armOk)
      ensures added <==> TimeoutReported(old(View()), t, fd, ok, armOk)
      // a refused timer leaves the entry registered, although the caller is told that adding failed
      ensures ok && fd !in old(kernel.epoll) ==> timeouts == old(timeouts) + [(t, fd)]
    {
      var failed := kernel.Add(fd, {IN}, ok);
      if failed {
        return false;
      }
      kernel.armed := kernel.armed[fd := DISARMED];
      timeouts := timeouts + [(t, fd)];
      added := UpdateTimerFdFor(t, armOk);
    }

    method RemoveTimeout(t: Timeout)
      modifies this`timeouts, kernel
      ensures View() == EventLoopIndex.RemoveTimeout(old(View()), t)
    {
      var fd := FindTimerFd(t);
      kernel.Delete(fd);
      var rest := EraseTimeout(timeouts, t);
      kernel.Close(TimerFds(timeouts) - TimerFds(rest));
      timeouts := rest;
    }

    /** libdbus has just enabled, disabled or rescheduled the timeout. */
    method ToggleTimeout(t: Timeout, armOk: bool)
      modifies kernel
      ensures View() == UpdateTimer(old(View()), t, armOk)
    {
      var armed := UpdateTimerFdFor(t, armOk);
    }

    method UpdateTimerFdFor(t: Timeout, armOk: bool) returns (armed: bool)
      modifies kernel
      ensures View() == UpdateTimer(old(View()), t, armOk)
      ensures armed == (armOk && TimerFdFor(timeouts, t) in old(kernel.armed))
    {
      var spec := DISARMED;
      var fd := FindTimerFd(t);
      if t in bus.due {
        spec := MsecToTimespec(bus.due[t]);
      }
      var failed := kernel.TimerSet(fd, spec, armOk);
      armed := !failed;
    }

    method FindTimerFd(t: Timeout) returns (fd: int)
      ensures fd == TimerFdFor(timeouts, t)
    {
      for i := 0 to |timeouts|
        invariant TimerFdFor(timeouts, t) == TimerFdFor(timeouts[i..], t)
      {
        if timeouts[i].0 == t {
          return timeouts[i].1;
        }
      }
      return -1;
    }

    method FindEnabledTimeout(fd: int) returns (found: Option<Timeout>)
      ensures found == EnabledTimeoutFor(timeouts, bus.due, fd)
    {
      for i := 0 to |timeouts|
        invariant EnabledTimeoutFor(timeouts, bus.due, fd) == EnabledTimeoutFor(timeouts[i..], bus.due, fd)
      {
        if timeouts[i].1 == fd && timeouts[i].0 in bus.due {
          return Some(timeouts[i].0);
        }
      }
      return None;
    }
  }
}
