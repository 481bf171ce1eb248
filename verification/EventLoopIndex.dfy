/**
 The event loop's epoll set and timers, kept incrementally over the watches and
 timeouts that libdbus adds, removes and toggles.
 */
module EventLoopIndex {
  import opened Options

  /** The epoll event bits that the loop uses; a mask is a set of them. */
  datatype PollEvent = IN | OUT | ERR | HUP

  /** The libdbus watch flags. */
  datatype WatchFlag = READABLE | WRITABLE | ERROR | HANGUP

  datatype Watch = Watch(id: nat, fd: int, flags: set<WatchFlag>)
  datatype Timeout = Timeout(id: nat)
  datatype Timespec = Timespec(sec: int, nsec: int)

  const DISARMED := Timespec(0, 0)

  /** What libdbus itself holds: the enabled watches, and the enabled timeouts with their intervals in ms. */
  datatype Bus = Bus(enabled: set<Watch>, due: map<Timeout, int>)

  /** What the kernel holds: event mask by registered descriptor, and period by timer descriptor. */
  datatype Kernel = Kernel(epoll: map<int, set<PollEvent>>, armed: map<int, Timespec>)

  datatype Loop = Loop(wakeFd: int, watches: seq<Watch>, timeouts: seq<(Timeout, int)>)

  datatype System = System(loop: Loop, kernel: Kernel, bus: Bus)

  // ---------------------------------------------------------------- converters

  function FlagsToEpollEvents(w: Watch, enabled: set<Watch>): set<PollEvent> {
    if w !in enabled then {}
    else
      (if READABLE in w.flags then {IN} else {})
      + (if WRITABLE in w.flags then {OUT} else {})
      + {HUP, ERR}
  }

  function EpollEventsToFlags(events: set<PollEvent>): set<WatchFlag> {
    (if IN in events then {READABLE} else {})
    + (if OUT in events then {WRITABLE} else {})
    + (if HUP in events then {HANGUP} else {})
    + (if ERR in events then {ERROR} else {})
  }

  /** Division truncates towards zero, as the C++ operators do. */
  function MsecToTimespec(msec: int): Timespec {
    if msec >= 0 then Timespec(msec / 1000, msec % 1000 * 1000000)
    else Timespec(-(-msec / 1000), -(-msec % 1000) * 1000000)
  }

  // ---------------------------------------------------------------- lookups

  function WatchFds(watches: seq<Watch>): set<int> {
    set w | w in watches :: w.fd
  }

  function TimerFds(timeouts: seq<(Timeout, int)>): set<int> {
    set p | p in timeouts :: p.1
  }

  /** The events that the loop asks epoll for on a descriptor. */
  function Mask(watches: seq<Watch>, enabled: set<Watch>, fd: int): set<PollEvent> {
    if watches == [] then {}
    else
      var n := |watches| - 1;
      Mask(watches[..n], enabled, fd) + if watches[n].fd == fd then FlagsToEpollEvents(watches[n], enabled) else {}
  }

  function EnabledWatches(watches: seq<Watch>, enabled: set<Watch>, fd: int): seq<Watch> {
    if watches == [] then []
    else
      var n := |watches| - 1;
      EnabledWatches(watches[..n], enabled, fd)
      + if watches[n].fd == fd && watches[n] in enabled then [watches[n]] else []
  }

  /** The descriptor of the first entry for a timeout, or -1. */
  function TimerFdFor(timeouts: seq<(Timeout, int)>, t: Timeout): int {
    if timeouts == [] then -1
    else if timeouts[0].0 == t then timeouts[0].1
    else TimerFdFor(timeouts[1..], t)
  }

  function EnabledTimeoutFor(timeouts: seq<(Timeout, int)>, due: map<Timeout, int>, fd: int): Option<Timeout> {
    if timeouts == [] then None
    else if timeouts[0].1 == fd && timeouts[0].0 in due then Some(timeouts[0].0)
    else EnabledTimeoutFor(timeouts[1..], due, fd)
  }

  function EraseWatch(watches: seq<Watch>, w: Watch): seq<Watch> {
    if watches == [] then []
    else (if watches[0] == w then [] else [watches[0]]) + EraseWatch(watches[1..], w)
  }

  function EraseTimeout(timeouts: seq<(Timeout, int)>, t: Timeout): seq<(Timeout, int)> {
    if timeouts == [] then []
    else (if timeouts[0].0 == t then [] else [timeouts[0]]) + EraseTimeout(timeouts[1..], t)
  }

  /** The period a timeout's timer should have: its interval, or none while it is disabled. */
  function Period(due: map<Timeout, int>, t: Timeout): Timespec {
    if t in due then MsecToTimespec(due[t]) else DISARMED
  }

  // ---------------------------------------------------------------- callbacks

  /** epoll_ctl: adding succeeds only for a new descriptor, and changes to an unknown one have no effect. */
  function Modify(epoll: map<int, set<PollEvent>>, fd: int, events: set<PollEvent>): map<int, set<PollEvent>> {
    if fd in epoll then epoll[fd := events] else epoll
  }

  function UpdateEvents(s: System, fd: int): System {
    s.(kernel := s.kernel.(epoll := Modify(s.kernel.epoll, fd, Mask(s.loop.watches, s.bus.enabled, fd))))
  }

  /** `ok` is the kernel's answer to a registration, where one is made. */
  function AddWatch(s: System, w: Watch, ok: bool): System {
    var known := w.fd in WatchFds(s.loop.watches);
    if !known && (!ok || w.fd in s.kernel.epoll) then s
    else
      var epoll := if known then s.kernel.epoll else s.kernel.epoll[w.fd := {}];
      UpdateEvents(s.(loop := s.loop.(watches := s.loop.watches + [w]), kernel := s.kernel.(epoll := epoll)), w.fd)
  }

  function RemoveWatch(s: System, w: Watch): System {
    var after := s.(loop := s.loop.(watches := EraseWatch(s.loop.watches, w)));
    if w.fd in WatchFds(after.loop.watches) then UpdateEvents(after, w.fd)
    else after.(kernel := s.kernel.(epoll := s.kernel.epoll - {w.fd}))
  }

  /** libdbus enables or disables a watch and calls back. */
  function SetWatch(s: System, w: Watch, on: bool): System {
    UpdateEvents(s.(bus := s.bus.(enabled := if on then s.bus.enabled + {w} else s.bus.enabled - {w})), w.fd)
  }

  /** timerfd_settime on the timer of a timeout; `ok` is the kernel's answer. */
  function UpdateTimer(s: System, t: Timeout, ok: bool): System {
    var fd := TimerFdFor(s.loop.timeouts, t);
    if ok && fd in s.kernel.armed then
      s.(kernel := s.kernel.(armed := s.kernel.armed[fd := Period(s.bus.due, t)]))
    else s
  }

  /** `fd` is the new timer descriptor; a refused registration closes it again. */
  function AddTimeout(s: System, t: Timeout, fd: int, ok: bool, armOk: bool): System {
    if !ok || fd in s.kernel.epoll then s
    else
      UpdateTimer(
        s.(loop := s.loop.(timeouts := s.loop.timeouts + [(t, fd)]),
           kernel := Kernel(s.kernel.epoll[fd := {IN}], s.kernel.armed[fd := DISARMED])),
        t, armOk)
  }

  /** What the caller is told: the timer was registered, and the kernel armed it. */
  predicate TimeoutReported(s: System, t: Timeout, fd: int, ok: bool, armOk: bool) {
    var after := AddTimeout(s, t, fd, ok, armOk);
    ok && fd !in s.kernel.epoll && armOk && TimerFdFor(after.loop.timeouts, t) in after.kernel.armed
  }

  /** Erased entries close their descriptors, which leaves them out of epoll and disarmed. */
  function RemoveTimeout(s: System, t: Timeout): System {
    var rest := EraseTimeout(s.loop.timeouts, t);
    var closed := TimerFds(s.loop.timeouts) - TimerFds(rest);
    s.(loop := s.loop.(timeouts := rest),
       kernel := Kernel(s.kernel.epoll - {TimerFdFor(s.loop.timeouts, t)} - closed, s.kernel.armed - closed))
  }

  /** libdbus enables a timeout with an interval, or disables it, and calls back. */
  function SetTimeout(s: System, t: Timeout, interval: Option<int>, armOk: bool): System {
    var due := match interval
      case Some(ms) => s.bus.due[t := ms]
      case None => s.bus.due - {t};
    UpdateTimer(s.(bus := s.bus.(due := due)), t, armOk)
  }

  datatype Callback =
    | AddingWatch(w: Watch, ok: bool)
    | RemovingWatch(w: Watch)
    | SettingWatch(w: Watch, on: bool)
    | AddingTimeout(t: Timeout, fd: int, ok: bool, armOk: bool)
    | RemovingTimeout(t: Timeout)
    | SettingTimeout(t: Timeout, interval: Option<int>, armOk: bool)

  function Step(s: System, c: Callback): System {
    match c
    case AddingWatch(w, ok) => AddWatch(s, w, ok)
    case RemovingWatch(w) => RemoveWatch(s, w)
    case SettingWatch(w, on) => SetWatch(s, w, on)
    case AddingTimeout(t, fd, ok, armOk) => AddTimeout(s, t, fd, ok, armOk)
    case RemovingTimeout(t) => RemoveTimeout(s, t)
    case SettingTimeout(t, interval, armOk) => SetTimeout(s, t, interval, armOk)
  }

  function Run(s: System, callbacks: seq<Callback>): System
    decreases |callbacks|
  {
    if callbacks == [] then s else Run(Step(s, callbacks[0]), callbacks[1..])
  }

  /** The loop as constructed: only the wake-up pipe is registered. */
  function Initial(wakeFd: int, bus: Bus): System {
    System(Loop(wakeFd, [], []), Kernel(map[wakeFd := {IN}], map[]), bus)
  }
}
