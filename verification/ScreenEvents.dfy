/** Input events turned into power-button and user-activity notifications, the latter rate limited. */
module ScreenEvents {

  // times are in nanoseconds, as the clock's timestamps are
  const PERIOD: int := 500 * 1000000

  datatype KeyAction = Down | Up | Repeat

  datatype Event =
    | PowerKey(action: KeyAction)
    | VolumeKey(action: KeyAction)
    | Key(action: KeyAction)
    | Touch
    | Pointer
    | NotInput        // and input events of any other type

  /** The two kinds of activity. */
  datatype Kind = Changing | Extending

  datatype Notification =
    | Press
    | Release
    | Activity(kind: Kind, checked: int, recorded: int)   // sent between the two readings of the clock

  /** An event, with the clock's answers when it is asked before and after a notification. */
  datatype Reading = Reading(event: Event, checked: int, recorded: int)

  datatype Handler = Handler(lastChanging: int, lastExtending: int, log: seq<Notification>) {
    function Last(kind: Kind): int {
      if kind == Changing then lastChanging else lastExtending
    }
  }

  const Fresh := Handler(-PERIOD, -PERIOD, [])

  /** The activity that an event counts as, if any. */
  predicate IsActivity(e: Event, kind: Kind) {
    match e
    case Key(Down) => kind == Changing
    case Key(_) => kind == Extending
    case Touch => kind == Extending
    case Pointer => kind == Changing
    case _ => false
  }

  function Notify(h: Handler, kind: Kind, r: Reading): Handler {
    if r.checked >= h.Last(kind) + PERIOD then
      var log := h.log + [Activity(kind, r.checked, r.recorded)];
      if kind == Changing then h.(lastChanging := r.recorded, log := log)
      else h.(lastExtending := r.recorded, log := log)
    else h
  }

  function Handle(h: Handler, r: Reading): Handler {
    if r.event == PowerKey(Down) then h.(log := h.log + [Press])
    else if r.event == PowerKey(Up) then h.(log := h.log + [Release])
    else if IsActivity(r.event, Changing) then Notify(h, Changing, r)
    else if IsActivity(r.event, Extending) then Notify(h, Extending, r)
    else h
  }

  function Run(h: Handler, readings: seq<Reading>): Handler {
    if readings == [] then h
    else Handle(Run(h, readings[..|readings| - 1]), readings[|readings| - 1])
  }

  /** The clock never goes back, and starts at or after zero. */
  ghost predicate Monotone(readings: seq<Reading>) {
    && (forall i :: 0 <= i < |readings| ==> 0 <= readings[i].checked <= readings[i].recorded)
    && (forall i, j :: 0 <= i < j < |readings| ==> readings[i].recorded <= readings[j].checked)
  }

  // ---------------------------------------------------------------- the notifications of one kind

  function Of(log: seq<Notification>, kind: Kind): seq<Notification> {
    if log == [] then []
    else
      var n := |log| - 1;
      Of(log[..n], kind) + if log[n].Activity? && log[n].kind == kind then [log[n]] else []
  }

  /** Notifications of one kind come at least a period apart, from recording to the next check. */
  ghost predicate Spaced(log: seq<Notification>) {
    && (forall i :: 0 <= i < |log| ==> log[i].Activity? && log[i].checked <= log[i].recorded)
    && (forall i, j :: 0 <= i < j < |log| ==> log[j].checked >= log[i].recorded + PERIOD)
  }

  lemma OfLast(log: seq<Notification>, n: Notification, kind: Kind)
    ensures Of(log + [n], kind) == Of(log, kind) + if n.Activity? && n.kind == kind then [n] else []
  {
  }

  /** The log of one kind after an event: one more entry, or none. */
  lemma HandleLog(h: Handler, r: Reading, kind: Kind)
    ensures var sends := IsActivity(r.event, kind) && r.checked >= h.Last(kind) + PERIOD;
      && Of(Handle(h, r).log, kind) == Of(h.log, kind) + (if sends then [Activity(kind, r.checked, r.recorded)] else [])
      && Handle(h, r).Last(kind) == if sends then r.recorded else h.Last(kind)
  {
    var after := Handle(h, r);
    if after.log != h.log {
      OfLast(h.log, after.log[|h.log|], kind);
    }
  }

  /** The invariant of a run: the last recorded time is that of the last notification. */
  ghost predicate Consistent(log: seq<Notification>, last: int) {
    && Spaced(log)
    && (forall i :: 0 <= i < |log| ==> log[i].recorded <= last)
    && (if log == [] then last == -PERIOD else last == log[|log| - 1].recorded)
  }

  lemma OneMore(log: seq<Notification>, last: int, kind: Kind, r: Reading)
    requires Consistent(log, last) && last + PERIOD <= r.checked <= r.recorded
    ensures Consistent(log + [Activity(kind, r.checked, r.recorded)], r.recorded)
  {
  }

  lemma {:induction false} RunConsistent(readings: seq<Reading>, kind: Kind)
    requires Monotone(readings)
    ensures var h := Run(Fresh, readings); Consistent(Of(h.log, kind), h.Last(kind))
  {
    if readings != [] {
      var n := |readings| - 1;
      var h := Run(Fresh, readings[..n]);
      RunConsistent(readings[..n], kind);
      HandleLog(h, readings[n], kind);
      assert Run(Fresh, readings) == Handle(h, readings[n]);
      if IsActivity(readings[n].event, kind) && readings[n].checked >= h.Last(kind) + PERIOD {
        OneMore(Of(h.log, kind), h.Last(kind), kind, readings[n]);
      }
    }
  }

  /** Same-kind notifications of any run are at least a period apart. */
  lemma {:induction false} NotificationsAreSpaced(readings: seq<Reading>, kind: Kind)
    requires Monotone(readings)
    ensures Spaced(Of(Run(Fresh, readings).log, kind))
  {
    RunConsistent(readings, kind);
  }

  predicate RecordedWithin(n: Notification, now: int) {
    n.Activity? && now - n.recorded < PERIOD
  }

  /**
   An activity event is suppressed exactly when a notification of its own kind
   was recorded less than a period before.
   */
  lemma SuppressedExactly(readings: seq<Reading>, r: Reading, kind: Kind)
    requires Monotone(readings + [r]) && IsActivity(r.event, kind)
    ensures var h := Run(Fresh, readings);
      Of(Handle(h, r).log, kind) == Of(h.log, kind) <==>
      exists i :: 0 <= i < |Of(h.log, kind)| && RecordedWithin(Of(h.log, kind)[i], r.checked)
  {
    assert readings == (readings + [r])[..|readings|];
    assert r == (readings + [r])[|readings|];
    assert Monotone(readings);
    assert r.checked >= 0;
    RunConsistent(readings, kind);
    HandleLog(Run(Fresh, readings), r, kind);
  }

  /** A notification of the kind was recorded less than 500 ms before. */
  ghost predicate Recent(h: Handler, kind: Kind, now: int) {
    exists i :: 0 <= i < |Of(h.log, kind)|
      && Of(h.log, kind)[i].Activity? && now - Of(h.log, kind)[i].recorded < 500000000
  }

  /**
   Which events notify of what: keys pressed and the pointer of activity that
   changes the power state, other key actions and touch of activity that extends it,
   either unless the same kind was notified within 500 ms; the power key, the volume
   keys and everything else of neither.
   */
  lemma NotifiedExactly(readings: seq<Reading>, r: Reading)
    requires Monotone(readings + [r])
    ensures var h := Run(Fresh, readings);
      && Of(Handle(h, r).log, Changing) == Of(h.log, Changing) + (
           if (r.event == Key(Down) || r.event == Pointer) && !Recent(h, Changing, r.checked)
           then [Activity(Changing, r.checked, r.recorded)] else [])
      && Of(Handle(h, r).log, Extending) == Of(h.log, Extending) + (
           if (r.event == Key(Up) || r.event == Key(Repeat) || r.event == Touch) && !Recent(h, Extending, r.checked)
           then [Activity(Extending, r.checked, r.recorded)] else [])
  {
    var h := Run(Fresh, readings);
    assert IsActivity(r.event, Changing) <==> r.event == Key(Down) || r.event == Pointer;
    assert IsActivity(r.event, Extending) <==> r.event == Key(Up) || r.event == Key(Repeat) || r.event == Touch;
    forall kind: Kind
      ensures var sends := IsActivity(r.event, kind) && !Recent(h, kind, r.checked);
        Of(Handle(h, r).log, kind) ==
          Of(h.log, kind) + (if sends then [Activity(kind, r.checked, r.recorded)] else [])
    {
      NotifiedUnlessRecent(readings, r, kind);
    }
  }

  lemma NotifiedUnlessRecent(readings: seq<Reading>, r: Reading, kind: Kind)
    requires Monotone(readings + [r])
    ensures var h := Run(Fresh, readings);
      var sends := IsActivity(r.event, kind) && !Recent(h, kind, r.checked);
      Of(Handle(h, r).log, kind) ==
        Of(h.log, kind) + (if sends then [Activity(kind, r.checked, r.recorded)] else [])
  {
    var h := Run(Fresh, readings);
    HandleLog(h, r, kind);
    if IsActivity(r.event, kind) {
      SuppressedExactly(readings, r, kind);
      RecentIsWithin(h, kind, r.checked);
    }
  }

  lemma RecentIsWithin(h: Handler, kind: Kind, now: int)
    ensures Recent(h, kind, now) <==>
      exists i :: 0 <= i < |Of(h.log, kind)| && RecordedWithin(Of(h.log, kind)[i], now)
  {
    var log := Of(h.log, kind);
    assert forall i :: 0 <= i < |log| ==> (RecordedWithin(log[i], now) <==>
      log[i].Activity? && now - log[i].recorded < 500000000);
  }

  // ---------------------------------------------------------------- the rate

  /** How many of the times lie in the window from `start` lasting `span`. */
  function InWindow(times: seq<int>, start: int, span: nat): nat {
    if times == [] then 0
    else
      var n := |times| - 1;
      InWindow(times[..n], start, span) + if start <= times[n] <= start + span then 1 else 0
  }

  lemma {:induction false} WindowBound(times: seq<int>, start: int, span: nat)
    requires forall i, j :: 0 <= i < j < |times| ==> times[j] >= times[i] + PERIOD
    ensures var c := InWindow(times, start, span);
      c > 0 ==> (c - 1) * PERIOD <= span && (c - 1) * PERIOD <= times[|times| - 1] - start
  {
    if times != [] {
      WindowBound(times[..|times| - 1], start, span);
    }
  }

  /** Instants at which the notifications were sent: each between the two readings of the clock. */
  ghost predicate SentAt(log: seq<Notification>, times: seq<int>) {
    && |times| == |log|
    && forall i :: 0 <= i < |log| ==> log[i].Activity? && log[i].checked <= times[i] <= log[i].recorded
  }

  /** Any window of length `span` sees at most span / 500 ms + 1 notifications of a kind. */
  lemma RateIsBounded(readings: seq<Reading>, kind: Kind, times: seq<int>, start: int, span: nat)
    requires Monotone(readings) && SentAt(Of(Run(Fresh, readings).log, kind), times)
    ensures InWindow(times, start, span) <= span / 500000000 + 1
  {
    var log := Of(Run(Fresh, readings).log, kind);
    NotificationsAreSpaced(readings, kind);
    forall i, j | 0 <= i < j < |times| ensures times[j] >= times[i] + PERIOD {
      assert log[j].checked >= log[i].recorded + PERIOD;
    }
    WindowBound(times, start, span);
  }

  // ---------------------------------------------------------------- independence

  function OnlyKind(readings: seq<Reading>, kind: Kind): seq<Reading> {
    if readings == [] then []
    else
      var n := |readings| - 1;
      OnlyKind(readings[..n], kind) + if IsActivity(readings[n].event, kind) then [readings[n]] else []
  }

  /** What is notified of one kind does not depend on the events of the other, nor on the keys. */
  lemma {:induction false} KindsAreIndependent(readings: seq<Reading>, kind: Kind)
    ensures var all, own := Run(Fresh, readings), Run(Fresh, OnlyKind(readings, kind));
      Of(all.log, kind) == Of(own.log, kind) && all.Last(kind) == own.Last(kind)
  {
    if readings != [] {
      var n := |readings| - 1;
      var own := OnlyKind(readings[..n], kind);
      KindsAreIndependent(readings[..n], kind);
      HandleLog(Run(Fresh, readings[..n]), readings[n], kind);
      if IsActivity(readings[n].event, kind) {
        assert OnlyKind(readings, kind)[..|own|] == own;
        HandleLog(Run(Fresh, own), readings[n], kind);
      } else {
        assert OnlyKind(readings, kind) == own;
      }
    }
  }

  // ---------------------------------------------------------------- the power key

  /** The notifications that are not about activity. */
  function KeyReports(log: seq<Notification>): seq<Notification> {
    if log == [] then []
    else KeyReports(log[..|log| - 1]) + if log[|log| - 1].Activity? then [] else [log[|log| - 1]]
  }

  function KeyStrokes(readings: seq<Reading>): seq<Notification> {
    if readings == [] then []
    else
      KeyStrokes(readings[..|readings| - 1])
      + match readings[|readings| - 1].event
        case PowerKey(Down) => [Press]
        case PowerKey(Up) => [Release]
        case _ => []
  }

  /** Every stroke of the power key is reported, in order and at any rate, and no other key is. */
  lemma {:induction false} PowerKeyIsNeverSuppressed(readings: seq<Reading>)
    ensures KeyReports(Run(Fresh, readings).log) == KeyStrokes(readings)
  {
    if readings != [] {
      var n := |readings| - 1;
      PowerKeyIsNeverSuppressed(readings[..n]);
      var before, after := Run(Fresh, readings[..n]).log, Run(Fresh, readings).log;
      if after != before {
        assert after[..|before|] == before;
      }
    }
  }

  // ---------------------------------------------------------------- the object

  class ScreenEventHandler {
    var lastChanging: int
    var lastExtending: int
    var log: seq<Notification>   // what the two sinks have been told

    function View(): Handler
      reads this
    {
      Handler(lastChanging, lastExtending, log)
    }

    constructor ()
      ensures View() == Fresh
    {
      lastChanging, lastExtending, log := -PERIOD, -PERIOD, [];
    }

    /** Events are watched, never consumed. */
    method HandleEvent(r: Reading) returns (consumed: bool)
      modifies this
      ensures !consumed
      ensures View() == Handle(old(View()), r)
    {
      match r.event {
        case PowerKey(action) =>
          if action == Down {
            log := log + [Press];
          } else if action == Up {
            log := log + [Release];
          }
        case VolumeKey(_) =>
        case Key(action) =>
          if action == Down {
            NotifyActivityChangingPowerState(r);
          } else {
            NotifyActivityExtendingPowerState(r);
          }
        case Touch => NotifyActivityExtendingPowerState(r);
        case Pointer => NotifyActivityChangingPowerState(r);
        case NotInput =>
      }
      return false;
    }

    method NotifyActivityChangingPowerState(r: Reading)
      modifies this
      ensures View() == Notify(old(View()), Changing, r)
    {
      if r.checked >= lastChanging + PERIOD {
        log := log + [Activity(Changing, r.checked, r.recorded)];
        lastChanging := r.recorded;
      }
    }

    method NotifyActivityExtendingPowerState(r: Reading)
      modifies this
      ensures View() == Notify(old(View()), Extending, r)
    {
      if r.checked >= lastExtending + PERIOD {
        log := log + [Activity(Extending, r.checked, r.recorded)];
        lastExtending := r.recorded;
      }
    }
  }
}
