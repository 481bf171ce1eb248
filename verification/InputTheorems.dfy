/** Every tracked device carries the current settings, in whatever order devices and settings arrive. */
module InputTheorems {
  import opened Options
  import opened InputModel

  // ---------------------------------------------------------------- devices agree with the settings

  ghost predicate Agrees(c: Config) {
    && (forall d :: d in c.mice ==>
          d in c.applied.pointer && c.applied.pointer[d] == c.settings.mouse)
    && (forall d :: d in c.touchpads ==>
          && d in c.applied.pointer && c.applied.pointer[d] == c.settings.touchpadPointer
          && d in c.applied.touchpad && c.applied.touchpad[d] == c.settings.touchpad)
  }

  /** Capabilities decide where a device is tracked, so the two sets stay apart. */
  ghost predicate Sorted(c: Config) {
    && (forall d :: d in c.mice ==> !d.isTouchpad && d.isPointer)
    && (forall d :: d in c.touchpads ==> d.isTouchpad)
  }

  lemma StepAgrees(c: Config, e: Event)
    requires Agrees(c) && Sorted(c)
    ensures Agrees(Step(c, e)) && Sorted(Step(c, e))
  {
  }

  lemma {:induction false} DevicesCarryTheSettings(settings: Settings, events: seq<Event>)
    ensures var c := Run(Initial(settings), events);
      Agrees(c) && Sorted(c) && c.mice !! c.touchpads
  {
    if events != [] {
      DevicesCarryTheSettings(settings, events[..|events| - 1]);
      StepAgrees(Run(Initial(settings), events[..|events| - 1]), events[|events| - 1]);
    }
  }

  /**
   Settings of touchpads go to touchpads only, and nothing is ever applied to a
   device that is neither a touchpad nor a pointer.
   */
  lemma {:induction false} OnlyFittingSettings(settings: Settings, events: seq<Event>)
    ensures var a := Run(Initial(settings), events).applied;
      && (forall d :: d in a.touchpad ==> d.isTouchpad)
      && (forall d :: d in a.pointer ==> d.isTouchpad || d.isPointer)
  {
    if events != [] {
      OnlyFittingSettings(settings, events[..|events| - 1]);
      DevicesCarryTheSettings(settings, events[..|events| - 1]);
    }
  }

  /** A device that is not tracked keeps what was last applied to it, whatever is set and whoever else comes. */
  lemma {:induction false} AbsentDevicesAreLeftAlone(c: Config, events: seq<Event>, d: Device)
    requires d !in c.mice + c.touchpads
    requires forall k :: 0 <= k < |events| ==> events[k] != DeviceAdded(d)
    ensures var r := Run(c, events);
      && d !in r.mice + r.touchpads
      && (d in r.applied.pointer <==> d in c.applied.pointer)
      && (d in r.applied.touchpad <==> d in c.applied.touchpad)
      && (d in c.applied.pointer ==> r.applied.pointer[d] == c.applied.pointer[d])
      && (d in c.applied.touchpad ==> r.applied.touchpad[d] == c.applied.touchpad[d])
  {
    if events != [] {
      var n := |events| - 1;
      AbsentDevicesAreLeftAlone(c, events[..n], d);
      AbsentDeviceStep(Run(c, events[..n]), events[n], d);
    }
  }

  lemma AbsentDeviceStep(c: Config, e: Event, d: Device)
    requires d !in c.mice + c.touchpads && e != DeviceAdded(d)
    ensures var r := Step(c, e);
      && d !in r.mice + r.touchpads
      && (d in r.applied.pointer <==> d in c.applied.pointer)
      && (d in r.applied.touchpad <==> d in c.applied.touchpad)
      && (d in c.applied.pointer ==> r.applied.pointer[d] == c.applied.pointer[d])
      && (d in c.applied.touchpad ==> r.applied.touchpad[d] == c.applied.touchpad[d])
  {
  }

  // ---------------------------------------------------------------- order does not matter

  function Setters(events: seq<Event>): seq<Setter> {
    if events == [] then []
    else
      var last := events[|events| - 1];
      Setters(events[..|events| - 1]) + if last.Setting? then [last.setter] else []
  }

  function HotPlugs(events: seq<Event>): seq<Event> {
    if events == [] then []
    else
      var last := events[|events| - 1];
      HotPlugs(events[..|events| - 1]) + if last.Setting? then [] else [last]
  }

  function SetAll(s: Settings, setters: seq<Setter>): Settings {
    if setters == [] then s else Set(SetAll(s, setters[..|setters| - 1]), setters[|setters| - 1])
  }

  /** The devices tracked after a run of arrivals and removals. */
  function Present(events: seq<Event>): set<Device> {
    if events == [] then {}
    else
      var last := events[|events| - 1];
      var before := Present(events[..|events| - 1]);
      match last
      case DeviceAdded(d) => if d.isTouchpad || d.isPointer then before + {d} else before
      case DeviceRemoved(d) => before - {d}
      case Setting(_) => before
  }

  lemma {:induction false} SettingsComeFromSetters(settings: Settings, events: seq<Event>)
    ensures Run(Initial(settings), events).settings == SetAll(settings, Setters(events))
  {
    if events != [] {
      var n := |events| - 1;
      SettingsComeFromSetters(settings, events[..n]);
      if events[n].Setting? {
        assert Setters(events)[..|Setters(events[..n])|] == Setters(events[..n]);
      } else {
        assert Setters(events) == Setters(events[..n]);
      }
    }
  }

  lemma {:induction false} DevicesComeFromHotPlugs(settings: Settings, events: seq<Event>)
    ensures var c := Run(Initial(settings), events); c.mice + c.touchpads == Present(HotPlugs(events))
  {
    if events != [] {
      var n := |events| - 1;
      DevicesComeFromHotPlugs(settings, events[..n]);
      if events[n].Setting? {
        assert HotPlugs(events) == HotPlugs(events[..n]);
      } else {
        assert HotPlugs(events)[..|HotPlugs(events[..n])|] == HotPlugs(events[..n]);
        DevicesCarryTheSettings(settings, events[..n]);
      }
    }
  }

  /**
   Two runs with the same settings calls and the same device events, interleaved
   in any way, end with the same settings, the same devices tracked, and the same
   configuration on each of them.
   */
  lemma HotPlugOrderIsIrrelevant(settings: Settings, a: seq<Event>, b: seq<Event>)
    requires Setters(a) == Setters(b)
    requires Present(HotPlugs(a)) == Present(HotPlugs(b))
    ensures var x, y := Run(Initial(settings), a), Run(Initial(settings), b);
      && x.settings == y.settings && x.mice == y.mice && x.touchpads == y.touchpads
      && (forall d :: d in x.mice + x.touchpads ==>
            d in x.applied.pointer && d in y.applied.pointer && x.applied.pointer[d] == y.applied.pointer[d])
      && (forall d :: d in x.touchpads ==>
            d in x.applied.touchpad && d in y.applied.touchpad && x.applied.touchpad[d] == y.applied.touchpad[d])
  {
    var x, y := Run(Initial(settings), a), Run(Initial(settings), b);
    SettingsComeFromSetters(settings, a);
    SettingsComeFromSetters(settings, b);
    DevicesComeFromHotPlugs(settings, a);
    DevicesComeFromHotPlugs(settings, b);
    DevicesCarryTheSettings(settings, a);
    DevicesCarryTheSettings(settings, b);
    assert x.mice + x.touchpads == y.mice + y.touchpads;
    forall d ensures (d in x.mice <==> d in y.mice) && (d in x.touchpads <==> d in y.touchpads) {
      assert d in x.mice + x.touchpads <==> d in y.mice + y.touchpads;
    }
  }

  /** The setter calls of one kind, in order. */
  function OfKind(setters: seq<Setter>, mouse: bool): seq<Setter> {
    if setters == [] then []
    else
      OfKind(setters[..|setters| - 1], mouse)
      + if ForMouse(setters[|setters| - 1]) == mouse then [setters[|setters| - 1]] else []
  }

  /** The two have the same settings for the mouse, or for the touchpad. */
  predicate AgreeOn(a: Settings, b: Settings, mouse: bool) {
    if mouse then a.mouse == b.mouse else a.touchpadPointer == b.touchpadPointer && a.touchpad == b.touchpad
  }

  lemma SetOfKind(a: Settings, b: Settings, setter: Setter, mouse: bool)
    requires AgreeOn(a, b, mouse)
    ensures AgreeOn(Set(a, setter), if ForMouse(setter) == mouse then Set(b, setter) else b, mouse)
  {
  }

  /**
   However calls for the mouse and calls for the touchpad are mixed, each kind
   has the settings that its own calls alone lead to.
   */
  lemma {:induction false} MouseAndTouchpadAreIndependent(s: Settings, setters: seq<Setter>, mouse: bool)
    ensures AgreeOn(SetAll(s, setters), SetAll(s, OfKind(setters, mouse)), mouse)
  {
    if setters != [] {
      var n := |setters| - 1;
      var own := OfKind(setters[..n], mouse);
      MouseAndTouchpadAreIndependent(s, setters[..n], mouse);
      SetOfKind(SetAll(s, setters[..n]), SetAll(s, own), setters[n], mouse);
      if ForMouse(setters[n]) == mouse {
        assert (own + [setters[n]])[..|own|] == own;
      } else {
        assert OfKind(setters, mouse) == own;
      }
    }
  }

  // ---------------------------------------------------------------- the last call wins

  /** What the last call that `pick` recognises asked for, or else the default. */
  function LastAsked<T>(setters: seq<Setter>, pick: Setter -> Option<T>, default: T): T {
    if setters == [] then default
    else
      match pick(setters[|setters| - 1])
      case Some(v) => v
      case None => LastAsked(setters[..|setters| - 1], pick, default)
  }

  // What each setter asks for, and of which setting.

  function MouseButton(c: Setter): Option<Handedness> {
    if c.MousePrimaryButton? then Some(if c.button == 0 then RightHanded else LeftHanded) else None
  }

  function MouseSpeed(c: Setter): Option<Double> {
    if c.MouseCursorSpeed? then Some(AccelerationBias(c.speed)) else None
  }

  function MouseScroll(c: Setter): Option<Double> {
    if c.MouseScrollSpeed? then Some(c.speed) else None
  }

  function TouchpadButton(c: Setter): Option<Handedness> {
    if c.TouchpadPrimaryButton? then Some(if c.button == 0 then RightHanded else LeftHanded) else None
  }

  function TouchpadSpeed(c: Setter): Option<Double> {
    if c.TouchpadCursorSpeed? then Some(AccelerationBias(c.speed)) else None
  }

  function TouchpadScroll(c: Setter): Option<Double> {
    if c.TouchpadScrollSpeed? then Some(c.speed) else None
  }

  function TwoFingers(c: Setter): Option<bool> {
    if c.TwoFingerScroll? then Some(c.enable) else None
  }

  function Tapping(c: Setter): Option<bool> {
    if c.TapToClick? then Some(c.enable) else None
  }

  function WhileTyping(c: Setter): Option<bool> {
    if c.DisableWhileTyping? then Some(c.enable) else None
  }

  function WithMouse(c: Setter): Option<bool> {
    if c.DisableWithMouse? then Some(c.enable) else None
  }

  /** Every setting of the mouse is the one its own setter asked for last. */
  lemma {:induction false} MouseSettingsAreLastAsked(s: Settings, setters: seq<Setter>)
    ensures SetAll(s, setters).mouse == PointerConfig(
      LastAsked(setters, MouseButton, s.mouse.handedness),
      LastAsked(setters, MouseSpeed, s.mouse.accelerationBias),
      LastAsked(setters, MouseScroll, s.mouse.horizontalScale),
      LastAsked(setters, MouseScroll, s.mouse.verticalScale))
  {
    if setters != [] {
      MouseSettingsAreLastAsked(s, setters[..|setters| - 1]);
    }
  }

  lemma {:induction false} TouchpadPointerIsLastAsked(s: Settings, setters: seq<Setter>)
    ensures SetAll(s, setters).touchpadPointer == PointerConfig(
      LastAsked(setters, TouchpadButton, s.touchpadPointer.handedness),
      LastAsked(setters, TouchpadSpeed, s.touchpadPointer.accelerationBias),
      LastAsked(setters, TouchpadScroll, s.touchpadPointer.horizontalScale),
      LastAsked(setters, TouchpadScroll, s.touchpadPointer.verticalScale))
  {
    if setters != [] {
      TouchpadPointerIsLastAsked(s, setters[..|setters| - 1]);
    }
  }

  lemma {:induction false} TouchpadSwitchesAreLastAsked(s: Settings, setters: seq<Setter>)
    ensures var t := SetAll(s, setters).touchpad;
      && t.tapToClick == LastAsked(setters, Tapping, s.touchpad.tapToClick)
      && t.disableWhileTyping == LastAsked(setters, WhileTyping, s.touchpad.disableWhileTyping)
      && t.disableWithMouse == LastAsked(setters, WithMouse, s.touchpad.disableWithMouse)
  {
    if setters != [] {
      TouchpadSwitchesAreLastAsked(s, setters[..|setters| - 1]);
    }
  }

  /** Two-finger scrolling is as asked for last, and the other scroll modes stay as they were. */
  lemma {:induction false} ScrollModesAreLastAsked(s: Settings, setters: seq<Setter>)
    ensures var modes := SetAll(s, setters).touchpad.scrollModes;
      && (TwoFinger in modes <==> LastAsked(setters, TwoFingers, TwoFinger in s.touchpad.scrollModes))
      && modes - {TwoFinger} == s.touchpad.scrollModes - {TwoFinger}
  {
    if setters != [] {
      ScrollModesAreLastAsked(s, setters[..|setters| - 1]);
    }
  }

  // ---------------------------------------------------------------- the acceleration bias

  /** The bias set by a cursor speed lies in [-1, 1] for every speed that is a number. */
  lemma BiasIsInRangeExactly(speed: Double)
    ensures (AccelerationBias(speed).Finite? && -1.0 <= AccelerationBias(speed).value <= 1.0) <==> speed != NaN
  {
  }

  /**
   The bias follows the speed: -1 at zero and below, 1 at one and above, in between
   on the straight line from the one to the other, and never lower for a faster
   speed.  What is not a number stays so.
   */
  lemma BiasFollowsSpeed(a: Double, b: Double)
    ensures Less(a, b) ==> !Less(AccelerationBias(b), AccelerationBias(a))
    ensures AccelerationBias(NaN) == NaN
    ensures Less(a, Finite(0.0)) ==> AccelerationBias(a) == Finite(-1.0)
    ensures Less(Finite(1.0), a) ==> AccelerationBias(a) == Finite(1.0)
    ensures a.Finite? && 0.0 <= a.value <= 1.0 ==> AccelerationBias(a) == Finite(-1.0 + a.value * (1.0 - (-1.0)))
  {
  }

  /** The bias that a run of setters leaves on the mouse is in range, if no speed given was NaN. */
  lemma {:induction false} BiasStaysInRange(settings: Settings, setters: seq<Setter>)
    requires settings.mouse.accelerationBias.Finite? && -1.0 <= settings.mouse.accelerationBias.value <= 1.0
    requires forall k :: 0 <= k < |setters| && setters[k].MouseCursorSpeed? ==> setters[k].speed != NaN
    ensures var bias := SetAll(settings, setters).mouse.accelerationBias; bias.Finite? && -1.0 <= bias.value <= 1.0
  {
    if setters != [] {
      var n := |setters| - 1;
      BiasStaysInRange(settings, setters[..n]);
      if setters[n].MouseCursorSpeed? {
        BiasIsInRangeExactly(setters[n].speed);
      }
    }
  }
}
