/** Input devices that come and go, and the settings that each of them must carry. */
module InputModel {

  // ---------------------------------------------------------------- numbers from the bus

  /** A double: rounding is left aside, the special values are not. */
  datatype Double = NaN | NegInf | Finite(value: real) | PosInf

  predicate Less(a: Double, b: Double) {
    match (a, b)
    case (Finite(x), Finite(y)) => x < y
    case (NegInf, Finite(_)) => true
    case (NegInf, PosInf) => true
    case (Finite(_), PosInf) => true
    case _ => false
  }

  function Clamped(speed: Double): Double {
    var low := if Less(speed, Finite(0.0)) then Finite(0.0) else speed;
    if Less(Finite(1.0), low) then Finite(1.0) else low
  }

  /** clamped * 2.0 - 1.0; clamping leaves no infinity. */
  function AccelerationBias(speed: Double): Double {
    match Clamped(speed)
    case Finite(x) => Finite(x * 2.0 - 1.0)
    case other => other
  }

  // ---------------------------------------------------------------- settings

  datatype Handedness = RightHanded | LeftHanded

  datatype PointerConfig = PointerConfig(
    handedness: Handedness, accelerationBias: Double, horizontalScale: Double, verticalScale: Double)

  datatype ScrollMode = TwoFinger | Edge | ButtonDown

  datatype TouchpadConfig = TouchpadConfig(
    scrollModes: set<ScrollMode>, tapToClick: bool, disableWhileTyping: bool, disableWithMouse: bool)

  datatype Settings = Settings(mouse: PointerConfig, touchpadPointer: PointerConfig, touchpad: TouchpadConfig)

  datatype Setter =
    | MousePrimaryButton(button: int)
    | MouseCursorSpeed(speed: Double)
    | MouseScrollSpeed(speed: Double)
    | TouchpadPrimaryButton(button: int)
    | TouchpadCursorSpeed(speed: Double)
    | TouchpadScrollSpeed(speed: Double)
    | TwoFingerScroll(enable: bool)
    | TapToClick(enable: bool)
    | DisableWhileTyping(enable: bool)
    | DisableWithMouse(enable: bool)

  function HandednessOf(button: int): Handedness {
    if button == 0 then RightHanded else LeftHanded
  }

  predicate ForMouse(setter: Setter) {
    setter.MousePrimaryButton? || setter.MouseCursorSpeed? || setter.MouseScrollSpeed?
  }

  function Set(s: Settings, setter: Setter): Settings {
    match setter
    case MousePrimaryButton(b) => s.(mouse := s.mouse.(handedness := HandednessOf(b)))
    case MouseCursorSpeed(v) => s.(mouse := s.mouse.(accelerationBias := AccelerationBias(v)))
    case MouseScrollSpeed(v) => s.(mouse := s.mouse.(horizontalScale := v, verticalScale := v))
    case TouchpadPrimaryButton(b) =>
      s.(touchpadPointer := s.touchpadPointer.(handedness := HandednessOf(b)))
    case TouchpadCursorSpeed(v) =>
      s.(touchpadPointer := s.touchpadPointer.(accelerationBias := AccelerationBias(v)))
    case TouchpadScrollSpeed(v) =>
      s.(touchpadPointer := s.touchpadPointer.(horizontalScale := v, verticalScale := v))
    case TwoFingerScroll(on) =>
      var modes := s.touchpad.scrollModes;
      s.(touchpad := s.touchpad.(scrollModes := if on then modes + {TwoFinger} else modes - {TwoFinger}))
    case TapToClick(on) => s.(touchpad := s.touchpad.(tapToClick := on))
    case DisableWhileTyping(on) => s.(touchpad := s.touchpad.(disableWhileTyping := on))
    case DisableWithMouse(on) => s.(touchpad := s.touchpad.(disableWithMouse := on))
  }

  // ---------------------------------------------------------------- devices

  /** An input device: an identity and its fixed capabilities. */
  datatype Device = Device(id: nat, isTouchpad: bool, isPointer: bool)

  /** What has been applied to the devices themselves. */
  datatype Applied = Applied(pointer: map<Device, PointerConfig>, touchpad: map<Device, TouchpadConfig>)

  datatype Config = Config(settings: Settings, mice: set<Device>, touchpads: set<Device>, applied: Applied)

  datatype Event =
    | DeviceAdded(device: Device)
    | DeviceRemoved(device: Device)
    | Setting(setter: Setter)

  /** The configurations after the given devices have received one more. */
  function Overlay<C>(m: map<Device, C>, devices: set<Device>, config: C): map<Device, C> {
    m + map d | d in devices :: config
  }

  lemma OverlayOnce<C>(m: map<Device, C>, devices: set<Device>, d: Device, config: C)
    ensures Overlay(Overlay(m, devices, config), {d}, config) == Overlay(m, devices + {d}, config)
  {
  }

  function ApplyPointer(a: Applied, devices: set<Device>, config: PointerConfig): Applied {
    a.(pointer := Overlay(a.pointer, devices, config))
  }

  function ApplyTouchpad(a: Applied, devices: set<Device>, config: TouchpadConfig): Applied {
    a.(touchpad := Overlay(a.touchpad, devices, config))
  }

  /** What a touchpad is given: its pointer configuration and its own. */
  function ApplyBoth(a: Applied, devices: set<Device>, settings: Settings): Applied {
    ApplyTouchpad(ApplyPointer(a, devices, settings.touchpadPointer), devices, settings.touchpad)
  }

  function UpdateMice(c: Config): Config {
    c.(applied := ApplyPointer(c.applied, c.mice, c.settings.mouse))
  }

  function UpdateTouchpads(c: Config): Config {
    c.(applied := ApplyBoth(c.applied, c.touchpads, c.settings))
  }

  lemma ApplyPointerOnce(a: Applied, devices: set<Device>, d: Device, config: PointerConfig)
    ensures ApplyPointer(ApplyPointer(a, devices, config), {d}, config) == ApplyPointer(a, devices + {d}, config)
  {
    OverlayOnce(a.pointer, devices, d, config);
  }

  lemma ApplyBothOnce(a: Applied, devices: set<Device>, d: Device, settings: Settings)
    ensures ApplyBoth(ApplyBoth(a, devices, settings), {d}, settings) == ApplyBoth(a, devices + {d}, settings)
  {
    OverlayOnce(a.pointer, devices, d, settings.touchpadPointer);
    OverlayOnce(a.touchpad, devices, d, settings.touchpad);
  }

  function Step(c: Config, e: Event): Config {
    match e
    case DeviceAdded(d) =>
      if d.isTouchpad then
        c.(touchpads := c.touchpads + {d},
           applied := ApplyBoth(c.applied, {d}, c.settings))
      else if d.isPointer then
        c.(mice := c.mice + {d}, applied := ApplyPointer(c.applied, {d}, c.settings.mouse))
      else c
    case DeviceRemoved(d) => c.(mice := c.mice - {d}, touchpads := c.touchpads - {d})
    case Setting(setter) =>
      var changed := c.(settings := Set(c.settings, setter));
      if ForMouse(setter) then UpdateMice(changed) else UpdateTouchpads(changed)
  }

  function Run(c: Config, events: seq<Event>): Config {
    if events == [] then c else Step(Run(c, events[..|events| - 1]), events[|events| - 1])
  }

  function Initial(settings: Settings): Config {
    Config(settings, {}, {}, Applied(map[], map[]))
  }
}
