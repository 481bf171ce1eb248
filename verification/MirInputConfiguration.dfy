/** The input configuration object: device sets and settings updated in place, reapplied by loops. */
module MirInputConfigurations {
  import opened InputModel

  /** The devices themselves, as far as configurations are applied to them. */
  class DeviceHub {
    var pointer: map<Device, PointerConfig>
    var touchpad: map<Device, TouchpadConfig>

    function View(): Applied
      reads this
    {
      Applied(pointer, touchpad)
    }

    constructor ()
      ensures View() == Applied(map[], map[])
    {
      pointer, touchpad := map[], map[];
    }

    method ApplyPointerConfiguration(d: Device, config: PointerConfig)
      modifies this`pointer
      ensures pointer == old(pointer)[d := config]
    {
      pointer := pointer[d := config];
    }

    method ApplyTouchpadConfiguration(d: Device, config: TouchpadConfig)
      modifies this`touchpad
      ensures touchpad == old(touchpad)[d := config]
    {
      touchpad := touchpad[d := config];
    }
  }

  class MirInputConfiguration {
    const hub: DeviceHub
    var mice: set<Device>
    var touchpads: set<Device>
    var settings: Settings

    function View(): Config
      reads this, hub
    {
      Config(settings, mice, touchpads, hub.View())
    }

    constructor (hub: DeviceHub, defaults: Settings)
      ensures this.hub == hub && settings == defaults && mice == {} && touchpads == {}
    {
      this.hub := hub;
      mice, touchpads, settings := {}, {}, defaults;
    }

    method OnDeviceAdded(d: Device)
      modifies this, hub
      ensures View() == Step(old(View()), DeviceAdded(d))
    {
      if d.isTouchpad {
        touchpads := touchpads + {d};
        ConfigureTouchpad(d);
      } else if d.isPointer {
        mice := mice + {d};
        ConfigureMouse(d);
      }
    }

    method OnDeviceRemoved(d: Device)
      modifies this
      ensures View() == Step(old(View()), DeviceRemoved(d))
    {
      touchpads := touchpads - {d};
      mice := mice - {d};
    }

    method ConfigureMouse(d: Device)
      modifies hub
      ensures hub.View() == ApplyPointer(old(hub.View()), {d}, settings.mouse)
    {
      hub.ApplyPointerConfiguration(d, settings.mouse);
    }

    method ConfigureTouchpad(d: Device)
      modifies hub
      ensures hub.View() == ApplyBoth(old(hub.View()), {d}, settings)
    {
      hub.ApplyPointerConfiguration(d, settings.touchpadPointer);
      hub.ApplyTouchpadConfiguration(d, settings.touchpad);
    }

    method UpdateMice()
      modifies hub
      ensures View() == InputModel.UpdateMice(old(View()))
    {
      var left := mice;
      while left != {}
        invariant left <= mice
        invariant hub.View() == ApplyPointer(old(hub.View()), mice - left, settings.mouse)
        decreases |left|
      {
        var d :| d in left;
        ApplyPointerOnce(old(hub.View()), mice - left, d, settings.mouse);
        ConfigureMouse(d);
        assert mice - (left - {d}) == mice - left + {d};
        left := left - {d};
      }
      assert mice - left == mice;
    }

    method UpdateTouchpads()
      modifies hub
      ensures View() == InputModel.UpdateTouchpads(old(View()))
    {
      var left := touchpads;
      while left != {}
        invariant left <= touchpads
        invariant hub.View() == ApplyBoth(old(hub.View()), touchpads - left, settings)
        decreases |left|
      {
        var d :| d in left;
        ApplyBothOnce(old(hub.View()), touchpads - left, d, settings);
        ConfigureTouchpad(d);
        assert touchpads - (left - {d}) == touchpads - left + {d};
        left := left - {d};
      }
      assert touchpads - left == touchpads;
    }

    // -------------------------------------------------------------- setters

    method SetMousePrimaryButton(button: int)
      modifies this, hub
      ensures View() == Step(old(View()), Setting(MousePrimaryButton(button)))
    {
      settings := settings.(mouse := settings.mouse.(handedness :=
        if button == 0 then RightHanded else LeftHanded));
      UpdateMice();
    }

    method SetMouseCursorSpeed(speed: Double)
      modifies this, hub
      ensures View() == Step(old(View()), Setting(MouseCursorSpeed(speed)))
    {
      var clamped := speed;
      if Less(clamped, Finite(0.0)) {
        clamped := Finite(0.0);
      }
      if Less(Finite(1.0), clamped) {
        clamped := Finite(1.0);
      }
      var bias := if clamped.Finite? then Finite(clamped.value * 2.0 - 1.0) else clamped;
      settings := settings.(mouse := settings.mouse.(accelerationBias := bias));
      UpdateMice();
    }

    method SetMouseScrollSpeed(speed: Double)
      modifies this, hub
      ensures View() == Step(old(View()), Setting(MouseScrollSpeed(speed)))
    {
      settings := settings.(mouse := settings.mouse.(horizontalScale := speed));
      settings := settings.(mouse := settings.mouse.(verticalScale := speed));
      UpdateMice();
    }

    method SetTouchpadPrimaryButton(button: int)
      modifies this, hub
      ensures View() == Step(old(View()), Setting(TouchpadPrimaryButton(button)))
    {
      settings := settings.(touchpadPointer := settings.touchpadPointer.(handedness :=
        if button == 0 then RightHanded else LeftHanded));
      UpdateTouchpads();
    }

    method SetTouchpadCursorSpeed(speed: Double)
      modifies this, hub
      ensures View() == Step(old(View()), Setting(TouchpadCursorSpeed(speed)))
    {
      var clamped := speed;
      if Less(clamped, Finite(0.0)) {
        clamped := Finite(0.0);
      }
      if Less(Finite(1.0), clamped) {
        clamped := Finite(1.0);
      }
      var bias := if clamped.Finite? then Finite(clamped.value * 2.0 - 1.0) else clamped;
      settings := settings.(touchpadPointer := settings.touchpadPointer.(accelerationBias := bias));
      UpdateTouchpads();
    }

    method SetTouchpadScrollSpeed(speed: Double)
      modifies this, hub
      ensures View() == Step(old(View()), Setting(TouchpadScrollSpeed(speed)))
    {
      settings := settings.(touchpadPointer := settings.touchpadPointer.(horizontalScale := speed));
      settings := settings.(touchpadPointer := settings.touchpadPointer.(verticalScale := speed));
      UpdateTouchpads();
    }

    method SetTwoFingerScroll(enable: bool)
      modifies this, hub
      ensures View() == Step(old(View()), Setting(TwoFingerScroll(enable)))
    {
      var current := settings.touchpad.scrollModes;
      if enable {
        current := current + {TwoFinger};
      } else {
        current := current - {TwoFinger};
      }
      settings := settings.(touchpad := settings.touchpad.(scrollModes := current));
      UpdateTouchpads();
    }

    method SetTapToClick(enable: bool)
      modifies this, hub
      ensures View() == Step(old(View()), Setting(TapToClick(enable)))
    {
      settings := settings.(touchpad := settings.touchpad.(tapToClick := enable));
      UpdateTouchpads();
    }

    method SetDisableTouchpadWhileTyping(enable: bool)
      modifies this, hub
      ensures View() == Step(old(View()), Setting(DisableWhileTyping(enable)))
    {
      settings := settings.(touchpad := settings.touchpad.(disableWhileTyping := enable));
      UpdateTouchpads();
    }

    method SetDisableTouchpadWithMouse(enable: bool)
      modifies this, hub
      ensures View() == Step(old(View()), Setting(DisableWithMouse(enable)))
    {
      settings := settings.(touchpad := settings.touchpad.(disableWithMouse := enable));
      UpdateTouchpads();
    }
  }
}
