/** The screen object: it drives a display and a compositor, and calls its registered handlers. */
module MirScreens {
  import opened MirScreenModel

  class Compositor {
    var running: bool

    method Start()
      modifies this
      ensures running
    {
      running := true;
    }

    method Stop()
      modifies this
      ensures !running
    {
      running := false;
    }
  }

  class Display {
    var outputs: seq<Output>

    method Configure(configuration: seq<Output>)
      modifies this
      ensures outputs == configuration
    {
      outputs := configuration;
    }
  }

  class MirScreen {
    const compositor: Compositor
    const display: Display
    var active: ActiveOutputs
    var inbox: map<nat, seq<ActiveOutputs>>   // by registered key, the values its handler was called with

    function View(): Screen
      reads this, compositor, display
    {
      Screen(display.outputs, compositor.running, active, inbox)
    }

    constructor (compositor: Compositor, display: Display)
      modifies compositor
      ensures this.compositor == compositor && this.display == display
      ensures View() == Initial(display.outputs)
      ensures compositor.running && inbox == map[]   // whether or not an output is active
    {
      this.compositor, this.display := compositor, display;
      inbox := map[];
      active := ActiveOutputs(0, 0);
      new;
      compositor.Start();
      active := CountActiveOutputs(display.outputs);
    }

    method TurnOn(filter: OutputFilter)
      modifies this, compositor, display
      ensures View() == Step(old(View()), Call.TurnOn(filter))
    {
      SetPowerMode(On, filter);
    }

    method TurnOff(filter: OutputFilter)
      modifies this, compositor, display
      ensures View() == Step(old(View()), Call.TurnOff(filter))
    {
      SetPowerMode(Off, filter);
    }

    method RegisterActiveOutputsHandler(key: nat)
      modifies this`inbox
      ensures View() == Step(old(View()), Register(key))
    {
      inbox := inbox[key := [active]];
    }

    method UnregisterActiveOutputsHandler(key: nat)
      modifies this`inbox
      ensures View() == Step(old(View()), Unregister(key))
    {
      inbox := inbox - {key};
    }

    method ConfigurationApplied(configuration: seq<Output>)
      modifies this
      ensures View() == Notify(old(View()), configuration)
    {
      active := CountActiveOutputs(configuration);
      var keys := inbox.Keys;
      while keys != {}
        invariant keys <= inbox.Keys == old(inbox.Keys)
        invariant active == CountActive(configuration)
        invariant forall k :: k in inbox ==>
          inbox[k] == old(inbox)[k] + if k in keys then [] else [active]
        decreases |keys|
      {
        var k :| k in keys;
        inbox := inbox[k := inbox[k] + [active]];
        keys := keys - {k};
      }
      assert inbox == Notify(old(View()), configuration).inbox;
    }

    method SetPowerMode(mode: PowerMode, filter: OutputFilter)
      modifies this, compositor, display
      ensures View() == SetPower(old(View()), mode, filter)
    {
      var configuration := display.outputs;
      for i := 0 to |configuration|
        invariant |configuration| == |display.outputs|
        invariant forall j :: 0 <= j < |configuration| ==>
          configuration[j] == if j < i then Powered(display.outputs[j], mode, filter) else display.outputs[j]
      {
        var o := configuration[i];
        if o.connected && o.used && Covers(filter, o) {
          configuration := configuration[i := o.(mode := mode)];
        }
      }
      assert configuration == PoweredAll(display.outputs, mode, filter);

      compositor.Stop();
      display.Configure(configuration);
      var count := CountActiveOutputs(configuration);
      if count.internal + count.external > 0 {
        compositor.Start();
      }
      ConfigurationApplied(configuration);
    }

    static method CountActiveOutputs(configuration: seq<Output>) returns (count: ActiveOutputs)
      ensures count == CountActive(configuration)
      ensures count.internal == |ActiveIndices(configuration, false)|
      ensures count.external == |ActiveIndices(configuration, true)|
    {
      count := ActiveOutputs(0, 0);
      for i := 0 to |configuration|
        invariant count == CountActive(configuration[..i])
      {
        assert configuration[..i + 1][..i] == configuration[..i];
        var o := configuration[i];
        if o.connected && o.used && o.mode == On {
          if IsExternal(o.kind) {
            count := count.(external := count.external + 1);
          } else {
            count := count.(internal := count.internal + 1);
          }
        }
      }
      assert configuration[..|configuration|] == configuration;
      CountIsCardinality(configuration);
    }
  }
}
