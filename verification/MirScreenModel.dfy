/** Output power, output counting and the registry of output handlers. */
module MirScreenModel {

  datatype OutputType =
    | Vga | Dvii | Dvid | Dvia | Composite | Svideo | Component | NinePinDin
    | DisplayPort | HdmiA | HdmiB | Tv
    | OtherType(code: nat)   // lvds, edp and every other type

  datatype PowerMode = On | Standby | Suspend | Off

  datatype Output = Output(kind: OutputType, connected: bool, used: bool, mode: PowerMode)

  datatype ActiveOutputs = ActiveOutputs(internal: int, external: int)

  datatype OutputFilter = All | Internal | External

  /** The types listed by name are the external ones, and no other is. */
  predicate IsExternal(kind: OutputType): (r: bool)
    ensures r <==> !kind.OtherType?
  {
    || kind == Vga || kind == Dvii || kind == Dvid || kind == Dvia
    || kind == Composite || kind == Svideo || kind == Component || kind == NinePinDin
    || kind == DisplayPort || kind == HdmiA || kind == HdmiB || kind == Tv
  }

  predicate Active(o: Output) {
    o.connected && o.used && o.mode == On
  }

  predicate Covers(filter: OutputFilter, o: Output) {
    match filter
    case All => true
    case Internal => !IsExternal(o.kind)
    case External => IsExternal(o.kind)
  }

  /** The filter named by a D-Bus caller: anything but the two special names means all. */
  function OutputFilterFromString(name: string): OutputFilter {
    if name == "internal" then Internal
    else if name == "external" then External
    else All
  }

  // ---------------------------------------------------------------- counting

  function CountActive(outputs: seq<Output>): ActiveOutputs {
    if outputs == [] then ActiveOutputs(0, 0)
    else
      var n := |outputs| - 1;
      Counted(CountActive(outputs[..n]), outputs[n])
  }

  function Counted(count: ActiveOutputs, o: Output): ActiveOutputs {
    if !Active(o) then count
    else if IsExternal(o.kind) then count.(external := count.external + 1)
    else count.(internal := count.internal + 1)
  }

  predicate ActiveOf(o: Output, external: bool) {
    Active(o) && IsExternal(o.kind) == external
  }

  function ActiveIndices(outputs: seq<Output>, external: bool): set<nat> {
    IndicesWhere(outputs, o => ActiveOf(o, external))
  }

  function IndicesWhere(outputs: seq<Output>, p: Output -> bool): set<nat> {
    set i: nat | i < |outputs| && p(outputs[i])
  }

  lemma OneMoreIndex(outputs: seq<Output>, p: Output -> bool)
    requires outputs != []
    ensures var n := |outputs| - 1;
      |IndicesWhere(outputs, p)| == |IndicesWhere(outputs[..n], p)| + if p(outputs[n]) then 1 else 0
  {
    var n := |outputs| - 1;
    assert IndicesWhere(outputs, p) == IndicesWhere(outputs[..n], p) + if p(outputs[n]) then {n} else {};
  }

  /** The counts are the numbers of active outputs of either kind. */
  lemma {:induction false} CountIsCardinality(outputs: seq<Output>)
    ensures CountActive(outputs).internal == |ActiveIndices(outputs, false)|
    ensures CountActive(outputs).external == |ActiveIndices(outputs, true)|
    ensures forall external: bool, i: nat :: i in ActiveIndices(outputs, external) <==>
      && i < |outputs| && outputs[i].connected && outputs[i].used && outputs[i].mode == On
      && outputs[i].kind.OtherType? == !external
  {
    if outputs != [] {
      CountIsCardinality(outputs[..|outputs| - 1]);
      OneMoreIndex(outputs, o => ActiveOf(o, false));
      OneMoreIndex(outputs, o => ActiveOf(o, true));
    }
  }

  lemma {:induction false} CountNotNegative(outputs: seq<Output>)
    ensures CountActive(outputs).internal >= 0 && CountActive(outputs).external >= 0
  {
    if outputs != [] {
      CountNotNegative(outputs[..|outputs| - 1]);
    }
  }

  // ---------------------------------------------------------------- the screen

  /**
   The display's configuration, whether the compositor runs, the counts last
   determined, and for each registered handler the values it has been called with.
   */
  datatype Screen = Screen(
    outputs: seq<Output>,
    compositing: bool,
    active: ActiveOutputs,
    inbox: map<nat, seq<ActiveOutputs>>)

  datatype Call =
    | TurnOn(filter: OutputFilter)
    | TurnOff(filter: OutputFilter)
    | Register(key: nat)
    | Unregister(key: nat)
    | Reconfigured(outputs: seq<Output>)   // the display changes by itself and Mir reports it

  function Powered(o: Output, mode: PowerMode, filter: OutputFilter): Output {
    if o.connected && o.used && Covers(filter, o) then o.(mode := mode) else o
  }

  function PoweredAll(outputs: seq<Output>, mode: PowerMode, filter: OutputFilter): seq<Output> {
    seq(|outputs|, i requires 0 <= i < |outputs| => Powered(outputs[i], mode, filter))
  }

  function Notify(s: Screen, outputs: seq<Output>): Screen {
    var active := CountActive(outputs);
    s.(active := active, inbox := map k | k in s.inbox :: s.inbox[k] + [active])
  }

  function SetPower(s: Screen, mode: PowerMode, filter: OutputFilter): Screen {
    var outputs := PoweredAll(s.outputs, mode, filter);
    var count := CountActive(outputs);
    Notify(s.(outputs := outputs, compositing := count.internal + count.external > 0), outputs)
  }

  function Step(s: Screen, c: Call): Screen {
    match c
    case TurnOn(filter) => SetPower(s, On, filter)
    case TurnOff(filter) => SetPower(s, Off, filter)
    case Register(key) => s.(inbox := s.inbox[key := [s.active]])
    case Unregister(key) => s.(inbox := s.inbox - {key})
    case Reconfigured(outputs) => Notify(s.(outputs := outputs), outputs)
  }

  function Run(s: Screen, calls: seq<Call>): Screen
    decreases |calls|
  {
    if calls == [] then s else Run(Step(s, calls[0]), calls[1..])
  }

  function Initial(outputs: seq<Output>): Screen {
    Screen(outputs, true, CountActive(outputs), map[])
  }
}
