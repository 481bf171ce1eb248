/** What runs of power calls do to the outputs, the counts and the handlers. */
module MirScreenTheorems {
  import opened Histories
  import opened MirScreenModel

  // ---------------------------------------------------------------- the last call wins

  predicate IsPowerCall(c: Call) {
    c.TurnOn? || c.TurnOff?
  }

  function ModeOf(c: Call): PowerMode {
    if c.TurnOn? then On else Off
  }

  /** The call asks for a mode of this output: of internal ones all types but the named, of external ones the named. */
  predicate Concerns(c: Call, o: Output) {
    IsPowerCall(c) &&
    match c.filter
    case All => true
    case Internal => o.kind.OtherType?
    case External => !o.kind.OtherType?
  }

  /** The mode of the last call that concerns an output, or the mode it started with. */
  function LastMode(o: Output, calls: seq<Call>): PowerMode {
    if calls == [] then o.mode
    else
      var last := calls[|calls| - 1];
      if Concerns(last, o) then ModeOf(last) else LastMode(o, calls[..|calls| - 1])
  }

  lemma {:induction false} RunSplit(s: Screen, first: seq<Call>, rest: seq<Call>)
    ensures Run(s, first + rest) == Run(Run(s, first), rest)
    decreases |first|
  {
    if first == [] {
      assert first + rest == rest;
    } else {
      assert (first + rest)[1..] == first[1..] + rest;
      RunSplit(Step(s, first[0]), first[1..], rest);
    }
  }

  /**
   After any run of calls each connected and used output is in the mode of the
   last power call that concerns it, and every other output is as it was, until
   the display changes by itself.
   */
  lemma {:induction false} LastCallWins(s: Screen, calls: seq<Call>, i: nat)
    requires i < |s.outputs|
    requires forall k :: 0 <= k < |calls| ==> !calls[k].Reconfigured?
    ensures var outputs := Run(s, calls).outputs;
      && |outputs| == |s.outputs|
      && outputs[i] == if s.outputs[i].connected && s.outputs[i].used
                       then s.outputs[i].(mode := LastMode(s.outputs[i], calls)) else s.outputs[i]
    decreases |calls|
  {
    if calls != [] {
      var n := |calls| - 1;
      assert calls == calls[..n] + [calls[n]];
      RunSplit(s, calls[..n], [calls[n]]);
      LastCallWins(s, calls[..n], i);
      StepOutput(Run(s, calls[..n]), calls[n], i);
      assert Run(s, calls) == Step(Run(s, calls[..n]), calls[n]);
    }
  }

  lemma StepOutput(s: Screen, c: Call, i: nat)
    requires i < |s.outputs| && !c.Reconfigured?
    ensures var outputs := Step(s, c).outputs;
      && |outputs| == |s.outputs|
      && outputs[i] == if s.outputs[i].connected && s.outputs[i].used && Concerns(c, s.outputs[i])
                       then s.outputs[i].(mode := ModeOf(c)) else s.outputs[i]
  {
  }

  /** When the display changes by itself, the outputs are what it says, whatever was called before. */
  lemma DisplayHasItsWay(s: Screen, before: seq<Call>, outputs: seq<Output>, calls: seq<Call>, i: nat)
    requires i < |outputs|
    requires forall k :: 0 <= k < |calls| ==> !calls[k].Reconfigured?
    ensures var r := Run(s, before + [Reconfigured(outputs)] + calls);
      && |r.outputs| == |outputs|
      && r.outputs[i] == if outputs[i].connected && outputs[i].used
                         then outputs[i].(mode := LastMode(outputs[i], calls)) else outputs[i]
  {
    var c := Reconfigured(outputs);
    RunSplit(s, before + [c], calls);
    RunSplit(s, before, [c]);
    assert [c][1..] == [];
    LastCallWins(Step(Run(s, before), c), calls, i);
  }

  /** Powering the internal outputs and then the external ones powers them all, in either order. */
  lemma InternalAndExternalMakeAll(outputs: seq<Output>, mode: PowerMode)
    ensures PoweredAll(PoweredAll(outputs, mode, Internal), mode, External) == PoweredAll(outputs, mode, All)
    ensures PoweredAll(PoweredAll(outputs, mode, External), mode, Internal) == PoweredAll(outputs, mode, All)
  {
  }

  /**
   The same by the names of the bus interface, where any other name means all;
   and what each of the names does by itself to an output that is connected and used.
   */
  lemma NamedFiltersMakeAll(outputs: seq<Output>, mode: PowerMode, name: string)
    requires name != "internal" && name != "external"
    ensures
      var internal := PoweredAll(outputs, mode, OutputFilterFromString("internal"));
      var external := PoweredAll(outputs, mode, OutputFilterFromString("external"));
      var all := PoweredAll(outputs, mode, OutputFilterFromString(name));
      && PoweredAll(internal, mode, OutputFilterFromString("external")) == all
      && |internal| == |external| == |all| == |outputs|
      && forall i :: 0 <= i < |outputs| && outputs[i].connected && outputs[i].used ==>
           && all[i].mode == mode
           && internal[i].mode == (if outputs[i].kind.OtherType? then mode else outputs[i].mode)
           && external[i].mode == (if outputs[i].kind.OtherType? then outputs[i].mode else mode)
  {
    InternalAndExternalMakeAll(outputs, mode);
  }

  /** Calls on the two kinds of output commute, whatever their modes. */
  lemma KindsCommute(outputs: seq<Output>, internal: PowerMode, external: PowerMode)
    ensures PoweredAll(PoweredAll(outputs, internal, Internal), external, External) ==
            PoweredAll(PoweredAll(outputs, external, External), internal, Internal)
  {
  }

  // ---------------------------------------------------------------- counts, compositor and handlers

  /** The counts are a recount of the display, and every handler was last told them. */
  ghost predicate Current(s: Screen) {
    && s.active == CountActive(s.outputs)
    && forall k :: k in s.inbox ==> s.inbox[k] != [] && s.inbox[k][|s.inbox[k]| - 1] == s.active
  }

  lemma {:induction false} RunKeepsCurrent(s: Screen, calls: seq<Call>)
    requires Current(s)
    ensures Current(Run(s, calls))
    decreases |calls|
  {
    if calls != [] {
      RunKeepsCurrent(Step(s, calls[0]), calls[1..]);
    }
  }

  /**
   After each power call, and until the next one, the compositor runs if and only
   if the call left some output connected, used and powered on.
   */
  lemma CompositorFollowsOutputs(s: Screen, calls: seq<Call>, last: Call, rest: seq<Call>)
    requires Current(s) && IsPowerCall(last)
    requires forall k :: 0 <= k < |rest| ==> !IsPowerCall(rest[k])
    ensures var r := Run(s, calls + [last]);
      && r.active == CountActive(r.outputs)
      && (r.compositing <==> r.active != ActiveOutputs(0, 0))
      && (r.compositing <==> exists o :: o in r.outputs && o.connected && o.used && o.mode == On)
      && Run(s, calls + [last] + rest).compositing == r.compositing
  {
    RunSplit(s, calls, [last]);
    RunKeepsCurrent(s, calls + [last]);
    var r := Run(s, calls + [last]);
    CountNotNegative(r.outputs);
    SomeActive(r.outputs);
    RunSplit(s, calls + [last], rest);
    CompositorStays(r, rest);
  }

  lemma {:induction false} CompositorStays(s: Screen, calls: seq<Call>)
    requires forall k :: 0 <= k < |calls| ==> !IsPowerCall(calls[k])
    ensures Run(s, calls).compositing == s.compositing
    decreases |calls|
  {
    if calls != [] {
      assert !IsPowerCall(calls[0]);
      CompositorStays(Step(s, calls[0]), calls[1..]);
    }
  }

  lemma {:induction false} SomeActive(outputs: seq<Output>)
    ensures CountActive(outputs).internal + CountActive(outputs).external > 0 <==>
      exists o :: o in outputs && o.connected && o.used && o.mode == On
  {
    if outputs != [] {
      var n := |outputs| - 1;
      SomeActive(outputs[..n]);
      CountNotNegative(outputs[..n]);
      assert outputs == outputs[..n] + [outputs[n]];
      if Active(outputs[n]) {
        assert outputs[n] in outputs;
      }
    }
  }

  // ---------------------------------------------------------------- the registry

  function After(s: Screen, calls: seq<Call>, n: nat): Screen
    requires n <= |calls|
  {
    Run(s, calls[..n])
  }

  lemma Advance(s: Screen, calls: seq<Call>, n: nat)
    requires n < |calls|
    ensures After(s, calls, n + 1) == Step(After(s, calls, n), calls[n])
  {
    assert calls[..n + 1] == calls[..n] + [calls[n]];
    RunSplit(s, calls[..n], [calls[n]]);
    assert [calls[n]][1..] == [];
  }

  function Is(calls: seq<Call>, c: Call): nat -> bool {
    (i: nat) => i < |calls| && calls[i] == c
  }

  /** A handler is registered exactly since its registration, until it is unregistered. */
  lemma {:induction false} RegisteredSince(s: Screen, calls: seq<Call>, n: nat, key: nat)
    requires n <= |calls|
    ensures key in After(s, calls, n).inbox <==>
      Lasts(n, key in s.inbox, Is(calls, Register(key)), Is(calls, Unregister(key)))
  {
    if n > 0 {
      RegisteredSince(s, calls, n - 1, key);
      Advance(s, calls, n - 1);
      LastsNext(n - 1, key in s.inbox, Is(calls, Register(key)), Is(calls, Unregister(key)));
    }
  }

  /** The counts after each of the calls from `j` to `n` that changes the outputs or reports a change. */
  function Announced(s: Screen, calls: seq<Call>, j: nat, n: nat): seq<ActiveOutputs>
    requires j <= n <= |calls|
  {
    if j == n then []
    else
      Announced(s, calls, j, n - 1)
      + if IsPowerCall(calls[n - 1]) || calls[n - 1].Reconfigured?
        then [CountActive(After(s, calls, n).outputs)] else []
  }

  /**
   A handler registered by the call before `j` is called with the counts of that
   moment and then with those after each change, whatever other handlers come and go.
   */
  lemma {:induction false} HandlerHearsAll(s: Screen, calls: seq<Call>, j: nat, n: nat, key: nat)
    requires Current(s) && 0 < j <= n <= |calls| && calls[j - 1] == Register(key)
    requires forall i :: j <= i < n ==> calls[i] != Register(key) && calls[i] != Unregister(key)
    ensures var r := After(s, calls, n);
      key in r.inbox && r.inbox[key] == [CountActive(After(s, calls, j).outputs)] + Announced(s, calls, j, n)
  {
    RunKeepsCurrent(s, calls[..j]);
    if j == n {
      Advance(s, calls, j - 1);
    } else {
      HandlerHearsAll(s, calls, j, n - 1, key);
      Advance(s, calls, n - 1);
    }
  }
}
