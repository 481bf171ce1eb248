/**
 Screen and switcher together: the switcher's handler is registered with the
 screen, so that each power call and each change of the display's configuration
 reaches it as a change of outputs.
 */
module DisplaySystem {
  import M = MirScreenModel
  import MT = MirScreenTheorems
  import opened Scenes
  import opened SwitcherModel
  import opened SwitcherRuns
  import T = SwitcherTheorems

  /** A call on the screen, with the answers the switcher gets meanwhile, or any other call on the switcher. */
  datatype SystemCall =
    | ScreenCall(call: M.Call, spinnerPid: int, forked: int)
    | SessionCall(input: Input)

  /** Registrations of further handlers aside, every call on the screen notifies the switcher. */
  predicate WellFormed(calls: seq<SystemCall>) {
    forall k :: 0 <= k < |calls| ==>
      match calls[k]
      case ScreenCall(c, _, _) => !c.Register? && !c.Unregister?
      case SessionCall(input) => !input.call.OutputsChanged?
  }

  /** What the switcher is called with during a run of the system. */
  function Inputs(s: M.Screen, calls: seq<SystemCall>): seq<Input>
    decreases |calls|
  {
    if calls == [] then []
    else
      match calls[0]
      case ScreenCall(c, pid, forked) =>
        var after := M.Step(s, c);
        [Input(OutputsChanged(after.active.internal, after.active.external), pid, forked)] + Inputs(after, calls[1..])
      case SessionCall(input) => [input] + Inputs(s, calls[1..])
  }

  function ScreenCalls(calls: seq<SystemCall>): seq<M.Call>
    decreases |calls|
  {
    if calls == [] then []
    else (if calls[0].ScreenCall? then [calls[0].call] else []) + ScreenCalls(calls[1..])
  }

  function SessionInputs(calls: seq<SystemCall>): seq<Input>
    decreases |calls|
  {
    if calls == [] then []
    else (if calls[0].SessionCall? then [calls[0].input] else []) + SessionInputs(calls[1..])
  }

  ghost predicate SomeOutputActive(s: M.Screen) {
    exists o :: o in s.outputs && M.Active(o)
  }

  /** Screen and switcher agree on whether there is anything to display on. */
  ghost predicate InStep(s: M.Screen, w: World) {
    w.sw.outputs <==> SomeOutputActive(s)
  }

  lemma ScreenCallKeepsInStep(s: M.Screen, w: World, c: M.Call, pid: int, forked: int)
    requires w.sw.Registered() && !c.Register? && !c.Unregister?
    ensures var s' := M.Step(s, c);
      InStep(s', Step(w, Input(OutputsChanged(s'.active.internal, s'.active.external), pid, forked)))
  {
    var s' := M.Step(s, c);
    assert s'.active == M.CountActive(s'.outputs);
    M.CountNotNegative(s'.outputs);
    MT.SomeActive(s'.outputs);
    T.StepFields(w, Input(OutputsChanged(s'.active.internal, s'.active.external), pid, forked));
  }

  lemma SessionCallKeepsInStep(s: M.Screen, w: World, input: Input)
    requires w.sw.Registered() && InStep(s, w) && !input.call.OutputsChanged?
    ensures InStep(s, Step(w, input))
  {
  }

  lemma {:induction false} SystemStaysInStep(s: M.Screen, w: World, calls: seq<SystemCall>)
    requires w.sw.Registered() && InStep(s, w) && WellFormed(calls)
    ensures InStep(M.Run(s, ScreenCalls(calls)), Run(w, Inputs(s, calls)))
    ensures T.WithoutOutputChanges(Inputs(s, calls)) == SessionInputs(calls)
    decreases |calls|
  {
    if calls != [] {
      var inputs := Inputs(s, calls);
      match calls[0]
      case ScreenCall(c, pid, forked) =>
        var s' := M.Step(s, c);
        ScreenCallKeepsInStep(s, w, c, pid, forked);
        assert inputs[1..] == Inputs(s', calls[1..]);
        assert ScreenCalls(calls)[1..] == ScreenCalls(calls[1..]);
        SystemStaysInStep(s', Step(w, inputs[0]), calls[1..]);
      case SessionCall(input) =>
        SessionCallKeepsInStep(s, w, input);
        assert inputs[1..] == Inputs(s, calls[1..]);
        assert ScreenCalls(calls) == ScreenCalls(calls[1..]);
        SystemStaysInStep(s, Step(w, input), calls[1..]);
    }
  }

  /**
   Once booting is over, and whatever power calls, configuration changes and
   session calls follow one another: the display is dark exactly when no output
   is active, and otherwise shows what the session calls alone would have led to.
   */
  lemma DisplayFollowsPowerAndSessions(s: M.Screen, w: World, known: set<Session>, calls: seq<SystemCall>)
    requires Invariant(w, known) && !w.sw.booting && w.sw.outputs && InStep(s, w)
    requires WellFormed(calls) && Legal(w, known, Inputs(s, calls))
    ensures Run(w, Inputs(s, calls)).Displayed() ==
      if SomeOutputActive(M.Run(s, ScreenCalls(calls))) then Run(w, SessionInputs(calls)).Displayed() else []
  {
    SystemStaysInStep(s, w, calls);
    if SomeOutputActive(M.Run(s, ScreenCalls(calls))) {
      T.OutputChangesLeaveNoTrace(w, known, Inputs(s, calls));
    } else {
      RunKeepsInvariant(w, known, Inputs(s, calls));
    }
  }
}
