/**
 The switcher's fields read off the history of calls, without any stepping: the
 names last set, the sessions added and not removed or replaced since, and the
 sessions marked ready since they were added.
 */
module SwitcherHistory {
  import opened Histories
  import opened Scenes
  import opened Spinners
  import opened SwitcherModel
  import opened SwitcherPicture
  import opened SwitcherRuns
  import opened SwitcherTheorems

  /** The switcher after the first `n` calls. */
  function After(executable: string, inputs: seq<Input>, n: nat): Switcher
    requires n <= |inputs|
  {
    Run(Initial(executable), inputs[..n]).sw
  }

  lemma Advance(executable: string, inputs: seq<Input>, n: nat)
    requires n < |inputs|
    ensures var before := After(executable, inputs, n);
      After(executable, inputs, n + 1) ==
      Fields(before, inputs[n]).(booting := After(executable, inputs, n + 1).booting)
  {
    RunLast(Initial(executable), inputs, n);
    StepFields(Run(Initial(executable), inputs[..n]), inputs[n]);
  }

  // ---------------------------------------------------------------- names and outputs

  function Is(inputs: seq<Input>, call: Call): nat -> bool {
    (i: nat) => i < |inputs| && inputs[i].call == call
  }

  function SetsActive(inputs: seq<Input>): nat -> bool {
    (i: nat) => i < |inputs| && inputs[i].call.SetActive?
  }

  function SetsNext(inputs: seq<Input>): nat -> bool {
    (i: nat) => i < |inputs| && inputs[i].call.SetNext?
  }

  function ChangesOutputs(inputs: seq<Input>): nat -> bool {
    (i: nat) => i < |inputs| && inputs[i].call.OutputsChanged?
  }

  function ReportsNoOutput(inputs: seq<Input>): nat -> bool {
    (i: nat) => i < |inputs| && inputs[i].call.OutputsChanged? && inputs[i].call.internal + inputs[i].call.external == 0
  }

  lemma {:induction false} ActiveIsLastSet(executable: string, inputs: seq<Input>, n: nat, name: string)
    requires n <= |inputs| && name != ""
    ensures After(executable, inputs, n).active == name <==>
      Since(n, Is(inputs, SetActive(name)), SetsActive(inputs))
  {
    if n > 0 {
      ActiveIsLastSet(executable, inputs, n - 1, name);
      Advance(executable, inputs, n - 1);
      SinceNext(n - 1, Is(inputs, SetActive(name)), SetsActive(inputs));
    }
  }

  lemma {:induction false} NextIsLastSet(executable: string, inputs: seq<Input>, n: nat, name: string)
    requires n <= |inputs| && name != ""
    ensures After(executable, inputs, n).next == name <==>
      Since(n, Is(inputs, SetNext(name)), SetsNext(inputs))
  {
    if n > 0 {
      NextIsLastSet(executable, inputs, n - 1, name);
      Advance(executable, inputs, n - 1);
      SinceNext(n - 1, Is(inputs, SetNext(name)), SetsNext(inputs));
    }
  }

  lemma {:induction false} OutputsAreLastReported(executable: string, inputs: seq<Input>, n: nat)
    requires n <= |inputs|
    ensures !After(executable, inputs, n).outputs <==> Since(n, ReportsNoOutput(inputs), ChangesOutputs(inputs))
  {
    if n > 0 {
      OutputsAreLastReported(executable, inputs, n - 1);
      Advance(executable, inputs, n - 1);
      SinceNext(n - 1, ReportsNoOutput(inputs), ChangesOutputs(inputs));
    }
  }

  // ---------------------------------------------------------------- sessions

  function Adds(inputs: seq<Input>, s: Session): nat -> bool {
    (i: nat) => i < |inputs| && inputs[i].call.Add? && inputs[i].call.session == s
  }

  function Replaces(inputs: seq<Input>, name: string): nat -> bool {
    (i: nat) => i < |inputs| && inputs[i].call.Add? && inputs[i].call.session.name == name
  }

  /** The session is removed, or another one is added under its name. */
  function Ousts(inputs: seq<Input>, s: Session): nat -> bool {
    (i: nat) => i < |inputs| &&
      ((inputs[i].call.Add? && inputs[i].call.session.name == s.name) || inputs[i].call == Remove(s))
  }

  /** A session is tracked exactly since it was added, until it is removed or replaced under its name. */
  lemma {:induction false} TrackedSinceAdded(executable: string, inputs: seq<Input>, n: nat, s: Session)
    requires n <= |inputs|
    ensures Tracks(After(executable, inputs, n), s) <==> Since(n, Adds(inputs, s), Ousts(inputs, s))
  {
    if n > 0 {
      TrackedSinceAdded(executable, inputs, n - 1, s);
      Advance(executable, inputs, n - 1);
      SinceNext(n - 1, Adds(inputs, s), Ousts(inputs, s));
      TracksAfter(After(executable, inputs, n - 1), inputs[n - 1], s);
      assert After(executable, inputs, n).sessions == Fields(After(executable, inputs, n - 1), inputs[n - 1]).sessions;
    }
  }

  lemma TracksAfter(sw: Switcher, input: Input, s: Session)
    requires sw.Registered()
    ensures Tracks(Fields(sw, input), s) <==>
      || (input.call.Add? && input.call.session == s)
      || (Tracks(sw, s) && !(input.call.Add? && input.call.session.name == s.name) && input.call != Remove(s))
  {
  }

  /** A tracked session is ready exactly if it has been marked ready since its name was last added. */
  lemma {:induction false} ReadySinceMarked(executable: string, inputs: seq<Input>, n: nat, s: Session)
    requires n <= |inputs| && Tracks(After(executable, inputs, n), s)
    ensures After(executable, inputs, n).Ready(s.name) <==>
      Since(n, Is(inputs, MarkReady(s)), Replaces(inputs, s.name))
  {
    if n > 0 {
      var before, input := After(executable, inputs, n - 1), inputs[n - 1];
      Advance(executable, inputs, n - 1);
      SinceNext(n - 1, Is(inputs, MarkReady(s)), Replaces(inputs, s.name));
      TracksAfter(before, input, s);
      ReadyAfter(before, input, s);
      if !(input.call.Add? && input.call.session.name == s.name) {
        ReadySinceMarked(executable, inputs, n - 1, s);
      }
    }
  }

  lemma ReadyAfter(sw: Switcher, input: Input, s: Session)
    requires sw.Registered() && Tracks(Fields(sw, input), s)
    ensures Fields(sw, input).Ready(s.name) <==>
      if input.call.Add? && input.call.session.name == s.name then false
      else input.call == MarkReady(s) || sw.Ready(s.name)
  {
  }

  // ---------------------------------------------------------------- the spinner

  function AddsSpinner(inputs: seq<Input>, name: string): nat -> bool {
    (i: nat) => i < |inputs| && inputs[i].call.Add?
      && inputs[i].call.session.name == name && inputs[i].call.pid == inputs[i].spinnerPid
  }

  /** A session with the spinner's process id is added, or the session tracked under the name is removed. */
  ghost function EndsSpinner(inputs: seq<Input>, name: string): nat -> bool {
    (i: nat) => i < |inputs| &&
      match inputs[i].call
      case Add(_, pid) => pid == inputs[i].spinnerPid
      case Remove(s) => s.name == name && Since(i, Adds(inputs, s), Ousts(inputs, s))
      case _ => false
  }

  lemma SpinnerAfter(sw: Switcher, input: Input, name: string)
    requires name != ""
    ensures Fields(sw, input).spinner == name <==>
      match input.call
      case Add(s, pid) => if pid == input.spinnerPid then s.name == name else sw.spinner == name
      case Remove(s) => sw.spinner == name && !(s.name == name && Tracks(sw, s))
      case _ => sw.spinner == name
  {
  }

  /** The spinner's name is that of the last session added with the spinner's process id and not removed since. */
  lemma {:induction false} SpinnerIsLastAdded(executable: string, inputs: seq<Input>, n: nat, name: string)
    requires n <= |inputs| && name != ""
    ensures After(executable, inputs, n).spinner == name <==>
      Since(n, AddsSpinner(inputs, name), EndsSpinner(inputs, name))
  {
    if n > 0 {
      SpinnerIsLastAdded(executable, inputs, n - 1, name);
      Advance(executable, inputs, n - 1);
      SinceNext(n - 1, AddsSpinner(inputs, name), EndsSpinner(inputs, name));
      SpinnerAfter(After(executable, inputs, n - 1), inputs[n - 1], name);
      if inputs[n - 1].call.Remove? {
        TrackedSinceAdded(executable, inputs, n - 1, inputs[n - 1].call.session);
      }
    }
  }

  // ---------------------------------------------------------------- the display, from the history alone

  /** A session of this name is tracked and ready. */
  ghost predicate ReadyUnder(inputs: seq<Input>, n: nat, name: string) {
    exists s: Session :: s.name == name && TrackedAndReady(inputs, n, s)
  }

  ghost predicate TrackedAndReady(inputs: seq<Input>, n: nat, s: Session) {
    && Since(n, Adds(inputs, s), Ousts(inputs, s))
    && Since(n, Is(inputs, MarkReady(s)), Replaces(inputs, s.name))
  }

  ghost predicate MadeActive(inputs: seq<Input>, n: nat, name: string) {
    Since(n, Is(inputs, SetActive(name)), SetsActive(inputs))
  }

  ghost predicate MadeNext(inputs: seq<Input>, n: nat, name: string) {
    Since(n, Is(inputs, SetNext(name)), SetsNext(inputs))
  }

  ghost predicate OutputsPresent(inputs: seq<Input>, n: nat) {
    !Since(n, ReportsNoOutput(inputs), ChangesOutputs(inputs))
  }

  /** Outputs are present, the session made active is ready, and so is the one made next, if any was. */
  ghost predicate GateOpens(inputs: seq<Input>, n: nat) {
    && OutputsPresent(inputs, n)
    && (exists name :: name != "" && MadeActive(inputs, n, name) && ReadyUnder(inputs, n, name))
    && (forall name :: name != "" && MadeNext(inputs, n, name) ==> ReadyUnder(inputs, n, name))
  }

  ghost predicate Named(inputs: seq<Input>) {
    forall i :: 0 <= i < |inputs| && inputs[i].call.Add? ==> inputs[i].call.session.name != ""
  }

  lemma ReadyExactly(executable: string, inputs: seq<Input>, n: nat, name: string)
    requires n <= |inputs|
    ensures After(executable, inputs, n).Ready(name) <==> ReadyUnder(inputs, n, name)
  {
    var sw := After(executable, inputs, n);
    if name in sw.sessions {
      TrackedReadyExactly(executable, inputs, n, sw.At(name));
    }
    if ReadyUnder(inputs, n, name) {
      var s: Session :| s.name == name && TrackedAndReady(inputs, n, s);
      TrackedReadyExactly(executable, inputs, n, s);
    }
  }

  lemma {:induction false} NamelessUntracked(executable: string, inputs: seq<Input>, n: nat)
    requires n <= |inputs| && Named(inputs)
    ensures "" !in After(executable, inputs, n).sessions
  {
    if n > 0 {
      NamelessUntracked(executable, inputs, n - 1);
      Advance(executable, inputs, n - 1);
    }
  }

  lemma PresentableExactly(executable: string, inputs: seq<Input>, n: nat)
    requires n <= |inputs| && Named(inputs)
    ensures Presentable(After(executable, inputs, n)) <==> GateOpens(inputs, n)
  {
    var sw := After(executable, inputs, n);
    OutputsAreLastReported(executable, inputs, n);
    NamelessUntracked(executable, inputs, n);
    ReadyExactly(executable, inputs, n, sw.active);
    ReadyExactly(executable, inputs, n, sw.next);
    forall name | name != "" ensures sw.active == name <==> MadeActive(inputs, n, name) {
      ActiveIsLastSet(executable, inputs, n, name);
    }
    forall name | name != "" ensures sw.next == name <==> MadeNext(inputs, n, name) {
      NextIsLastSet(executable, inputs, n, name);
    }
  }

  /**
   Outputs are present, the session was the last made active, it is tracked and
   ready, and the gate has opened now or before.
   */
  ghost predicate DisplaysActive(inputs: seq<Input>, n: nat, s: Session) {
    && OutputsPresent(inputs, n) && MadeActive(inputs, n, s.name) && TrackedAndReady(inputs, n, s)
    && exists k: nat :: k <= n && GateOpens(inputs, k)
  }

  lemma LatchFollowsGate(executable: string, inputs: seq<Input>)
    requires Named(inputs)
    ensures var sw := Run(Initial(executable), inputs).sw;
      Gated(sw) && (!sw.booting <==> exists k: nat :: k <= |inputs| && GateOpens(inputs, k))
  {
    assert inputs[..|inputs|] == inputs;
    BootingHistory(executable, inputs, |inputs|);
    forall k: nat | k <= |inputs|
      ensures Presentable(Run(Initial(executable), inputs[..k]).sw) <==> GateOpens(inputs, k)
    {
      PresentableExactly(executable, inputs, k);
    }
  }

  /** The same, read off the switcher's state. */
  lemma DisplaysActiveExactly(executable: string, inputs: seq<Input>, s: Session)
    requires Named(inputs) && s.name != ""
    ensures var sw := Run(Initial(executable), inputs).sw;
      DisplaysActive(inputs, |inputs|, s) <==> sw.outputs && sw.active == s.name && Tracks(sw, s) && sw.ShowsActive()
  {
    var n, sw := |inputs|, Run(Initial(executable), inputs).sw;
    assert inputs[..n] == inputs;
    LatchFollowsGate(executable, inputs);
    OutputsAreLastReported(executable, inputs, n);
    ActiveIsLastSet(executable, inputs, n, s.name);
    TrackedReadyExactly(executable, inputs, n, s);
  }

  lemma ReachedState(executable: string, inputs: seq<Input>)
    requires Legal(Initial(executable), {}, inputs)
    ensures var w := Run(Initial(executable), inputs); w.Displayed() == Picture(w.sw) && Separate(w.sw)
  {
    InitialInvariant(executable);
    RunKeepsInvariant(Initial(executable), {}, inputs);
  }

  /**
   The promise of the switcher, from the calls alone: the active session is
   displayed exactly when it is ready, there is an output, and the gate has opened;
   and then it is on top.
   */
  lemma {:induction false} ActiveIsDisplayedExactly(executable: string, inputs: seq<Input>, s: Session)
    requires Legal(Initial(executable), {}, inputs) && Named(inputs) && s.name != ""
    ensures var w := Run(Initial(executable), inputs);
      && (w.sw.active == s.name && s in w.Displayed() <==> DisplaysActive(inputs, |inputs|, s))
      && (DisplaysActive(inputs, |inputs|, s) ==> w.Displayed() != [] && w.Displayed()[|w.Displayed()| - 1] == s)
  {
    ReachedState(executable, inputs);
    DisplaysActiveExactly(executable, inputs, s);
  }

  /** The next session is displayed exactly when it is ready and some active session is displayed. */
  lemma {:induction false} NextIsDisplayedExactly(executable: string, inputs: seq<Input>, s: Session)
    requires Legal(Initial(executable), {}, inputs) && Named(inputs) && s.name != ""
    ensures var n, w := |inputs|, Run(Initial(executable), inputs);
      w.sw.next == s.name && s in w.Displayed() <==>
      && MadeNext(inputs, n, s.name) && TrackedAndReady(inputs, n, s)
      && DisplaysSome(inputs, n)
  {
    var n, w := |inputs|, Run(Initial(executable), inputs);
    assert inputs[..n] == inputs;
    ReachedState(executable, inputs);
    NextInPicture(w.sw, s);
    SomeActiveDisplayed(executable, inputs);
    NextIsLastSet(executable, inputs, n, s.name);
    TrackedReadyExactly(executable, inputs, n, s);
  }

  lemma TrackedReadyExactly(executable: string, inputs: seq<Input>, n: nat, s: Session)
    requires n <= |inputs|
    ensures var sw := After(executable, inputs, n);
      TrackedAndReady(inputs, n, s) <==> Tracks(sw, s) && sw.Ready(s.name)
  {
    TrackedSinceAdded(executable, inputs, n, s);
    if Tracks(After(executable, inputs, n), s) {
      ReadySinceMarked(executable, inputs, n, s);
    }
  }

  lemma NextInPicture(sw: Switcher, s: Session)
    requires sw.Registered() && Separate(sw)
    ensures sw.next == s.name && s.name != "" ==>
      (s in Picture(sw) <==> sw.outputs && sw.ShowsActive() && Tracks(sw, s) && sw.Ready(s.name))
  {
  }

  lemma SomeActiveDisplayed(executable: string, inputs: seq<Input>)
    requires Named(inputs)
    ensures var sw := Run(Initial(executable), inputs).sw;
      sw.outputs && sw.ShowsActive() <==> DisplaysSome(inputs, |inputs|)
  {
    var sw := Run(Initial(executable), inputs).sw;
    assert inputs[..|inputs|] == inputs;
    NamelessUntracked(executable, inputs, |inputs|);
    forall a: Session | a.name != ""
      ensures DisplaysActive(inputs, |inputs|, a) <==>
        sw.outputs && sw.active == a.name && Tracks(sw, a) && sw.ShowsActive()
    {
      DisplaysActiveExactly(executable, inputs, a);
    }
    if sw.ShowsActive() {
      assert Tracks(sw, sw.At(sw.active));
    }
  }

  /**
   The spinner's session is displayed exactly when there is an output and some
   session is awaited: the active one, while none is displayed, or else the next one.
   */
  lemma {:induction false} SpinnerIsDisplayedExactly(executable: string, inputs: seq<Input>, s: Session)
    requires Legal(Initial(executable), {}, inputs) && Named(inputs)
    requires var sw := Run(Initial(executable), inputs).sw; Tracks(sw, s) && sw.spinner == s.name
    ensures var n := |inputs|;
      s in Run(Initial(executable), inputs).Displayed() <==> OutputsPresent(inputs, n) && Awaits(inputs, n)
  {
    var n, sw := |inputs|, Run(Initial(executable), inputs).sw;
    assert inputs[..n] == inputs;
    ReachedState(executable, inputs);
    SpinnerInPicture(sw, s);
    OutputsAreLastReported(executable, inputs, n);
    AwaitsExactly(executable, inputs);
  }

  /** Some session is awaited: the active one, while none is displayed, or else the next one. */
  ghost predicate Awaits(inputs: seq<Input>, n: nat) {
    if DisplaysSome(inputs, n) then AwaitsNext(inputs, n) else NamesActive(inputs, n)
  }

  ghost predicate DisplaysSome(inputs: seq<Input>, n: nat) {
    exists a: Session :: a.name != "" && DisplaysActive(inputs, n, a)
  }

  ghost predicate AwaitsNext(inputs: seq<Input>, n: nat) {
    exists name :: name != "" && MadeNext(inputs, n, name) && !ReadyUnder(inputs, n, name)
  }

  ghost predicate NamesActive(inputs: seq<Input>, n: nat) {
    exists name :: name != "" && MadeActive(inputs, n, name)
  }

  lemma AwaitsExactly(executable: string, inputs: seq<Input>)
    requires Named(inputs)
    ensures var sw := Run(Initial(executable), inputs).sw;
      sw.outputs ==> (Awaits(inputs, |inputs|) <==>
        if sw.ShowsActive() then sw.next != "" && !sw.Ready(sw.next) else sw.active != "")
  {
    var n := |inputs|;
    assert inputs[..n] == inputs;
    SomeActiveDisplayed(executable, inputs);
    SomeActiveSet(executable, inputs, n);
    SomeNextAwaited(executable, inputs, n);
  }

  lemma SpinnerInPicture(sw: Switcher, s: Session)
    requires sw.Registered() && Separate(sw) && Tracks(sw, s) && sw.spinner == s.name
    ensures s in Picture(sw) <==>
      sw.outputs && if sw.ShowsActive() then sw.next != "" && !sw.Ready(sw.next) else sw.active != ""
  {
  }

  lemma SomeActiveSet(executable: string, inputs: seq<Input>, n: nat)
    requires n <= |inputs|
    ensures After(executable, inputs, n).active != "" <==> NamesActive(inputs, n)
  {
    var active := After(executable, inputs, n).active;
    forall name | name != "" ensures active == name <==> MadeActive(inputs, n, name) {
      ActiveIsLastSet(executable, inputs, n, name);
    }
    assert active != "" ==> MadeActive(inputs, n, active);
  }

  lemma SomeNextAwaited(executable: string, inputs: seq<Input>, n: nat)
    requires n <= |inputs|
    ensures var sw := After(executable, inputs, n);
      sw.next != "" && !sw.Ready(sw.next) <==> AwaitsNext(inputs, n)
  {
    var next := After(executable, inputs, n).next;
    ReadyExactly(executable, inputs, n, next);
    forall name | name != "" ensures next == name <==> MadeNext(inputs, n, name) {
      NextIsLastSet(executable, inputs, n, name);
    }
    assert next != "" ==> MadeNext(inputs, n, next);
  }

  // ---------------------------------------------------------------- the spinner process, from the history

  /** The call reaches an update: it is none of the scene's own, and no removal of an untracked session. */
  ghost predicate CausesUpdate(inputs: seq<Input>, n: nat)
    requires n < |inputs|
  {
    match inputs[n].call
    case Appear(_) => false
    case Vanish(_) => false
    case Remove(s) => Since(n, Adds(inputs, s), Ousts(inputs, s))
    case _ => true
  }

  /** Some tracked session answers to the spinner's name. */
  ghost predicate SpinnerTracked(inputs: seq<Input>, n: nat) {
    exists s: Session :: s.name != ""
      && Since(n, Adds(inputs, s), Ousts(inputs, s))
      && Since(n, AddsSpinner(inputs, s.name), EndsSpinner(inputs, s.name))
  }

  lemma SpinnerTrackedExactly(executable: string, inputs: seq<Input>, n: nat)
    requires n <= |inputs| && Named(inputs)
    ensures var sw := After(executable, inputs, n); sw.spinner in sw.sessions <==> SpinnerTracked(inputs, n)
  {
    var sw := After(executable, inputs, n);
    NamelessUntracked(executable, inputs, n);
    forall s: Session | s.name != ""
      ensures Tracks(sw, s) && sw.spinner == s.name <==>
        Since(n, Adds(inputs, s), Ousts(inputs, s))
        && Since(n, AddsSpinner(inputs, s.name), EndsSpinner(inputs, s.name))
    {
      TrackedSinceAdded(executable, inputs, n, s);
      SpinnerIsLastAdded(executable, inputs, n, s.name);
    }
    if sw.spinner in sw.sessions {
      assert Tracks(sw, sw.At(sw.spinner));
    }
  }

  /** What one call does to the process: nothing, unless it ends in an update with outputs on. */
  lemma StepProcess(w: World, input: Input)
    requires w.sw.Registered()
    ensures var after := Step(w, input);
      var acts := EndsInUpdate(w.sw, input.call) && after.sw.outputs;
      var awaits := if after.sw.ShowsActive() then after.sw.next != "" && !after.sw.Ready(after.sw.next)
                    else after.sw.active != "";
      var forks := acts && awaits && after.sw.spinner !in after.sw.sessions
        && w.proc.pid == 0 && w.proc.executable != "";
      var ends := acts && !awaits && w.proc.pid != 0;
      after.proc == Spinner(
        w.proc.executable,
        if forks then input.forked else if ends then 0 else w.proc.pid,
        w.proc.forks + if forks then 1 else 0,
        w.proc.terms + if ends then 1 else 0)
  {
    FieldsRegistered(w.sw, input);
    UpdateBounds(Prepared(w, input), input.forked);
  }

  lemma {:induction false} ExecutableStays(executable: string, inputs: seq<Input>, n: nat)
    requires n <= |inputs|
    ensures Run(Initial(executable), inputs[..n]).proc.executable == executable
  {
    if n > 0 {
      ExecutableStays(executable, inputs, n - 1);
      RunLast(Initial(executable), inputs, n - 1);
      StepProcess(Run(Initial(executable), inputs[..n - 1]), inputs[n - 1]);
    }
  }

  /**
   When a process is forked and when it is told to terminate, from the calls
   alone but for whether one is held: forked if outputs are present, a session is
   awaited, no spinner's session is tracked, none is held and there is an
   executable; terminated if outputs are present, none is awaited and one is held.
   */
  lemma {:induction false} ProcessFollowsHistory(executable: string, inputs: seq<Input>)
    requires inputs != [] && Named(inputs)
    ensures var n := |inputs|;
      var before, after := Run(Initial(executable), inputs[..n - 1]).proc, Run(Initial(executable), inputs).proc;
      var acts := CausesUpdate(inputs, n - 1) && OutputsPresent(inputs, n);
      var forks := acts && Awaits(inputs, n) && !SpinnerTracked(inputs, n) && before.pid == 0 && executable != "";
      var ends := acts && !Awaits(inputs, n) && before.pid != 0;
      && after.forks == before.forks + (if forks then 1 else 0)
      && after.terms == before.terms + (if ends then 1 else 0)
      && after.pid == if forks then inputs[n - 1].forked else if ends then 0 else before.pid
  {
    var n := |inputs|;
    var w := Run(Initial(executable), inputs[..n - 1]);
    assert inputs[..n] == inputs;
    RunLast(Initial(executable), inputs, n - 1);
    StepProcess(w, inputs[n - 1]);
    ExecutableStays(executable, inputs, n - 1);
    OutputsAreLastReported(executable, inputs, n);
    AwaitsExactly(executable, inputs);
    SpinnerTrackedExactly(executable, inputs, n);
    if inputs[n - 1].call.Remove? {
      TrackedSinceAdded(executable, inputs, n - 1, inputs[n - 1].call.session);
    }
  }

  /** Without an executable no process is ever forked. */
  lemma {:induction false} NothingToFork(inputs: seq<Input>, n: nat)
    requires n <= |inputs|
    ensures Run(Initial(""), inputs[..n]).proc == Spinner("", 0, 0, 0)
  {
    if n > 0 {
      NothingToFork(inputs, n - 1);
      RunLast(Initial(""), inputs, n - 1);
      StepProcess(Run(Initial(""), inputs[..n - 1]), inputs[n - 1]);
    }
  }
}
