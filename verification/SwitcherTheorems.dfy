/** Consequences of the picture invariant for whole runs of the session switcher. */
module SwitcherTheorems {
  import opened Scenes
  import opened SwitcherModel
  import opened SwitcherPicture
  import opened SwitcherRuns

  lemma {:induction false} RunSplit(w: World, first: seq<Input>, rest: seq<Input>)
    requires w.sw.Registered()
    ensures Run(w, first + rest) == Run(Run(w, first), rest)
    decreases |first|
  {
    if first == [] {
      assert first + rest == rest;
    } else {
      assert (first + rest)[1..] == first[1..] + rest;
      RunSplit(Step(w, first[0]), first[1..], rest);
    }
  }

  lemma RunLast(w: World, inputs: seq<Input>, n: nat)
    requires w.sw.Registered() && n < |inputs|
    ensures Run(w, inputs[..n + 1]) == Step(Run(w, inputs[..n]), inputs[n])
  {
    assert inputs[..n + 1] == inputs[..n] + [inputs[n]];
    RunSplit(w, inputs[..n], [inputs[n]]);
  }

  // ---------------------------------------------------------------- the boot gate

  /** The active session is ready, and the next one is ready or unset. */
  predicate Complete(sw: Switcher) {
    sw.Ready(sw.active) && (sw.Ready(sw.next) || sw.next == "")
  }

  /** Complete, and outputs are on. */
  predicate Presentable(sw: Switcher) {
    sw.outputs && Complete(sw)
  }

  lemma StepBooting(w: World, input: Input)
    requires w.sw.Registered()
    requires w.sw.booting ==> !Presentable(w.sw)
    ensures var after := Step(w, input).sw; after.booting <==> w.sw.booting && !Presentable(after)
  {
    StepFields(w, input);
  }

  lemma {:induction false} BootingHistory(executable: string, inputs: seq<Input>, n: nat)
    requires n <= |inputs|
    ensures var sw := Run(Initial(executable), inputs[..n]).sw;
      && (sw.booting ==> !Presentable(sw))
      && (sw.booting <==> forall k: nat :: k <= n ==> !Presentable(Run(Initial(executable), inputs[..k]).sw))
  {
    if n > 0 {
      BootingHistory(executable, inputs, n - 1);
      RunLast(Initial(executable), inputs, n - 1);
      StepBooting(Run(Initial(executable), inputs[..n - 1]), inputs[n - 1]);
    }
  }

  /** The boot latch is down exactly when some state of the run so far was presentable. */
  lemma BootGate(executable: string, inputs: seq<Input>)
    ensures Run(Initial(executable), inputs).sw.booting <==>
      forall k: nat :: k <= |inputs| ==> !Presentable(Run(Initial(executable), inputs[..k]).sw)
  {
    BootingHistory(executable, inputs, |inputs|);
    assert inputs[..|inputs|] == inputs;
  }

  /** Booting never comes back, from any state whatever. */
  lemma {:induction false} BootingNeverReturns(w: World, inputs: seq<Input>)
    requires w.sw.Registered() && !w.sw.booting
    ensures !Run(w, inputs).sw.booting
    decreases |inputs|
  {
    if inputs != [] {
      BootingNeverReturns(Step(w, inputs[0]), inputs[1..]);
    }
  }

  /** While booting, the spinner is the only session on display. */
  lemma OnlySpinnerWhileBooting(executable: string, inputs: seq<Input>)
    requires Legal(Initial(executable), {}, inputs)
    requires Run(Initial(executable), inputs).sw.booting
    ensures var w := Run(Initial(executable), inputs);
      w.Displayed() == [] || (w.sw.spinner in w.sw.sessions && w.Displayed() == [w.sw.At(w.sw.spinner)])
  {
    var w := Run(Initial(executable), inputs);
    PictureInEveryReachableState(executable, inputs);
    BootingHistory(executable, inputs, |inputs|);
    assert inputs[..|inputs|] == inputs;
  }

  // ---------------------------------------------------------------- output changes

  function WithoutOutputChanges(inputs: seq<Input>): seq<Input>
    decreases |inputs|
  {
    if inputs == [] then []
    else (if inputs[0].call.OutputsChanged? then [] else [inputs[0]]) + WithoutOutputChanges(inputs[1..])
  }

  /**
   `b` has seen the same calls as `a`, but its outputs stayed on throughout, so
   that its boot latch may have fallen earlier.
   */
  ghost predicate Twins(a: World, b: World) {
    && b.sw == a.sw.(outputs := true, booting := b.sw.booting)
    && (b.sw.booting ==> a.sw.booting)
    && Elements(a.scene.order) == Elements(b.scene.order)
  }

  lemma TwinStep(a: World, b: World, known: set<Session>, input: Input)
    requires Invariant(a, known) && Invariant(b, known) && Twins(a, b)
    requires Gated(b.sw)
    requires Admissible(a, known, input.call) && Separate(Step(a, input).sw)
    ensures input.call.OutputsChanged? ==> Twins(Step(a, input), b)
    ensures !input.call.OutputsChanged? ==>
      && Twins(Step(a, input), Step(b, input))
      && Admissible(b, known, input.call)
      && Separate(Step(b, input).sw)
      && Gated(Step(b, input).sw)
  {
    StepOrder(a, known, input);
    StepFields(a, input);
    if !input.call.OutputsChanged? {
      assert b.sw.Tracked() == a.sw.Tracked();
      assert input.call.Add? && input.call.session in a.scene.order ==> input.call.session in Elements(b.scene.order);
      StepOrder(b, known, input);
      StepFields(b, input);
    }
  }

  /** A latch that is still up has never seen a presentable state. */
  predicate Gated(sw: Switcher) {
    sw.booting ==> !Presentable(sw)
  }

  /** Which sessions the scene holds after a step, whatever their order. */
  lemma StepOrder(w: World, known: set<Session>, input: Input)
    requires Invariant(w, known) && Admissible(w, known, input.call)
    ensures Elements(Step(w, input).scene.order) ==
      match input.call
      case Appear(s) => Elements(w.scene.order) + {s}
      case Vanish(s) => Elements(w.scene.order) - {s}
      case _ => Elements(w.scene.order)
  {
    if input.call.Vanish? {
      WithoutMembers(w.scene.order, input.call.session);
    } else if EndsInUpdate(w.sw, input.call) {
      FieldsTracked(w, input);
      UpdateStacked(Prepared(w, input), input.forked);
    }
  }

  lemma FieldsTracked(w: World, input: Input)
    requires w.sw.Registered()
    ensures Fields(w.sw, input).Registered()
    ensures Fields(w.sw, input).Tracked() <=
      w.sw.Tracked() + if input.call.Add? then {input.call.session} else {}
  {
  }

  lemma StepFields(w: World, input: Input)
    requires w.sw.Registered()
    ensures Step(w, input).sw == Fields(w.sw, input).(booting := Step(w, input).sw.booting)
    ensures Step(w, input).sw.booting <==>
      w.sw.booting && !(EndsInUpdate(w.sw, input.call) && Presentable(Step(w, input).sw))
  {
    FieldsRegistered(w.sw, input);
    UpdateBounds(Prepared(w, input), input.forked);
  }

  lemma {:induction false} TwinRuns(a: World, b: World, known: set<Session>, inputs: seq<Input>)
    requires Invariant(a, known) && Invariant(b, known) && Twins(a, b) && Gated(b.sw)
    requires Legal(a, known, inputs)
    ensures var b' := Run(b, WithoutOutputChanges(inputs));
      Twins(Run(a, inputs), b') && Invariant(b', KnownAfter(known, inputs))
    decreases |inputs|
  {
    if inputs != [] {
      var input, rest := inputs[0], inputs[1..];
      TwinStep(a, b, known, input);
      StepKeepsInvariant(a, known, input);
      if input.call.OutputsChanged? {
        assert WithoutOutputChanges(inputs) == WithoutOutputChanges(rest);
        TwinRuns(Step(a, input), b, known, rest);
      } else {
        StepKeepsInvariant(b, known, input);
        TwinRuns(Step(a, input), Step(b, input), Knows(known, input.call), rest);
        assert WithoutOutputChanges(inputs)[1..] == WithoutOutputChanges(rest);
      }
    }
  }

  /** Whether the latch of the run without output changes is up, told by the states of the run with them. */
  lemma {:induction false} BrightLatch(a: World, b: World, known: set<Session>, inputs: seq<Input>)
    requires Invariant(a, known) && Invariant(b, known) && Twins(a, b) && Gated(b.sw)
    requires Legal(a, known, inputs)
    ensures Run(b, WithoutOutputChanges(inputs)).sw.booting <==>
      b.sw.booting && forall k: nat :: k <= |inputs| ==> !Complete(Run(a, inputs[..k]).sw)
    decreases |inputs|
  {
    assert inputs[..0] == [];
    if inputs != [] {
      var input, rest, after := inputs[0], inputs[1..], Step(a, inputs[0]);
      TwinStep(a, b, known, input);
      StepKeepsInvariant(a, known, input);
      LaterStates(a, inputs);
      assert rest[..0] == [];
      if input.call.OutputsChanged? {
        assert WithoutOutputChanges(inputs) == WithoutOutputChanges(rest);
        BrightLatch(after, b, known, rest);
      } else {
        StepKeepsInvariant(b, known, input);
        StepBooting(b, input);
        BrightLatch(after, Step(b, input), Knows(known, input.call), rest);
        assert WithoutOutputChanges(inputs)[1..] == WithoutOutputChanges(rest);
      }
    }
  }

  lemma LaterStates(w: World, inputs: seq<Input>)
    requires w.sw.Registered() && inputs != []
    ensures (forall k: nat :: k <= |inputs| ==> !Complete(Run(w, inputs[..k]).sw)) <==>
      !Complete(w.sw) && forall k: nat :: k < |inputs| ==> !Complete(Run(Step(w, inputs[0]), inputs[1..][..k]).sw)
  {
    assert inputs[..0] == [];
    forall k: nat | k < |inputs| ensures Run(w, inputs[..k + 1]) == Run(Step(w, inputs[0]), inputs[1..][..k]) {
      assert inputs[..k + 1][1..] == inputs[1..][..k];
    }
    if forall k: nat :: k <= |inputs| ==> !Complete(Run(w, inputs[..k]).sw) {
      forall k: nat | k < |inputs| ensures !Complete(Run(Step(w, inputs[0]), inputs[1..][..k]).sw) {
        assert !Complete(Run(w, inputs[..k + 1]).sw);
      }
    } else {
      var k: nat :| k <= |inputs| && Complete(Run(w, inputs[..k]).sw);
      assert k > 0 ==> Run(w, inputs[..k - 1 + 1]) == Run(Step(w, inputs[0]), inputs[1..][..k - 1]);
    }
  }

  /** A ready active session that only the boot latch keeps off the display. */
  predicate HeldBack(sw: Switcher) {
    sw.booting && sw.Ready(sw.active) && sw.Expected(sw.next) && !sw.Ready(sw.next)
  }

  /** At the start of the run or after some call, the active session could have been shown, outputs or not. */
  ghost predicate WasComplete(w: World, inputs: seq<Input>)
    requires w.sw.Registered()
  {
    exists k: nat :: k <= |inputs| && Complete(Run(w, inputs[..k]).sw)
  }

  lemma TwinPictures(a: Switcher, b: Switcher)
    requires a.Registered() && a.outputs && Separate(a)
    requires b == a.(booting := b.booting) && (b.booting ==> a.booting)
    ensures Picture(a) == Picture(b) <==> !(HeldBack(a) && !b.booting)
  {
  }

  /**
   Delete every output change from a run that starts and ends with outputs on.
   The displayed list at the end is the same, unless the boot latch holds back the
   active session now although the run has been through a state that was complete.
   */
  lemma OutputChangesLeaveATraceExactly(w: World, known: set<Session>, inputs: seq<Input>)
    requires Invariant(w, known) && w.sw.outputs && Gated(w.sw)
    requires Legal(w, known, inputs)
    requires Run(w, inputs).sw.outputs
    ensures Run(w, inputs).Displayed() == Run(w, WithoutOutputChanges(inputs)).Displayed() <==>
      !(HeldBack(Run(w, inputs).sw) && WasComplete(w, inputs))
  {
    var a, b := Run(w, inputs), Run(w, WithoutOutputChanges(inputs));
    RunKeepsInvariant(w, known, inputs);
    TwinRuns(w, w, known, inputs);
    TwinPictures(a.sw, b.sw);
    BrightLatch(w, w, known, inputs);
    if !w.sw.booting {
      BootingNeverReturns(w, inputs);
    }
  }

  /** Once booting is over, output changes anywhere in a run cannot be seen at its end. */
  lemma {:induction false} OutputChangesLeaveNoTrace(w: World, known: set<Session>, inputs: seq<Input>)
    requires Invariant(w, known) && !w.sw.booting && w.sw.outputs
    requires Legal(w, known, inputs)
    requires Run(w, inputs).sw.outputs
    ensures Run(w, inputs).Displayed() == Run(w, WithoutOutputChanges(inputs)).Displayed()
  {
    BootingNeverReturns(w, inputs);
    OutputChangesLeaveATraceExactly(w, known, inputs);
  }

  /** Updating twice is updating once: switcher, scene and spinner process are all left as they were. */
  lemma UpdateTwice(w: World, forked: int, again: int)
    requires w.sw.Registered() && forked != 0
    ensures Update(Update(w, forked), again) == Update(w, forked)
  {
    var u := Update(w, forked);
    UpdateBounds(w, forked);
    UpdateBounds(u, again);
    UpdateTwiceOrders(w, forked, again);
    UpdateTwiceShows(w, forked, again);
    assert Update(u, again).sw == u.sw;
    assert Update(u, again).proc == u.proc;
  }

  lemma UpdateTwiceOrders(w: World, forked: int, again: int)
    requires w.sw.Registered()
    ensures Update(Update(w, forked), again).scene.order == Update(w, forked).scene.order
  {
    var u := Update(w, forked);
    UpdateBounds(w, forked);
    UpdateOrder(w, forked);
    UpdateOrder(u, again);
    assert OnTop(u.sw) == OnTop(w.sw);
    if OnTop(w.sw).Some? {
      RaisedAgain(w.scene.order, OnTop(w.sw).value);
    }
  }

  lemma UpdateTwiceShows(w: World, forked: int, again: int)
    requires w.sw.Registered()
    ensures Update(Update(w, forked), again).scene.shown == Update(w, forked).scene.shown
  {
    var u := Update(w, forked);
    UpdateBounds(w, forked);
    forall s ensures s in Update(u, again).scene.shown <==> s in u.scene.shown {
      if s !in w.sw.Tracked() {
        UpdateLeavesUntracked(w, forked, s);
        UpdateLeavesUntracked(u, again, s);
      } else if w.sw.outputs {
        UpdateShown(w, forked, s);
        UpdateShown(u, again, s);
        assert Untouched(u.sw, s.name) == Untouched(w.sw, s.name);
      }
    }
  }

  /** An update of a world at rest changes nothing displayed. */
  lemma UpdateAtRestShowsTheSame(w: World, known: set<Session>, forked: int)
    requires Invariant(w, known) && Gated(w.sw)
    ensures Update(w, forked).Displayed() == w.Displayed()
  {
    NamesKeepInvariant(w, known, w.sw);
    UpdateDisplays(w, known, forked);
    UpdateBounds(w, forked);
  }

  // ---------------------------------------------------------------- the registry

  lemma {:induction false} UntrackedStaysUntracked(w: World, s: Session, inputs: seq<Input>)
    requires w.sw.Registered() && s !in w.sw.Tracked()
    requires forall k :: 0 <= k < |inputs| && inputs[k].call.Add? ==> inputs[k].call.session != s
    ensures s !in Run(w, inputs).sw.Tracked()
    decreases |inputs|
  {
    if inputs != [] {
      FieldsTracked(w, inputs[0]);
      StepFields(w, inputs[0]);
      assert Step(w, inputs[0]).sw.Tracked() == Fields(w.sw, inputs[0]).Tracked();
      UntrackedStaysUntracked(Step(w, inputs[0]), s, inputs[1..]);
    }
  }

  /**
   Once a session has been replaced under its name, removing the old object
   changes nothing, however much later the removal comes.
   */
  lemma {:induction false} StaleRemovalIsInert(
    w: World, replaced: Session, replacing: Input, inputs: seq<Input>, removal: Input)
    requires w.sw.Registered()
    requires replacing.call.Add? && replacing.call.session.name == replaced.name && replacing.call.session != replaced
    requires forall k :: 0 <= k < |inputs| && inputs[k].call.Add? ==> inputs[k].call.session != replaced
    requires removal.call == Remove(replaced)
    ensures Run(w, [replacing] + inputs + [removal]) == Run(w, [replacing] + inputs)
  {
    var w1 := Step(w, replacing);
    var s := replacing.call.session;
    TrackedAfterAdd(w.sw, s, replacing.call.pid == replacing.spinnerPid);
    StepFields(w, replacing);
    assert w1.sw.Tracked() == Fields(w.sw, replacing).Tracked();
    UntrackedStaysUntracked(w1, replaced, inputs);
    RunSplit(w, [replacing], inputs);
    RunSplit(w, [replacing] + inputs, [removal]);
    TrackedMembers(Run(w1, inputs).sw, replaced);
  }

  // ---------------------------------------------------------------- the spinner process

  /**
   With outputs on, no process is held when no spinner is wanted, and one is
   held when a spinner is wanted, has no session yet and can be executed.
   */
  predicate ProcessFollowsNeed(w: World) {
    w.sw.outputs ==>
      && (!w.sw.WantsSpinner() ==> w.proc.pid == 0)
      && (w.sw.WantsSpinner() && w.sw.spinner !in w.sw.sessions && w.proc.executable != "" ==> w.proc.pid != 0)
  }

  lemma UpdateProcess(w: World, forked: int)
    requires w.sw.Registered() && forked > 0
    ensures ProcessFollowsNeed(Update(w, forked))
    ensures w.proc.Balanced() ==> Update(w, forked).proc.Balanced()
  {
    UpdateBounds(w, forked);
  }

  /** In every reachable state the process held is the one needed, and no other is left running. */
  lemma {:induction false} SpinnerProcessIsAccountedFor(w: World, inputs: seq<Input>)
    requires w.sw.Registered() && ProcessFollowsNeed(w) && w.proc.Balanced()
    requires forall k :: 0 <= k < |inputs| ==> inputs[k].forked > 0
    ensures ProcessFollowsNeed(Run(w, inputs)) && Run(w, inputs).proc.Balanced()
    decreases |inputs|
  {
    if inputs != [] {
      FieldsRegistered(w.sw, inputs[0]);
      UpdateProcess(Prepared(w, inputs[0]), inputs[0].forked);
      SpinnerProcessIsAccountedFor(Step(w, inputs[0]), inputs[1..]);
    }
  }
}
