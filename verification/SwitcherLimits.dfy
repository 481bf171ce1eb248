/** Concrete runs that show the conditions of the switcher's theorems to be needed. */
module SwitcherLimits {
  import opened Options
  import opened Scenes
  import opened SwitcherModel
  import opened SwitcherPicture
  import opened SwitcherRuns
  import opened SwitcherTheorems
  import opened SwitcherLingering

  // ---------------------------------------------------------------- a spinner that is also next

  /** Naming the spinner's session as the next one, and then clearing the active name. */
  function SpinnerNamedNext(spinner: Session): seq<Input> {
    [Input(Appear(spinner), 7, 8), Input(Add(spinner, 7), 7, 8), Input(SetActive("greeter"), 7, 8),
     Input(SetNext(spinner.name), 7, 8), Input(SetActive(""), 7, 8)]
  }

  /** The spinner's session alone is tracked, and stands alone in the scene. */
  ghost predicate LoneSpinner(w: World, spinner: Session, active: string, next: string, visible: bool) {
    && w.sw == Switcher(map[spinner.name := SessionInfo(Some(spinner), false)], active, next, spinner.name, true, true)
    && w.scene == Scene([spinner], if visible then {spinner} else {})
  }

  lemma LoneSpinnerAdded(spinner: Session)
    ensures var w := Step(Initial("spinner"), Input(Appear(spinner), 7, 8));
      LoneSpinner(Step(w, Input(Add(spinner, 7), 7, 8)), spinner, "", "", false)
  {
  }

  lemma LoneSpinnerStep(w: World, spinner: Session, active: string, next: string, visible: bool, input: Input)
    requires spinner.name != "" && active != spinner.name && LoneSpinner(w, spinner, active, next, visible)
    requires input.call == SetActive("greeter") || input.call == SetNext(spinner.name) || input.call == SetActive("")
    ensures var sw := Fields(w.sw, input);
      sw.active != spinner.name ==>
        LoneSpinner(Step(w, input), spinner, sw.active, sw.next,
                    sw.active != "" || (visible && sw.next == spinner.name))
  {
    assert Without([spinner], spinner) == [];
    TrackedMembers(w.sw, spinner);
    assert w.sw.Tracked() == {spinner};
  }

  /** The condition on the spinner's name is needed: otherwise the spinner may stay on display. */
  lemma SpinnerNamedNextLingers(spinner: Session)
    requires spinner.name != "" && spinner.name != "greeter"
    ensures Orderly(Initial("spinner"), {}, SpinnerNamedNext(spinner))
    ensures var w := Run(Initial("spinner"), SpinnerNamedNext(spinner));
      w.Displayed() == [spinner] && Picture(w.sw) == []
  {
    var i := SpinnerNamedNext(spinner);
    SpinnerNamedNextIsOrderly(spinner, i);
    var w2 := Step(Step(Initial("spinner"), i[0]), i[1]);
    LoneSpinnerAdded(spinner);
    LoneSpinnerRenamed(w2, spinner, i[2], i[3], i[4]);
    RunFive(Initial("spinner"), i[0], i[1], i[2], i[3], i[4]);
    LoneSpinnerDisplayed(Step(Step(Step(w2, i[2]), i[3]), i[4]), spinner);
  }

  lemma SpinnerNamedNextIsOrderly(spinner: Session, i: seq<Input>)
    requires i == SpinnerNamedNext(spinner)
    ensures Orderly(Initial("spinner"), {}, i)
  {
    var w := Initial("spinner");
    var w1 := Step(w, i[0]);
    NamesAreOrderly(Step(w1, i[1]), {spinner}, i[2..]);
    assert i[1..][1..] == i[2..];
    assert {spinner} == {} + {spinner};
    assert Orderly(w1, {}, i[1..]);
  }

  lemma {:induction false} NamesAreOrderly(w: World, known: set<Session>, inputs: seq<Input>)
    requires w.sw.Registered()
    requires forall k :: 0 <= k < |inputs| ==> inputs[k].call.SetActive? || inputs[k].call.SetNext?
    ensures Orderly(w, known, inputs)
    decreases |inputs|
  {
    if inputs != [] {
      NamesAreOrderly(Step(w, inputs[0]), known, inputs[1..]);
    }
  }

  lemma LoneSpinnerRenamed(w: World, spinner: Session, a: Input, b: Input, c: Input)
    requires spinner.name != "" && spinner.name != "greeter" && LoneSpinner(w, spinner, "", "", false)
    requires a.call == SetActive("greeter") && b.call == SetNext(spinner.name) && c.call == SetActive("")
    ensures LoneSpinner(Step(Step(Step(w, a), b), c), spinner, "", spinner.name, true)
  {
    LoneSpinnerStep(w, spinner, "", "", false, a);
    LoneSpinnerStep(Step(w, a), spinner, "greeter", "", true, b);
    LoneSpinnerStep(Step(Step(w, a), b), spinner, "greeter", spinner.name, true, c);
  }

  lemma LoneSpinnerDisplayed(w: World, spinner: Session)
    requires LoneSpinner(w, spinner, "", spinner.name, true)
    ensures w.Displayed() == [spinner] && Picture(w.sw) == []
  {
    TrackedMembers(w.sw, spinner);
    assert w.scene.shown * w.sw.Tracked() == {spinner};
    OnlyOne(w.scene.order, spinner);
  }

  lemma RunOneMore(w: World, input: Input, rest: seq<Input>)
    requires w.sw.Registered()
    ensures Run(w, [input] + rest) == Run(Step(w, input), rest)
  {
  }

  lemma RunTwo(w: World, a: Input, b: Input)
    requires w.sw.Registered()
    ensures Run(w, [a, b]) == Step(Step(w, a), b)
  {
    assert [a, b] == [a] + [b];
    RunOneMore(w, a, [b]);
    RunOneMore(Step(w, a), b, []);
  }

  lemma RunFive(w: World, a: Input, b: Input, c: Input, d: Input, e: Input)
    requires w.sw.Registered()
    ensures Run(w, [a, b, c, d, e]) == Step(Step(Step(Step(Step(w, a), b), c), d), e)
  {
    assert [a, b, c, d, e] == [a, b] + [c, d] + [e];
    RunSplit(w, [a, b] + [c, d], [e]);
    RunSplit(w, [a, b], [c, d]);
    RunTwo(w, a, b);
    RunTwo(Run(w, [a, b]), c, d);
    RunOneMore(Run(w, [a, b] + [c, d]), e, []);
  }

  // ---------------------------------------------------------------- outputs off during boot

  /** The active session becomes ready while the outputs are off, and then a next session is awaited. */
  function ReadyInTheDark(s: Session): seq<Input> {
    [Input(Appear(s), 0, 8), Input(Add(s, 5), 0, 8), Input(SetActive(s.name), 0, 8),
     Input(OutputsChanged(0, 0), 0, 8), Input(MarkReady(s), 0, 8), Input(SetNext("user"), 0, 8),
     Input(OutputsChanged(1, 0), 0, 8)]
  }

  /** The fields of the switcher after a call, given what they were before it. */
  lemma SwitcherAfter(w: World, before: Switcher, input: Input, after: Switcher)
    requires w.sw == before && before.Registered() && EndsInUpdate(before, input.call)
    requires Fields(before, input).(booting := after.booting) == after
    requires after.booting <==> before.booting && !Presentable(Fields(before, input))
    ensures Step(w, input).sw == after
  {
  }

  /** One more call at the end of a legal run. */
  lemma {:induction false} LegalNext(w: World, known: set<Session>, first: seq<Input>, last: Input)
    requires w.sw.Registered() && Legal(w, known, first)
    requires Admissible(Run(w, first), KnownAfter(known, first), last.call)
    requires Separate(Step(Run(w, first), last).sw)
    ensures Legal(w, known, first + [last])
    decreases |first|
  {
    if first == [] {
      assert first + [last] == [last];
    } else {
      assert (first + [last])[1..] == first[1..] + [last];
      LegalNext(Step(w, first[0]), Knows(known, first[0].call), first[1..], last);
    }
  }

  /** The first two calls: the session appears and is added. */
  lemma DarkRunStarts(s: Session)
    requires s.name != ""
    ensures var w, i := Initial("spinner"), ReadyInTheDark(s);
      && Legal(w, {}, i[..2])
      && Run(w, i[..2]).sw == Switcher(map[s.name := SessionInfo(Some(s), false)], "", "", "", true, true)
  {
    var w, i := Initial("spinner"), ReadyInTheDark(s);
    assert i[..2] == [i[0]] + [i[1]];
    RunOneMore(w, i[0], [i[1]]);
    RunOneMore(Step(w, i[0]), i[1], []);
    LegalNext(w, {}, [], i[0]);
    LegalNext(w, {}, [i[0]], i[1]);
  }

  /** A call that neither adds a session nor moves one in the scene, while no spinner is tracked. */
  lemma DarkRunGoesOn(w: World, i: seq<Input>, n: nat, after: Switcher)
    requires w.sw.Registered() && n < |i| && Legal(w, {}, i[..n])
    requires i[n].call.SetActive? || i[n].call.SetNext? || i[n].call.MarkReady? || i[n].call.OutputsChanged?
    requires after.spinner == "" && "" !in after.sessions
    requires var before := Run(w, i[..n]).sw;
      && Fields(before, i[n]).(booting := after.booting) == after
      && (after.booting <==> before.booting && !Presentable(Fields(before, i[n])))
    ensures Legal(w, {}, i[..n + 1]) && Run(w, i[..n + 1]).sw == after
  {
    var before := Run(w, i[..n]);
    SwitcherAfter(before, before.sw, i[n], after);
    assert i[..n + 1] == i[..n] + [i[n]];
    LegalNext(w, {}, i[..n], i[n]);
    RunLast(w, i, n);
  }

  /** The switcher once the session is ready in the dark. */
  lemma DarkRunReadies(s: Session)
    requires s.name != ""
    ensures var w, i := Initial("spinner"), ReadyInTheDark(s);
      && Legal(w, {}, i[..5])
      && Run(w, i[..5]).sw == Switcher(map[s.name := SessionInfo(Some(s), true)], s.name, "", "", true, false)
  {
    var w, i := Initial("spinner"), ReadyInTheDark(s);
    var unready := map[s.name := SessionInfo(Some(s), false)];
    var ready := map[s.name := SessionInfo(Some(s), true)];
    DarkRunStarts(s);
    DarkRunGoesOn(w, i, 2, Switcher(unready, s.name, "", "", true, true));
    DarkRunGoesOn(w, i, 3, Switcher(unready, s.name, "", "", true, false));
    assert MarkReadyIn(Run(w, i[..4]).sw, s).sessions == ready;
    DarkRunGoesOn(w, i, 4, Switcher(ready, s.name, "", "", true, false));
  }

  /** The switcher at the end of the run. */
  lemma DarkRunEnds(s: Session)
    requires s.name != "" && s.name != "user"
    ensures var w, i := Initial("spinner"), ReadyInTheDark(s);
      && Legal(w, {}, i)
      && Run(w, i).sw == Switcher(map[s.name := SessionInfo(Some(s), true)], s.name, "user", "", true, true)
  {
    var w, i := Initial("spinner"), ReadyInTheDark(s);
    var ready := map[s.name := SessionInfo(Some(s), true)];
    DarkRunReadies(s);
    DarkRunGoesOn(w, i, 5, Switcher(ready, s.name, "user", "", true, false));
    DarkRunGoesOn(w, i, 6, Switcher(ready, s.name, "user", "", true, true));
    assert i[..7] == i;
  }

  /**
   During boot the trace is real: in this legal run, which starts and ends with
   outputs on, the active session stays dark, and without the changes it shows.
   */
  lemma OutputChangesDuringBootLeaveATrace(s: Session)
    requires s.name != "" && s.name != "user"
    ensures var w, inputs := Initial("spinner"), ReadyInTheDark(s);
      && Legal(w, {}, inputs) && w.sw.outputs && Run(w, inputs).sw.outputs
      && Run(w, inputs).Displayed() != Run(w, WithoutOutputChanges(inputs)).Displayed()
  {
    var w, i := Initial("spinner"), ReadyInTheDark(s);
    DarkRunReadies(s);
    DarkRunEnds(s);
    assert Complete(Run(w, i[..5]).sw);
    InitialInvariant("spinner");
    OutputChangesLeaveATraceExactly(w, {}, i);
  }
}
