/**
 Every run of the session switcher, also those in which the spinner's session
 is named active or next: when the display is the picture, and what stays on it
 when it is not.
 */
module SwitcherLingering {
  import opened Histories
  import opened Scenes
  import opened SwitcherModel
  import opened SwitcherPicture
  import opened SwitcherRuns
  import opened SwitcherTheorems

  /** A legal run, but for the condition on the spinner's name. */
  ghost predicate Orderly(w: World, known: set<Session>, inputs: seq<Input>)
    requires w.sw.Registered()
    decreases |inputs|
  {
    inputs != [] ==>
      && Admissible(w, known, inputs[0].call)
      && Orderly(Step(w, inputs[0]), Knows(known, inputs[0].call), inputs[1..])
  }

  lemma {:induction false} LegalIsOrderly(w: World, known: set<Session>, inputs: seq<Input>)
    requires w.sw.Registered() && Legal(w, known, inputs)
    ensures Orderly(w, known, inputs)
    decreases |inputs|
  {
    if inputs != [] {
      LegalIsOrderly(Step(w, inputs[0]), Knows(known, inputs[0].call), inputs[1..]);
    }
  }

  ghost predicate Grounded(w: World, known: set<Session>) {
    w.sw.Registered() && Stacked(w) && w.sw.Tracked() <= known && w.scene.shown <= known
  }

  lemma StageGrounded(w: World, known: set<Session>, input: Input)
    requires Grounded(w, known) && Admissible(w, known, input.call)
    ensures Grounded(Prepared(w, input), Knows(known, input.call))
  {
    FieldsTracked(w, input);
    if input.call.Vanish? {
      WithoutMembers(w.scene.order, input.call.session);
    }
  }

  lemma StepGrounded(w: World, known: set<Session>, input: Input)
    requires Grounded(w, known) && Admissible(w, known, input.call)
    ensures Grounded(Step(w, input), Knows(known, input.call))
  {
    StageGrounded(w, known, input);
    if EndsInUpdate(w.sw, input.call) {
      UpdateStacked(Prepared(w, input), input.forked);
      UpdateBounds(Prepared(w, input), input.forked);
      UpdateTracks(Prepared(w, input), input.forked);
    }
  }

  // ---------------------------------------------------------------- one step

  /** The tracked sessions that are on display, in whatever order. */
  ghost function Lit(w: World): set<Session> {
    w.scene.shown * w.sw.Tracked()
  }

  /** What an update leaves alone: the session is named active or next, and neither shown nor hidden. */
  predicate Spared(sw: Switcher, s: Session) {
    sw.outputs && Untouched(sw, s.name)
  }

  lemma UpdateLights(w: World, forked: int, s: Session)
    requires w.sw.Registered() && s in w.sw.Tracked()
    ensures var u := Update(w, forked);
      s in u.scene.shown <==> s in Picture(u.sw) || (s in w.scene.shown && Spared(u.sw, s))
  {
    UpdateBounds(w, forked);
    if w.sw.outputs {
      UpdateShown(w, forked, s);
    }
  }

  /**
   Which sessions are visible after a call, tracked or not: the scene drops one, a
   removal hides one, an update decides on the tracked ones, and nothing else changes.
   */
  lemma StepLights(w: World, input: Input, s: Session)
    requires w.sw.Registered()
    ensures var after := Step(w, input);
      s in after.scene.shown <==>
        if input.call == Vanish(s) || (input.call == Remove(s) && s in w.sw.Tracked()) then false
        else if EndsInUpdate(w.sw, input.call) && s in after.sw.Tracked()
        then s in Picture(after.sw) || (s in w.scene.shown && Spared(after.sw, s))
        else s in w.scene.shown
  {
    var before := Prepared(w, input);
    TrackedMembers(w.sw, s);
    if EndsInUpdate(w.sw, input.call) {
      FieldsRegistered(w.sw, input);
      TrackedMembers(before.sw, s);
      UpdateTracks(before, input.forked);
      if s in before.sw.Tracked() {
        UpdateLights(before, input.forked, s);
      } else {
        UpdateLeavesUntracked(before, input.forked, s);
      }
    }
  }

  /** A session that is removed while it is tracked is not visible afterwards, whatever the update does. */
  lemma RemovedIsHidden(w: World, input: Input, s: Session)
    requires w.sw.Registered() && Tracks(w.sw, s) && input.call == Remove(s)
    ensures s !in Step(w, input).scene.shown && s !in Step(w, input).sw.Tracked()
  {
    TrackedMembers(w.sw, s);
    StepLights(w, input, s);
    RemovedIsUntracked(w, input, s);
  }

  /** The display is the picture unless it shows a session besides. */
  ghost predicate PictureUnlessMore(w: World)
    requires w.sw.Registered()
  {
    w.Displayed() == Picture(w.sw) <==> forall s :: s in Lit(w) ==> s in Picture(w.sw)
  }

  lemma UpdatePictures(w: World, known: set<Session>, forked: int)
    requires Grounded(w, known)
    ensures PictureUnlessMore(Update(w, forked))
  {
    var u := Update(w, forked);
    UpdateBounds(w, forked);
    UpdateTracks(w, forked);
    if w.sw.outputs {
      UpdateMeetsPictureExactly(w, forked);
      forall s | s in w.sw.Tracked()
        ensures s in Lit(u) <==> s in Picture(u.sw) || (s in w.scene.shown && Spared(u.sw, s))
      {
        UpdateLights(w, forked, s);
      }
      LeftoverIsMore(w, u.sw);
    } else {
      assert Lit(u) == {};
      OnlyNothing(u.scene.order);
    }
  }

  /** A session is left over by an update exactly if it is visible, spared and not in the picture. */
  lemma LeftoverIsMore(w: World, after: Switcher)
    requires w.sw.Registered() && w.sw.outputs
    requires after == w.sw.(booting := w.sw.booting && !w.sw.ShowsActive())
    ensures Picture(after) == Picture(w.sw)
    ensures Leftover(w) <==>
      exists s :: s in w.sw.Tracked() && s in w.scene.shown && Spared(after, s) && s !in Picture(after)
  {
    if Leftover(w) {
      var n :| n in w.sw.sessions && Untouched(w.sw, n) && w.sw.At(n) in w.scene.shown;
      TrackedMembers(w.sw, w.sw.At(n));
      UntouchedNotPictured(w.sw, n);
      assert Spared(after, w.sw.At(n));
    }
    forall s | s in w.sw.Tracked() && s in w.scene.shown && Spared(after, s) ensures Leftover(w) {
      TrackedMembers(w.sw, s);
      assert Untouched(w.sw, s.name);
    }
  }

  /** A session that enters or leaves the scene, and is not tracked, changes nothing displayed. */
  lemma StepPictures(w: World, known: set<Session>, input: Input)
    requires Grounded(w, known) && Admissible(w, known, input.call) && PictureUnlessMore(w)
    ensures PictureUnlessMore(Step(w, input))
  {
    if EndsInUpdate(w.sw, input.call) {
      StageGrounded(w, known, input);
      UpdatePictures(Prepared(w, input), Knows(known, input.call), input.forked);
    } else if !input.call.Remove? {
      SceneShowsTheSame(w, input);
    }
  }

  // ---------------------------------------------------------------- every run

  /** The call at `i` ends in an update after which the session belongs to the picture. */
  ghost function Pictured(executable: string, inputs: seq<Input>, s: Session): nat -> bool {
    (i: nat) => i < |inputs| && Updates(executable, inputs, i)
      && s in Picture(Run(Initial(executable), inputs[..i + 1]).sw)
  }

  /**
   At `j` the scene drops the session, or it is removed while it is tracked, or the
   call ends in an update that finds it tracked and does not spare it.
   */
  ghost function Dropped(executable: string, inputs: seq<Input>, s: Session): nat -> bool {
    (j: nat) => j < |inputs| &&
      var after := Run(Initial(executable), inputs[..j + 1]).sw;
      || inputs[j].call == Vanish(s)
      || (inputs[j].call == Remove(s) && s in Run(Initial(executable), inputs[..j]).sw.Tracked())
      || (Updates(executable, inputs, j) && s in after.Tracked() && !Spared(after, s))
  }

  predicate Updates(executable: string, inputs: seq<Input>, i: nat)
    requires i < |inputs|
  {
    EndsInUpdate(Run(Initial(executable), inputs[..i]).sw, inputs[i].call)
  }

  /** The session has belonged to the picture, and every update since has spared it. */
  ghost predicate Lingers(executable: string, inputs: seq<Input>, n: nat, s: Session) {
    Since(n, Pictured(executable, inputs, s), Dropped(executable, inputs, s))
  }

  lemma {:induction false} OrderlyPrefix(w: World, known: set<Session>, inputs: seq<Input>, n: nat)
    requires w.sw.Registered() && n < |inputs| && Orderly(w, known, inputs)
    ensures Admissible(Run(w, inputs[..n]), KnownAfter(known, inputs[..n]), inputs[n].call)
    ensures KnownAfter(known, inputs[..n + 1]) == Knows(KnownAfter(known, inputs[..n]), inputs[n].call)
    ensures Run(w, inputs[..n + 1]) == Step(Run(w, inputs[..n]), inputs[n])
    decreases |inputs|
  {
    RunLast(w, inputs, n);
    if n > 0 {
      OrderlyPrefix(Step(w, inputs[0]), Knows(known, inputs[0].call), inputs[1..], n - 1);
      assert inputs[..n][1..] == inputs[1..][..n - 1];
      assert inputs[..n + 1][1..] == inputs[1..][..n];
    } else {
      assert inputs[..1] == [inputs[0]];
      assert inputs[..1][1..] == [];
    }
  }

  lemma {:induction false} RunPictures(executable: string, inputs: seq<Input>, n: nat)
    requires n <= |inputs| && Orderly(Initial(executable), {}, inputs)
    ensures Grounded(Run(Initial(executable), inputs[..n]), KnownAfter({}, inputs[..n]))
    ensures PictureUnlessMore(Run(Initial(executable), inputs[..n]))
  {
    if n > 0 {
      var w, known := Run(Initial(executable), inputs[..n - 1]), KnownAfter({}, inputs[..n - 1]);
      RunPictures(executable, inputs, n - 1);
      OrderlyPrefix(Initial(executable), {}, inputs, n - 1);
      StepGrounded(w, known, inputs[n - 1]);
      StepPictures(w, known, inputs[n - 1]);
    }
  }

  ghost function Visible(executable: string, inputs: seq<Input>, s: Session): nat -> bool {
    (n: nat) => n <= |inputs| && s in Run(Initial(executable), inputs[..n]).scene.shown
  }

  /** One more call: the session is in the new picture, or it was visible and is not dropped. */
  lemma VisibleNext(executable: string, inputs: seq<Input>, n: nat, s: Session)
    requires n < |inputs|
    ensures Visible(executable, inputs, s)(n + 1) <==>
      Pictured(executable, inputs, s)(n) || (Visible(executable, inputs, s)(n) && !Dropped(executable, inputs, s)(n))
  {
    var w := Run(Initial(executable), inputs[..n]);
    RunLast(Initial(executable), inputs, n);
    StepLights(w, inputs[n], s);
    PictureTracked(Step(w, inputs[n]).sw, s);
    if inputs[n].call == Remove(s) {
      TrackedMembers(w.sw, s);
      RemovedIsUntracked(w, inputs[n], s);
    }
  }

  lemma RemovedIsUntracked(w: World, input: Input, s: Session)
    requires w.sw.Registered() && input.call == Remove(s)
    ensures s !in Step(w, input).sw.Tracked()
  {
    StepFields(w, input);
    TrackedMembers(w.sw, s);
    TrackedMembers(Step(w, input).sw, s);
  }

  lemma {:induction false} VisibleEvolves(executable: string, inputs: seq<Input>, n: nat, s: Session)
    requires n <= |inputs|
    ensures Evolves(
      n, Visible(executable, inputs, s), Pictured(executable, inputs, s), Dropped(executable, inputs, s))
  {
    if n == 0 {
      assert inputs[..0] == [];
    } else {
      VisibleEvolves(executable, inputs, n - 1, s);
      VisibleNext(executable, inputs, n - 1, s);
      EvolvesNext(
        n - 1, Visible(executable, inputs, s), Pictured(executable, inputs, s), Dropped(executable, inputs, s));
    }
  }

  /**
   After any calls whatever, a session, tracked or not, is visible exactly if it
   belonged to the picture and has been neither dropped, removed nor hidden since.
   */
  lemma {:induction false} VisibleExactly(executable: string, inputs: seq<Input>, n: nat, s: Session)
    requires n <= |inputs|
    ensures s in Run(Initial(executable), inputs[..n]).scene.shown <==> Lingers(executable, inputs, n, s)
  {
    VisibleEvolves(executable, inputs, n, s);
    HoldsSince(n, Visible(executable, inputs, s), Pictured(executable, inputs, s), Dropped(executable, inputs, s));
  }

  lemma PictureTracked(sw: Switcher, s: Session)
    requires sw.Registered()
    ensures s in Picture(sw) ==> s in sw.Tracked()
  {
    if sw.outputs {
      PictureShape(sw);
    }
  }

  // ---------------------------------------------------------------- sessions no longer tracked

  /** At `i` another session is added under the name of this one, which is tracked and visible. */
  ghost function Supplanted(executable: string, inputs: seq<Input>, s: Session): nat -> bool {
    (i: nat) => i < |inputs| && inputs[i].call.Add?
      && inputs[i].call.session.name == s.name && inputs[i].call.session != s
      && s in Lit(Run(Initial(executable), inputs[..i]))
  }

  /** At `j` the scene drops the session, or it is tracked again. */
  ghost function Settles(executable: string, inputs: seq<Input>, s: Session): nat -> bool {
    (j: nat) => j < |inputs| &&
      (inputs[j].call == Vanish(s) || s in Run(Initial(executable), inputs[..j + 1]).sw.Tracked())
  }

  /** How a call can end the tracking of a session: another one takes its name, or it is removed. */
  lemma TrackingEnds(w: World, input: Input, s: Session)
    requires w.sw.Registered()
    ensures var after := Step(w, input).sw;
      && (s in w.sw.Tracked() && s !in after.Tracked() ==>
            || (input.call.Add? && input.call.session.name == s.name && input.call.session != s)
            || input.call == Remove(s))
      && (input.call.Add? && input.call.session.name == s.name && input.call.session != s ==> s !in after.Tracked())
  {
    StepFields(w, input);
    TrackedMembers(w.sw, s);
    TrackedMembers(Step(w, input).sw, s);
  }

  /**
   A session that is not tracked is visible exactly if another one took its name
   while it was visible, and the scene has not dropped it since: a removal hides.
   */
  lemma {:induction false} VisibleUntrackedExactly(executable: string, inputs: seq<Input>, n: nat, s: Session)
    requires n <= |inputs|
    requires s !in Run(Initial(executable), inputs[..n]).sw.Tracked()
    ensures s in Run(Initial(executable), inputs[..n]).scene.shown <==>
      Since(n, Supplanted(executable, inputs, s), Settles(executable, inputs, s))
  {
    if n > 0 {
      var w, input := Run(Initial(executable), inputs[..n - 1]), inputs[n - 1];
      RunLast(Initial(executable), inputs, n - 1);
      StepLights(w, input, s);
      TrackingEnds(w, input, s);
      SinceNext(n - 1, Supplanted(executable, inputs, s), Settles(executable, inputs, s));
      if s in w.sw.Tracked() {
        TrackedNotSupplanted(executable, inputs, n - 1, s);
      } else {
        VisibleUntrackedExactly(executable, inputs, n - 1, s);
      }
    }
  }

  lemma TrackedNotSupplanted(executable: string, inputs: seq<Input>, n: nat, s: Session)
    requires n <= |inputs| && s in Run(Initial(executable), inputs[..n]).sw.Tracked()
    ensures !Since(n, Supplanted(executable, inputs, s), Settles(executable, inputs, s))
  {
    if n > 0 {
      RunLast(Initial(executable), inputs, n - 1);
      TrackingEnds(Run(Initial(executable), inputs[..n - 1]), inputs[n - 1], s);
      SinceNext(n - 1, Supplanted(executable, inputs, s), Settles(executable, inputs, s));
    }
  }

  // ---------------------------------------------------------------- the picture of every run

  /**
   After any orderly run, whoever is named active or next, the displayed list is
   the picture if and only if no tracked session outside the picture once belonged
   to it and has been spared by every update since.
   */
  lemma {:induction false} PictureOfEveryRunExactly(executable: string, inputs: seq<Input>)
    requires Orderly(Initial(executable), {}, inputs)
    ensures var w := Run(Initial(executable), inputs);
      w.Displayed() == Picture(w.sw) <==>
      forall s :: s in w.sw.Tracked() && Lingers(executable, inputs, |inputs|, s) ==> s in Picture(w.sw)
  {
    var n, w := |inputs|, Run(Initial(executable), inputs);
    assert inputs[..n] == inputs;
    RunPictures(executable, inputs, n);
    forall s | s in w.sw.Tracked() ensures s in Lit(w) <==> Lingers(executable, inputs, n, s) {
      VisibleExactly(executable, inputs, n, s);
    }
  }

  /** As long as the spinner's session is neither active nor next, nothing lingers. */
  lemma {:induction false} NothingLingersIfSeparate(executable: string, inputs: seq<Input>, s: Session)
    requires Legal(Initial(executable), {}, inputs)
    requires var w := Run(Initial(executable), inputs); s in w.sw.Tracked() && s !in Picture(w.sw)
    ensures !Lingers(executable, inputs, |inputs|, s)
  {
    LegalIsOrderly(Initial(executable), {}, inputs);
    PictureOfEveryRunExactly(executable, inputs);
    PictureInEveryReachableState(executable, inputs);
  }
}
