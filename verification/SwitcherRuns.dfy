/**
 Properties of whole runs of the session switcher: the picture in every
 reachable state, the boot gate, and the invisibility of output changes.
 */
module SwitcherRuns {
  import opened Scenes
  import opened SwitcherModel
  import opened SwitcherPicture

  // ---------------------------------------------------------------- legal runs

  /**
   What the environment owes the switcher at each call; `known` holds the
   session objects of earlier calls.  An added object is fresh and in the
   scene, and only objects that are no longer tracked leave the scene.
   */
  ghost predicate Admissible(w: World, known: set<Session>, call: Call) {
    match call
    case Appear(s) => s !in known
    case Vanish(s) => s !in w.sw.Tracked()
    case Add(s, _) => s !in known && s in w.scene.order
    case _ => true
  }

  function Knows(known: set<Session>, call: Call): set<Session> {
    if call.Add? then known + {call.session} else known
  }

  /** The session taken for the spinner is neither the active nor the next one. */
  predicate Separate(sw: Switcher) {
    sw.spinner in sw.sessions ==> sw.spinner != sw.active && sw.spinner != sw.next
  }

  ghost predicate Legal(w: World, known: set<Session>, inputs: seq<Input>)
    requires w.sw.Registered()
    decreases |inputs|
  {
    inputs != [] ==>
      var after := Step(w, inputs[0]);
      && Admissible(w, known, inputs[0].call)
      && Separate(after.sw)
      && Legal(after, Knows(known, inputs[0].call), inputs[1..])
  }

  function KnownAfter(known: set<Session>, inputs: seq<Input>): set<Session>
    decreases |inputs|
  {
    if inputs == [] then known else KnownAfter(Knows(known, inputs[0].call), inputs[1..])
  }

  // ---------------------------------------------------------------- the invariant

  /** A visible tracked session is the spinner, or it is ready and booting is over. */
  ghost predicate Settled(w: World) {
    forall s :: s in w.scene.shown && s in w.sw.Tracked() ==>
      s.name == w.sw.spinner || (w.sw.Ready(s.name) && !w.sw.booting)
  }

  ghost predicate Invariant(w: World, known: set<Session>) {
    && w.sw.Registered()
    && Stacked(w)
    && w.sw.Tracked() <= known
    && w.scene.shown <= known
    && Separate(w.sw)
    && Settled(w)
    && w.Displayed() == Picture(w.sw)
  }

  /** What a call leaves behind just before its update. */
  ghost predicate Updatable(w: World, known: set<Session>) {
    && w.sw.Registered()
    && Stacked(w)
    && w.sw.Tracked() <= known
    && w.scene.shown <= known
    && Separate(w.sw)
    && forall n :: n in w.sw.sessions && (n == w.sw.active || n == w.sw.next) && w.sw.At(n) in w.scene.shown ==>
         w.sw.Ready(n) && !w.sw.booting
  }

  lemma UpdateEstablishes(w: World, known: set<Session>, forked: int)
    requires Updatable(w, known)
    ensures Invariant(Update(w, forked), known)
  {
    UpdateStacked(w, forked);
    UpdateBounds(w, forked);
    UpdateSettles(w, known, forked);
    UpdateDisplays(w, known, forked);
  }

  lemma UpdateBounds(w: World, forked: int)
    requires w.sw.Registered()
    ensures var u := Update(w, forked);
      && u.sw == w.sw.(booting := w.sw.booting && !(w.sw.outputs && w.sw.ShowsActive()))
      && u.scene.shown <= w.scene.shown + w.sw.Tracked()
  {
  }

  lemma UpdateDisplays(w: World, known: set<Session>, forked: int)
    requires Updatable(w, known)
    ensures Update(w, forked).Displayed() == Picture(Update(w, forked).sw)
  {
    var u := Update(w, forked);
    UpdateBounds(w, forked);
    if w.sw.outputs {
      assert !Leftover(w);
      UpdateMeetsPictureExactly(w, forked);
      assert Picture(u.sw) == Picture(w.sw);
    } else {
      assert u.scene.shown * u.sw.Tracked() == {};
      OnlyNothing(u.scene.order);
    }
  }

  lemma UpdateSettles(w: World, known: set<Session>, forked: int)
    requires Updatable(w, known)
    ensures Settled(Update(w, forked))
  {
    var u := Update(w, forked);
    UpdateBounds(w, forked);
    forall s | s in u.scene.shown && s in u.sw.Tracked()
      ensures s.name == u.sw.spinner || (u.sw.Ready(s.name) && !u.sw.booting)
    {
      TrackedMembers(w.sw, s);
      assert w.sw.Tracked() == u.sw.Tracked();
      if w.sw.outputs {
        UpdateShown(w, forked, s);
      }
    }
  }

  // ---------------------------------------------------------------- every step

  lemma TrackedAfterAdd(sw: Switcher, s: Session, isSpinner: bool)
    requires sw.Registered()
    ensures AddTo(sw, s, isSpinner).Registered()
    ensures forall t :: t in AddTo(sw, s, isSpinner).Tracked() <==> t == s || (t in sw.Tracked() && t.name != s.name)
  {
    var after := AddTo(sw, s, isSpinner);
    forall t ensures t in after.Tracked() <==> t == s || (t in sw.Tracked() && t.name != s.name) {
      TrackedMembers(sw, t);
      TrackedMembers(after, t);
    }
  }

  lemma UpdateKeepsSeparate(w: World, forked: int)
    requires w.sw.Registered()
    ensures Separate(Update(w, forked).sw) == Separate(w.sw)
  {
  }

  lemma AddKeepsInvariant(w: World, known: set<Session>, s: Session, isSpinner: bool)
    requires Invariant(w, known)
    requires s !in known && s in w.scene.order
    requires Separate(AddTo(w.sw, s, isSpinner))
    ensures Updatable(w.(sw := AddTo(w.sw, s, isSpinner)), known + {s})
  {
  }

  lemma RemoveKeepsInvariant(w: World, known: set<Session>, s: Session)
    requires Invariant(w, known) && Tracks(w.sw, s)
    requires Separate(RemoveFrom(w.sw, s))
    ensures Updatable(w.(sw := RemoveFrom(w.sw, s), scene := w.scene.Hide({s})), known)
  {
  }

  lemma ReadyKeepsInvariant(w: World, known: set<Session>, s: Session)
    requires Invariant(w, known)
    ensures Updatable(w.(sw := MarkReadyIn(w.sw, s)), known)
  {
  }

  lemma NamesKeepInvariant(w: World, known: set<Session>, sw: Switcher)
    requires Invariant(w, known)
    requires sw == w.sw.(active := sw.active, next := sw.next, outputs := sw.outputs)
    requires Separate(sw)
    ensures Updatable(w.(sw := sw), known)
  {
  }

  /** A session that enters or leaves the scene, and is not tracked, changes nothing displayed. */
  lemma SceneShowsTheSame(w: World, input: Input)
    requires w.sw.Registered()
    requires (input.call.Appear? || input.call.Vanish?) && input.call.session !in w.sw.Tracked()
    ensures Step(w, input).sw == w.sw && Step(w, input).Displayed() == w.Displayed()
    ensures Step(w, input).scene.shown * w.sw.Tracked() == w.scene.shown * w.sw.Tracked()
  {
    var s := input.call.session;
    var after := Step(w, input);
    var keep := w.scene.shown * w.sw.Tracked();
    assert after.scene.shown * after.sw.Tracked() == keep;
    if input.call.Appear? {
      if s !in w.scene.order {
        assert after.scene.order[..|w.scene.order|] == w.scene.order;
      }
    } else {
      OnlyWithout(w.scene.order, s, keep);
      assert keep - {s} == keep;
    }
  }

  lemma SceneKeepsInvariant(w: World, known: set<Session>, input: Input)
    requires Invariant(w, known) && Admissible(w, known, input.call)
    requires input.call.Appear? || input.call.Vanish?
    ensures Invariant(Step(w, input), known)
  {
    SceneShowsTheSame(w, input);
    if input.call.Vanish? {
      WithoutMembers(w.scene.order, input.call.session);
    }
  }

  lemma StepKeepsInvariant(w: World, known: set<Session>, input: Input)
    requires Invariant(w, known) && Admissible(w, known, input.call) && Separate(Step(w, input).sw)
    ensures Invariant(Step(w, input), Knows(known, input.call))
  {
    var before := Prepared(w, input);
    if input.call.Appear? || input.call.Vanish? {
      SceneKeepsInvariant(w, known, input);
    } else if EndsInUpdate(w.sw, input.call) {
      FieldsRegistered(w.sw, input);
      UpdateKeepsSeparate(before, input.forked);
      match input.call {
        case Add(s, pid) => AddKeepsInvariant(w, known, s, pid == input.spinnerPid);
        case Remove(s) => RemoveKeepsInvariant(w, known, s);
        case MarkReady(s) => ReadyKeepsInvariant(w, known, s);
        case _ => NamesKeepInvariant(w, known, before.sw);
      }
      UpdateEstablishes(before, Knows(known, input.call), input.forked);
    }
  }

  lemma FieldsRegistered(sw: Switcher, input: Input)
    requires sw.Registered()
    ensures Fields(sw, input).Registered()
  {
  }

  // ---------------------------------------------------------------- every run

  lemma {:induction false} RunKeepsInvariant(w: World, known: set<Session>, inputs: seq<Input>)
    requires Invariant(w, known) && Legal(w, known, inputs)
    ensures Invariant(Run(w, inputs), KnownAfter(known, inputs))
    decreases |inputs|
  {
    if inputs != [] {
      StepKeepsInvariant(w, known, inputs[0]);
      RunKeepsInvariant(Step(w, inputs[0]), Knows(known, inputs[0].call), inputs[1..]);
    }
  }

  lemma InitialInvariant(executable: string)
    ensures Invariant(Initial(executable), {})
  {
  }

  /** In every reachable state the displayed list is the picture of that state. */
  lemma PictureInEveryReachableState(executable: string, inputs: seq<Input>)
    requires Legal(Initial(executable), {}, inputs)
    ensures var w := Run(Initial(executable), inputs); w.Displayed() == Picture(w.sw)
  {
    InitialInvariant(executable);
    RunKeepsInvariant(Initial(executable), {}, inputs);
  }
}
