/** The session switcher as the object it is: fields updated in place, call by call. */
module SessionSwitchers {
  import opened Options
  import opened Scenes
  import opened Spinners
  import opened SwitcherModel

  /** The scene as the sessions' show, hide and raise_and_focus commands find it. */
  class SceneStack {
    var order: seq<Session>
    var shown: set<Session>

    ghost function View(): Scene
      reads this
    {
      Scene(order, shown)
    }

    constructor ()
      ensures View() == Scene([], {})
    {
      order, shown := [], {};
    }

    method Show(session: Session)
      modifies this
      ensures View() == old(View()).Show(session)
    {
      shown := shown + {session};
    }

    method Hide(session: Session)
      modifies this
      ensures View() == old(View()).Hide({session})
    {
      shown := shown - {session};
    }

    method RaiseAndFocus(session: Session)
      modifies this
      ensures View() == old(View()).Raise(session)
    {
      order := Without(order, session) + [session];
    }
  }

  /** A session shown as the active one is raised, one shown as the next one stays where it is. */
  function Presented(scene: Scene, session: Session, asActive: bool): Scene {
    (if asActive then scene.Raise(session) else scene).Show(session)
  }

  class SessionSwitcher {
    const spinnerProcess: ExternalSpinner
    const scene: SceneStack
    var sessions: map<string, SessionInfo>
    var activeName: string
    var nextName: string
    var spinnerName: string
    var booting: bool
    var hasActiveOutputs: bool

    function State(): Switcher
      reads this
    {
      Switcher(sessions, activeName, nextName, spinnerName, booting, hasActiveOutputs)
    }

    ghost function View(): World
      reads this, scene, spinnerProcess
    {
      World(State(), scene.View(), spinnerProcess.View())
    }

    ghost predicate Valid()
      reads this
    {
      State().Registered()
    }

    constructor (spinnerProcess: ExternalSpinner, scene: SceneStack)
      ensures Valid() && this.spinnerProcess == spinnerProcess && this.scene == scene
      ensures State() == Initial(spinnerProcess.executable).sw
    {
      this.spinnerProcess := spinnerProcess;
      this.scene := scene;
      sessions := map[];
      activeName, nextName, spinnerName := "", "", "";
      booting, hasActiveOutputs := true, true;
    }

    // -------------------------------------------------------------- session monitor

    method Add(session: Session, pid: int, forked: int)
      requires Valid()
      modifies this, scene, spinnerProcess
      ensures Valid()
      ensures View() == Step(old(View()), Input(Call.Add(session, pid), old(spinnerProcess.pid), forked))
    {
      if pid == spinnerProcess.pid {
        spinnerName := session.name;
      }
      sessions := sessions[session.name := SessionInfo(Some(session), false)];
      UpdateDisplayedSessions(forked);
    }

    method Remove(session: Session, forked: int)
      requires Valid()
      modifies this, scene, spinnerProcess
      ensures Valid()
      ensures View() == Step(old(View()), Input(Call.Remove(session), old(spinnerProcess.pid), forked))
    {
      var name := session.name;
      if name !in sessions {
        return;
      }
      if sessions[name].session != Some(session) {
        return;
      }
      if name == spinnerName {
        spinnerName := "";
      }
      scene.Hide(sessions[name].session.value);
      sessions := sessions - {name};
      UpdateDisplayedSessions(forked);
    }

    method MarkReady(session: Session, forked: int)
      requires Valid()
      modifies this, scene, spinnerProcess
      ensures Valid()
      ensures View() == Step(old(View()), Input(Call.MarkReady(session), old(spinnerProcess.pid), forked))
    {
      MarkEntries(session);
      UpdateDisplayedSessions(forked);
    }

    /** The loop of mark_ready over the tracked entries. */
    method MarkEntries(session: Session)
      requires Valid()
      modifies this`sessions
      ensures Valid()
      ensures State() == MarkReadyIn(old(State()), session)
    {
      var names := sessions.Keys;
      while names != {}
        invariant names <= sessions.Keys == old(sessions.Keys)
        invariant forall n :: n in names ==> sessions[n] == old(sessions)[n]
        invariant forall n :: n in sessions && n !in names ==>
          sessions[n] == MarkReadyIn(old(State()), session).sessions[n]
        decreases |names|
      {
        var n :| n in names;
        if sessions[n].session == Some(session) {
          sessions := sessions[n := sessions[n].(ready := true)];
        }
        names := names - {n};
      }
      assert sessions == MarkReadyIn(old(State()), session).sessions;
    }

    // -------------------------------------------------------------- display manager

    method SetActiveSession(name: string, forked: int)
      requires Valid()
      modifies this, scene, spinnerProcess
      ensures Valid()
      ensures View() == Step(old(View()), Input(SetActive(name), old(spinnerProcess.pid), forked))
    {
      activeName := name;
      UpdateDisplayedSessions(forked);
    }

    method SetNextSession(name: string, forked: int)
      requires Valid()
      modifies this, scene, spinnerProcess
      ensures Valid()
      ensures View() == Step(old(View()), Input(SetNext(name), old(spinnerProcess.pid), forked))
    {
      nextName := name;
      UpdateDisplayedSessions(forked);
    }

    // -------------------------------------------------------------- screen

    /** The handler that set_screen registers with the screen. */
    method ActiveOutputsHandler(internal: int, external: int, forked: int)
      requires Valid()
      modifies this, scene, spinnerProcess
      ensures Valid()
      ensures View() == Step(old(View()), Input(OutputsChanged(internal, external), old(spinnerProcess.pid), forked))
    {
      hasActiveOutputs := internal + external != 0;
      UpdateDisplayedSessions(forked);
    }

    // -------------------------------------------------------------- the update

    method UpdateDisplayedSessions(forked: int)
      requires Valid()
      modifies this, scene, spinnerProcess
      ensures Valid()
      ensures View() == Update(old(View()), forked)
    {
      if !hasActiveOutputs {
        HideAllSessions();
        return;
      }
      HideUninterestingSessions();
      ghost var hidden := View();

      var showSpinner, asActive := false, false;
      var allowedToDisplayActive :=
        IsSessionReadyForDisplay(nextName) || !IsSessionExpectedToBecomeReady(nextName) || !booting;
      var showActive := false;

      if allowedToDisplayActive && IsSessionReadyForDisplay(activeName) {
        ShowSession(activeName, true);
        showActive := true;
        booting := false;
      } else if IsSessionExpectedToBecomeReady(activeName) {
        showSpinner, asActive := true, true;
      }
      assert View() == MendActive(hidden);

      var allowedToDisplayNext := !showSpinner && showActive;
      if allowedToDisplayNext {
        if IsSessionReadyForDisplay(nextName) {
          ShowSession(nextName, false);
        } else if IsSessionExpectedToBecomeReady(nextName) {
          showSpinner, asActive := true, false;
        }
      } else if IsSessionReadyForDisplay(nextName) {
        HideSession(nextName);
      }
      assert View() == MendNext(MendActive(hidden));

      if showSpinner {
        EnsureSpinnerWillBeShown(asActive, forked);
      } else {
        EnsureSpinnerIsNotRunning();
      }
    }

    method HideUninterestingSessions()
      requires Valid()
      modifies scene
      ensures scene.View() == old(scene.View()).Hide(State().Uninteresting())
    {
      var names := sessions.Keys;
      while names != {}
        invariant names <= sessions.Keys
        invariant scene.order == old(scene.order)
        invariant forall s :: s in scene.shown <==>
          s in old(scene.shown) && !(s in State().Uninteresting() && s.name !in names)
        decreases |names|
      {
        var n :| n in names;
        var session := sessions[n].session.value;
        if session.name != activeName && session.name != nextName {
          scene.Hide(session);
        }
        names := names - {n};
      }
    }

    method HideAllSessions()
      requires Valid()
      modifies scene
      ensures scene.View() == old(scene.View()).Hide(State().Tracked())
    {
      var names := sessions.Keys;
      while names != {}
        invariant names <= sessions.Keys
        invariant scene.order == old(scene.order)
        invariant forall s :: s in scene.shown <==>
          s in old(scene.shown) && !(s in State().Tracked() && s.name !in names)
        decreases |names|
      {
        var n :| n in names;
        scene.Hide(sessions[n].session.value);
        names := names - {n};
      }
    }

    predicate IsSessionReadyForDisplay(name: string)
      reads this
    {
      name in sessions && sessions[name].session.Some? && sessions[name].ready
    }

    predicate IsSessionExpectedToBecomeReady(name: string) {
      name != ""
    }

    /** The lookup by name never inserts an entry: the name is tracked at every call. */
    method ShowSession(name: string, asActive: bool)
      requires Valid() && name in sessions
      modifies scene
      ensures scene.View() == Presented(old(scene.View()), State().At(name), asActive)
    {
      var session := sessions[name].session.value;
      if asActive {
        scene.RaiseAndFocus(session);
      }
      scene.Show(session);
    }

    method HideSession(name: string)
      requires Valid() && name in sessions
      modifies scene
      ensures scene.View() == old(scene.View()).Hide({State().At(name)})
    {
      scene.Hide(sessions[name].session.value);
    }

    method EnsureSpinnerWillBeShown(asActive: bool, forked: int)
      requires Valid()
      modifies scene, spinnerProcess
      ensures spinnerName in sessions ==>
        && scene.View() == Presented(old(scene.View()), State().At(spinnerName), asActive)
        && spinnerProcess.View() == old(spinnerProcess.View())
      ensures spinnerName !in sessions ==>
        && scene.View() == old(scene.View())
        && spinnerProcess.View() == old(spinnerProcess.View()).EnsureRunning(forked)
    {
      if spinnerName !in sessions {
        spinnerProcess.EnsureRunning(forked);
      } else {
        var session := sessions[spinnerName].session.value;
        if asActive {
          scene.RaiseAndFocus(session);
        }
        scene.Show(session);
      }
    }

    method EnsureSpinnerIsNotRunning()
      modifies spinnerProcess
      ensures spinnerProcess.View() == old(spinnerProcess.View()).Kill()
    {
      spinnerProcess.Kill();
    }
  }
}
