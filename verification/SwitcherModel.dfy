/**
 The session switcher as a state machine: what each call does to the tracked
 sessions, to the scene and to the spinner process.
 */
module SwitcherModel {
  import opened Options
  import opened Scenes
  import opened Spinners

  datatype SessionInfo = SessionInfo(session: Option<Session>, ready: bool)

  datatype Switcher = Switcher(
    sessions: map<string, SessionInfo>,
    active: string,
    next: string,
    spinner: string,
    booting: bool,
    outputs: bool)
  {
    /** Every entry holds a session and is filed under that session's name. */
    ghost predicate Registered() {
      forall n :: n in sessions ==> sessions[n].session.Some? && sessions[n].session.value.name == n
    }

    function At(name: string): Session
      requires name in sessions && Registered()
    {
      sessions[name].session.value
    }

    /** The session objects that the switcher currently tracks. */
    function Tracked(): set<Session> {
      set n | n in sessions && sessions[n].session.Some? :: sessions[n].session.value
    }

    predicate Ready(name: string) {
      name in sessions && sessions[name].session.Some? && sessions[name].ready
    }

    predicate Expected(name: string) {
      name != ""
    }

    /** While booting, a named but unready next session holds the active one back. */
    predicate AllowedToDisplayActive() {
      Ready(next) || !Expected(next) || !booting
    }

    predicate ShowsActive() {
      AllowedToDisplayActive() && Ready(active)
    }

    predicate WantsSpinner() {
      if ShowsActive() then !Ready(next) && Expected(next) else Expected(active)
    }

    /** The sessions that are neither active nor next. */
    function Uninteresting(): set<Session> {
      set s | s in Tracked() && s.name != active && s.name != next
    }
  }

  /** Switcher, scene and spinner process together. */
  datatype World = World(sw: Switcher, scene: Scene, proc: Spinner) {

    /** The displayed sessions among those tracked, bottom to top. */
    function Displayed(): seq<Session> {
      scene.Displayed(sw.Tracked())
    }
  }

  datatype Call =
    | Appear(session: Session)        // a client connects: its session enters the scene, hidden
    | Vanish(session: Session)        // the scene drops a session
    | Add(session: Session, pid: int)
    | Remove(session: Session)
    | MarkReady(session: Session)
    | SetActive(name: string)
    | SetNext(name: string)
    | OutputsChanged(internal: int, external: int)

  /**
   A call together with what the system answers during it: the spinner's
   process id when it is asked for, and the process id that fork would return.
   */
  datatype Input = Input(call: Call, spinnerPid: int, forked: int)

  /** The end of every call: outputs off hides everything, else the picture is mended. */
  function Update(w: World, forked: int): World
    requires w.sw.Registered()
  {
    if !w.sw.outputs then w.(scene := w.scene.Hide(w.sw.Tracked()))
    else MendSpinner(MendNext(MendActive(w.(scene := w.scene.Hide(w.sw.Uninteresting())))), w.sw, forked)
  }

  function MendActive(w: World): World
    requires w.sw.Registered()
  {
    if w.sw.ShowsActive() then
      var s := w.sw.At(w.sw.active);
      w.(scene := w.scene.Raise(s).Show(s), sw := w.sw.(booting := false))
    else w
  }

  function MendNext(w: World): World
    requires w.sw.Registered()
  {
    if !w.sw.Ready(w.sw.next) then w
    else
      var s := w.sw.At(w.sw.next);
      w.(scene := if w.sw.ShowsActive() then w.scene.Show(s) else w.scene.Hide({s}))
  }

  function MendSpinner(w: World, before: Switcher, forked: int): World
    requires w.sw.Registered()
  {
    if !before.WantsSpinner() then w.(proc := w.proc.Kill())
    else if w.sw.spinner !in w.sw.sessions then w.(proc := w.proc.EnsureRunning(forked))
    else
      var s := w.sw.At(w.sw.spinner);
      w.(scene := (if before.ShowsActive() then w.scene else w.scene.Raise(s)).Show(s))
  }

  function AddTo(sw: Switcher, session: Session, isSpinner: bool): Switcher {
    sw.(sessions := sw.sessions[session.name := SessionInfo(Some(session), false)],
        spinner := if isSpinner then session.name else sw.spinner)
  }

  predicate Tracks(sw: Switcher, session: Session) {
    session.name in sw.sessions && sw.sessions[session.name].session == Some(session)
  }

  function RemoveFrom(sw: Switcher, session: Session): Switcher {
    sw.(sessions := sw.sessions - {session.name},
        spinner := if session.name == sw.spinner then "" else sw.spinner)
  }

  function MarkReadyIn(sw: Switcher, session: Session): Switcher {
    sw.(sessions := map n | n in sw.sessions ::
        if sw.sessions[n].session == Some(session) then sw.sessions[n].(ready := true) else sw.sessions[n])
  }

  /** A call's own effect on the switcher's fields, before any update. */
  function Fields(sw: Switcher, input: Input): Switcher {
    match input.call
    case Appear(_) => sw
    case Vanish(_) => sw
    case Add(s, pid) => AddTo(sw, s, pid == input.spinnerPid)
    case Remove(s) => if Tracks(sw, s) then RemoveFrom(sw, s) else sw
    case MarkReady(s) => MarkReadyIn(sw, s)
    case SetActive(name) => sw.(active := name)
    case SetNext(name) => sw.(next := name)
    case OutputsChanged(i, e) => sw.(outputs := i + e != 0)
  }

  /** A call's own effect on the scene, before any update. */
  function Stage(w: World, call: Call): Scene {
    match call
    case Appear(s) =>
      if s in w.scene.order then w.scene else w.scene.(order := w.scene.order + [s])
    case Vanish(s) => Scene(Without(w.scene.order, s), w.scene.shown - {s})
    case Remove(s) => if Tracks(w.sw, s) then w.scene.Hide({s}) else w.scene
    case _ => w.scene
  }

  /** Calls that reach the switcher end in an update, but for the removal of an untracked session. */
  predicate EndsInUpdate(sw: Switcher, call: Call) {
    !call.Appear? && !call.Vanish? && (call.Remove? ==> Tracks(sw, call.session))
  }

  function Prepared(w: World, input: Input): World {
    World(Fields(w.sw, input), Stage(w, input.call), w.proc)
  }

  function Step(w: World, input: Input): (r: World)
    requires w.sw.Registered()
    ensures r.sw.Registered()
  {
    var before := Prepared(w, input);
    if EndsInUpdate(w.sw, input.call) then Update(before, input.forked) else before
  }

  function Run(w: World, inputs: seq<Input>): (r: World)
    requires w.sw.Registered()
    ensures r.sw.Registered()
    decreases |inputs|
  {
    if inputs == [] then w else Run(Step(w, inputs[0]), inputs[1..])
  }

  /** The switcher as constructed, with an empty scene. */
  function Initial(executable: string): World {
    World(Switcher(map[], "", "", "", true, true), Scene([], {}), Spinner(executable, 0, 0, 0))
  }
}
