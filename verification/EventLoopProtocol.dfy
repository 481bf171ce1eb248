/**
 The event loop as a concurrent protocol: producers push an action under the
 mutex and then write a byte to the wake-up pipe, the loop waits, reads a byte,
 takes the whole queue and runs it, and a stopper clears the running flag and
 then writes a byte.  Threads interleave at every step below.
 */
module EventLoopProtocol {

  datatype Phase =
    | NotStarted   // the thread has not entered run
    | Entered      // running has been set, the promise has not
    | Checking     // about to test running
    | Waiting      // inside epoll_wait
    | Reading      // woken by the pipe, about to read a byte
    | Swapping     // past its wait, about to take the queue
    | Dispatching  // running the actions it took
    | Flushing     // dispatching messages on the connections
    | Exited

  /**
   `owed` counts the threads that have pushed an action, cleared the flag or
   been asked for a wake-up, and have not yet written their byte.  `history`
   lists all actions ever enqueued, and `passes` counts the returns from
   epoll_wait since the flag was first cleared.
   */
  datatype State<A> = State(
    phase: Phase,
    running: bool,
    promised: bool,
    constructed: bool,
    stopped: bool,
    bytes: nat,
    owed: nat,
    queue: seq<A>,
    batch: seq<A>,
    executed: seq<A>,
    history: seq<A>,
    passes: nat)

  datatype Event<A> =
    | Push(action: A)       // enqueue: append under the mutex
    | WakeRequest           // libdbus asks for a wake-up
    | Write                 // a thread that owes a byte writes it
    | Clear                 // stop: running = false
    | ConstructorReturns    // the constructor's wait for the promise ends
    | Start                 // run: running = true
    | Promise               // run: started.set_value()
    | EnterWait             // running was still set
    | Leave                 // running was clear
    | Interrupted           // epoll_wait fails with EINTR
    | WokenByPipe
    | WokenByOther          // a watch or a timer is ready and has been handled
    | Read
    | Swap
    | RunNext
    | BatchDone
    | PassDone

  function Initial<A>(): State<A> {
    State(NotStarted, false, false, false, false, 0, 0, [], [], [], [], 0)
  }

  predicate Enabled<A>(s: State<A>, e: Event<A>) {
    match e
    case Push(_) => true
    case WakeRequest => true
    case Write => s.owed > 0
    case Clear => s.constructed        // only the owner of a constructed thread stops it
    case ConstructorReturns => s.promised && !s.constructed
    case Start => s.phase == NotStarted
    case Promise => s.phase == Entered
    case EnterWait => s.phase == Checking && s.running
    case Leave => s.phase == Checking && !s.running
    case Interrupted => s.phase == Waiting
    case WokenByPipe => s.phase == Waiting && s.bytes > 0
    case WokenByOther => s.phase == Waiting
    case Read => s.phase == Reading && s.bytes > 0
    case Swap => s.phase == Swapping
    case RunNext => s.phase == Dispatching && s.batch != []
    case BatchDone => s.phase == Dispatching && s.batch == []
    case PassDone => s.phase == Flushing
  }

  function Next<A>(s: State<A>, e: Event<A>): State<A>
    requires Enabled(s, e)
  {
    match e
    case Push(a) => s.(queue := s.queue + [a], history := s.history + [a], owed := s.owed + 1)
    case WakeRequest => s.(owed := s.owed + 1)
    case Write => s.(owed := s.owed - 1, bytes := s.bytes + 1)
    case Clear => s.(running := false, stopped := true, owed := s.owed + 1)
    case ConstructorReturns => s.(constructed := true)
    case Start => s.(phase := Entered, running := true)
    case Promise => s.(phase := Checking, promised := true)
    case EnterWait => s.(phase := Waiting)
    case Leave => s.(phase := Exited)
    case Interrupted => s.(phase := Checking)
    case WokenByPipe => s.(phase := Reading, passes := Counted(s))
    case WokenByOther => s.(phase := Swapping, passes := Counted(s))
    case Read => s.(phase := Swapping, bytes := s.bytes - 1)
    case Swap => s.(phase := Dispatching, batch := s.queue, queue := [])
    case RunNext => s.(executed := s.executed + [s.batch[0]], batch := s.batch[1..])
    case BatchDone => s.(phase := Flushing)
    case PassDone => s.(phase := Checking)
  }

  function Counted<A>(s: State<A>): nat {
    if s.stopped then s.passes + 1 else s.passes
  }

  predicate Feasible<A>(s: State<A>, events: seq<Event<A>>)
    decreases |events|
  {
    events != [] ==> Enabled(s, events[0]) && Feasible(Next(s, events[0]), events[1..])
  }

  function Run<A>(s: State<A>, events: seq<Event<A>>): State<A>
    requires Feasible(s, events)
    decreases |events|
  {
    if events == [] then s else Run(Next(s, events[0]), events[1..])
  }

  // ---------------------------------------------------------------- the invariant

  /** Every action enqueued has been run, is about to be, or is queued: once each, in order. */
  ghost predicate Conserved<A>(s: State<A>) {
    && s.executed + s.batch + s.queue == s.history
    && (s.batch != [] ==> s.phase == Dispatching)
  }

  /** A queued action has a byte in the pipe, a byte on its way, or a loop about to take the queue. */
  ghost predicate WakeUpSafe<A>(s: State<A>) {
    && (s.queue != [] ==> s.bytes + s.owed > 0 || s.phase == Swapping)
    && (s.phase == Reading ==> s.bytes > 0)
  }

  /** A cleared flag stays clear, and wakes the loop if it waits; after that the loop leaves. */
  ghost predicate StopSafe<A>(s: State<A>) {
    && (s.constructed ==> s.promised)
    && (s.stopped ==> s.constructed && !s.running)
    && (s.promised <==> s.phase != NotStarted && s.phase != Entered)
    && (s.promised && !s.stopped ==> s.running && s.phase != Exited)
    && (s.phase == Entered ==> s.running)
    && (s.phase == NotStarted ==> !s.running)
    && s.passes <= 1
    && (!s.stopped || s.phase == Waiting ==> s.passes == 0)
    && (s.stopped && s.phase == Waiting ==> s.bytes + s.owed > 0)
  }

  ghost predicate Invariant<A>(s: State<A>) {
    Conserved(s) && WakeUpSafe(s) && StopSafe(s)
  }

  lemma NextConserved<A>(s: State<A>, e: Event<A>)
    requires Conserved(s) && Enabled(s, e)
    ensures Conserved(Next(s, e))
  {
    match e
    case Push(a) => assert s.executed + s.batch + (s.queue + [a]) == s.executed + s.batch + s.queue + [a];
    case Swap => assert s.batch == [];
    case RunNext => assert s.batch == [s.batch[0]] + s.batch[1..];
    case _ =>
  }

  lemma NextInvariant<A>(s: State<A>, e: Event<A>)
    requires Invariant(s) && Enabled(s, e)
    ensures Invariant(Next(s, e))
  {
    NextConserved(s, e);
  }

  lemma {:induction false} RunInvariant<A>(s: State<A>, events: seq<Event<A>>)
    requires Invariant(s) && Feasible(s, events)
    ensures Invariant(Run(s, events))
    decreases |events|
  {
    if events != [] {
      NextInvariant(s, events[0]);
      RunInvariant(Next(s, events[0]), events[1..]);
    }
  }

  // ---------------------------------------------------------------- the queue

  /** Under any interleaving each enqueued action runs at most once, in the order of enqueueing. */
  lemma ActionsRunOnceInOrder<A>(events: seq<Event<A>>)
    requires Feasible(Initial(), events)
    ensures var s := Run(Initial(), events); s.executed + s.batch + s.queue == s.history
  {
    RunInvariant(Initial(), events);
  }

  /** The history is what the producers pushed, in the order of their pushes. */
  function Pushed<A>(events: seq<Event<A>>): seq<A>
    decreases |events|
  {
    if events == [] then []
    else (if events[0].Push? then [events[0].action] else []) + Pushed(events[1..])
  }

  lemma HistoryAfter<A>(s: State<A>, e: Event<A>)
    requires Enabled(s, e)
    ensures Next(s, e).history == s.history + if e.Push? then [e.action] else []
  {
  }

  lemma ExecutedAfter<A>(s: State<A>, e: Event<A>)
    requires Enabled(s, e)
    ensures Next(s, e).executed == s.executed + if e.RunNext? then [s.batch[0]] else []
  {
  }

  lemma {:induction false} HistoryIsPushed<A>(s: State<A>, events: seq<Event<A>>)
    requires Feasible(s, events)
    ensures Run(s, events).history == s.history + Pushed(events)
    decreases |events|
  {
    if events != [] {
      HistoryIsPushed(Next(s, events[0]), events[1..]);
      HistoryAfter(s, events[0]);
      assert Run(s, events) == Run(Next(s, events[0]), events[1..]);
    }
  }

  /** No wake-up is lost: the loop never waits on a filled queue without a byte there or on its way. */
  lemma NoLostWakeUp<A>(events: seq<Event<A>>)
    requires Feasible(Initial(), events)
    ensures var s := Run(Initial(), events);
      s.queue != [] && s.phase != Swapping ==> s.bytes > 0 || s.owed > 0
  {
    RunInvariant(Initial(), events);
  }

  // ---------------------------------------------------------------- bytes and passes

  /** How often each kind of event has occurred; `owes` counts those that owe a byte. */
  datatype Tally = Tally(
    owes: nat, writes: nat, taken: nat, waits: nat, interruptions: nat, wakes: nat, swaps: nat, passes: nat)

  function One(b: bool): nat {
    if b then 1 else 0
  }

  function Tallied<A>(t: Tally, e: Event<A>): Tally {
    Tally(
      t.owes + One(e.Push? || e.WakeRequest? || e.Clear?), t.writes + One(e.Write?), t.taken + One(e.Read?),
      t.waits + One(e.EnterWait?), t.interruptions + One(e.Interrupted?),
      t.wakes + One(e.WokenByPipe? || e.WokenByOther?), t.swaps + One(e.Swap?), t.passes + One(e.PassDone?))
  }

  function TallyOf<A>(t: Tally, events: seq<Event<A>>): Tally
    decreases |events|
  {
    if events == [] then t else TallyOf(Tallied(t, events[0]), events[1..])
  }

  /** The loop is between a return from its wait and the end of the pass. */
  predicate InPass<A>(s: State<A>) {
    s.phase == Reading || s.phase == Swapping || s.phase == Dispatching || s.phase == Flushing
  }

  /**
   Each push, wake-up request and stop owes a byte, a write moves it to the pipe
   and a read takes one out.  Each return from the wait leads to one swap of the
   queue and one dispatch on the connections before the next wait.
   */
  ghost predicate Accounted<A>(s: State<A>, t: Tally) {
    && t.owes == t.writes + s.owed
    && t.writes == t.taken + s.bytes
    && t.waits == t.interruptions + t.wakes + One(s.phase == Waiting)
    && t.wakes == t.passes + One(InPass(s))
    && t.swaps == t.passes + One(s.phase == Dispatching || s.phase == Flushing)
  }

  lemma StepAccounted<A>(s: State<A>, t: Tally, e: Event<A>)
    requires Accounted(s, t) && Enabled(s, e)
    ensures Accounted(Next(s, e), Tallied(t, e))
  {
  }

  lemma {:induction false} RunAccounted<A>(s: State<A>, t: Tally, events: seq<Event<A>>)
    requires Accounted(s, t) && Feasible(s, events)
    ensures Accounted(Run(s, events), TallyOf(t, events))
    decreases |events|
  {
    if events != [] {
      StepAccounted(s, t, events[0]);
      RunAccounted(Next(s, events[0]), Tallied(t, events[0]), events[1..]);
    }
  }

  const Nothing := Tally(0, 0, 0, 0, 0, 0, 0, 0)

  lemma {:induction false} BytesAndPassesAddUp<A>(events: seq<Event<A>>)
    requires Feasible(Initial(), events)
    ensures Accounted(Run(Initial(), events), TallyOf(Nothing, events))
  {
    RunAccounted(Initial(), Nothing, events);
  }

  // ---------------------------------------------------------------- progress

  /** Steps that bring no new work: threads write what they owe, and the loop goes on. */
  predicate Quiet<A>(e: Event<A>) {
    !e.Push? && !e.WakeRequest? && !e.Clear? && !e.Interrupted? && !e.WokenByOther?
  }

  function Measure<A>(s: State<A>): nat {
    8 * s.bytes + 9 * s.owed + |s.queue| + |s.batch| + (if s.constructed then 0 else 1)
    + match s.phase
      case NotStarted => 4
      case Entered => 3
      case Checking => 2
      case Waiting => 1
      case Reading => 0
      case Swapping => 5
      case Dispatching => 4
      case Flushing => 3
      case Exited => 0
  }

  lemma QuietStepsRunDown<A>(s: State<A>, e: Event<A>)
    requires Invariant(s) && Enabled(s, e) && Quiet(e)
    ensures Measure(Next(s, e)) < Measure(s)
  {
  }

  /** No quiet step is possible. */
  ghost predicate AtRest<A(!new)>(s: State<A>) {
    forall e :: Quiet(e) ==> !Enabled(s, e)
  }

  lemma RestIsComplete<A(!new)>(s: State<A>)
    requires Invariant(s) && AtRest(s)
    ensures s.owed == 0 && s.batch == []
    ensures !s.stopped ==> s.phase == Waiting && s.queue == [] && s.executed == s.history
    ensures s.stopped ==> s.phase == Exited
  {
    assert !Enabled(s, Write) && !Enabled(s, Start) && !Enabled(s, Promise) && !Enabled(s, EnterWait)
        && !Enabled(s, Leave) && !Enabled(s, WokenByPipe) && !Enabled(s, Read) && !Enabled(s, Swap)
        && !Enabled(s, RunNext) && !Enabled(s, BatchDone) && !Enabled(s, PassDone) && !Enabled(s, ConstructorReturns);
    assert s.executed + [] + [] == s.executed;
  }

  lemma {:induction false} QuietRunsEnd<A>(s: State<A>, events: seq<Event<A>>)
    requires Invariant(s) && Feasible(s, events)
    requires forall k :: 0 <= k < |events| ==> Quiet(events[k])
    ensures |events| + Measure(Run(s, events)) <= Measure(s)
    ensures Run(s, events).stopped == s.stopped && Run(s, events).history == s.history
    decreases |events|
  {
    if events != [] {
      QuietStepsRunDown(s, events[0]);
      NextInvariant(s, events[0]);
      QuietRunsEnd(Next(s, events[0]), events[1..]);
    }
  }

  /**
   From any reachable state, once no new work arrives, every schedule comes to
   rest within `Measure` steps.  Unless the loop was stopped, every action
   enqueued has then been run; if it was stopped, the loop has left.
   */
  lemma {:induction false} EveryActionRuns<A(!new)>(before: seq<Event<A>>, quiet: seq<Event<A>>)
    requires Feasible(Initial(), before)
    requires Feasible(Run(Initial(), before), quiet)
    requires forall k :: 0 <= k < |quiet| ==> Quiet(quiet[k])
    ensures var s, r := Run(Initial(), before), Run(Run(Initial(), before), quiet);
      && |quiet| <= Measure(s)
      && (AtRest(r) && !s.stopped ==> r.executed == s.history)
      && (AtRest(r) && s.stopped ==> r.phase == Exited)
  {
    var s := Run(Initial(), before);
    RunInvariant(Initial(), before);
    RunInvariant(s, quiet);
    QuietRunsEnd(s, quiet);
    if AtRest(Run(s, quiet)) {
      RestIsComplete(Run(s, quiet));
    }
  }

  // ---------------------------------------------------------------- stopping

  lemma {:induction false} StoppedStays<A>(s: State<A>, events: seq<Event<A>>)
    requires Invariant(s) && Feasible(s, events) && s.stopped
    ensures Run(s, events).stopped
    decreases |events|
  {
    if events != [] {
      NextInvariant(s, events[0]);
      StoppedStays(Next(s, events[0]), events[1..]);
    }
  }

  /**
   A stop is never overwritten by run: from then on the flag is clear, the loop
   waits at most with a byte there or on its way, returns from at most one wait,
   and never enters another.
   */
  lemma StopTakesEffect<A>(before: seq<Event<A>>, after: seq<Event<A>>)
    requires Feasible(Initial(), before) && Enabled(Run(Initial(), before), Clear)
    requires Feasible(Next(Run(Initial(), before), Clear), after)
    ensures var s := Run(Next(Run(Initial(), before), Clear), after);
      && !s.running
      && (s.phase == Waiting ==> s.bytes > 0 || s.owed > 0)
      && s.passes <= 1
      && !Enabled(s, EnterWait)
  {
    var s := Run(Initial(), before);
    RunInvariant(Initial(), before);
    NextInvariant(s, Clear);
    RunInvariant(Next(s, Clear), after);
    StoppedStays(Next(s, Clear), after);
  }

  /** The state in which some thread has cleared the flag, whether or not the constructor has returned. */
  function Cleared<A>(s: State<A>): State<A> {
    s.(running := false, stopped := true, owed := s.owed + 1)
  }

  lemma {:induction false} ClearedStays<A>(s: State<A>, events: seq<Event<A>>)
    requires s.phase != NotStarted && !s.running && Feasible(s, events)
    ensures !Run(s, events).running
    decreases |events|
  {
    if events != [] {
      ClearedStays(Next(s, events[0]), events[1..]);
    }
  }

  /** Whatever follows, a flag cleared now stays clear. */
  ghost predicate KeepsStop<A(!new)>(s: State<A>) {
    forall after :: Feasible(Cleared(s), after) ==> !Run(Cleared(s), after).running
  }

  /**
   The promise is what makes this so: at any moment, a flag cleared then stays
   clear whatever follows if and only if the thread has entered run; and a
   thread that is constructed has.
   */
  lemma StopIsKeptExactly<A(!new)>(before: seq<Event<A>>)
    requires Feasible(Initial(), before)
    ensures var s := Run(Initial(), before);
      && (KeepsStop(s) <==> s.phase != NotStarted)
      && (Enabled(s, Clear) ==> s.phase != NotStarted && Next(s, Clear) == Cleared(s))
  {
    var s := Run(Initial(), before);
    RunInvariant(Initial(), before);
    if s.phase == NotStarted {
      var after: seq<Event<A>> := [Start];
      assert after[1..] == [];
      assert Feasible(Cleared(s), after) && Run(Cleared(s), after).running;
    } else {
      forall after | Feasible(Cleared(s), after) ensures !Run(Cleared(s), after).running {
        ClearedStays(Cleared(s), after);
      }
    }
  }
}
