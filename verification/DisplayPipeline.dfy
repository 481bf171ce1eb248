/**
 From the screen to the bus: the display service registers a handler with the
 screen, the handler enqueues an action on the event loop, and the action
 publishes the counts.  The service's value is a replica that lags behind.
 */
module DisplayPipeline {
  import opened Options
  import opened MirScreenModel
  import opened EventLoopProtocol

  datatype Action = Publish(outputs: ActiveOutputs) | Other(id: nat)

  /**
   `holding` is the value that a thread inside the screen's lock has recorded
   and is about to hand to the service's handler; `notified` lists the values the
   handler was called with, and `signals` those announced on the bus.
   */
  datatype Pipeline = Pipeline(
    loop: State<Action>,
    screen: ActiveOutputs,
    registered: bool,
    holding: Option<ActiveOutputs>,
    notified: seq<ActiveOutputs>,
    service: ActiveOutputs,
    signals: seq<ActiveOutputs>)

  datatype Move =
    | Registers                       // the service registers; its handler is due at once
    | Unregisters
    | Changes(outputs: ActiveOutputs) // the screen records new counts
    | CallsHandler                    // the handler enqueues the value held
    | Loops(event: Event<Action>)     // any step of the event loop or of another thread

  predicate Possible(p: Pipeline, m: Move) {
    match m
    case Registers => p.holding == None && !p.registered
    case Unregisters => p.holding == None
    case Changes(_) => p.holding == None
    case CallsHandler => p.holding != None
    case Loops(e) => Enabled(p.loop, e) && (e.Push? ==> e.action.Other?)
  }

  function After(p: Pipeline, m: Move): Pipeline
    requires Possible(p, m)
  {
    match m
    case Registers => p.(registered := true, holding := Some(p.screen))
    case Unregisters => p.(registered := false)
    case Changes(v) => p.(screen := v, holding := if p.registered then Some(v) else None)
    case CallsHandler =>
      p.(loop := Next(p.loop, Push(Publish(p.holding.value))),
         notified := p.notified + [p.holding.value],
         holding := None)
    case Loops(e) =>
      var next := p.(loop := Next(p.loop, e));
      if e.RunNext? && p.loop.batch[0].Publish? then
        next.(service := p.loop.batch[0].outputs, signals := p.signals + [p.loop.batch[0].outputs])
      else next
  }

  predicate Feasible(p: Pipeline, moves: seq<Move>)
    decreases |moves|
  {
    moves != [] ==> Possible(p, moves[0]) && Feasible(After(p, moves[0]), moves[1..])
  }

  function Run(p: Pipeline, moves: seq<Move>): Pipeline
    requires Feasible(p, moves)
    decreases |moves|
  {
    if moves == [] then p else Run(After(p, moves[0]), moves[1..])
  }

  function Initial(screen: ActiveOutputs): Pipeline {
    Pipeline(EventLoopProtocol.Initial(), screen, false, None, [], ActiveOutputs(0, 0), [])
  }

  // ---------------------------------------------------------------- the invariant

  function Published(actions: seq<Action>): seq<ActiveOutputs> {
    if actions == [] then []
    else (if actions[0].Publish? then [actions[0].outputs] else []) + Published(actions[1..])
  }

  lemma {:induction false} PublishedSplit(a: seq<Action>, b: seq<Action>)
    ensures Published(a + b) == Published(a) + Published(b)
  {
    if a == [] {
      assert a + b == b;
    } else {
      assert (a + b)[0] == a[0] && (a + b)[1..] == a[1..] + b;
      PublishedSplit(a[1..], b);
      var first := if a[0].Publish? then [a[0].outputs] else [];
      assert first + (Published(a[1..]) + Published(b)) == first + Published(a[1..]) + Published(b);
    }
  }

  ghost predicate Invariant(p: Pipeline) {
    && EventLoopProtocol.Invariant(p.loop)
    && Replicates(p)
    && (p.holding != None ==> p.registered && p.holding == Some(p.screen))
    && (p.registered && p.holding == None ==>
          p.notified != [] && p.notified[|p.notified| - 1] == p.screen)
  }

  ghost predicate Replicates(p: Pipeline) {
    && Published(p.loop.history) == p.notified
    && Published(p.loop.executed) == p.signals
    && p.service == (if p.signals == [] then ActiveOutputs(0, 0) else p.signals[|p.signals| - 1])
  }

  lemma RunNextReplicates(p: Pipeline)
    requires Replicates(p) && Possible(p, Loops(RunNext))
    requires Published(p.loop.executed + [p.loop.batch[0]]) == p.signals + Published([p.loop.batch[0]])
    ensures Replicates(After(p, Loops(RunNext)))
  {
    assert [p.loop.batch[0]][1..] == [];
  }

  lemma LoopsReplicates(p: Pipeline, e: Event<Action>)
    requires Replicates(p) && Possible(p, Loops(e))
    ensures Replicates(After(p, Loops(e)))
  {
    HistoryAfter(p.loop, e);
    ExecutedAfter(p.loop, e);
    var next := After(p, Loops(e));
    if e.Push? {
      PublishedSplit(p.loop.history, [e.action]);
      assert Published([e.action]) == [];
    } else if e.RunNext? {
      PublishedSplit(p.loop.executed, [p.loop.batch[0]]);
      RunNextReplicates(p);
    } else {
      assert next.loop.history == p.loop.history && next.loop.executed == p.loop.executed;
    }
  }

  lemma HandlerReplicates(p: Pipeline)
    requires Replicates(p) && Possible(p, CallsHandler)
    ensures Replicates(After(p, CallsHandler))
  {
    var a := Publish(p.holding.value);
    PublishedSplit(p.loop.history, [a]);
  }

  lemma AfterInvariant(p: Pipeline, m: Move)
    requires Invariant(p) && Possible(p, m)
    ensures Invariant(After(p, m))
  {
    match m
    case CallsHandler =>
      NextInvariant(p.loop, Push(Publish(p.holding.value)));
      HandlerReplicates(p);
    case Loops(e) =>
      NextInvariant(p.loop, e);
      LoopsReplicates(p, e);
    case _ =>
  }

  lemma {:induction false} RunInvariant(p: Pipeline, moves: seq<Move>)
    requires Invariant(p) && Feasible(p, moves)
    ensures Invariant(Run(p, moves))
    decreases |moves|
  {
    if moves != [] {
      AfterInvariant(p, moves[0]);
      RunInvariant(After(p, moves[0]), moves[1..]);
    }
  }

  // ---------------------------------------------------------------- the replica

  /** The signals are, in order and without gaps, the first of the values the screen has notified. */
  lemma SignalsAreAPrefix(screen: ActiveOutputs, moves: seq<Move>)
    requires Feasible(Initial(screen), moves)
    ensures var p := Run(Initial(screen), moves); p.signals <= p.notified
  {
    var p := Run(Initial(screen), moves);
    RunInvariant(Initial(screen), moves);
    PublishedSplit(p.loop.executed, p.loop.batch + p.loop.queue);
    assert p.loop.executed + (p.loop.batch + p.loop.queue) == p.loop.history;
  }

  /** With no action queued or running and no handler due, the service's value is the screen's. */
  lemma ReplicaCatchesUp(screen: ActiveOutputs, moves: seq<Move>)
    requires Feasible(Initial(screen), moves)
    requires var p := Run(Initial(screen), moves);
      p.loop.queue == [] && p.loop.batch == [] && p.registered && p.holding == None
    ensures var p := Run(Initial(screen), moves); p.service == p.screen && p.signals == p.notified
  {
    var p := Run(Initial(screen), moves);
    RunInvariant(Initial(screen), moves);
    assert p.loop.executed == p.loop.history;
  }

  /** So whenever the threads have come to rest before a stop, the value on the bus is the screen's. */
  lemma ReplicaAtRest(screen: ActiveOutputs, moves: seq<Move>)
    requires Feasible(Initial(screen), moves)
    requires var p := Run(Initial(screen), moves);
      Settled(p) && !p.loop.stopped && p.registered
    ensures var p := Run(Initial(screen), moves); p.service == p.screen && p.signals == p.notified
  {
    var p := Run(Initial(screen), moves);
    RunInvariant(Initial(screen), moves);
    assert !Possible(p, CallsHandler);
    assert AtRest(p.loop) by {
      forall e: Event<Action> | Quiet(e) ensures !Enabled(p.loop, e) {
        assert Unforced(Loops(e)) && !Possible(p, Loops(e));
      }
    }
    RestIsComplete(p.loop);
    ReplicaCatchesUp(screen, moves);
  }

  // ---------------------------------------------------------------- how soon

  /** Moves that bring no new work: a handler that is due is called, and the threads go on. */
  predicate Unforced(m: Move) {
    m.CallsHandler? || (m.Loops? && Quiet(m.event))
  }

  /** No unforced move is possible. */
  ghost predicate Settled(p: Pipeline) {
    forall m :: Unforced(m) ==> !Possible(p, m)
  }

  /** A handler due costs one move, and the action that it enqueues ten more. */
  function Backlog(p: Pipeline): nat {
    Measure(p.loop) + if p.holding == None then 0 else 11
  }

  lemma UnforcedMovesRunDown(p: Pipeline, m: Move)
    requires Invariant(p) && Possible(p, m) && Unforced(m)
    ensures var after := After(p, m);
      && Backlog(after) < Backlog(p)
      && after.screen == p.screen && after.registered == p.registered && after.loop.stopped == p.loop.stopped
  {
    if m.Loops? {
      QuietStepsRunDown(p.loop, m.event);
    }
  }

  lemma {:induction false} UnforcedRunsEnd(p: Pipeline, moves: seq<Move>)
    requires Invariant(p) && Feasible(p, moves)
    requires forall k :: 0 <= k < |moves| ==> Unforced(moves[k])
    ensures var r := Run(p, moves);
      && |moves| + Backlog(r) <= Backlog(p)
      && r.screen == p.screen && r.registered == p.registered && r.loop.stopped == p.loop.stopped
    decreases |moves|
  {
    if moves != [] {
      UnforcedMovesRunDown(p, moves[0]);
      AfterInvariant(p, moves[0]);
      UnforcedRunsEnd(After(p, moves[0]), moves[1..]);
    }
  }

  lemma {:induction false} RunSplit(p: Pipeline, first: seq<Move>, rest: seq<Move>)
    requires Feasible(p, first) && Feasible(Run(p, first), rest)
    ensures Feasible(p, first + rest) && Run(p, first + rest) == Run(Run(p, first), rest)
    decreases |first|
  {
    if first == [] {
      assert first + rest == rest;
    } else {
      assert (first + rest)[1..] == first[1..] + rest;
      RunSplit(After(p, first[0]), first[1..], rest);
    }
  }

  /**
   From any reachable state, once no new work comes, every schedule ends within
   `Backlog` moves; unless the loop was stopped, the value on the bus is then the
   one the screen had when the work stopped coming.
   */
  lemma {:induction false} ReplicaCatchesUpInTime(screen: ActiveOutputs, before: seq<Move>, quiet: seq<Move>)
    requires Feasible(Initial(screen), before)
    requires Feasible(Run(Initial(screen), before), quiet)
    requires forall k :: 0 <= k < |quiet| ==> Unforced(quiet[k])
    ensures var p, r := Run(Initial(screen), before), Run(Run(Initial(screen), before), quiet);
      && |quiet| <= Backlog(p)
      && (Settled(r) && p.registered && !p.loop.stopped ==> r.service == p.screen && r.signals == r.notified)
  {
    var p := Run(Initial(screen), before);
    RunInvariant(Initial(screen), before);
    UnforcedRunsEnd(p, quiet);
    RunSplit(Initial(screen), before, quiet);
    if Settled(Run(p, quiet)) && p.registered && !p.loop.stopped {
      ReplicaAtRest(screen, before + quiet);
    }
  }

  /** The service never shows a value that the screen has not notified, but for the initial zeros. */
  lemma ReplicaNeverInvents(screen: ActiveOutputs, moves: seq<Move>)
    requires Feasible(Initial(screen), moves)
    ensures var p := Run(Initial(screen), moves);
      p.service in p.notified || (p.signals == [] && p.service == ActiveOutputs(0, 0))
  {
    RunInvariant(Initial(screen), moves);
    SignalsAreAPrefix(screen, moves);
  }

  /** The values due to the service's handler: the current one on registering, and each change while registered. */
  function Due(screen: ActiveOutputs, registered: bool, moves: seq<Move>): seq<ActiveOutputs>
    decreases |moves|
  {
    if moves == [] then []
    else
      match moves[0]
      case Registers => [screen] + Due(screen, true, moves[1..])
      case Unregisters => Due(screen, false, moves[1..])
      case Changes(v) => (if registered then [v] else []) + Due(v, registered, moves[1..])
      case _ => Due(screen, registered, moves[1..])
  }

  function Held(p: Pipeline): seq<ActiveOutputs> {
    if p.holding == None then [] else [p.holding.value]
  }

  /** The handler is called with every value due, in order; at most the last one is still held. */
  lemma {:induction false} HandlerMissesNothing(p: Pipeline, moves: seq<Move>)
    requires Feasible(p, moves)
    ensures Run(p, moves).notified + Held(Run(p, moves)) == p.notified + Held(p) + Due(p.screen, p.registered, moves)
    decreases |moves|
  {
    if moves != [] {
      HandlerMissesNothing(After(p, moves[0]), moves[1..]);
    }
  }
}
