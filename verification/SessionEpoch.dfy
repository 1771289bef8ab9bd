/**
 * The session's generation epoch. Event pumps and resumed calls capture it, and their later writes
 * apply only while it still matches; a reset moves it on.
 */
module SessionEpoch {
  import opened Bytes
  import opened Wrappers
  import opened Neutral
  import opened Session
  import opened OutputBuffer

  // --- the guarded writers ---

  function Pumped(s: Inner, generation: nat, events: seq<BackendEvent>): Inner {
    if events == [] then s
    else
      var before := Pumped(s, generation, events[..|events| - 1]);
      match events[|events| - 1]
      case ProgramOutput(_, _) => before
      case SessionEnded(code) => TerminateIf(before, generation, code)
  }

  function OutputsOf(events: seq<BackendEvent>): seq<OutputEntry> {
    if events == [] then []
    else
      OutputsOf(events[..|events| - 1])
      + match events[|events| - 1]
        case ProgramOutput(category, text) => [OutputEntry(category, text)]
        case SessionEnded(_) => []
  }

  /** Drains a backend's events into the session it was spawned for. */
  class EventPump {
    const session: SessionManager
    const output: OutputBuffer
    const generation: nat

    constructor (session: SessionManager, output: OutputBuffer, generation: nat)
      ensures this.session == session && this.output == output && this.generation == generation
    {
      this.session, this.output, this.generation := session, output, generation;
    }

    method Handle(event: BackendEvent)
      requires output.Valid()
      modifies session, output
      ensures output.Valid()
      ensures match event
              case ProgramOutput(category, text) =>
                session.inner == old(session.inner) && output.since == old(output.since) + [OutputEntry(category, text)]
              case SessionEnded(code) =>
                session.inner == TerminateIf(old(session.inner), generation, code) && output.since == old(output.since)
    {
      match event
      case ProgramOutput(category, text) => output.Append(category, text);
      case SessionEnded(code) => var _ := session.TerminateIfGeneration(generation, code);
    }

    /** Undisturbed, until the stream ends. */
    method Run(events: seq<BackendEvent>)
      requires output.Valid()
      modifies session, output
      ensures output.Valid()
      ensures session.inner == Pumped(old(session.inner), generation, events)
      ensures output.since == old(output.since) + OutputsOf(events)
    {
      for n := 0 to |events|
        invariant output.Valid()
        invariant session.inner == Pumped(old(session.inner), generation, events[..n])
        invariant output.since == old(output.since) + OutputsOf(events[..n])
      {
        OneMoreEvent(old(session.inner), old(output.since), generation, events, n);
        Handle(events[n]);
      }
      assert events[..|events|] == events;
    }
  }

  lemma OneMoreEvent(s: Inner, since: seq<OutputEntry>, generation: nat, events: seq<BackendEvent>, n: nat)
    requires n < |events|
    ensures var before := Pumped(s, generation, events[..n]);
            Pumped(s, generation, events[..n + 1]) ==
            match events[n]
            case ProgramOutput(_, _) => before
            case SessionEnded(code) => TerminateIf(before, generation, code)
    ensures since + OutputsOf(events[..n + 1]) ==
            since + OutputsOf(events[..n])
            + match events[n]
              case ProgramOutput(category, text) => [OutputEntry(category, text)]
              case SessionEnded(_) => []
  {
    assert events[..n + 1][..n] == events[..n];
  }

  /** What a resumed call does with its outcome. The output is drained whether or not the guard held. */
  method HandleStopResult(session: SessionManager, output: OutputBuffer, outcome: StopOutcome, generation: nat)
    returns (entries: seq<OutputEntry>)
    requires output.Valid()
    modifies session, output
    ensures output.Valid()
    ensures session.inner ==
            if old(session.inner).generation != generation then old(session.inner)
            else match outcome
                 case Stopped(info) => old(session.inner).(state := Halted, lastStopped := Some(info))
                 case Exited(None) => old(session.inner).(state := Ended)
                 case Exited(Some(code)) => old(session.inner).(state := Ended, exitCode := Some(code))
                 case Terminated => old(session.inner).(state := Ended)
    ensures outcome.Terminated? ==> output.since == old(output.since) && entries == []
    ensures !outcome.Terminated? ==> output.since == [] && entries == Drained(old(output.since))
  {
    match outcome
    case Stopped(info) =>
      var applied := session.SetStateIfGeneration(generation, Halted);
      if applied {
        session.SetLastStopped(info);
      }
      entries := output.Drain();
    case Exited(code) =>
      var _ := session.TerminateIfGeneration(generation, code);
      entries := output.Drain();
    case Terminated =>
      var _ := session.SetStateIfGeneration(generation, Ended);
      entries := [];
  }

  /** The whole of a reset: the record under its lock, then the output buffer under its own. */
  method ResetSession(session: SessionManager, output: OutputBuffer)
    requires output.Valid()
    modifies session, output
    ensures session.inner == Reset(old(session.inner))
    ensures output.Valid() && output.since == []
  {
    session.Clear();
    var _ := output.Drain();
  }

  // --- every interleaving ---

  datatype Write = Become(state: State) | Finish(code: Option<int>)

  /** The other writes to the session check no epoch. */
  datatype FreeWrite = FreeState(state: State) | FreeCode(code: int) | FreeStop(info: StopInfo)

  /** Workers are numbered in the order in which they captured the epoch. */
  datatype Step = Clear | Capture | Guarded(worker: nat, write: Write) | Unguarded(free: FreeWrite)

  /** `resets` and `epochs` count the resets, unbounded, so far and up to each capture. */
  datatype System = System(inner: Inner, captured: seq<nat>, resets: nat, epochs: seq<nat>)

  const START := System(FRESH, [], 0, [])

  function Attempt(s: Inner, generation: nat, write: Write): Inner {
    match write
    case Become(state) => SetStateIf(s, generation, state)
    case Finish(code) => TerminateIf(s, generation, code)
  }

  function Next(y: System, step: Step): System {
    match step
    case Clear => y.(inner := Reset(y.inner), resets := y.resets + 1)
    case Capture => y.(captured := y.captured + [y.inner.generation], epochs := y.epochs + [y.resets])
    case Guarded(worker, write) =>
      if worker < |y.captured| then y.(inner := Attempt(y.inner, y.captured[worker], write)) else y
    case Unguarded(free) =>
      y.(inner := match free
                  case FreeState(state) => y.inner.(state := state)
                  case FreeCode(code) => y.inner.(exitCode := Some(code))
                  case FreeStop(info) => y.inner.(lastStopped := Some(info)))
  }

  function Run(steps: seq<Step>): System {
    if steps == [] then START else Next(Run(steps[..|steps| - 1]), steps[|steps| - 1])
  }

  /** A guarded write of a worker whose session was reset since it captured the epoch. */
  predicate Stale(y: System, step: Step) {
    step.Guarded? && step.worker < |y.epochs| && y.epochs[step.worker] != y.resets
  }

  /** The run with all stale guarded writes deleted. */
  function Erased(steps: seq<Step>): seq<Step> {
    if steps == [] then []
    else
      var n := |steps| - 1;
      Erased(steps[..n]) + if Stale(Run(steps[..n]), steps[n]) then [] else [steps[n]]
  }

  lemma {:induction false} GenerationCountsResets(steps: seq<Step>)
    ensures var y := Run(steps);
            && y.inner.generation == y.resets % U64_LIMIT
            && |y.captured| == |y.epochs|
            && forall w | 0 <= w < |y.epochs| :: y.epochs[w] <= y.resets && y.captured[w] == y.epochs[w] % U64_LIMIT
  {
    if steps != [] {
      var n := |steps| - 1;
      GenerationCountsResets(steps[..n]);
      SuccessorMod(Run(steps[..n]).resets);
    }
  }

  lemma SuccessorMod(n: nat)
    ensures (n % U64_LIMIT + 1) % U64_LIMIT == (n + 1) % U64_LIMIT
  {
  }

  /** The guard lets a worker through exactly when the resets since its capture are a multiple of 2^64. */
  lemma GuardPassesExactly(steps: seq<Step>, worker: nat)
    requires worker < |Run(steps).captured|
    ensures |Run(steps).epochs| == |Run(steps).captured| && Run(steps).epochs[worker] <= Run(steps).resets
    ensures Run(steps).captured[worker] == Run(steps).inner.generation <==>
            (Run(steps).resets - Run(steps).epochs[worker]) % U64_LIMIT == 0
  {
    var y := Run(steps);
    GenerationCountsResets(steps);
    SameRemainder(y.resets, y.epochs[worker]);
  }

  lemma SameRemainder(a: nat, b: nat)
    requires b <= a
    ensures a % U64_LIMIT == b % U64_LIMIT <==> (a - b) % U64_LIMIT == 0
  {
  }

  lemma RunOneMore(steps: seq<Step>, step: Step)
    ensures Run(steps + [step]) == Next(Run(steps), step)
    ensures Erased(steps + [step]) == Erased(steps) + if Stale(Run(steps), step) then [] else [step]
  {
    assert (steps + [step])[..|steps|] == steps;
  }

  /**
   * With fewer than 2^64 resets, no stale write ever does anything: the whole session, its state
   * and exit code included, equals that of the run without them.
   */
  lemma {:induction false} EpochErasure(steps: seq<Step>)
    requires Run(steps).resets < U64_LIMIT
    ensures Run(Erased(steps)) == Run(steps)
  {
    if steps != [] {
      var n := |steps| - 1;
      var (y, step) := (Run(steps[..n]), steps[n]);
      EpochErasure(steps[..n]);
      if Stale(y, step) {
        StaleDoesNothing(steps[..n], step);
        assert Erased(steps) == Erased(steps[..n]);
      } else {
        RunOneMore(Erased(steps[..n]), step);
      }
    }
  }

  lemma StaleDoesNothing(steps: seq<Step>, step: Step)
    requires Run(steps).resets < U64_LIMIT && Stale(Run(steps), step)
    ensures Next(Run(steps), step) == Run(steps)
  {
    var y := Run(steps);
    GenerationCountsResets(steps);
    SmallMod(y.resets);
    SmallMod(y.epochs[step.worker]);
  }

  lemma SmallMod(n: nat)
    requires n < U64_LIMIT
    ensures n % U64_LIMIT == n
  {
  }

  function Clears(n: nat): seq<Step> {
    if n == 0 then [] else Clears(n - 1) + [Clear]
  }

  lemma ClearsGrow(steps: seq<Step>, n: nat)
    requires n > 0
    ensures steps + Clears(n) == steps + Clears(n - 1) + [Clear]
  {
  }

  lemma {:induction false} OnlyClears(steps: seq<Step>, n: nat)
    ensures var (y, z) := (Run(steps), Run(steps + Clears(n)));
            && z.resets == y.resets + n && z.captured == y.captured && z.epochs == y.epochs
            && (n > 0 ==> z.inner == FRESH.(generation := z.inner.generation))
  {
    if n == 0 {
      assert steps + Clears(n) == steps;
    } else {
      OnlyClears(steps, n - 1);
      RunOneMore(steps + Clears(n - 1), Clear);
      ClearsGrow(steps, n);
    }
  }

  lemma {:induction false} ClearsStay(steps: seq<Step>, n: nat)
    ensures Erased(steps + Clears(n)) == Erased(steps) + Clears(n)
  {
    if n == 0 {
      assert steps + Clears(n) == steps;
      assert Erased(steps) + Clears(n) == Erased(steps);
    } else {
      ClearsStay(steps, n - 1);
      RunOneMore(steps + Clears(n - 1), Clear);
      ClearsGrow(steps, n);
      ClearsGrow(Erased(steps), n);
    }
  }

  /**
   * The bound is needed: after 2^64 resets, or any other multiple, a stale termination ends a session
   * that is not its own.
   */
  lemma WrappedEpoch(resets: nat, code: int)
    requires resets > 0 && resets % U64_LIMIT == 0
    ensures var steps := [Capture] + Clears(resets) + [Guarded(0, Finish(Some(code)))];
            && Run(steps).inner.state == Ended && Run(steps).inner.exitCode == Some(code)
            && Run(Erased(steps)).inner.state == Idle && Run(Erased(steps)).inner.exitCode == None
  {
    var before := [Capture] + Clears(resets);
    CapturedOnce();
    OnlyClears([Capture], resets);
    ClearsStay([Capture], resets);
    GenerationCountsResets(before);
    LateTermination(before, code);
  }

  lemma CapturedOnce()
    ensures Run([Capture]) == System(FRESH, [0], 0, [0]) && Erased([Capture]) == [Capture]
  {
    RunOneMore([], Capture);
    assert [] + [Capture] == [Capture];
  }

  /** A termination under the current generation, by a worker that captured it before a reset. */
  lemma LateTermination(before: seq<Step>, code: int)
    requires var y := Run(before);
             && y.captured == [y.inner.generation] && |y.epochs| == 1 && y.epochs[0] != y.resets
             && y.inner.state == Idle && y.inner.exitCode == None
    requires Erased(before) == before
    ensures var steps := before + [Guarded(0, Finish(Some(code)))];
            && Run(steps).inner.state == Ended && Run(steps).inner.exitCode == Some(code)
            && Run(Erased(steps)).inner.state == Idle && Run(Erased(steps)).inner.exitCode == None
  {
    var last := Guarded(0, Finish(Some(code)));
    RunOneMore(before, last);
    assert Erased(before + [last]) == before;
  }
}
