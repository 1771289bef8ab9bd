/**
 * The lldb handshakes as step machines: a caller working through launch or attach, over the DAP
 * client's shared state, against a read loop that performs whatever sections the adapter
 * provokes and may lose the transport at any point. Every step is one lock section or one write.
 */
module LaunchHandshake {
  import opened Wrappers
  import opened Neutral
  import opened DapClient
  import Stops = StopWaiter
  import ReadLoop

  datatype Ask =
    | Initialize
    | Launch
    | Attach
    | SetBreakpoints(file: nat)
    | SetFunctionBreakpoints
    | SetExceptionBreakpoints
    | ConfigurationDone

  /** `Call` sends and waits for the response, `Post` sends and keeps the receiver for later. */
  datatype Op =
    | Call(ask: Ask)
    | Post(ask: Ask)
    | AwaitInitialized
    | RegisterStop
    | AwaitPosted
    | AwaitStop

  // --- the programs ---

  function LaunchProgram(files: nat, functions: bool, stopOnEntry: bool): seq<Op> {
    [Call(Initialize), Post(Launch), AwaitInitialized]
    + seq(files, f requires 0 <= f < files => Call(SetBreakpoints(f)))
    + (if functions then [Call(SetFunctionBreakpoints)] else [])
    + [Call(SetExceptionBreakpoints)]
    + (if stopOnEntry then [RegisterStop] else [])
    + [Call(ConfigurationDone), AwaitPosted]
    + (if stopOnEntry then [AwaitStop] else [])
  }

  /** No flush, and the stop waiter comes last. */
  const ATTACH := [
    Call(Initialize), Post(Attach), AwaitInitialized, Call(SetExceptionBreakpoints), Call(ConfigurationDone),
    AwaitPosted, RegisterStop, AwaitStop
  ]

  /** Which responses let the caller go on; some are not looked at beyond having arrived. */
  predicate Acceptable(ask: Ask, reply: Stops.Channel<Reply>) {
    && reply.Delivered?
    && reply.value.Answer?
    && match ask
       case SetBreakpoints(_) => reply.value.response.command == "setBreakpoints" && reply.value.response.success
       case SetExceptionBreakpoints => true
       case ConfigurationDone => true
       case _ => reply.value.response.success
  }

  /** A stop waiter whose sender is gone counts as terminated. */
  function OutcomeOf(channel: Stops.Channel<StopOutcome>): StopOutcome {
    if channel.Delivered? then channel.value else Terminated
  }

  // --- the machine ---

  datatype Stage = Ready | Numbered(n: nat) | Enrolled(n: nat, receiver: nat) | Written(receiver: nat)

  datatype Ending = Refused(op: nat) | Ran | FirstStop(outcome: StopOutcome)

  datatype Caller = Caller(pc: nat, stage: Stage, posted: Option<nat>, stop: Option<nat>, result: Option<Ending>)

  /** The read loop reads until the transport fails, then recovers in three sections, then is gone. */
  datatype LoopPhase = Reading | Drained | Released | Gone

  /** `sent` records whether each request's write succeeded, `history` what the stop waiter saw. */
  datatype System = System(world: ReadLoop.World, loop: LoopPhase, caller: Caller, sent: seq<bool>,
      history: seq<Stops.Op>)

  datatype Step = LoopStep(act: ReadLoop.Act) | CallerStep(writes: bool)

  const START := System(
    ReadLoop.World(NEW, Stops.EMPTY, ReadLoop.OPENED), Reading, Caller(0, Ready, None, None, None), [], [])

  predicate LoopEnabled(phase: LoopPhase, act: ReadLoop.Act) {
    match phase
    case Reading => true
    case Drained => act == ReadLoop.Producing(Terminated)
    case Released => act == ReadLoop.Firing
    case Gone => false
  }

  function LoopNext(y: System, act: ReadLoop.Act): System {
    y.(world := ReadLoop.Perform(y.world, act),
       history := y.history + (if act.Producing? then [Stops.Produced(act.outcome)] else []),
       loop := match y.loop
               case Reading => if act.Draining? then Drained else Reading
               case Drained => Released
               case _ => Gone)
  }

  predicate Arrived(replies: seq<Stops.Channel<Reply>>, receiver: nat) {
    receiver < |replies| && replies[receiver] != Stops.Open
  }

  predicate Settles(channels: seq<Stops.Channel<StopOutcome>>, receiver: nat) {
    receiver < |channels| && channels[receiver] != Stops.Open
  }

  predicate CallerEnabled(program: seq<Op>, y: System) {
    var (c, w) := (y.caller, y.world);
    && c.result == None
    && (c.pc < |program| ==>
          match program[c.pc]
          case Call(_) => c.stage.Written? ==> Arrived(w.shared.replies, c.stage.receiver)
          case Post(_) => !c.stage.Written?
          case AwaitInitialized => w.shared.initialized
          case RegisterStop => true
          case AwaitPosted => c.posted.Some? && Arrived(w.shared.replies, c.posted.value)
          case AwaitStop => c.stop.Some? && Settles(w.stops.channels, c.stop.value))
  }

  function Advance(c: Caller): Caller {
    c.(pc := c.pc + 1, stage := Ready)
  }

  /** Number, register or write the request at hand. A failed write takes the entry out again. */
  function Issue(y: System, writes: bool, written: Caller): System {
    var (c, s) := (y.caller, y.world.shared);
    match c.stage
    case Ready =>
      y.(world := y.world.(shared := s.(seq_ := s.seq_ + 1)), caller := c.(stage := Numbered(s.seq_ + 1)))
    case Numbered(n) =>
      y.(world := y.world.(shared := Enter(s, n)), caller := c.(stage := Enrolled(n, |s.replies|)))
    case Enrolled(n, _) =>
      if writes then y.(sent := y.sent + [true], caller := written)
      else
        y.(world := y.world.(shared := Take(s, n, Stops.Closed)), sent := y.sent + [false],
           caller := c.(result := Some(Refused(c.pc))))
    case Written(_) => y
  }

  function Check(c: Caller, ask: Ask, reply: Stops.Channel<Reply>): Caller {
    if Acceptable(ask, reply) then Advance(c) else c.(result := Some(Refused(c.pc)))
  }

  function CallerNext(program: seq<Op>, y: System, writes: bool): System
    requires CallerEnabled(program, y)
  {
    var (c, w) := (y.caller, y.world);
    if c.pc >= |program| then y.(caller := c.(result := Some(Ran)))
    else
      match program[c.pc]
      case Call(ask) =>
        if c.stage.Written? then y.(caller := Check(c, ask, w.shared.replies[c.stage.receiver]))
        else Issue(y, writes, if c.stage.Enrolled? then c.(stage := Written(c.stage.receiver)) else c)
      case Post(_) =>
        Issue(y, writes, if c.stage.Enrolled? then Advance(c).(posted := Some(c.stage.receiver)) else c)
      case AwaitInitialized => y.(caller := Advance(c))
      case RegisterStop =>
        y.(world := w.(stops := Stops.Register(w.stops)), history := y.history + [Stops.Registered],
           caller := Advance(c).(stop := Some(|w.stops.channels|)))
      case AwaitPosted => y.(caller := Check(c, Launch, w.shared.replies[c.posted.value]))
      case AwaitStop => y.(caller := Advance(c).(result := Some(FirstStop(OutcomeOf(w.stops.channels[c.stop.value])))))
  }

  predicate Enabled(program: seq<Op>, y: System, step: Step) {
    match step
    case LoopStep(act) => LoopEnabled(y.loop, act)
    case CallerStep(_) => CallerEnabled(program, y)
  }

  function Next(program: seq<Op>, y: System, step: Step): System
    requires Enabled(program, y, step)
  {
    match step
    case LoopStep(act) => LoopNext(y, act)
    case CallerStep(writes) => CallerNext(program, y, writes)
  }

  ghost predicate IsRun(program: seq<Op>, systems: seq<System>, steps: seq<Step>) {
    && |systems| == |steps| + 1
    && systems[0] == START
    && forall k | 0 <= k < |steps| ::
        Enabled(program, systems[k], steps[k]) && systems[k + 1] == Next(program, systems[k], steps[k])
  }

  // --- what each operation needs, told by facts that never change back ---

  datatype Facts = Facts(sent: seq<bool>, replies: seq<Stops.Channel<Reply>>, initialized: bool,
      stops: seq<Stops.Channel<StopOutcome>>)

  function FactsOf(y: System): Facts {
    Facts(y.sent, y.world.shared.replies, y.world.shared.initialized, y.world.stops.channels)
  }

  /** The requests among the first `p` operations: operation `p`, if a request, is number `Requests(program, p) + 1`. */
  function Requests(program: seq<Op>, p: nat): nat
    requires p <= |program|
  {
    if p == 0 then 0 else Requests(program, p - 1) + if program[p - 1].Call? || program[p - 1].Post? then 1 else 0
  }

  function RegisterOps(program: seq<Op>, p: nat): nat
    requires p <= |program|
  {
    if p == 0 then 0 else RegisterOps(program, p - 1) + if program[p - 1].RegisterStop? then 1 else 0
  }

  /** The newest kept receiver before operation `p`. */
  function PostedAt(program: seq<Op>, p: nat): Option<nat>
    requires p <= |program|
  {
    if p == 0 then None
    else if program[p - 1].Post? then Some(Requests(program, p - 1))
    else PostedAt(program, p - 1)
  }

  datatype Judgement = Undecided | Passed | Failed

  function JudgeReply(f: Facts, ask: Ask, receiver: nat): Judgement {
    if !Arrived(f.replies, receiver) then Undecided
    else if Acceptable(ask, f.replies[receiver]) then Passed
    else Failed
  }

  function JudgeWrite(f: Facts, j: nat): Judgement {
    if j >= |f.sent| then Undecided else if f.sent[j] then Passed else Failed
  }

  /** How operation `p` fares, from the facts alone: not from when they came about. */
  function Judge(program: seq<Op>, p: nat, f: Facts): Judgement
    requires p < |program|
  {
    var j := Requests(program, p);
    match program[p]
    case Call(ask) => if JudgeWrite(f, j) == Passed then JudgeReply(f, ask, j) else JudgeWrite(f, j)
    case Post(_) => JudgeWrite(f, j)
    case AwaitInitialized => if f.initialized then Passed else Undecided
    case RegisterStop => if RegisterOps(program, p) < |f.stops| then Passed else Undecided
    case AwaitPosted =>
      var posted := PostedAt(program, p);
      if posted.Some? then JudgeReply(f, Launch, posted.value) else Undecided
    case AwaitStop =>
      var r := RegisterOps(program, p);
      if 0 < r <= |f.stops| && f.stops[r - 1] != Stops.Open then Passed else Undecided
  }

  function StopAt(program: seq<Op>, p: nat, f: Facts): StopOutcome
    requires p < |program|
  {
    var r := RegisterOps(program, p);
    if 0 < r <= |f.stops| then OutcomeOf(f.stops[r - 1]) else Terminated
  }

  /** How the program ends, from the facts alone: the first operation that does not pass decides. */
  function Expected(program: seq<Op>, p: nat, f: Facts): (ending: Ending)
    requires p <= |program|
    ensures ending.Refused? ==> ending.op < |program|
    decreases |program| - p
  {
    if p == |program| then Ran
    else if Judge(program, p, f) != Passed then Refused(p)
    else if program[p].AwaitStop? then FirstStop(StopAt(program, p, f))
    else Expected(program, p + 1, f)
  }

  ghost predicate Settled<T(!new)>(before: seq<Stops.Channel<T>>, after: seq<Stops.Channel<T>>) {
    && |before| <= |after|
    && forall k | 0 <= k < |before| && before[k] != Stops.Open :: after[k] == before[k]
  }

  ghost predicate Grows(f: Facts, g: Facts) {
    && f.sent <= g.sent
    && Settled(f.replies, g.replies)
    && (f.initialized ==> g.initialized)
    && Settled(f.stops, g.stops)
  }

  lemma JudgementStands(program: seq<Op>, p: nat, f: Facts, g: Facts)
    requires p < |program| && Grows(f, g) && Judge(program, p, f) != Undecided
    ensures Judge(program, p, g) == Judge(program, p, f)
  {
  }

  // --- the invariant ---

  ghost predicate Counted(program: seq<Op>, y: System)
    requires y.caller.pc <= |program|
  {
    var (c, s) := (y.caller, y.world.shared);
    var j := Requests(program, c.pc);
    && c.posted == PostedAt(program, c.pc)
    && (c.stage != Ready ==> c.pc < |program| && (program[c.pc].Call? || (program[c.pc].Post? && !c.stage.Written?)))
    && s.seq_ == j + (if c.stage == Ready then 0 else 1)
    && |s.replies| == j + (if c.stage.Enrolled? || c.stage.Written? then 1 else 0)
    && |y.sent| == j + (if c.stage.Written? || (c.stage.Enrolled? && c.result.Some?) then 1 else 0)
    && (c.stage.Numbered? ==> c.stage.n == j + 1)
    && (c.stage.Enrolled? ==> c.stage.n == j + 1 && c.stage.receiver == j)
    && (c.stage.Written? ==> c.stage.receiver == j && y.sent[j])
  }

  /** Request `c + 1` owns channel `c`, and is pending exactly while that channel is open. */
  ghost predicate Mapped(s: Shared) {
    && (forall q <- s.pending :: 1 <= q <= |s.replies| && s.pending[q] == q - 1)
    && (forall c: nat | c < |s.replies| :: s.replies[c] == Stops.Open <==> c + 1 in s.pending)
  }

  ghost predicate Recorded(program: seq<Op>, y: System)
    requires y.caller.pc <= |program|
  {
    && y.world.stops == Stops.Run(y.history)
    && Stops.Registrations(y.history) == RegisterOps(program, y.caller.pc)
    && y.caller.stop == if RegisterOps(program, y.caller.pc) == 0 then None
        else Some(RegisterOps(program, y.caller.pc) - 1 as nat)
  }

  ghost predicate PassedBefore(program: seq<Op>, pc: nat, f: Facts)
    requires pc <= |program|
  {
    forall p | 0 <= p < pc :: Judge(program, p, f) == Passed
  }

  ghost predicate Concluded(program: seq<Op>, y: System)
    requires y.caller.pc <= |program|
  {
    var (c, f) := (y.caller, FactsOf(y));
    && (forall p | 0 <= p < c.pc && program[p].AwaitStop? ::
        p == c.pc - 1 && c.result == Some(FirstStop(StopAt(program, p, f))))
    && (c.result.Some? ==>
          match c.result.value
          case Refused(op) => op == c.pc < |program| && Judge(program, op, f) == Failed
          case Ran => c.pc == |program|
          case FirstStop(_) => 0 < c.pc && program[c.pc - 1].AwaitStop?)
  }

  ghost predicate Inv(program: seq<Op>, y: System) {
    && y.caller.pc <= |program|
    && Counted(program, y)
    && Mapped(y.world.shared)
    && Recorded(program, y)
    && PassedBefore(program, y.caller.pc, FactsOf(y))
    && Concluded(program, y)
  }

  lemma SharedActKeeps(s: Shared, act: ReadLoop.Act, w: ReadLoop.World)
    requires w.shared == s && Mapped(s)
    ensures var t := ReadLoop.Perform(w, act).shared;
            && Mapped(t) && Settled(s.replies, t.replies) && |t.replies| == |s.replies| && t.seq_ == s.seq_
            && (s.initialized ==> t.initialized)
  {
    if act.Draining? {
      forall c: nat | c < |s.replies|
        ensures c in s.pending.Values <==> s.replies[c] == Stops.Open
      {
        assert s.replies[c] == Stops.Open ==> s.pending[c + 1] == c;
      }
    }
  }

  lemma StopOpKeeps(history: seq<Stops.Op>, op: Stops.Op)
    ensures Stops.Run(history + [op]) == Stops.Apply(Stops.Run(history), op)
    ensures Stops.Registrations(history + [op]) == Stops.Registrations(history) + if op.Registered? then 1 else 0
    ensures Settled(Stops.Run(history).channels, Stops.Run(history + [op]).channels)
  {
    assert (history + [op])[..|history|] == history;
    Stops.TraceLaw(history);
  }

  /** What passed stays passed, and what concluded stays concluded, when the facts grow. */
  lemma GrowthKeeps(program: seq<Op>, y: System, z: System)
    requires Inv(program, y) && z.caller == y.caller && Grows(FactsOf(y), FactsOf(z))
    ensures PassedBefore(program, z.caller.pc, FactsOf(z)) && Concluded(program, z)
  {
    var (f, g, pc) := (FactsOf(y), FactsOf(z), y.caller.pc);
    forall p | 0 <= p < pc
      ensures Judge(program, p, g) == Passed
      ensures program[p].AwaitStop? ==> StopAt(program, p, g) == StopAt(program, p, f)
    {
      assert Judge(program, p, f) == Passed;
      JudgementStands(program, p, f, g);
    }
    if pc < |program| && Judge(program, pc, f) == Failed {
      JudgementStands(program, pc, f, g);
    }
  }

  lemma LoopKeeps(program: seq<Op>, y: System, act: ReadLoop.Act)
    requires Inv(program, y) && LoopEnabled(y.loop, act)
    ensures Inv(program, LoopNext(y, act)) && Grows(FactsOf(y), FactsOf(LoopNext(y, act)))
  {
    var z := LoopNext(y, act);
    SharedActKeeps(y.world.shared, act, y.world);
    if act.Producing? {
      StopOpKeeps(y.history, Stops.Produced(act.outcome));
    } else {
      assert z.history == y.history;
    }
    GrowthKeeps(program, y, z);
  }

  /** Stepping past an operation that passed. */
  lemma PassingKeeps(program: seq<Op>, y: System, z: System)
    requires Inv(program, y) && y.caller.pc < |program| && y.caller.result == None && Grows(FactsOf(y), FactsOf(z))
    requires z.caller.pc == y.caller.pc + 1 && Judge(program, y.caller.pc, FactsOf(z)) == Passed
    requires z.caller.result ==
             if program[y.caller.pc].AwaitStop? then Some(FirstStop(StopAt(program, y.caller.pc, FactsOf(z)))) else None
    ensures PassedBefore(program, z.caller.pc, FactsOf(z)) && Concluded(program, z)
  {
    PassedStands(program, y.caller.pc, FactsOf(y), FactsOf(z));
    NoStopBehind(program, y);
  }

  lemma PassedStands(program: seq<Op>, pc: nat, f: Facts, g: Facts)
    requires pc <= |program| && PassedBefore(program, pc, f) && Grows(f, g)
    ensures PassedBefore(program, pc, g)
  {
    forall p | 0 <= p < pc
      ensures Judge(program, p, g) == Passed
    {
      assert Judge(program, p, f) == Passed;
      JudgementStands(program, p, f, g);
    }
  }

  /** A caller that has not returned has awaited no stop yet. */
  lemma NoStopBehind(program: seq<Op>, y: System)
    requires Inv(program, y) && y.caller.result == None
    ensures forall p | 0 <= p < y.caller.pc :: !program[p].AwaitStop?
  {
  }

  ghost predicate AtRequest(program: seq<Op>, y: System) {
    && CallerEnabled(program, y) && y.caller.pc < |program|
    && (program[y.caller.pc].Post? || (program[y.caller.pc].Call? && !y.caller.stage.Written?))
  }

  lemma NumberKeeps(program: seq<Op>, y: System, writes: bool)
    requires Inv(program, y) && AtRequest(program, y) && y.caller.stage.Ready?
    ensures Inv(program, CallerNext(program, y, writes)) && Grows(FactsOf(y), FactsOf(CallerNext(program, y, writes)))
  {
    GrowthKeeps(program, y, CallerNext(program, y, writes).(caller := y.caller));
  }

  lemma EnrollKeeps(program: seq<Op>, y: System, writes: bool)
    requires Inv(program, y) && AtRequest(program, y) && y.caller.stage.Numbered?
    ensures Inv(program, CallerNext(program, y, writes)) && Grows(FactsOf(y), FactsOf(CallerNext(program, y, writes)))
  {
    SharedEnterKeeps(y.world.shared, y.caller.stage.n);
    GrowthKeeps(program, y, CallerNext(program, y, writes).(caller := y.caller));
  }

  lemma SharedEnterKeeps(s: Shared, n: nat)
    requires Mapped(s) && n == |s.replies| + 1
    ensures var t := Enter(s, n);
            && Mapped(t) && Settled(s.replies, t.replies) && |t.replies| == |s.replies| + 1
            && t.seq_ == s.seq_ && t.initialized == s.initialized
  {
  }

  lemma WriteKeeps(program: seq<Op>, y: System)
    requires Inv(program, y) && AtRequest(program, y) && y.caller.stage.Enrolled?
    ensures Inv(program, CallerNext(program, y, true)) && Grows(FactsOf(y), FactsOf(CallerNext(program, y, true)))
  {
    var z := CallerNext(program, y, true);
    if program[y.caller.pc].Post? {
      PassingKeeps(program, y, z);
    } else {
      GrowthKeeps(program, y, z.(caller := y.caller));
    }
  }

  lemma FailedWriteKeeps(program: seq<Op>, y: System)
    requires Inv(program, y) && AtRequest(program, y) && y.caller.stage.Enrolled?
    ensures Inv(program, CallerNext(program, y, false)) && Grows(FactsOf(y), FactsOf(CallerNext(program, y, false)))
  {
    var z := CallerNext(program, y, false);
    SharedTakeKeeps(y.world.shared, y.caller.stage.n);
    GrowthKeeps(program, y, z.(caller := y.caller));
  }

  lemma SharedTakeKeeps(s: Shared, n: nat)
    requires Mapped(s)
    ensures var t := Take(s, n, Stops.Closed); Mapped(t) && Settled(s.replies, t.replies) && |t.replies| == |s.replies|
  {
  }

  lemma IssueKeeps(program: seq<Op>, y: System, writes: bool)
    requires Inv(program, y) && AtRequest(program, y)
    ensures Inv(program, CallerNext(program, y, writes)) && Grows(FactsOf(y), FactsOf(CallerNext(program, y, writes)))
  {
    match y.caller.stage
    case Ready => NumberKeeps(program, y, writes);
    case Numbered(_) => EnrollKeeps(program, y, writes);
    case Enrolled(_, _) =>
      if writes {
        WriteKeeps(program, y);
      } else {
        FailedWriteKeeps(program, y);
      }
  }

  lemma CheckKeeps(program: seq<Op>, y: System, writes: bool)
    requires Inv(program, y) && CallerEnabled(program, y) && y.caller.pc < |program|
    requires program[y.caller.pc].AwaitPosted? || (program[y.caller.pc].Call? && y.caller.stage.Written?)
    ensures Inv(program, CallerNext(program, y, writes)) && Grows(FactsOf(y), FactsOf(CallerNext(program, y, writes)))
  {
    var z := CallerNext(program, y, writes);
    if z.caller.result == None {
      PassingKeeps(program, y, z);
    }
  }

  lemma WaitInitializedKeeps(program: seq<Op>, y: System, writes: bool)
    requires Inv(program, y) && CallerEnabled(program, y) && y.caller.pc < |program|
    requires program[y.caller.pc].AwaitInitialized?
    ensures Inv(program, CallerNext(program, y, writes))
    ensures Grows(FactsOf(y), FactsOf(CallerNext(program, y, writes)))
  {
    OneMoreOp(program, y.caller.pc);
    PassingKeeps(program, y, CallerNext(program, y, writes));
  }

  lemma RegisterKeeps(program: seq<Op>, y: System, writes: bool)
    requires Inv(program, y) && CallerEnabled(program, y) && y.caller.pc < |program|
    requires program[y.caller.pc].RegisterStop?
    ensures Inv(program, CallerNext(program, y, writes))
    ensures Grows(FactsOf(y), FactsOf(CallerNext(program, y, writes)))
  {
    Stops.TraceLaw(y.history);
    StopOpKeeps(y.history, Stops.Registered);
    OneMoreOp(program, y.caller.pc);
    PassingKeeps(program, y, CallerNext(program, y, writes));
  }

  lemma AwaitStopKeeps(program: seq<Op>, y: System, writes: bool)
    requires Inv(program, y) && CallerEnabled(program, y) && y.caller.pc < |program|
    requires program[y.caller.pc].AwaitStop?
    ensures Inv(program, CallerNext(program, y, writes))
    ensures Grows(FactsOf(y), FactsOf(CallerNext(program, y, writes)))
  {
    Stops.TraceLaw(y.history);
    OneMoreOp(program, y.caller.pc);
    PassingKeeps(program, y, CallerNext(program, y, writes));
  }

  lemma StepKeeps(program: seq<Op>, y: System, step: Step)
    requires Inv(program, y) && Enabled(program, y, step)
    ensures Inv(program, Next(program, y, step)) && Grows(FactsOf(y), FactsOf(Next(program, y, step)))
  {
    match step
    case LoopStep(act) => LoopKeeps(program, y, act);
    case CallerStep(writes) =>
      if y.caller.pc < |program| {
        match program[y.caller.pc]
        case Call(_) =>
          if y.caller.stage.Written? {
            CheckKeeps(program, y, writes);
          } else {
            IssueKeeps(program, y, writes);
          }
        case Post(_) => IssueKeeps(program, y, writes);
        case AwaitPosted => CheckKeeps(program, y, writes);
        case AwaitInitialized => WaitInitializedKeeps(program, y, writes);
        case RegisterStop => RegisterKeeps(program, y, writes);
        case AwaitStop => AwaitStopKeeps(program, y, writes);
      }
  }

  lemma {:induction false} EveryRunKeeps(program: seq<Op>, systems: seq<System>, steps: seq<Step>, k: nat)
    requires IsRun(program, systems, steps) && k < |systems|
    ensures Inv(program, systems[k])
  {
    if k > 0 {
      EveryRunKeeps(program, systems, steps, k - 1);
      StepKeeps(program, systems[k - 1], steps[k - 1]);
    }
  }

  // --- when and where things fall does not matter ---

  lemma {:induction false} ExpectedSkips(program: seq<Op>, p: nat, pc: nat, f: Facts)
    requires p <= pc <= |program| && PassedBefore(program, pc, f)
    requires forall q | p <= q < pc :: !program[q].AwaitStop?
    ensures Expected(program, p, f) == Expected(program, pc, f)
    decreases pc - p
  {
    if p < pc {
      assert Judge(program, p, f) == Passed;
      ExpectedSkips(program, p + 1, pc, f);
    }
  }

  /**
   * A finished caller's result is told by the facts alone: which writes failed, what each request
   * was answered, what the stop waiter received. When the answers and `initialized` fell is not
   * among them.
   */
  lemma ResultIsExpected(program: seq<Op>, systems: seq<System>, steps: seq<Step>, k: nat)
    requires IsRun(program, systems, steps) && k < |systems| && systems[k].caller.result.Some?
    ensures systems[k].caller.result.value == Expected(program, 0, FactsOf(systems[k]))
  {
    EveryRunKeeps(program, systems, steps, k);
    var (y, f) := (systems[k], FactsOf(systems[k]));
    match y.caller.result.value
    case Refused(op) => ExpectedSkips(program, 0, op, f);
    case Ran => ExpectedSkips(program, 0, y.caller.pc, f);
    case FirstStop(_) => ExpectedSkips(program, 0, y.caller.pc - 1, f);
  }

  lemma {:induction false} ExpectedStands(program: seq<Op>, p: nat, f: Facts, g: Facts)
    requires p <= |program| && Grows(f, g)
    requires Expected(program, p, f).Refused? ==> Judge(program, Expected(program, p, f).op, f) == Failed
    ensures Expected(program, p, g) == Expected(program, p, f)
    decreases |program| - p
  {
    if p < |program| && Judge(program, p, f) != Undecided {
      JudgementStands(program, p, f, g);
      if Judge(program, p, f) == Passed && !program[p].AwaitStop? {
        ExpectedStands(program, p + 1, f, g);
      }
    }
  }

  /**
   * Two finished callers of one program, on any two runs whose facts do not contradict each other
   * (`g` extends both), end alike: however differently the answers, `initialized` and the stop were
   * placed in the two runs.
   */
  lemma PlacementDoesNotMatter(program: seq<Op>, systems: seq<System>, steps: seq<Step>, k: nat,
                               systems': seq<System>, steps': seq<Step>, k': nat, g: Facts)
    requires IsRun(program, systems, steps) && k < |systems| && systems[k].caller.result.Some?
    requires IsRun(program, systems', steps') && k' < |systems'| && systems'[k'].caller.result.Some?
    requires Grows(FactsOf(systems[k]), g) && Grows(FactsOf(systems'[k']), g)
    ensures systems[k].caller.result == systems'[k'].caller.result
  {
    EveryRunKeeps(program, systems, steps, k);
    EveryRunKeeps(program, systems', steps', k');
    ResultIsExpected(program, systems, steps, k);
    ResultIsExpected(program, systems', steps', k');
    ExpectedStands(program, 0, FactsOf(systems[k]), g);
    ExpectedStands(program, 0, FactsOf(systems'[k']), g);
  }

  // --- which answers refuse ---

  /** The reply is a response that reports success. */
  predicate Succeeded(reply: Stops.Channel<Reply>) {
    reply.Delivered? && reply.value.Answer? && reply.value.response.success
  }

  /** No response came, and none will: the transport was cancelled or the entry was taken out. */
  predicate Lost(reply: Stops.Channel<Reply>) {
    reply == Stops.Closed || reply == Stops.Delivered(TransportClosed)
  }

  /**
   * What makes operation `p` an error, read off the system: a failed write, a lost reply, or an
   * unsuccessful response where success is looked at. A response to `setExceptionBreakpoints` or
   * `configurationDone` is never one; one to `setBreakpoints` must also carry that command.
   */
  predicate IsError(program: seq<Op>, p: nat, y: System)
    requires p < |program|
  {
    var (j, sent, replies) := (Requests(program, p), y.sent, y.world.shared.replies);
    match program[p]
    case Call(ask) =>
      || (j < |sent| && !sent[j])
      || (j < |replies| && Lost(replies[j]))
      || (j < |replies| && replies[j].Delivered? && replies[j].value.Answer? &&
          var response := replies[j].value.response;
          match ask
          case Initialize => !response.success
          case SetBreakpoints(_) => !response.success || response.command != "setBreakpoints"
          case SetFunctionBreakpoints => !response.success
          case SetExceptionBreakpoints => false
          case ConfigurationDone => false
          case Launch => !response.success
          case Attach => !response.success)
    case Post(_) => j < |sent| && !sent[j]
    case AwaitPosted =>
      var posted := PostedAt(program, p);
      && posted.Some? && posted.value < |replies|
      && replies[posted.value] != Stops.Open && !Succeeded(replies[posted.value])
    case _ => false
  }

  lemma JudgedAsRead(program: seq<Op>, p: nat, y: System)
    requires p < |program|
    ensures Judge(program, p, FactsOf(y)) == Failed ==> IsError(program, p, y)
    ensures Judge(program, p, FactsOf(y)) == Passed ==> !IsError(program, p, y)
  {
  }

  /** A finished caller was refused at an operation exactly if that one is an error and none before it is. */
  lemma RefusedExactly(program: seq<Op>, systems: seq<System>, steps: seq<Step>, k: nat, op: nat)
    requires IsRun(program, systems, steps) && k < |systems| && systems[k].caller.result.Some?
    requires forall p | 0 <= p < |program| && program[p].AwaitStop? :: p == |program| - 1
    ensures systems[k].caller.result == Some(Refused(op)) <==>
            && op < |program|
            && IsError(program, op, systems[k])
            && forall p | 0 <= p < op :: !IsError(program, p, systems[k])
  {
    EveryRunKeeps(program, systems, steps, k);
    var (y, f) := (systems[k], FactsOf(systems[k]));
    forall p: nat | p < |program|
      ensures Judge(program, p, f) == Passed ==> !IsError(program, p, y)
      ensures Judge(program, p, f) == Failed ==> IsError(program, p, y)
    {
      JudgedAsRead(program, p, y);
    }
    forall p | 0 <= p < y.caller.pc
      ensures !IsError(program, p, y)
    {
      assert Judge(program, p, f) == Passed;
    }
  }

  // --- the order on the wire ---

  /** The request of operation `p` has been written. */
  predicate OnWire(program: seq<Op>, y: System, p: nat) {
    && p < |program|
    && (program[p].Call? || program[p].Post?)
    && Requests(program, p) < |y.sent|
    && y.sent[Requests(program, p)]
  }

  lemma {:induction false} RequestsMonotone(program: seq<Op>, p: nat, q: nat)
    requires p <= q <= |program|
    ensures Requests(program, p) <= Requests(program, q)
    decreases q - p
  {
    if p < q {
      RequestsMonotone(program, p, q - 1);
    }
  }

  /** When a request is on the wire, every operation before it has passed. */
  lemma WrittenInOrder(program: seq<Op>, y: System, p: nat)
    requires Inv(program, y) && OnWire(program, y, p)
    ensures p <= y.caller.pc && PassedBefore(program, p, FactsOf(y))
  {
    if y.caller.pc < p {
      RequestsMonotone(program, y.caller.pc + 1, p);
    }
  }

  function ConfigurationAt(files: nat, functions: bool, stopOnEntry: bool): nat {
    4 + files + (if functions then 1 else 0) + if stopOnEntry then 1 else 0
  }

  /** Where everything stands in the launch program. */
  lemma LaunchShape(files: nat, functions: bool, stopOnEntry: bool)
    ensures var (program, c) := (LaunchProgram(files, functions, stopOnEntry),
        ConfigurationAt(files, functions, stopOnEntry));
            && |program| == c + 2 + (if stopOnEntry then 1 else 0)
            && program[0] == Call(Initialize) && program[1] == Post(Launch) && program[2] == AwaitInitialized
            && (forall f: nat | f < files :: program[3 + f] == Call(SetBreakpoints(f)))
            && (functions ==> program[3 + files] == Call(SetFunctionBreakpoints))
            && (stopOnEntry ==> program[c - 1] == RegisterStop && program[c + 2] == AwaitStop)
            && program[if stopOnEntry then c - 2 else c - 1] == Call(SetExceptionBreakpoints)
            && program[c] == Call(ConfigurationDone) && program[c + 1] == AwaitPosted
  {
  }

  lemma {:induction false} LaunchCounts(files: nat, functions: bool, stopOnEntry: bool, f: nat)
    requires f <= files
    ensures var program := LaunchProgram(files, functions, stopOnEntry);
            3 + f < |program| && Requests(program, 3 + f) == 2 + f
            && PostedAt(program, 3 + f) == Some(1) && RegisterOps(program, 3 + f) == 0
  {
    LaunchShape(files, functions, stopOnEntry);
    if f > 0 {
      LaunchCounts(files, functions, stopOnEntry, f - 1);
    } else {
      ThreeOps(LaunchProgram(files, functions, stopOnEntry));
    }
  }

  lemma ThreeOps(program: seq<Op>)
    requires |program| > 3 && program[0].Call? && program[1].Post? && program[2].AwaitInitialized?
    ensures Requests(program, 1) == 1 && Requests(program, 2) == 2 && Requests(program, 3) == 2
    ensures PostedAt(program, 3) == Some(1)
    ensures RegisterOps(program, 3) == 0
  {
    OneMoreOp(program, 0);
    OneMoreOp(program, 1);
    OneMoreOp(program, 2);
  }

  /** How the counts move past one operation. */
  lemma OneMoreOp(program: seq<Op>, p: nat)
    requires p < |program|
    ensures Requests(program, p + 1) == Requests(program, p) + if program[p].Call? || program[p].Post? then 1 else 0
    ensures PostedAt(program, p + 1) == if program[p].Post? then Some(Requests(program, p)) else PostedAt(program, p)
    ensures RegisterOps(program, p + 1) == RegisterOps(program, p) + if program[p].RegisterStop? then 1 else 0
    ensures Requests(program, 0) == 0 && PostedAt(program, 0) == None && RegisterOps(program, 0) == 0
  {
  }

  lemma LaunchTail(files: nat, functions: bool, stopOnEntry: bool)
    ensures var (program, c) := (LaunchProgram(files, functions, stopOnEntry),
        ConfigurationAt(files, functions, stopOnEntry));
            && c + 1 < |program|
            && PostedAt(program, c + 1) == Some(1)
            && RegisterOps(program, c) == RegisterOps(program, |program|) == if stopOnEntry then 1 else 0
  {
    LaunchShape(files, functions, stopOnEntry);
    LaunchCounts(files, functions, stopOnEntry, files);
    var (program, c) := (LaunchProgram(files, functions, stopOnEntry), ConfigurationAt(files, functions, stopOnEntry));
    var e := if functions then 4 + files else 3 + files;
    assert PostedAt(program, e) == Some(1) && RegisterOps(program, e) == 0;
    assert PostedAt(program, e + 1) == Some(1) && RegisterOps(program, e + 1) == 0;
    assert PostedAt(program, c) == Some(1);
    assert RegisterOps(program, c + 1) == RegisterOps(program, c + 2) == RegisterOps(program, c);
  }

  lemma {:induction false} RegisterOpsMonotone(program: seq<Op>, p: nat, q: nat)
    requires p <= q <= |program|
    ensures RegisterOps(program, p) <= RegisterOps(program, q)
    decreases q - p
  {
    if p < q {
      RegisterOpsMonotone(program, p, q - 1);
    }
  }

  /**
   * In every interleaving, once `configurationDone` is written, initializing succeeded, the launch
   * request is out, the adapter said `initialized`, every breakpoint flush has been answered with
   * success, and with `stop_on_entry` the stop waiter is registered.
   */
  lemma ConfiguredInOrder(files: nat, functions: bool, stopOnEntry: bool, systems: seq<System>, steps: seq<Step>,
      k: nat)
    requires IsRun(LaunchProgram(files, functions, stopOnEntry), systems, steps) && k < |systems|
    requires OnWire(LaunchProgram(files, functions, stopOnEntry), systems[k],
        ConfigurationAt(files, functions, stopOnEntry))
    ensures |systems[k].world.shared.replies| >= 2 + files + (if functions then 1 else 0)
    ensures forall j | 2 <= j < 2 + files ::
              Succeeded(systems[k].world.shared.replies[j])
              && systems[k].world.shared.replies[j].value.response.command == "setBreakpoints"
    ensures functions ==> Succeeded(systems[k].world.shared.replies[2 + files])
    ensures Succeeded(systems[k].world.shared.replies[0]) && systems[k].world.shared.initialized
    ensures |systems[k].sent| > 1 && systems[k].sent[1]
    ensures stopOnEntry ==> Stops.Registrations(systems[k].history) == 1
  {
    var (program, c, y) := (LaunchProgram(files, functions, stopOnEntry),
        ConfigurationAt(files, functions, stopOnEntry), systems[k]);
    EveryRunKeeps(program, systems, steps, k);
    WrittenInOrder(program, y, c);
    RestAcknowledged(files, functions, stopOnEntry, FactsOf(y));
    forall j | 2 <= j < 2 + files
      ensures Acceptable(SetBreakpoints(j - 2), y.world.shared.replies[j])
    {
      FileAcknowledged(files, functions, stopOnEntry, FactsOf(y), j - 2);
    }
    BeginningPassed(files, functions, stopOnEntry, FactsOf(y));
    if stopOnEntry {
      LaunchTail(files, functions, stopOnEntry);
      Stops.TraceLaw(y.history);
      RegisterOpsMonotone(program, c, y.caller.pc);
      RegisterOpsMonotone(program, y.caller.pc, |program|);
    }
  }

  lemma FileAcknowledged(files: nat, functions: bool, stopOnEntry: bool, facts: Facts, f: nat)
    requires ConfigurationAt(files, functions, stopOnEntry) <= |LaunchProgram(files, functions, stopOnEntry)|
    requires PassedBefore(LaunchProgram(files, functions, stopOnEntry), ConfigurationAt(files, functions, stopOnEntry),
        facts)
    requires f < files
    ensures 2 + f < |facts.replies| && Acceptable(SetBreakpoints(f), facts.replies[2 + f])
  {
    var program := LaunchProgram(files, functions, stopOnEntry);
    LaunchShape(files, functions, stopOnEntry);
    LaunchCounts(files, functions, stopOnEntry, f);
    assert program[3 + f] == Call(SetBreakpoints(f));
    assert Judge(program, 3 + f, facts) == Passed;
  }

  lemma RestAcknowledged(files: nat, functions: bool, stopOnEntry: bool, facts: Facts)
    requires ConfigurationAt(files, functions, stopOnEntry) <= |LaunchProgram(files, functions, stopOnEntry)|
    requires PassedBefore(LaunchProgram(files, functions, stopOnEntry), ConfigurationAt(files, functions, stopOnEntry),
        facts)
    ensures 2 + files + (if functions then 1 else 0) <= |facts.replies|
    ensures functions ==> Acceptable(SetFunctionBreakpoints, facts.replies[2 + files])
  {
    var program := LaunchProgram(files, functions, stopOnEntry);
    LaunchShape(files, functions, stopOnEntry);
    LaunchCounts(files, functions, stopOnEntry, files);
    assert Judge(program, 3 + files, facts) == Passed;
    if functions {
      assert program[3 + files] == Call(SetFunctionBreakpoints);
    } else if files == 0 {
      assert program[3] == Call(SetExceptionBreakpoints);
    } else {
      FileAcknowledged(files, functions, stopOnEntry, facts, files - 1);
    }
  }

  lemma BeginningPassed(files: nat, functions: bool, stopOnEntry: bool, facts: Facts)
    requires 3 <= ConfigurationAt(files, functions, stopOnEntry) <= |LaunchProgram(files, functions, stopOnEntry)|
    requires PassedBefore(LaunchProgram(files, functions, stopOnEntry), ConfigurationAt(files, functions, stopOnEntry),
        facts)
    ensures |facts.replies| > 0 && Succeeded(facts.replies[0])
    ensures |facts.sent| > 1 && facts.sent[1] && facts.initialized
  {
    var program := LaunchProgram(files, functions, stopOnEntry);
    LaunchShape(files, functions, stopOnEntry);
    OneMoreOp(program, 0);
    assert Judge(program, 0, facts) == Passed && Judge(program, 1, facts) == Passed;
    assert Judge(program, 2, facts) == Passed;
  }

  /**
   * Attaching registers for a stop last: by then initializing and the attach request succeeded, the
   * adapter said `initialized`, and both configuration requests were answered.
   */
  lemma AttachRegistersLast(systems: seq<System>, steps: seq<Step>, k: nat)
    requires IsRun(ATTACH, systems, steps) && k < |systems| && Stops.Registrations(systems[k].history) > 0
    ensures var shared := systems[k].world.shared;
            && shared.initialized && |shared.replies| == 4
            && Succeeded(shared.replies[0]) && Succeeded(shared.replies[1])
            && (forall j | 2 <= j < 4 :: shared.replies[j].Delivered? && shared.replies[j].value.Answer?)
  {
    EveryRunKeeps(ATTACH, systems, steps, k);
    AttachCounts();
    var y := systems[k];
    if y.caller.pc < 7 {
      RegisterOpsMonotone(ATTACH, y.caller.pc, 6);
    }
    AttachPassed(FactsOf(y));
    assert y.caller.pc == 7 || y.caller.pc == 8;
  }

  lemma AttachPassed(f: Facts)
    ensures PassedBefore(ATTACH, 6, f) ==>
              && f.initialized && |f.replies| >= 4 && Succeeded(f.replies[0]) && Succeeded(f.replies[1])
              && forall j | 2 <= j < 4 :: f.replies[j].Delivered? && f.replies[j].value.Answer?
  {
    AttachCounts();
    if PassedBefore(ATTACH, 6, f) {
      assert Judge(ATTACH, 0, f) == Passed && Judge(ATTACH, 2, f) == Passed && Judge(ATTACH, 3, f) == Passed;
      assert Judge(ATTACH, 4, f) == Passed && Judge(ATTACH, 5, f) == Passed;
    }
  }

  lemma AttachCounts()
    ensures Requests(ATTACH, 0) == 0 && Requests(ATTACH, 3) == 2 && Requests(ATTACH, 4) == 3 && Requests(ATTACH, 5) == 4
    ensures Requests(ATTACH, 6) == 4 && Requests(ATTACH, 7) == 4 && Requests(ATTACH, 8) == 4
    ensures PostedAt(ATTACH, 5) == Some(1) && RegisterOps(ATTACH, 6) == 0
  {
    ThreeOps(ATTACH);
    OneMoreOp(ATTACH, 3);
    OneMoreOp(ATTACH, 4);
    OneMoreOp(ATTACH, 5);
    OneMoreOp(ATTACH, 6);
    OneMoreOp(ATTACH, 7);
  }

  /** Both programs await a stop last, if at all. */
  lemma StopComesLast(files: nat, functions: bool, stopOnEntry: bool)
    ensures var program := LaunchProgram(files, functions, stopOnEntry);
            forall p | 0 <= p < |program| && program[p].AwaitStop? :: p == |program| - 1
    ensures forall p | 0 <= p < |ATTACH| && ATTACH[p].AwaitStop? :: p == |ATTACH| - 1
  {
    LaunchShape(files, functions, stopOnEntry);
    forall p: nat | p < |LaunchProgram(files, functions, stopOnEntry)| {
      LaunchWaits(files, functions, stopOnEntry, p);
    }
  }

  // --- the entry stop is not lost ---

  lemma {:induction false} NothingAfterNewest(ops: seq<Stops.Op>, k: nat)
    requires k < Stops.Registrations(ops)
    ensures Stops.Registered in Stops.After(ops, k) ==> k + 1 < Stops.Registrations(ops)
  {
    var n := |ops| - 1;
    if k < Stops.Registrations(ops[..n]) {
      NothingAfterNewest(ops[..n], k);
    }
  }

  /**
   * A caller of either program that ends with a stop returns the first outcome the
   * read loop produced after the caller had registered.
   */
  lemma StopIsFirstAfterRegistration(program: seq<Op>, systems: seq<System>, steps: seq<Step>, k: nat)
    requires IsRun(program, systems, steps) && k < |systems|
    requires systems[k].caller.result.Some? && systems[k].caller.result.value.FirstStop?
    ensures var history := systems[k].history;
            && Stops.Registrations(history) > 0
            && Stops.After(history, Stops.Registrations(history) - 1) != []
            && Stops.After(history, Stops.Registrations(history) - 1)[0] ==
                Stops.Produced(systems[k].caller.result.value.outcome)
  {
    EveryRunKeeps(program, systems, steps, k);
    var (y, p) := (systems[k], systems[k].caller.pc - 1);
    assert Judge(program, p, FactsOf(y)) == Passed;
    assert RegisterOps(program, p + 1) == RegisterOps(program, p);
    Stops.TraceLaw(y.history);
    NothingAfterNewest(y.history, Stops.Registrations(y.history) - 1);
  }

  /** A launch that is not refused stops first with `stop_on_entry`, and only then. */
  lemma LaunchEndsAsAsked(files: nat, functions: bool, stopOnEntry: bool, systems: seq<System>, steps: seq<Step>,
      k: nat)
    requires IsRun(LaunchProgram(files, functions, stopOnEntry), systems, steps) && k < |systems|
    requires systems[k].caller.result.Some? && !systems[k].caller.result.value.Refused?
    ensures systems[k].caller.result.value.FirstStop? <==> stopOnEntry
  {
    var program := LaunchProgram(files, functions, stopOnEntry);
    EveryRunKeeps(program, systems, steps, k);
    LaunchShape(files, functions, stopOnEntry);
    if !stopOnEntry {
      NoStopAwaited(files, functions, systems[k].caller.pc - 1);
    } else {
      assert program[|program| - 1] == AwaitStop;
    }
  }

  /** What launching returns: an error at some operation, or a launch outcome. */
  function Returned(ending: Ending): Result<LaunchOutcome, nat> {
    match ending
    case Refused(op) => Failure(op)
    case Ran => Success(LaunchRunning)
    case FirstStop(outcome) => Success(ToLaunch(outcome))
  }

  /** With `stop_on_entry`, a launch that succeeds returns the first stop, exit or end after its only registration. */
  lemma NoLostEntryStop(files: nat, functions: bool, systems: seq<System>, steps: seq<Step>, k: nat)
      returns (outcome: StopOutcome)
    requires IsRun(LaunchProgram(files, functions, true), systems, steps) && k < |systems|
    requires systems[k].caller.result.Some? && Returned(systems[k].caller.result.value).Success?
    ensures match outcome
            case Stopped(info) => Returned(systems[k].caller.result.value) == Success(LaunchStopped(info))
            case Exited(code) => Returned(systems[k].caller.result.value) == Success(LaunchExited(code))
            case Terminated => Returned(systems[k].caller.result.value) == Success(LaunchExited(None))
    ensures Stops.Registrations(systems[k].history) == 1
    ensures Stops.After(systems[k].history, 0) != [] && Stops.After(systems[k].history, 0)[0] == Stops.Produced(outcome)
  {
    var (program, y) := (LaunchProgram(files, functions, true), systems[k]);
    LaunchEndsAsAsked(files, functions, true, systems, steps, k);
    StopIsFirstAfterRegistration(program, systems, steps, k);
    EveryRunKeeps(program, systems, steps, k);
    LaunchTail(files, functions, true);
    RegisterOpsMonotone(program, y.caller.pc, |program|);
    outcome := y.caller.result.value.outcome;
  }

  lemma NoStopAwaited(files: nat, functions: bool, p: int)
    requires 0 <= p < |LaunchProgram(files, functions, false)|
    ensures LaunchProgram(files, functions, false)[p] != AwaitStop
  {
  }

  // --- an adapter that answers launch only after configurationDone ---

  function CommandOf(ask: Ask): string {
    match ask
    case SetBreakpoints(_) => "setBreakpoints"
    case _ => ""
  }

  function Consent(request: nat, ask: Ask): ReadLoop.Act {
    ReadLoop.Dispatching(Response(request + 1, CommandOf(ask), true))
  }

  /** What a blocked caller is waiting for, granted. */
  function Owed(program: seq<Op>, y: System, info: StopInfo): ReadLoop.Act {
    if y.caller.pc >= |program| then ReadLoop.Signalling
    else match program[y.caller.pc]
    case Call(ask) => Consent(Requests(program, y.caller.pc), ask)
    case AwaitPosted =>
      var posted := PostedAt(program, y.caller.pc);
      Consent(if posted.Some? then posted.value else 0, Launch)
    case AwaitStop => ReadLoop.Producing(Stopped(info))
    case _ => ReadLoop.Signalling
  }

  ghost predicate Configured(program: seq<Op>, y: System) {
    exists c: nat :: OnWire(program, y, c) && program[c] == Call(ConfigurationDone)
  }

  /**
   * What the deferring adapter may do: answer a request it has received, but launch only once it
   * has `configurationDone`; send `initialized` once it has launch; stop once it is configured.
   */
  ghost predicate Deferring(program: seq<Op>, y: System, act: ReadLoop.Act) {
    match act
    case Dispatching(response) =>
      exists p: nat ::
           && OnWire(program, y, p) && response.requestSeq == Requests(program, p) + 1
                  && (program[p].Post? ==> Configured(program, y))
    case Signalling => exists p: nat :: OnWire(program, y, p) && program[p].Post?
    case Producing(outcome) => outcome.Stopped? && Configured(program, y)
    case _ => false
  }

  /** A caller that can move can still move after anything the read loop does. */
  lemma EnabledStays(program: seq<Op>, y: System, act: ReadLoop.Act)
    requires Inv(program, y) && CallerEnabled(program, y) && LoopEnabled(y.loop, act)
    ensures CallerEnabled(program, LoopNext(y, act))
  {
    LoopKeeps(program, y, act);
  }

  ghost predicate Blocked(files: nat, functions: bool, stopOnEntry: bool, y: System) {
    && Inv(LaunchProgram(files, functions, stopOnEntry), y)
    && y.loop == Reading
    && y.caller.result == None
    && !CallerEnabled(LaunchProgram(files, functions, stopOnEntry), y)
  }

  /** The adapter may do what the caller is waiting for, the loop may take it in, and that unblocks the caller. */
  ghost predicate Unblocks(program: seq<Op>, y: System, info: StopInfo) {
    && y.caller.pc < |program|
    && Deferring(program, y, Owed(program, y, info))
    && LoopEnabled(y.loop, Owed(program, y, info))
    && CallerEnabled(program, LoopNext(y, Owed(program, y, info)))
  }

  lemma ReplyUnblocks(files: nat, functions: bool, stopOnEntry: bool, y: System, info: StopInfo)
    requires Blocked(files, functions, stopOnEntry, y)
    requires y.caller.pc < |LaunchProgram(files, functions, stopOnEntry)|
    requires LaunchProgram(files, functions, stopOnEntry)[y.caller.pc].Call?
    ensures Unblocks(LaunchProgram(files, functions, stopOnEntry), y, info)
  {
    var program := LaunchProgram(files, functions, stopOnEntry);
    assert OnWire(program, y, y.caller.pc);
  }

  lemma InitializedUnblocks(files: nat, functions: bool, stopOnEntry: bool, y: System, info: StopInfo)
    requires Blocked(files, functions, stopOnEntry, y)
    requires y.caller.pc == 2
    ensures Unblocks(LaunchProgram(files, functions, stopOnEntry), y, info)
  {
    var program := LaunchProgram(files, functions, stopOnEntry);
    LaunchShape(files, functions, stopOnEntry);
    assert Judge(program, 1, FactsOf(y)) == Passed;
    assert OnWire(program, y, 1);
  }

  lemma LaunchReplyUnblocks(files: nat, functions: bool, stopOnEntry: bool, y: System, info: StopInfo)
    requires Blocked(files, functions, stopOnEntry, y)
    requires y.caller.pc == ConfigurationAt(files, functions, stopOnEntry) + 1
    ensures Unblocks(LaunchProgram(files, functions, stopOnEntry), y, info)
  {
    var (program, c) := (LaunchProgram(files, functions, stopOnEntry), ConfigurationAt(files, functions, stopOnEntry));
    LaunchShape(files, functions, stopOnEntry);
    LaunchTail(files, functions, stopOnEntry);
    ThreeOps(program);
    assert Judge(program, 1, FactsOf(y)) == Passed && Judge(program, c, FactsOf(y)) == Passed;
    PostedUnblocks(program, y, c, info);
  }

  /** Answering the posted request of operation 1 unblocks a caller that awaits it. */
  lemma PostedUnblocks(program: seq<Op>, y: System, c: nat, info: StopInfo)
    requires Inv(program, y) && y.loop == Reading && y.caller.result == None && !CallerEnabled(program, y)
    requires 1 < y.caller.pc < |program| && program[y.caller.pc] == AwaitPosted
    requires PostedAt(program, y.caller.pc) == Some(1) && program[1].Post? && Requests(program, 1) == 1
    requires OnWire(program, y, 1) && OnWire(program, y, c) && program[c] == Call(ConfigurationDone)
    ensures Unblocks(program, y, info)
  {
    RequestsMonotone(program, 2, y.caller.pc);
    assert Requests(program, 2) == 2;
  }

  lemma StopUnblocks(files: nat, functions: bool, y: System, info: StopInfo)
    requires Blocked(files, functions, true, y)
    requires y.caller.pc == ConfigurationAt(files, functions, true) + 2
    ensures Unblocks(LaunchProgram(files, functions, true), y, info)
  {
    var (program, c) := (LaunchProgram(files, functions, true), ConfigurationAt(files, functions, true));
    LaunchShape(files, functions, true);
    LaunchTail(files, functions, true);
    assert Judge(program, c, FactsOf(y)) == Passed;
    assert OnWire(program, y, c);
    assert RegisterOps(program, |program|) == RegisterOps(program, |program| - 1);
    Stops.TraceLaw(y.history);
  }

  /** While the transport is up, a deferring adapter can always send a blocked launch the one thing it waits for. */
  lemma NeverStuck(files: nat, functions: bool, stopOnEntry: bool, y: System, info: StopInfo)
    requires Blocked(files, functions, stopOnEntry, y)
    ensures Unblocks(LaunchProgram(files, functions, stopOnEntry), y, info)
  {
    LaunchShape(files, functions, stopOnEntry);
    LaunchWaits(files, functions, stopOnEntry, y.caller.pc);
    match LaunchProgram(files, functions, stopOnEntry)[y.caller.pc]
    case Call(_) => ReplyUnblocks(files, functions, stopOnEntry, y, info);
    case AwaitInitialized => InitializedUnblocks(files, functions, stopOnEntry, y, info);
    case AwaitPosted => LaunchReplyUnblocks(files, functions, stopOnEntry, y, info);
    case AwaitStop => StopUnblocks(files, functions, y, info);
  }

  lemma LaunchWaits(files: nat, functions: bool, stopOnEntry: bool, p: nat)
    requires p < |LaunchProgram(files, functions, stopOnEntry)|
    ensures var (op, c) := (LaunchProgram(files, functions, stopOnEntry)[p],
        ConfigurationAt(files, functions, stopOnEntry));
            && (op == AwaitInitialized ==> p == 2)
            && (op == AwaitPosted ==> p == c + 1)
            && (op == AwaitStop ==> p == c + 2 && stopOnEntry)
  {
  }

  /** Steps the caller still has to take, at most. */
  function Work(program: seq<Op>, c: Caller): nat
    requires c.pc <= |program|
  {
    if c.result.Some? then 0
    else
      4 * (|program| - c.pc) + 4
      - match c.stage
        case Ready => 0
        case Numbered(_) => 1
        case Enrolled(_, _) => 2
        case Written(_) => 3
  }

  lemma CallerStepWorks(program: seq<Op>, y: System, writes: bool)
    requires Inv(program, y) && CallerEnabled(program, y)
    ensures CallerNext(program, y, writes).caller.pc <= |program|
    ensures Work(program, CallerNext(program, y, writes).caller) < Work(program, y.caller)
  {
  }

  /** A step along which the caller moves whenever it can, and otherwise a deferring adapter does. */
  ghost predicate DeferringStep(program: seq<Op>, y: System, step: Step, z: System) {
    && Enabled(program, y, step)
    && z == Next(program, y, step)
    && match step
       case LoopStep(act) => Deferring(program, y, act) && !CallerEnabled(program, y)
       case CallerStep(writes) => writes
  }

  datatype Path = Path(program: seq<Op>, systems: seq<System>, steps: seq<Step>)

  ghost predicate IsDeferring(p: Path) {
    && |p.systems| == |p.steps| + 1
    && forall k | 0 <= k < |p.steps| :: DeferringStep(p.program, p.systems[k], p.steps[k], p.systems[k + 1])
  }

  /** A path along which the caller moves whenever it can, and otherwise a deferring adapter does. */
  type DeferringPath = p: Path | IsDeferring(p) ghost witness Path([], [START], [])

  function First(p: DeferringPath): System {
    p.systems[0]
  }

  function Last(p: DeferringPath): System {
    p.systems[|p.steps|]
  }

  lemma Join(a: DeferringPath, b: DeferringPath) returns (p: DeferringPath)
    requires a.program == b.program && Last(a) == First(b)
    ensures p.program == a.program && First(p) == First(a) && Last(p) == Last(b) && |p.steps| == |a.steps| + |b.steps|
  {
    p := Path(a.program, a.systems[..|a.steps|] + b.systems, a.steps + b.steps);
  }

  lemma OneStep(program: seq<Op>, y: System, step: Step, z: System) returns (p: DeferringPath)
    requires DeferringStep(program, y, step, z)
    ensures p.program == program && First(p) == y && Last(p) == z && |p.steps| == 1
  {
    p := Path(program, [y, z], [step]);
  }

  /** Nothing has gone wrong: every write succeeded, and every answer that arrived is acceptable. */
  ghost predicate Unharmed(program: seq<Op>, y: System) {
    && (y.caller.result.Some? ==> !y.caller.result.value.Refused?)
    && (forall j | 0 <= j < |y.sent| :: y.sent[j])
    && forall p: nat | p < |program| && (program[p].Call? || program[p].Post?) &&
        Arrived(y.world.shared.replies, Requests(program, p)) ::
         Acceptable(Wanted(program[p]), y.world.shared.replies[Requests(program, p)])
  }

  function Wanted(op: Op): Ask {
    if op.Call? then op.ask else Launch
  }

  lemma {:induction false} PostedBy(program: seq<Op>, pc: nat)
    requires pc <= |program| && PostedAt(program, pc).Some?
    ensures exists q: nat :: q < pc && program[q].Post? && Requests(program, q) == PostedAt(program, pc).value
  {
    if !program[pc - 1].Post? {
      PostedBy(program, pc - 1);
    }
  }

  lemma CallerStaysUnharmed(program: seq<Op>, y: System)
    requires Inv(program, y) && CallerEnabled(program, y) && Unharmed(program, y)
    ensures Unharmed(program, CallerNext(program, y, true))
  {
    if y.caller.pc < |program| && program[y.caller.pc].AwaitPosted? {
      PostedBy(program, y.caller.pc);
    }
  }

  lemma OneOpPerRequest(program: seq<Op>, p: nat, q: nat)
    requires p < |program| && q < |program| && Requests(program, p) == Requests(program, q)
    requires (program[p].Call? || program[p].Post?) && (program[q].Call? || program[q].Post?)
    ensures p == q
  {
    if p < q {
      RequestsMonotone(program, p + 1, q);
    } else if q < p {
      RequestsMonotone(program, q + 1, p);
    }
  }

  /** Consenting to the request of operation `p` harms nothing. */
  lemma ConsentIsHarmless(program: seq<Op>, y: System, p: nat)
    requires Inv(program, y) && Unharmed(program, y)
    requires p < |program| && (program[p].Call? || program[p].Post?)
    ensures Unharmed(program, LoopNext(y, Consent(Requests(program, p), Wanted(program[p]))))
  {
    var z := LoopNext(y, Consent(Requests(program, p), Wanted(program[p])));
    forall q: nat | q < |program| && (program[q].Call? || program[q].Post?) &&
        Arrived(z.world.shared.replies, Requests(program, q))
      ensures Acceptable(Wanted(program[q]), z.world.shared.replies[Requests(program, q)])
    {
      if Requests(program, p) == Requests(program, q) {
        OneOpPerRequest(program, p, q);
      }
    }
  }

  lemma OwedIsHarmless(files: nat, functions: bool, stopOnEntry: bool, y: System, info: StopInfo)
    requires Blocked(files, functions, stopOnEntry, y) && Unharmed(LaunchProgram(files, functions, stopOnEntry), y)
    ensures var program := LaunchProgram(files, functions, stopOnEntry);
            Unharmed(program, LoopNext(y, Owed(program, y, info)))
  {
    var (program, pc) := (LaunchProgram(files, functions, stopOnEntry), y.caller.pc);
    if pc < |program| && program[pc].Call? {
      ConsentIsHarmless(program, y, pc);
    } else if pc < |program| && program[pc].AwaitPosted? {
      LaunchIsPosted(files, functions, stopOnEntry, pc);
      ConsentIsHarmless(program, y, 1);
    }
  }

  lemma LaunchIsPosted(files: nat, functions: bool, stopOnEntry: bool, p: nat)
    requires p < |LaunchProgram(files, functions, stopOnEntry)| &&
        LaunchProgram(files, functions, stopOnEntry)[p] == AwaitPosted
    ensures var program := LaunchProgram(files, functions, stopOnEntry);
            |program| > 1 && program[1] == Post(Launch) && Requests(program, 1) == 1 && PostedAt(program, p) == Some(1)
  {
    LaunchShape(files, functions, stopOnEntry);
    LaunchWaits(files, functions, stopOnEntry, p);
    LaunchTail(files, functions, stopOnEntry);
  }

  /** The adapter does what is owed, if the caller cannot move. */
  lemma AdapterMoves(files: nat, functions: bool, stopOnEntry: bool, y: System, info: StopInfo)
      returns (p: DeferringPath)
    requires Inv(LaunchProgram(files, functions, stopOnEntry), y) && y.loop == Reading && y.caller.result == None
    ensures p.program == LaunchProgram(files, functions, stopOnEntry) && First(p) == y && |p.steps| <= 1
    ensures Inv(p.program, Last(p)) && Last(p).loop == Reading && Last(p).caller == y.caller
    ensures CallerEnabled(p.program, Last(p))
    ensures Unharmed(p.program, y) ==> Unharmed(p.program, Last(p))
  {
    var program := LaunchProgram(files, functions, stopOnEntry);
    if CallerEnabled(program, y) {
      return Path(program, [y], []);
    }
    NeverStuck(files, functions, stopOnEntry, y, info);
    if Unharmed(program, y) {
      OwedIsHarmless(files, functions, stopOnEntry, y, info);
    }
    var act := Owed(program, y, info);
    LoopKeeps(program, y, act);
    p := OneStep(program, y, LoopStep(act), LoopNext(y, act));
  }

  lemma CallerMoves(program: seq<Op>, y: System) returns (p: DeferringPath)
    requires Inv(program, y) && y.loop == Reading && CallerEnabled(program, y)
    ensures p.program == program && First(p) == y && |p.steps| == 1
    ensures Inv(program, Last(p)) && Last(p).loop == Reading && Work(program, Last(p).caller) < Work(program, y.caller)
    ensures Unharmed(program, y) ==> Unharmed(program, Last(p))
  {
    StepKeeps(program, y, CallerStep(true));
    CallerStepWorks(program, y, true);
    if Unharmed(program, y) {
      CallerStaysUnharmed(program, y);
    }
    p := OneStep(program, y, CallerStep(true), CallerNext(program, y, true));
  }

  /**
   * From any reachable state of a launch whose transport is up, with working writes and an adapter
   * that never does more than `Deferring` allows, the caller gets to its end in at most two steps
   * per unit of its work; and it is not refused unless something had gone wrong before.
   */
  lemma {:induction false} LaunchCompletes(files: nat, functions: bool, stopOnEntry: bool, y: System, info: StopInfo)
    returns (p: DeferringPath)
    requires Inv(LaunchProgram(files, functions, stopOnEntry), y) && y.loop == Reading
    ensures p.program == LaunchProgram(files, functions, stopOnEntry)
    ensures First(p) == y && Last(p).caller.result.Some?
    ensures |p.steps| <= 2 * Work(p.program, y.caller)
    ensures Unharmed(p.program, y) ==> !Last(p).caller.result.value.Refused?
    decreases Work(LaunchProgram(files, functions, stopOnEntry), y.caller)
  {
    var program := LaunchProgram(files, functions, stopOnEntry);
    if y.caller.result.Some? {
      return Path(program, [y], []);
    }
    p := AdapterMoves(files, functions, stopOnEntry, y, info);
    var move := CallerMoves(program, Last(p));
    var rest := LaunchCompletes(files, functions, stopOnEntry, Last(move), info);
    p := Join(p, move);
    p := Join(p, rest);
  }

  /** So every launch has a run to success, on which the launch response comes after `configurationDone`. */
  lemma LaunchSucceeds(files: nat, functions: bool, stopOnEntry: bool, info: StopInfo) returns (p: DeferringPath)
    ensures p.program == LaunchProgram(files, functions, stopOnEntry) && IsRun(p.program, p.systems, p.steps)
    ensures Last(p).caller.result.Some? && Returned(Last(p).caller.result.value).Success?
  {
    var program := LaunchProgram(files, functions, stopOnEntry);
    EveryRunKeeps(program, [START], [], 0);
    p := LaunchCompletes(files, functions, stopOnEntry, START, info);
    DeferringRuns(p);
  }

  lemma DeferringRuns(p: DeferringPath)
    requires First(p) == START
    ensures IsRun(p.program, p.systems, p.steps)
  {
    forall k | 0 <= k < |p.steps|
      ensures Enabled(p.program, p.systems[k], p.steps[k]) &&
          p.systems[k + 1] == Next(p.program, p.systems[k], p.steps[k])
    {
      assert DeferringStep(p.program, p.systems[k], p.steps[k], p.systems[k + 1]);
    }
  }

  // --- losing the transport ---

  lemma {:induction false} GrowsAlong(facts: seq<Facts>, k: nat, m: nat)
    requires forall i | 0 <= i < |facts| - 1 :: Grows(facts[i], facts[i + 1])
    requires k <= m < |facts|
    ensures Grows(facts[k], facts[m])
    decreases m - k
  {
    if k < m {
      GrowsAlong(facts, k, m - 1);
      GrowsTransitively(facts[k], facts[m - 1], facts[m]);
    }
  }

  /** Along a run, facts only grow. */
  lemma RunGrows(program: seq<Op>, systems: seq<System>, steps: seq<Step>, k: nat, m: nat)
    requires IsRun(program, systems, steps) && k <= m < |systems|
    ensures Grows(FactsOf(systems[k]), FactsOf(systems[m]))
  {
    var facts := seq(|systems|, i requires 0 <= i < |systems| => FactsOf(systems[i]));
    forall i | 0 <= i < |facts| - 1
      ensures Grows(facts[i], facts[i + 1])
    {
      StepGrows(program, systems, steps, i);
    }
    GrowsAlong(facts, k, m);
  }

  lemma StepGrows(program: seq<Op>, systems: seq<System>, steps: seq<Step>, k: nat)
    requires IsRun(program, systems, steps) && k < |steps|
    ensures Grows(FactsOf(systems[k]), FactsOf(systems[k + 1]))
  {
    EveryRunKeeps(program, systems, steps, k);
    StepKeeps(program, systems[k], steps[k]);
  }

  lemma GrowsTransitively(f: Facts, g: Facts, h: Facts)
    requires Grows(f, g) && Grows(g, h)
    ensures Grows(f, h)
  {
  }

  /** Every request registered when recovery drained the map has its answer or is told, for good. */
  lemma DrainReleases(program: seq<Op>, systems: seq<System>, steps: seq<Step>, k: nat, m: nat, receiver: nat)
    requires IsRun(program, systems, steps) && k < |steps| && steps[k] == LoopStep(ReadLoop.Draining) &&
        k < m < |systems|
    requires receiver < |systems[k].world.shared.replies|
    ensures Arrived(systems[m].world.shared.replies, receiver)
  {
    EveryRunKeeps(program, systems, steps, k + 1);
    RunGrows(program, systems, steps, k + 1, m);
    assert systems[k + 1].world.shared.pending == map[];
    assert Arrived(systems[k + 1].world.shared.replies, receiver);
  }

  /** Once the loop is gone, nothing can move a blocked caller any more: the run is over. */
  lemma BlockedForGood(program: seq<Op>, systems: seq<System>, steps: seq<Step>, k: nat)
    requires IsRun(program, systems, steps) && k < |systems|
    requires systems[k].loop == Gone && !CallerEnabled(program, systems[k])
    ensures k == |steps|
  {
  }

  /**
   * A launching caller is blocked exactly when it waits for the latch while that is unset, for a reply
   * whose request is still registered, or for a stop while its sender is still in the slot. Once the
   * loop is gone nothing changes that any more (`BlockedForGood`).
   */
  lemma BlockedExactly(files: nat, functions: bool, stopOnEntry: bool, y: System)
    requires Inv(LaunchProgram(files, functions, stopOnEntry), y) && y.caller.result == None
    ensures var (program, c, w) := (LaunchProgram(files, functions, stopOnEntry), y.caller, y.world);
            !CallerEnabled(program, y) <==>
            && c.pc < |program|
            && match program[c.pc]
               case AwaitInitialized => !w.shared.initialized
               case Call(_) => c.stage.Written? && c.stage.receiver + 1 in w.shared.pending
               case AwaitPosted => 2 in w.shared.pending
               case AwaitStop => w.stops.sender.Some?
               case _ => false
  {
    var (program, pc) := (LaunchProgram(files, functions, stopOnEntry), y.caller.pc);
    if pc < |program| {
      LaunchShape(files, functions, stopOnEntry);
      LaunchWaits(files, functions, stopOnEntry, pc);
      LaunchTail(files, functions, stopOnEntry);
      if program[pc].AwaitPosted? {
        assert Judge(program, 1, FactsOf(y)) == Passed;
        assert Requests(program, 1) == 1;
        RequestsMonotone(program, 2, pc);
        assert Requests(program, 2) == 2;
      } else if program[pc].AwaitStop? {
        assert RegisterOps(program, |program|) == RegisterOps(program, pc);
        Stops.TraceLaw(y.history);
      }
    }
  }

  /** Recovery does not touch the latch: a launch that loses its transport while waiting for it is blocked for good. */
  lemma EofStrandsTheLatch(program: seq<Op>, y: System)
    requires y.loop == Reading && y.caller.result == None && y.caller.pc < |program| &&
        program[y.caller.pc] == AwaitInitialized
    ensures var z := LoopNext(LoopNext(LoopNext(y, ReadLoop.Draining), ReadLoop.Producing(Terminated)),
        ReadLoop.Firing);
            z.loop == Gone && (CallerEnabled(program, z) <==> y.world.shared.initialized)
  {
  }

  lemma Extend(program: seq<Op>, systems: seq<System>, steps: seq<Step>, step: Step)
    requires IsRun(program, systems, steps) && Enabled(program, systems[|steps|], step)
    ensures IsRun(program, systems + [Next(program, systems[|steps|], step)], steps + [step])
  {
  }

  const INITIALIZED := Shared(1, map[], [Stops.Delivered(Answer(Response(1, "", true)))], false)

  /** A run on which the initialize request has been answered. */
  lemma InitializeRun(program: seq<Op>) returns (systems: seq<System>, steps: seq<Step>)
    requires |program| > 0 && program[0] == Call(Initialize)
    ensures IsRun(program, systems, steps)
    ensures systems[|steps|] == START.(
              world := START.world.(shared := INITIALIZED), caller := START.caller.(pc := 1), sent := [true])
  {
    systems, steps := [START], [];
    for n := 0 to 3
      invariant IsRun(program, systems, steps)
      invariant systems[|steps|] ==
                START.(world := START.world.(shared := match n
                                                       case 0 => NEW
                                                       case 1 => Shared(1, map[], [], false)
                                                       case _ => Shared(1, map[1 := 0], [Stops.Open], false)),
                       caller := START.caller.(stage := match n
                                                        case 0 => Ready
                                                        case 1 => Numbered(1)
                                                        case 2 => Enrolled(1, 0)
                                                        case _ => Written(0)),
                       sent := if n == 3 then [true] else [])
    {
      Extend(program, systems, steps, CallerStep(true));
      systems, steps := systems + [Next(program, systems[|steps|], CallerStep(true))], steps + [CallerStep(true)];
    }
    Extend(program, systems, steps, LoopStep(Consent(0, Initialize)));
    systems, steps := systems + [LoopNext(systems[|steps|], Consent(0, Initialize))],
        steps + [LoopStep(Consent(0, Initialize))];
    Extend(program, systems, steps, CallerStep(true));
    systems, steps := systems + [CallerNext(program, systems[|steps|], true)], steps + [CallerStep(true)];
  }

  lemma WaitingRun(files: nat, functions: bool, stopOnEntry: bool) returns (systems: seq<System>, steps: seq<Step>)
    ensures IsRun(LaunchProgram(files, functions, stopOnEntry), systems, steps)
    ensures var y := systems[|steps|];
            y.loop == Reading && y.caller.result == None && y.caller.pc == 2 && !y.world.shared.initialized
  {
    var program := LaunchProgram(files, functions, stopOnEntry);
    LaunchShape(files, functions, stopOnEntry);
    systems, steps := InitializeRun(program);
    for n := 0 to 3
      invariant IsRun(program, systems, steps)
      invariant var y := systems[|steps|];
                && y.loop == Reading && y.caller.result == None && !y.world.shared.initialized
                && y.caller.pc == (if n == 3 then 2 else 1)
                && match n
                   case 0 => y.caller.stage.Ready?
                   case 1 => y.caller.stage.Numbered?
                   case 2 => y.caller.stage.Enrolled?
                   case _ => true
    {
      Extend(program, systems, steps, CallerStep(true));
      systems, steps := systems + [Next(program, systems[|steps|], CallerStep(true))], steps + [CallerStep(true)];
    }
  }

  /** So every launch has a run that ends with its caller blocked for good by the end of the stream. */
  lemma LaunchCanBeStranded(files: nat, functions: bool, stopOnEntry: bool)
      returns (systems: seq<System>, steps: seq<Step>)
    ensures IsRun(LaunchProgram(files, functions, stopOnEntry), systems, steps)
    ensures systems[|steps|].loop == Gone && systems[|steps|].caller.result == None
    ensures !CallerEnabled(LaunchProgram(files, functions, stopOnEntry), systems[|steps|])
  {
    var program := LaunchProgram(files, functions, stopOnEntry);
    LaunchShape(files, functions, stopOnEntry);
    systems, steps := WaitingRun(files, functions, stopOnEntry);
    EofStrandsTheLatch(program, systems[|steps|]);
    var acts := [ReadLoop.Draining, ReadLoop.Producing(Terminated), ReadLoop.Firing];
    var y := systems[|steps|];
    var y1 := LoopNext(y, acts[0]);
    var y2 := LoopNext(y1, acts[1]);
    Extend(program, systems, steps, LoopStep(acts[0]));
    Extend(program, systems + [y1], steps + [LoopStep(acts[0])], LoopStep(acts[1]));
    Extend(program, systems + [y1] + [y2], steps + [LoopStep(acts[0])] + [LoopStep(acts[1])], LoopStep(acts[2]));
    systems := systems + [y1] + [y2] + [LoopNext(y2, acts[2])];
    steps := steps + [LoopStep(acts[0])] + [LoopStep(acts[1])] + [LoopStep(acts[2])];
  }
}
