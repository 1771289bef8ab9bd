/**
 * Resuming on a client in full use: any number of resumed calls, among any other requests and stop
 * waiter registrations, against a read loop that dispatches, produces and cancels as it likes.
 */
module ResumeRuns {
  import opened Wrappers
  import opened Neutral
  import opened DapClient
  import Stops = StopWaiter
  import Requests = RequestRuns

  /** Where a resumed call stands; `i` is its request among all requests. */
  datatype Stage =
    | Registered
    | Numbered(i: nat)
    | Enrolled(i: nat)
    | Written(i: nat)
    | Answered(i: nat)
    | Returned(i: nat, outcome: StopOutcome)
    | WriteFailed(i: nat)
    | Closed(i: nat)
    | Dropped

  /** A resumed call and the number of its stop waiter registration. */
  datatype Call = Call(registration: nat, stage: Stage)

  /** The client with all its requests, what the stop waiter saw, and the resumed calls. */
  datatype System = System(client: Requests.System, history: seq<Stops.Op>, calls: seq<Call>)

  datatype Step =
    | Resume
    | Advance(c: nat, writes: bool)
    | Drop(c: nat)
    | Register
    | Produce(outcome: StopOutcome)
    | Elsewhere(step: Requests.Step)

  const START := System(Requests.INITIAL, [], [])

  function ChannelOf(y: System, call: Call): Stops.Channel<StopOutcome> {
    var channels := Stops.Run(y.history).channels;
    if call.registration < |channels| then channels[call.registration] else Stops.Open
  }

  function RequestOf(stage: Stage): Option<nat> {
    match stage
    case Registered => None
    case Dropped => None
    case _ => Some(stage.i)
  }

  /** The request a step elsewhere is taken for. */
  function TargetOf(step: Requests.Step): Option<nat> {
    match step
    case Enroll(i) => Some(i)
    case Write(i, _) => Some(i)
    case Abandon(i) => Some(i)
    case Receive(i) => Some(i)
    case _ => None
  }

  function ReplyOf(y: System, i: nat): Stops.Channel<Reply> {
    if i < |y.client.requests| && y.client.requests[i].channel < |y.client.shared.replies| then
      y.client.shared.replies[y.client.requests[i].channel]
    else Stops.Open
  }

  /** The step on its own request that a call takes next, if it is one. */
  function OwnStep(stage: Stage, writes: bool): Option<Requests.Step> {
    match stage
    case Registered => Some(Requests.Number(true))
    case Numbered(i) => Some(Requests.Enroll(i))
    case Enrolled(i) => Some(Requests.Write(i, writes))
    case Written(i) => Some(Requests.Receive(i))
    case _ => None
  }

  predicate Enabled(y: System, step: Step) {
    match step
    case Advance(c, writes) =>
      && c < |y.calls|
      && var stage := y.calls[c].stage;
         if OwnStep(stage, writes).Some? then Requests.Enabled(y.client, OwnStep(stage, writes).value)
         else stage.Answered? && ChannelOf(y, y.calls[c]) != Stops.Open
    // A call can be dropped while it writes or waits, for its response or for the outcome.
    case Drop(c) =>
      && c < |y.calls|
      && var stage := y.calls[c].stage;
         if stage.Enrolled? || stage.Written? then Requests.Enabled(y.client, Requests.Abandon(stage.i))
         else stage.Answered?
    case Elsewhere(step) =>
      && Requests.Enabled(y.client, step)
      && forall c | 0 <= c < |y.calls| :: TargetOf(step).None? || RequestOf(y.calls[c].stage) != TargetOf(step)
    case _ => true
  }

  function NextStage(y: System, call: Call, writes: bool): Stage {
    match call.stage
    case Registered => Numbered(|y.client.requests|)
    case Numbered(i) => Enrolled(i)
    case Enrolled(i) => if writes then Written(i) else WriteFailed(i)
    case Written(i) =>
      var reply := ReplyOf(y, i);
      if reply.Delivered? && reply.value.Answer? then Answered(i) else Closed(i)
    case Answered(i) =>
      // A stop waiter whose sender is gone counts as terminated.
      var channel := ChannelOf(y, call);
      Returned(i, if channel.Delivered? then channel.value else Terminated)
    case _ => call.stage
  }

  function Next(y: System, step: Step): System
    requires Enabled(y, step)
  {
    match step
    case Resume =>
      y.(history := y.history + [Stops.Registered],
         calls := y.calls + [Call(Stops.Registrations(y.history), Registered)])
    case Advance(c, writes) =>
      var call := y.calls[c];
      var own := OwnStep(call.stage, writes);
      y.(client := if own.Some? then Requests.Next(y.client, own.value) else y.client,
         calls := y.calls[c := call.(stage := NextStage(y, call, writes))])
    case Drop(c) =>
      y.(client := if y.calls[c].stage.Answered? then y.client
                   else Requests.Next(y.client, Requests.Abandon(y.calls[c].stage.i)),
         calls := y.calls[c := y.calls[c].(stage := Dropped)])
    case Register => y.(history := y.history + [Stops.Registered])
    case Produce(outcome) => y.(history := y.history + [Stops.Produced(outcome)])
    case Elsewhere(step) => y.(client := Requests.Next(y.client, step))
  }

  // --- the invariant ---

  /** Nobody but the read loop has resolved request `i`. */
  predicate OnlyAnsweredOrCancelled(y: Requests.System, i: nat) {
    var past := Requests.Past(y, i + 1);
    past == [] || (|past| == 1 && (past[0].Answered? || past[0].Cancelled?))
  }

  predicate WasAnswered(y: Requests.System, i: nat) {
    var past := Requests.Past(y, i + 1);
    |past| == 1 && past[0].Answered? && past[0].response.requestSeq == i + 1
  }

  predicate Resolved(y: Requests.System, i: nat)
  {
    i < |y.requests| && y.requests[i].phase == Requests.Done && i + 1 !in y.shared.pending
  }

  /** What holds of one call. */
  ghost predicate CallSafe(y: System, call: Call) {
    && call.registration < Stops.Registrations(y.history)
    && match call.stage
       case Registered => true
       case Numbered(i) => i < |y.client.requests| && y.client.requests[i].phase == Requests.Numbered
       case Enrolled(i) =>
         i < |y.client.requests| && y.client.requests[i].phase == Requests.Enrolled &&
             OnlyAnsweredOrCancelled(y.client, i)
       case Written(i) =>
         i < |y.client.requests| && y.client.requests[i].phase == Requests.Written &&
             OnlyAnsweredOrCancelled(y.client, i)
       case Answered(i) => Resolved(y.client, i) && WasAnswered(y.client, i)
       case Returned(i, outcome) =>
         && Resolved(y.client, i) && WasAnswered(y.client, i)
         && var after := Stops.After(y.history, call.registration);
            after != [] && outcome == if after[0].Produced? then after[0].outcome else Terminated
       case WriteFailed(i) => true
       case Closed(i) => Resolved(y.client, i) && Requests.Past(y.client, i + 1) == [Requests.Cancelled]
       case Dropped => true
  }

  ghost predicate Owners(y: System) {
    && (forall c | 0 <= c < |y.calls| && RequestOf(y.calls[c].stage).Some? ::
          RequestOf(y.calls[c].stage).value < |y.client.requests|)
    && (forall b, c | 0 <= b < c < |y.calls| && RequestOf(y.calls[b].stage).Some? ::
          RequestOf(y.calls[b].stage) != RequestOf(y.calls[c].stage))
  }

  ghost predicate Safe(y: System) {
    && Requests.Safe(y.client)
    && Owners(y)
    && forall c | 0 <= c < |y.calls| :: CallSafe(y, y.calls[c])
  }

  // --- every step keeps it ---

  /** A step taken for another request, or by the read loop, leaves a call where it was. */
  lemma OthersKeepCall(y: System, call: Call, step: Requests.Step)
    requires Requests.Safe(y.client) && CallSafe(y, call) && Requests.Enabled(y.client, step)
    requires RequestOf(call.stage).Some? ==> RequestOf(call.stage).value < |y.client.requests|
    requires TargetOf(step).None? || TargetOf(step) != RequestOf(call.stage)
    ensures CallSafe(y.(client := Requests.Next(y.client, step)), call)
  {
    if RequestOf(call.stage).Some? {
      var i := RequestOf(call.stage).value;
      OthersKeepRequest(y.client, i, step);
    }
  }

  lemma OthersKeepRequest(y: Requests.System, i: nat, step: Requests.Step)
    requires Requests.Safe(y) && Requests.Enabled(y, step) && i < |y.requests|
    requires TargetOf(step) != Some(i)
    ensures var z := Requests.Next(y, step);
            && i < |z.requests| && z.requests[i].phase == y.requests[i].phase
            && (OnlyAnsweredOrCancelled(y, i) && y.requests[i].phase != Requests.Numbered ==>
                OnlyAnsweredOrCancelled(z, i))
            && (Resolved(y, i) ==> Resolved(z, i) && Requests.Past(z, i + 1) == Requests.Past(y, i + 1))
  {
    assert Requests.RequestSafe(y, i);
    if Resolved(y, i) {
      Requests.ResolvedStays(y, step, i);
    }
    if TargetOf(step).Some? {
      assert Requests.RequestSafe(y, TargetOf(step).value);
    }
  }

  /** More history only settles what a call will receive. */
  lemma HistoryKeepsCall(y: System, call: Call, op: Stops.Op)
    requires CallSafe(y, call)
    ensures CallSafe(y.(history := y.history + [op]), call)
  {
    assert (y.history + [op])[..|y.history|] == y.history;
  }

  /** A call's own step moves it to a stage that is safe again. */
  lemma OwnKeepsCall(y: System, c: nat, writes: bool)
    requires Safe(y) && Enabled(y, Advance(c, writes)) && OwnStep(y.calls[c].stage, writes).Some?
    ensures CallSafe(Next(y, Advance(c, writes)), Next(y, Advance(c, writes)).calls[c])
  {
    var call := y.calls[c];
    assert CallSafe(y, call);
    match call.stage
    case Registered =>
    case Numbered(i) => assert Requests.RequestSafe(y.client, i);
    case Enrolled(i) => assert Requests.RequestSafe(y.client, i);
    case Written(i) => ReceiveKeepsCall(y, c, i, writes);
    case _ =>
  }

  lemma ReceiveKeepsCall(y: System, c: nat, i: nat, writes: bool)
    requires Safe(y) && Enabled(y, Advance(c, writes)) && y.calls[c].stage == Written(i)
    ensures CallSafe(Next(y, Advance(c, writes)), Next(y, Advance(c, writes)).calls[c])
  {
    assert CallSafe(y, y.calls[c]);
    assert Requests.RequestSafe(y.client, i);
  }

  lemma ReturnKeepsCall(y: System, c: nat, writes: bool)
    requires Safe(y) && Enabled(y, Advance(c, writes)) && OwnStep(y.calls[c].stage, writes).None?
    ensures CallSafe(Next(y, Advance(c, writes)), Next(y, Advance(c, writes)).calls[c])
  {
    assert CallSafe(y, y.calls[c]);
    Stops.TraceLaw(y.history);
  }

  lemma OwnersAdvance(y: System, c: nat, writes: bool)
    requires Safe(y) && Enabled(y, Advance(c, writes))
    ensures Owners(Next(y, Advance(c, writes)))
  {
    var z := Next(y, Advance(c, writes));
    assert |y.client.requests| <= |z.client.requests|;
    forall b | 0 <= b < |z.calls| && RequestOf(z.calls[b].stage).Some?
      ensures RequestOf(z.calls[b].stage).value < |z.client.requests|
    {
      assert b != c ==> z.calls[b] == y.calls[b];
    }
    forall a, b | 0 <= a < b < |z.calls| && RequestOf(z.calls[a].stage).Some?
      ensures RequestOf(z.calls[a].stage) != RequestOf(z.calls[b].stage)
    {
      assert a != c ==> z.calls[a] == y.calls[a];
      assert b != c ==> z.calls[b] == y.calls[b];
    }
  }

  lemma AdvanceKeeps(y: System, c: nat, writes: bool)
    requires Safe(y) && Enabled(y, Advance(c, writes))
    ensures Safe(Next(y, Advance(c, writes)))
  {
    var z := Next(y, Advance(c, writes));
    var own := OwnStep(y.calls[c].stage, writes);
    OwnersAdvance(y, c, writes);
    if own.Some? {
      Requests.StepIsSafe(y.client, own.value);
      OwnKeepsCall(y, c, writes);
    } else {
      ReturnKeepsCall(y, c, writes);
    }
    forall b | 0 <= b < |z.calls|
      ensures CallSafe(z, z.calls[b])
    {
      if b != c {
        OtherCallKeeps(y, b, c, writes);
      }
    }
  }

  lemma OtherCallKeeps(y: System, b: nat, c: nat, writes: bool)
    requires Safe(y) && Enabled(y, Advance(c, writes)) && b < |y.calls| && b != c
    ensures CallSafe(Next(y, Advance(c, writes)), y.calls[b])
  {
    assert CallSafe(y, y.calls[b]);
    var own := OwnStep(y.calls[c].stage, writes);
    if own.Some? {
      assert TargetOf(own.value).Some? ==> TargetOf(own.value) == RequestOf(y.calls[c].stage);
      OthersKeepCall(y, y.calls[b], own.value);
    }
  }

  lemma DropKeeps(y: System, c: nat)
    requires Safe(y) && Enabled(y, Drop(c))
    ensures Safe(Next(y, Drop(c)))
  {
    var (z, own) := (Next(y, Drop(c)), Requests.Abandon(y.calls[c].stage.i));
    if !y.calls[c].stage.Answered? {
      Requests.StepIsSafe(y.client, own);
    }
    forall b | 0 <= b < |z.calls|
      ensures CallSafe(z, z.calls[b])
    {
      assert CallSafe(y, y.calls[b]);
      if b != c && !y.calls[c].stage.Answered? {
        OthersKeepCall(y, y.calls[b], own);
      }
    }
  }

  lemma ElsewhereKeeps(y: System, step: Requests.Step)
    requires Safe(y) && Enabled(y, Elsewhere(step))
    ensures Safe(Next(y, Elsewhere(step)))
  {
    var z := Next(y, Elsewhere(step));
    Requests.StepIsSafe(y.client, step);
    forall b | 0 <= b < |z.calls|
      ensures CallSafe(z, z.calls[b])
    {
      assert CallSafe(y, y.calls[b]);
      OthersKeepCall(y, y.calls[b], step);
    }
  }

  lemma HistoryKeeps(y: System, op: Stops.Op)
    requires Safe(y)
    ensures Safe(y.(history := y.history + [op]))
    ensures Stops.Registrations(y.history + [op]) == Stops.Registrations(y.history) + if op.Registered? then 1 else 0
  {
    forall b | 0 <= b < |y.calls|
      ensures CallSafe(y.(history := y.history + [op]), y.calls[b])
    {
      HistoryKeepsCall(y, y.calls[b], op);
    }
    assert (y.history + [op])[..|y.history|] == y.history;
  }

  lemma StepIsSafe(y: System, step: Step)
    requires Safe(y) && Enabled(y, step)
    ensures Safe(Next(y, step))
  {
    match step
    case Resume => HistoryKeeps(y, Stops.Registered);
    case Advance(c, writes) => AdvanceKeeps(y, c, writes);
    case Drop(c) => DropKeeps(y, c);
    case Register => HistoryKeeps(y, Stops.Registered);
    case Produce(outcome) => HistoryKeeps(y, Stops.Produced(outcome));
    case Elsewhere(own) => ElsewhereKeeps(y, own);
  }

  ghost predicate IsRun(systems: seq<System>, steps: seq<Step>) {
    && |systems| == |steps| + 1
    && systems[0] == START
    && forall k | 0 <= k < |steps| :: Enabled(systems[k], steps[k]) && systems[k + 1] == Next(systems[k], steps[k])
  }

  lemma {:induction false} EveryRunIsSafe(systems: seq<System>, steps: seq<Step>, k: nat)
    requires IsRun(systems, steps) && k < |systems|
    ensures Safe(systems[k])
  {
    if k > 0 {
      EveryRunIsSafe(systems, steps, k - 1);
      StepIsSafe(systems[k - 1], steps[k - 1]);
    }
  }

  // --- what a resumed call returns ---

  /**
   * However many calls share the client, a resumed call that returns was answered by a response to its
   * own request, and returns the first outcome produced after it registered; or, when another
   * registration came first, that the session terminated.
   */
  lemma ResumeReturnsFirstOutcome(systems: seq<System>, steps: seq<Step>, k: nat, c: nat)
    requires IsRun(systems, steps) && k < |systems| && c < |systems[k].calls| && systems[k].calls[c].stage.Returned?
    ensures var (y, call) := (systems[k], systems[k].calls[c]);
            && call.registration < Stops.Registrations(y.history)
            && WasAnswered(y.client, call.stage.i)
            && var after := Stops.After(y.history, call.registration);
               after != [] && call.stage.outcome == if after[0].Produced? then after[0].outcome else Terminated
  {
    EveryRunIsSafe(systems, steps, k);
    assert CallSafe(systems[k], systems[k].calls[c]);
  }

  /** An answered call can return exactly once something followed its registration. */
  lemma ResumeWaitsForOutcome(systems: seq<System>, steps: seq<Step>, k: nat, c: nat)
    requires IsRun(systems, steps) && k < |systems| && c < |systems[k].calls| && systems[k].calls[c].stage.Answered?
    ensures systems[k].calls[c].registration < Stops.Registrations(systems[k].history)
    ensures Enabled(systems[k], Advance(c, true)) <==>
        Stops.After(systems[k].history, systems[k].calls[c].registration) != []
  {
    EveryRunIsSafe(systems, steps, k);
    assert CallSafe(systems[k], systems[k].calls[c]);
    Stops.TraceLaw(systems[k].history);
  }

  /** A written call fails exactly when the transport was cancelled under it. */
  lemma ResumeFailsOnlyWhenCancelled(systems: seq<System>, steps: seq<Step>, k: nat, c: nat)
    requires IsRun(systems, steps) && k < |systems| && c < |systems[k].calls|
    ensures systems[k].calls[c].stage.Closed? ==>
              Requests.Past(systems[k].client, systems[k].calls[c].stage.i + 1) == [Requests.Cancelled]
    ensures systems[k].calls[c].stage.Answered? ==> WasAnswered(systems[k].client, systems[k].calls[c].stage.i)
  {
    EveryRunIsSafe(systems, steps, k);
    assert CallSafe(systems[k], systems[k].calls[c]);
  }
}
