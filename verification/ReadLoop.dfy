/** The read loop: dispatch of decoded messages, and recovery once the transport fails. */
module ReadLoop {
  import opened Wrappers
  import opened Neutral
  import opened StopWaiter
  import opened DapClient

  datatype Message =
    | ResponseMessage(response: Response)
    | StoppedEvent(info: StopInfo)
    | InitializedEvent
    | OutputEvent(category: string, text: string)
    | ExitedEvent(exitCode: int)
    | TerminatedEvent
    | InformationalEvent
    | Unmodeled

  /** The loop's lock sections. */
  datatype Act =
    | Dispatching(response: Response)
    | Producing(outcome: StopOutcome)
    | Signalling
    | Forwarding(category: string, text: string)
    | RecordingExit(code: int)
    | Firing
    | Draining

  /** The sections one message runs through, in order. */
  function Sections(m: Message): seq<Act> {
    match m
    case ResponseMessage(response) => [Dispatching(response)]
    case StoppedEvent(info) => [Producing(Stopped(info))]
    case InitializedEvent => [Signalling]
    case OutputEvent(category, text) => [Forwarding(category, text)]
    case ExitedEvent(code) => [RecordingExit(code), Producing(Exited(Some(code)))]
    case TerminatedEvent => [Firing, Producing(Terminated)]
    case InformationalEvent => []
    case Unmodeled => []
  }

  const RECOVERY := [Draining, Producing(Terminated), Firing]

  function AllSections(messages: seq<Message>): seq<Act> {
    if messages == [] then [] else AllSections(messages[..|messages| - 1]) + Sections(messages[|messages| - 1])
  }

  /** The loop's own state: what it sent on, and the exit code it remembers. */
  datatype Sinks = Sinks(output: seq<(string, string)>, armed: bool, signals: seq<Option<int>>,
      lastExitCode: Option<int>)

  const OPENED := Sinks([], true, [], None)

  function Sink(s: Sinks, act: Act): Sinks {
    match act
    case Forwarding(category, text) => s.(output := s.output + [(category, text)])
    case RecordingExit(code) => s.(lastExitCode := Some(code))
    case Firing => if s.armed then s.(armed := false, signals := s.signals + [s.lastExitCode]) else s
    case _ => s
  }

  /** Everything the loop shares with callers, and its own sinks. */
  datatype World = World(shared: Shared, stops: Slot, sinks: Sinks)

  function Perform(w: World, act: Act): World {
    World(
      match act
      case Dispatching(response) => DapClient.Dispatch(w.shared, response)
      case Signalling => w.shared.(initialized := true)
      case Draining => Drain(w.shared)
      case _ => w.shared,
      if act.Producing? then Produce(w.stops, act.outcome) else w.stops,
      Sink(w.sinks, act))
  }

  function PerformAll(w: World, acts: seq<Act>): World {
    if acts == [] then w else Perform(PerformAll(w, acts[..|acts| - 1]), acts[|acts| - 1])
  }

  lemma {:induction false} PerformMore(w: World, a: seq<Act>, b: seq<Act>)
    ensures PerformAll(w, a + b) == PerformAll(PerformAll(w, a), b)
  {
    if b == [] {
      assert a + b == a;
    } else {
      PerformMore(w, a, b[..|b| - 1]);
      assert (a + b)[..|a + b| - 1] == a + b[..|b| - 1];
    }
  }

  lemma PerformOne(w: World, a: Act)
    ensures PerformAll(w, [a]) == Perform(w, a)
  {
    assert [a][..0] == [];
  }

  lemma PerformTwo(w: World, a: Act, b: Act)
    ensures PerformAll(w, [a, b]) == Perform(Perform(w, a), b)
  {
    PerformOne(w, a);
    assert [a, b][..1] == [a];
  }

  lemma PerformThree(w: World, a: Act, b: Act, c: Act)
    ensures PerformAll(w, [a, b, c]) == Perform(Perform(Perform(w, a), b), c)
  {
    PerformTwo(w, a, b);
    assert [a, b, c][..2] == [a, b];
  }

  /** What one message leaves behind. */
  function Handled(w: World, m: Message): (handled: World)
    ensures handled == PerformAll(w, Sections(m))
  {
    match m
    case ResponseMessage(response) => PerformOne(w, Dispatching(response)); Perform(w, Dispatching(response))
    case StoppedEvent(info) => PerformOne(w, Producing(Stopped(info))); Perform(w, Producing(Stopped(info)))
    case InitializedEvent => PerformOne(w, Signalling); Perform(w, Signalling)
    case OutputEvent(category, text) =>
      PerformOne(w, Forwarding(category, text));
      Perform(w, Forwarding(category, text))
    case ExitedEvent(code) =>
      PerformTwo(w, RecordingExit(code), Producing(Exited(Some(code))));
      Perform(Perform(w, RecordingExit(code)), Producing(Exited(Some(code))))
    case TerminatedEvent =>
      PerformTwo(w, Firing, Producing(Terminated));
      Perform(Perform(w, Firing), Producing(Terminated))
    case InformationalEvent => w
    case Unmodeled => w
  }

  class Loop {
    const client: Client
    const stopWaiter: StopWaiter
    var output: seq<(string, string)>
    var armed: bool
    /** The codes sent on the terminated channel. */
    ghost var signals: seq<Option<int>>
    var lastExitCode: Option<int>
    var closed: bool

    ghost predicate Valid()
      reads this, client, stopWaiter
    {
      client.Valid() && stopWaiter.Valid()
    }

    ghost function State(): World
      reads this, client, stopWaiter
    {
      World(client.State(), stopWaiter.State(), Sinks(output, armed, signals, lastExitCode))
    }

    constructor (client: Client, stopWaiter: StopWaiter)
      requires client.Valid() && stopWaiter.Valid()
      ensures Valid() && this.client == client && this.stopWaiter == stopWaiter && !closed
      ensures State() == World(client.State(), stopWaiter.State(), OPENED)
    {
      this.client, this.stopWaiter := client, stopWaiter;
      output, armed, signals, lastExitCode, closed := [], true, [], None, false;
    }

    method FireTerminated()
      requires Valid()
      modifies this
      ensures Valid() && closed == old(closed) && State() == Perform(old(State()), Firing)
    {
      var sender := armed;
      armed := false;
      if sender {
        signals := signals + [lastExitCode];
      }
    }

    /** Handle one message: concrete events first, then responses; the rest is only logged. */
    method Dispatch(m: Message)
      requires Valid()
      modifies this, client, stopWaiter
      ensures Valid() && closed == old(closed)
      ensures State() == PerformAll(old(State()), Sections(m))
    {
      ghost var _ := Handled(State(), m);
      match m
      case StoppedEvent(info) => stopWaiter.Send(Stopped(info));
      case InitializedEvent => client.SignalInitialized();
      case OutputEvent(category, text) => output := output + [(category, text)];
      case ExitedEvent(code) =>
        lastExitCode := Some(code);
        stopWaiter.Send(Exited(Some(code)));
      case TerminatedEvent =>
        FireTerminated();
        stopWaiter.Send(Terminated);
      case ResponseMessage(response) => var _ := client.DispatchResponse(response);
      case InformationalEvent =>
      case Unmodeled =>
    }

    /** Close, fail every pending request, release the stop waiter, fire the terminated signal. */
    method Recover()
      requires Valid()
      modifies this, client, stopWaiter
      ensures Valid() && closed
      ensures State() == PerformAll(old(State()), RECOVERY)
    {
      PerformThree(State(), Draining, Producing(Terminated), Firing);
      closed := true;
      client.CancelAllPending();
      stopWaiter.Send(Terminated);
      FireTerminated();
    }

    /** Read until the transport fails: `messages` are what came before that. */
    method Run(messages: seq<Message>)
      requires Valid()
      modifies this, client, stopWaiter
      ensures Valid() && closed
      ensures State() == PerformAll(old(State()), AllSections(messages) + RECOVERY)
    {
      for n := 0 to |messages|
        invariant Valid()
        invariant State() == PerformAll(old(State()), AllSections(messages[..n]))
      {
        Dispatch(messages[n]);
        assert messages[..n + 1][..n] == messages[..n];
        PerformMore(old(State()), AllSections(messages[..n]), Sections(messages[n]));
      }
      assert messages[..|messages|] == messages;
      Recover();
      PerformMore(old(State()), AllSections(messages), RECOVERY);
    }
  }

  // --- one termination signal ---

  /** The code of the last exit among the messages. */
  function LastExit(messages: seq<Message>): Option<int> {
    if messages == [] then None
    else if messages[|messages| - 1].ExitedEvent? then Some(messages[|messages| - 1].exitCode)
    else LastExit(messages[..|messages| - 1])
  }

  /** The messages before the first terminated event. */
  function BeforeTerminated(messages: seq<Message>): seq<Message> {
    if messages == [] || messages[0].TerminatedEvent? then [] else [messages[0]] + BeforeTerminated(messages[1..])
  }

  /** What callers do between the loop's sections leaves its sinks alone. */
  datatype Turn = LoopTurn(act: Act) | CallerTurn(shared: Shared, stops: Slot)

  function Interleave(w: World, turns: seq<Turn>): World {
    if turns == [] then w
    else
      var before := Interleave(w, turns[..|turns| - 1]);
      match turns[|turns| - 1]
      case LoopTurn(act) => Perform(before, act)
      case CallerTurn(shared, stops) => World(shared, stops, before.sinks)
  }

  function LoopOnly(turns: seq<Turn>): seq<Act> {
    if turns == [] then []
    else LoopOnly(turns[..|turns| - 1]) + if turns[|turns| - 1].LoopTurn? then [turns[|turns| - 1].act] else []
  }

  lemma {:induction false} CallersLeaveSinks(w: World, turns: seq<Turn>)
    ensures Interleave(w, turns).sinks == PerformAll(w, LoopOnly(turns)).sinks
  {
    if turns != [] {
      var n := |turns| - 1;
      CallersLeaveSinks(w, turns[..n]);
      if turns[n].LoopTurn? {
        assert LoopOnly(turns)[..|LoopOnly(turns)| - 1] == LoopOnly(turns[..n]);
      } else {
        assert LoopOnly(turns) == LoopOnly(turns[..n]);
      }
    }
  }

  lemma SinksAfter(w: World, m: Message)
    ensures var s := Handled(w, m).sinks;
            && s.lastExitCode == (if m.ExitedEvent? then Some(m.exitCode) else w.sinks.lastExitCode)
            && s.armed == (w.sinks.armed && !m.TerminatedEvent?)
            && s.signals == if w.sinks.armed && m.TerminatedEvent? then w.sinks.signals + [w.sinks.lastExitCode]
                else w.sinks.signals
  {
  }

  /** Nothing is signalled before a terminated event, and one code after it. */
  ghost predicate Tells(s: Sinks, messages: seq<Message>) {
    && s.lastExitCode == LastExit(messages)
    && s.armed == (BeforeTerminated(messages) == messages)
    && s.signals == if s.armed then [] else [LastExit(BeforeTerminated(messages))]
  }

  lemma TellsMore(s: Sinks, messages: seq<Message>, m: Message, t: Sinks)
    requires Tells(s, messages)
    requires t.lastExitCode == if m.ExitedEvent? then Some(m.exitCode) else s.lastExitCode
    requires t.armed == (s.armed && !m.TerminatedEvent?)
    requires t.signals == if s.armed && m.TerminatedEvent? then s.signals + [s.lastExitCode] else s.signals
    ensures Tells(t, messages + [m])
  {
    BeforeTerminatedGrows(messages, m);
    assert (messages + [m])[..|messages|] == messages;
  }

  lemma TellsAfter(w: World, messages: seq<Message>, m: Message)
    requires Tells(w.sinks, messages)
    ensures Tells(PerformAll(w, Sections(m)).sinks, messages + [m])
  {
    SinksAfter(w, m);
    TellsMore(w.sinks, messages, m, Handled(w, m).sinks);
  }

  lemma {:induction false} SignalsOf(w: World, messages: seq<Message>)
    requires w.sinks == OPENED
    ensures Tells(PerformAll(w, AllSections(messages)).sinks, messages)
  {
    if messages != [] {
      var n := |messages| - 1;
      var (init, m) := (messages[..n], messages[n]);
      SignalsOf(w, init);
      PerformMore(w, AllSections(init), Sections(m));
      assert init + [m] == messages;
      TellsAfter(PerformAll(w, AllSections(init)), init, m);
    }
  }

  lemma {:induction false} BeforeTerminatedGrows(messages: seq<Message>, m: Message)
    ensures BeforeTerminated(messages + [m]) ==
            if BeforeTerminated(messages) == messages && !m.TerminatedEvent? then messages + [m]
                else BeforeTerminated(messages)
    ensures |BeforeTerminated(messages)| <= |messages|
  {
    if messages != [] {
      BeforeTerminatedGrows(messages[1..], m);
      assert (messages + [m])[1..] == messages[1..] + [m];
      assert messages == [messages[0]] + messages[1..];
      assert messages + [m] == [messages[0]] + (messages[1..] + [m]);
    }
  }

  /**
   * However callers interleave with a loop that handles `messages` and then recovers, the
   * terminated signal fires exactly once, with the last exit code recorded before the first
   * terminated event, or before the end of the stream.
   */
  lemma OneTerminationSignal(w: World, messages: seq<Message>, turns: seq<Turn>)
    requires w.sinks == OPENED && LoopOnly(turns) == AllSections(messages) + RECOVERY
    ensures Interleave(w, turns).sinks.signals == [LastExit(BeforeTerminated(messages))]
    ensures !Interleave(w, turns).sinks.armed
  {
    CallersLeaveSinks(w, turns);
    SignalsOf(w, messages);
    PerformMore(w, AllSections(messages), RECOVERY);
    PerformThree(PerformAll(w, AllSections(messages)), Draining, Producing(Terminated), Firing);
  }

  /**
   * Recovery leaves no request pending and no stop waiter registered: each request that was pending
   * is told that the transport is closed, a registered waiter that the session terminated.
   */
  lemma RecoveryReleases(w: World)
    ensures var z := PerformAll(w, RECOVERY);
            && z.shared.pending == map[]
            && z.stops.sender == None
            && (forall n <- w.shared.pending | w.shared.pending[n] < |w.shared.replies| ::
                  w.shared.pending[n] < |z.shared.replies| &&
                      z.shared.replies[w.shared.pending[n]] == Delivered(TransportClosed))
            && (w.stops.sender.Some? && w.stops.sender.value < |w.stops.channels| ==>
                  w.stops.sender.value < |z.stops.channels| &&
                      z.stops.channels[w.stops.sender.value] == Delivered(Terminated))
            // The latch is not released: a caller still waiting for `initialized` stays blocked.
            && z.shared.initialized == w.shared.initialized
  {
    PerformThree(w, Draining, Producing(Terminated), Firing);
  }

  // --- what each message reaches ---

  lemma RunOneMore(w: World, messages: seq<Message>) returns (before: World, init: seq<Message>, m: Message)
    requires messages != []
    ensures init == messages[..|messages| - 1] && m == messages[|messages| - 1] && messages == init + [m]
    ensures before == PerformAll(w, AllSections(init))
    ensures PerformAll(w, AllSections(messages)) == Handled(before, m)
  {
    init, m := messages[..|messages| - 1], messages[|messages| - 1];
    before := PerformAll(w, AllSections(init));
    PerformMore(w, AllSections(init), Sections(m));
  }

  lemma StopsAfter(w: World, m: Message)
    ensures Handled(w, m).stops == match m
                                   case StoppedEvent(info) => Produce(w.stops, Stopped(info))
                                   case ExitedEvent(code) => Produce(w.stops, Exited(Some(code)))
                                   case TerminatedEvent => Produce(w.stops, Terminated)
                                   case _ => w.stops
  {
  }

  lemma SharedAfter(w: World, m: Message)
    ensures Handled(w, m).shared == match m
                                    case ResponseMessage(response) => DapClient.Dispatch(w.shared, response)
                                    case InitializedEvent => w.shared.(initialized := true)
                                    case _ => w.shared
  {
  }

  lemma OutputAfter(w: World, m: Message)
    ensures Handled(w, m).sinks.output ==
            w.sinks.output + if m.OutputEvent? then [(m.category, m.text)] else []
  {
  }

  /** The messages that end a wait for a stop. */
  predicate EndsWait(m: Message) {
    m.StoppedEvent? || m.ExitedEvent? || m.TerminatedEvent?
  }

  /** What a waiter that was registered before `messages` has heard after them: the first that ends its wait. */
  ghost predicate Hears(channel: Channel<StopOutcome>, messages: seq<Message>) {
    && ((forall m <- messages :: !EndsWait(m)) ==> channel == Open)
    && forall i | 0 <= i < |messages| && EndsWait(messages[i]) && (forall j | 0 <= j < i :: !EndsWait(messages[j])) ::
         match messages[i]
         case StoppedEvent(info) => channel == Delivered(Stopped(info))
         case ExitedEvent(code) => channel == Delivered(Exited(Some(code)))
         case _ => channel == Delivered(Terminated)
  }

  lemma HearsMore(channel: Channel<StopOutcome>, messages: seq<Message>, m: Message, channel': Channel<StopOutcome>)
    requires Hears(channel, messages)
    requires (exists e <- messages :: EndsWait(e)) || !EndsWait(m) ==> channel' == channel
    requires (forall e <- messages :: !EndsWait(e)) ==>
               match m
               case StoppedEvent(info) => channel' == Delivered(Stopped(info))
               case ExitedEvent(code) => channel' == Delivered(Exited(Some(code)))
               case TerminatedEvent => channel' == Delivered(Terminated)
               case _ => true
    ensures Hears(channel', messages + [m])
  {
    var more := messages + [m];
    assert m == more[|messages|] && forall e <- messages :: e in more;
    forall i | 0 <= i < |more| && EndsWait(more[i]) && (forall j | 0 <= j < i :: !EndsWait(more[j]))
      ensures i < |messages| ==> channel' == channel && EndsWait(messages[i])
                                 && forall j | 0 <= j < i :: !EndsWait(messages[j])
      ensures i == |messages| ==> forall e <- messages :: !EndsWait(e)
    {
      assert forall j | 0 <= j < |messages| :: more[j] == messages[j];
    }
  }

  /** The slot of a waiter that was registered in channel `c` before `messages`. */
  ghost predicate WaiterOf(stops: Slot, c: nat, messages: seq<Message>) {
    && c < |stops.channels|
    && Hears(stops.channels[c], messages)
    && stops.sender == if exists m <- messages :: EndsWait(m) then None else Some(c)
  }

  lemma WaiterOneMore(stops: Slot, c: nat, messages: seq<Message>, m: Message, stops': Slot)
    requires WaiterOf(stops, c, messages)
    requires stops' == match m
                       case StoppedEvent(info) => Produce(stops, Stopped(info))
                       case ExitedEvent(code) => Produce(stops, Exited(Some(code)))
                       case TerminatedEvent => Produce(stops, Terminated)
                       case _ => stops
    ensures WaiterOf(stops', c, messages + [m])
  {
    HearsMore(stops.channels[c], messages, m, stops'.channels[c]);
    assert forall e <- messages + [m] :: e in messages || e == m;
    assert m == (messages + [m])[|messages|] && forall e <- messages :: e in messages + [m];
  }

  /**
   * A registered waiter hears the first stopped, exited or terminated message, as that outcome, and
   * is then out of its slot; until there is one it stays registered and hears nothing.
   */
  lemma {:induction false} WaiterHears(w: World, messages: seq<Message>, c: nat)
    requires w.stops.sender == Some(c) && c < |w.stops.channels| && w.stops.channels[c] == Open
    ensures WaiterOf(PerformAll(w, AllSections(messages)).stops, c, messages)
  {
    if messages != [] {
      var before, init, m := RunOneMore(w, messages);
      WaiterHears(w, init, c);
      StopsAfter(before, m);
      WaiterOneMore(before.stops, c, init, m, Handled(before, m).stops);
    }
  }

  /** The latch is set exactly if it was, or the adapter said `initialized`. */
  lemma {:induction false} LatchHears(w: World, messages: seq<Message>)
    ensures PerformAll(w, AllSections(messages)).shared.initialized <==>
            w.shared.initialized || InitializedEvent in messages
  {
    if messages != [] {
      var before, init, m := RunOneMore(w, messages);
      LatchHears(w, init);
      SharedAfter(before, m);
    }
  }

  /** The output events among the messages. */
  function OutputOf(messages: seq<Message>): seq<(string, string)> {
    if messages == [] then []
    else
      var (earlier, last) := (OutputOf(messages[..|messages| - 1]), messages[|messages| - 1]);
      if last.OutputEvent? then earlier + [(last.category, last.text)] else earlier
  }

  /** Output is forwarded in order: all of it, and nothing else. */
  lemma {:induction false} OutputIsForwarded(w: World, messages: seq<Message>)
    ensures PerformAll(w, AllSections(messages)).sinks.output == w.sinks.output + OutputOf(messages)
  {
    if messages != [] {
      var before, init, m := RunOneMore(w, messages);
      OutputIsForwarded(w, init);
      OutputAfter(before, m);
    }
  }

  predicate Answers(m: Message, n: nat) {
    m.ResponseMessage? && m.response.requestSeq == n
  }

  /** Every pending request has a channel of its own. */
  ghost predicate OwnChannels(s: Shared) {
    && (forall q <- s.pending :: s.pending[q] < |s.replies|)
    && (forall p <- s.pending, q <- s.pending :: p != q ==> s.pending[p] != s.pending[q])
  }

  /** What request `n`, pending before `messages`, has received after them: the first response to it, if any. */
  ghost predicate Receives(s: Shared, n: nat, messages: seq<Message>, t: Shared)
    requires n in s.pending
  {
    var c := s.pending[n];
    && c < |t.replies| == |s.replies|
    && ((forall m <- messages :: !Answers(m, n)) ==> n in t.pending && t.replies[c] == s.replies[c])
    && ((exists m <- messages :: Answers(m, n)) ==> n !in t.pending)
    && forall i | 0 <= i < |messages| && Answers(messages[i], n) ::
         (forall j | 0 <= j < i :: !Answers(messages[j], n)) ==>
         t.replies[c] == Delivered(Answer(messages[i].response))
  }

  lemma ReceivesMore(s: Shared, n: nat, messages: seq<Message>, m: Message, t: Shared, u: Shared)
    requires n in s.pending && Receives(s, n, messages, t) && |u.replies| == |t.replies|
    requires var c := s.pending[n];
             if n in t.pending && Answers(m, n) then
               n !in u.pending && u.replies[c] == Delivered(Answer(m.response))
             else (n in u.pending <==> n in t.pending) && u.replies[c] == t.replies[c]
    ensures Receives(s, n, messages + [m], u)
  {
    var more := messages + [m];
    assert m == more[|messages|] && forall e <- messages :: e in more;
    forall i | 0 <= i < |more| && Answers(more[i], n) && (forall j | 0 <= j < i :: !Answers(more[j], n))
      ensures u.replies[s.pending[n]] == Delivered(Answer(more[i].response))
    {
      assert forall j | 0 <= j < |messages| :: more[j] == messages[j];
      if i < |messages| {
        assert messages[i] in messages && Answers(messages[i], n);
      }
    }
  }

  lemma ResponseArrives(s: Shared, n: nat, m: Message, t: Shared, u: Shared)
    requires n in s.pending && OwnChannels(s) && |t.replies| == |s.replies|
    requires t.pending.Keys <= s.pending.Keys && forall q <- t.pending :: t.pending[q] == s.pending[q]
    requires u == match m
                  case ResponseMessage(response) => DapClient.Dispatch(t, response)
                  case InitializedEvent => t.(initialized := true)
                  case _ => t
    ensures |u.replies| == |t.replies|
    ensures u.pending.Keys <= s.pending.Keys && forall q <- u.pending :: u.pending[q] == s.pending[q]
    ensures var c := s.pending[n];
            if n in t.pending && Answers(m, n) then n !in u.pending && u.replies[c] == Delivered(Answer(m.response))
            else (n in u.pending <==> n in t.pending) && u.replies[c] == t.replies[c]
  {
    assert forall q <- t.pending :: s.pending[q] < |s.replies|;
  }

  /** A response reaches the request of its own number, whether it reports success or not, and no other. */
  lemma {:induction false} ResponsesArrive(w: World, messages: seq<Message>, n: nat)
    requires n in w.shared.pending && OwnChannels(w.shared)
    ensures var t := PerformAll(w, AllSections(messages)).shared;
            && Receives(w.shared, n, messages, t)
            && t.pending.Keys <= w.shared.pending.Keys
            && forall q <- t.pending :: t.pending[q] == w.shared.pending[q]
  {
    if messages != [] {
      var before, init, m := RunOneMore(w, messages);
      ResponsesArrive(w, init, n);
      SharedAfter(before, m);
      ResponseArrives(w.shared, n, m, before.shared, Handled(before, m).shared);
      ReceivesMore(w.shared, n, init, m, before.shared, Handled(before, m).shared);
    }
  }
}
