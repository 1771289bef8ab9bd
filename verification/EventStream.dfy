/**
 * The WinDbg backend's event stream: the engine's output queue, its termination signal and the
 * backend's drop, merged into one stream that is polled.
 */
module EventStream {
  import opened Bytes
  import opened Wrappers
  import opened Neutral

  datatype OutputKind = Normal | Error | Warning | Prompt | Other(mask: int)

  datatype Line = Line(kind: OutputKind, text: seq<byte>)

  function CategoryFor(kind: OutputKind): string {
    match kind
    case Normal => "stdout"
    case Error => "stderr"
    case Warning => "stderr"
    case Prompt => "console"
    case Other(_) => "console"
  }

  /** What the stream yields, before it is put in the terms every backend uses. */
  datatype Yielded = OutputLine(line: Line) | Ended(code: Option<int>)

  function ToBackendEvent(y: Yielded): BackendEvent {
    match y
    case OutputLine(Line(kind, text)) => CategoriesAreAscii(kind); ProgramOutput(Ascii(CategoryFor(kind)), text)
    case Ended(code) => SessionEnded(code)
  }

  lemma CategoriesAreAscii(kind: OutputKind)
    ensures IsAscii(CategoryFor(kind))
  {
  }

  datatype Polled<E> = Pending | Item(event: E) | EndOfStream

  /** `term` is the engine's signal once it fired; a sender dropped without a code has fired `None`. */
  datatype Stream = Stream(queue: seq<Line>, term: Option<Option<int>>, dropped: bool, terminated: bool)

  const OPENED := Stream([], None, false, false)

  /** The engine's own code wins whenever it is there to be seen; a dropped backend has none. */
  function Signal(s: Stream): Option<Option<int>> {
    if s.term.Some? then s.term else if s.dropped then Some(None) else None
  }

  function PollResult(s: Stream): Polled<Yielded> {
    if s.terminated then EndOfStream
    else if s.queue != [] then Item(OutputLine(s.queue[0]))
    else if Signal(s).Some? then Item(Ended(Signal(s).value))
    else Pending
  }

  function AfterPoll(s: Stream): Stream {
    match PollResult(s)
    case Item(OutputLine(_)) => s.(queue := s.queue[1..])
    case Item(Ended(_)) => s.(terminated := true)
    case _ => s
  }

  function Translated(r: Polled<Yielded>): Polled<BackendEvent> {
    match r
    case Pending => Pending
    case Item(event) => Item(ToBackendEvent(event))
    case EndOfStream => EndOfStream
  }

  class EventStream {
    var queue: seq<Line>
    /** Every sender of the queue is gone. */
    var closed: bool
    var term: Option<Option<int>>
    var dropped: bool
    var terminated: bool
    /** A poll found the queue closed and is parked on the terminate race. */
    var awaiting: bool

    ghost predicate Valid()
      reads this
    {
      awaiting ==> closed && queue == [] && !terminated
    }

    ghost function State(): Stream
      reads this
    {
      Stream(queue, term, dropped, terminated)
    }

    constructor ()
      ensures Valid() && State() == OPENED && !closed
    {
      queue, closed, term, dropped, terminated, awaiting := [], false, None, false, false, false;
    }

    method Send(line: Line)
      requires Valid() && !closed
      modifies this
      ensures Valid() && closed == old(closed)
      ensures State() == old(State()).(queue := old(queue) + [line])
    {
      queue := queue + [line];
    }

    method Close()
      requires Valid()
      modifies this
      ensures Valid() && closed && State() == old(State())
    {
      closed := true;
    }

    method Fire(code: Option<int>)
      requires Valid() && term == None
      modifies this
      ensures Valid() && closed == old(closed) && State() == old(State()).(term := Some(code))
    {
      term := Some(code);
    }

    method DropBackend()
      requires Valid()
      modifies this
      ensures Valid() && closed == old(closed) && State() == old(State()).(dropped := true)
    {
      dropped := true;
    }

    /** Poll the race: the engine's signal is looked at first. */
    method PollTerminate() returns (code: Option<Option<int>>)
      ensures code == Signal(State())
    {
      if term.Some? {
        return term;
      }
      if dropped {
        return Some(None);
      }
      return None;
    }

    /** One poll; output is looked at before the race, so nothing queued is lost to the end. */
    method Poll() returns (r: Polled<BackendEvent>)
      requires Valid()
      modifies this
      ensures Valid() && closed == old(closed)
      ensures r == Translated(PollResult(old(State()))) && State() == AfterPoll(old(State()))
      // A queued line comes first, under the category of its kind; then the end, with the code that is there.
      ensures !old(terminated) && old(queue) != [] ==>
                var (kind, text) := (old(queue)[0].kind, old(queue)[0].text);
                && (kind == Normal ==> r == Item(ProgramOutput(Ascii("stdout"), text)))
                && (kind == Error || kind == Warning ==> r == Item(ProgramOutput(Ascii("stderr"), text)))
                && (kind == Prompt || kind.Other? ==> r == Item(ProgramOutput(Ascii("console"), text)))
      ensures !old(terminated) && old(queue) == [] && (old(term).Some? || old(dropped)) ==>
                r == Item(SessionEnded(if old(term).Some? then old(term).value else None))
    {
      if !awaiting {
        if terminated {
          return EndOfStream;
        }
        if queue != [] {
          var line := queue[0];
          queue := queue[1..];
          return Item(ToBackendEvent(OutputLine(line)));
        }
        if closed {
          awaiting := true;
        }
      }
      var code := PollTerminate();
      if code.None? {
        return Pending;
      }
      awaiting, terminated := false, true;
      return Item(SessionEnded(code.value));
    }
  }

  // --- every schedule ---

  datatype Op = SendLine(line: Line) | FireTerm(code: Option<int>) | DropIt | PollIt

  /** What has been yielded, and the signal that was there when the terminal event was. */
  datatype System = System(stream: Stream, sent: seq<Line>, yielded: seq<Yielded>, ended: bool)

  function Next(y: System, op: Op): System {
    match op
    case SendLine(line) => y.(stream := y.stream.(queue := y.stream.queue + [line]), sent := y.sent + [line])
    case FireTerm(code) => if y.stream.term.None? then y.(stream := y.stream.(term := Some(code))) else y
    case DropIt => y.(stream := y.stream.(dropped := true))
    case PollIt =>
      if y.ended then y
      else
        match PollResult(y.stream)
        case Pending => y
        case Item(event) => y.(stream := AfterPoll(y.stream), yielded := y.yielded + [event])
        case EndOfStream => y.(ended := true)
  }

  function Run(ops: seq<Op>): System {
    if ops == [] then System(OPENED, [], [], false) else Next(Run(ops[..|ops| - 1]), ops[|ops| - 1])
  }

  function OutputsOf(lines: seq<Line>): seq<Yielded> {
    seq(|lines|, i requires 0 <= i < |lines| => OutputLine(lines[i]))
  }

  /** The lines yielded so far: all that were sent and are not queued any more. */
  function Delivered(y: System): seq<Line>
    requires |y.stream.queue| <= |y.sent|
  {
    y.sent[..|y.sent| - |y.stream.queue|]
  }

  ghost predicate Shaped(y: System) {
    && |y.stream.queue| <= |y.sent|
    && y.stream.queue == y.sent[|y.sent| - |y.stream.queue|..]
    && (y.ended ==> y.stream.terminated)
    && if y.stream.terminated then
         && |y.yielded| == |Delivered(y)| + 1
         && y.yielded[..|Delivered(y)|] == OutputsOf(Delivered(y))
         && y.yielded[|Delivered(y)|].Ended?
       else y.yielded == OutputsOf(Delivered(y))
  }

  lemma PollKeepsShape(y: System)
    requires Shaped(y)
    ensures Shaped(Next(y, PollIt))
  {
    if !y.ended && !y.stream.terminated {
      if y.stream.queue != [] {
        OutputKeepsShape(y);
      } else if Signal(y.stream).Some? {
        EndKeepsShape(y);
      }
    }
  }

  lemma OutputKeepsShape(y: System)
    requires Shaped(y) && !y.ended && !y.stream.terminated && y.stream.queue != []
    ensures Shaped(Next(y, PollIt))
  {
    var (queue, line) := (y.stream.queue, y.stream.queue[0]);
    OneMoreDelivered(y.sent, queue);
    assert Next(y, PollIt) == y.(stream := y.stream.(queue := queue[1..]), yielded := y.yielded + [OutputLine(line)]);
  }

  lemma EndKeepsShape(y: System)
    requires Shaped(y) && !y.ended && !y.stream.terminated && y.stream.queue == [] && Signal(y.stream).Some?
    ensures Shaped(Next(y, PollIt))
  {
    var end := Ended(Signal(y.stream).value);
    assert Next(y, PollIt) == y.(stream := y.stream.(terminated := true), yielded := y.yielded + [end]);
    assert (y.yielded + [end])[..|y.yielded|] == y.yielded;
  }

  /** Taking the front of the queue moves one line to those delivered. */
  lemma OneMoreDelivered(sent: seq<Line>, queue: seq<Line>)
    requires 0 < |queue| <= |sent| && queue == sent[|sent| - |queue|..]
    ensures queue[1..] == sent[|sent| - |queue[1..]|..]
    ensures sent[..|sent| - |queue[1..]|] == sent[..|sent| - |queue|] + [queue[0]]
    ensures OutputsOf(sent[..|sent| - |queue[1..]|]) == OutputsOf(sent[..|sent| - |queue|]) + [OutputLine(queue[0])]
  {
    assert queue[0] == sent[|sent| - |queue|];
  }

  lemma StepKeepsShape(y: System, op: Op)
    requires Shaped(y)
    ensures Shaped(Next(y, op))
  {
    if op.PollIt? {
      PollKeepsShape(y);
    } else {
      assert Delivered(Next(y, op)) == Delivered(y);
    }
  }

  /**
   * On every schedule the stream yields queued output in the order sent, then at most one terminal
   * event, and ends only after that; nothing is yielded twice, skipped or after the terminal event.
   */
  lemma {:induction false} StreamShape(ops: seq<Op>)
    ensures Shaped(Run(ops))
  {
    if ops != [] {
      var n := |ops| - 1;
      StreamShape(ops[..n]);
      StepKeepsShape(Run(ops[..n]), ops[n]);
    }
  }

  /**
   * The terminal event appears only at a poll that finds nothing queued and a signal fired, so
   * everything sent before it has been yielded; and it carries the engine's code if that is there.
   */
  lemma TerminalEventIsLast(ops: seq<Op>)
    requires ops != [] && Run(ops).stream.terminated && !Run(ops[..|ops| - 1]).stream.terminated
    ensures var (y, z) := (Run(ops[..|ops| - 1]), Run(ops));
            && ops[|ops| - 1] == PollIt
            && y.stream.queue == [] && z.sent == y.sent
            && (y.stream.term.Some? || y.stream.dropped)
            && z.yielded == OutputsOf(z.sent)
                + [Ended(if y.stream.term.Some? then y.stream.term.value else None)]
  {
    StreamShape(ops[..|ops| - 1]);
    TerminatingPoll(Run(ops[..|ops| - 1]), ops[|ops| - 1]);
  }

  lemma TerminatingPoll(y: System, op: Op)
    requires Shaped(y) && !y.stream.terminated && Next(y, op).stream.terminated
    ensures op == PollIt && y.stream.queue == [] && (y.stream.term.Some? || y.stream.dropped)
    ensures Next(y, op).sent == y.sent
    ensures Next(y, op).yielded == OutputsOf(y.sent)
        + [Ended(if y.stream.term.Some? then y.stream.term.value else None)]
  {
    assert y.stream.queue == [] ==> Delivered(y) == y.sent;
  }

  // --- which signal wins ---

  /** The first of the two signals that a schedule fires. */
  function FirstSignal(ops: seq<Op>): Option<Op> {
    if ops == [] then None
    else
      var earlier := FirstSignal(ops[..|ops| - 1]);
      var last := ops[|ops| - 1];
      if earlier.Some? then earlier else if last.FireTerm? || last.DropIt? then Some(last) else None
  }

  /** The code of the engine's signal, if a schedule fires it. */
  function EngineCode(ops: seq<Op>): Option<Option<int>> {
    if ops == [] then None
    else
      var earlier := EngineCode(ops[..|ops| - 1]);
      var last := ops[|ops| - 1];
      if earlier.Some? then earlier else if last.FireTerm? then Some(last.code) else None
  }

  function CodeOf(signal: Op): Option<int> {
    if signal.FireTerm? then signal.code else None
  }

  lemma {:induction false} SignalsAreSeen(ops: seq<Op>)
    ensures Run(ops).stream.term == EngineCode(ops)
    ensures Run(ops).stream.dropped <==> DropIt in ops
    ensures FirstSignal(ops).Some? <==> EngineCode(ops).Some? || DropIt in ops
    ensures FirstSignal(ops).Some? && FirstSignal(ops).value.FireTerm? ==>
        EngineCode(ops) == Some(FirstSignal(ops).value.code)
    ensures FirstSignal(ops).Some? ==> FirstSignal(ops).value.FireTerm? || FirstSignal(ops).value == DropIt
  {
    if ops != [] {
      var n := |ops| - 1;
      SignalsAreSeen(ops[..n]);
      assert ops == ops[..n] + [ops[n]];
      PollKeepsSignals(Run(ops[..n]), ops[n]);
    }
  }

  lemma PollKeepsSignals(y: System, op: Op)
    ensures Next(y, op).stream.term == if op.FireTerm? && y.stream.term.None? then Some(op.code) else y.stream.term
    ensures Next(y, op).stream.dropped == (y.stream.dropped || op.DropIt?)
  {
  }

  /**
   * The terminal event carries the code of whichever signal fired first, unless the backend was
   * dropped first and an exit code of the engine still came in before the poll that terminated.
   */
  lemma FirstSignalWins(ops: seq<Op>)
    requires ops != [] && Run(ops).stream.terminated && !Run(ops[..|ops| - 1]).stream.terminated
    ensures var before := ops[..|ops| - 1];
            && FirstSignal(before).Some?
            && |Run(ops).yielded| > 0
            && (Run(ops).yielded[|Run(ops).yielded| - 1] == Ended(CodeOf(FirstSignal(before).value)) <==>
                !(FirstSignal(before) == Some(DropIt) && EngineCode(before).Some? && EngineCode(before).value.Some?))
  {
    TerminalEventIsLast(ops);
    SignalsAreSeen(ops[..|ops| - 1]);
  }

  /** The exception happens: a drop fires first, and the engine's later code is what is yielded. */
  lemma LateCodeOvertakesDrop(code: int)
    ensures var ops := [DropIt, FireTerm(Some(code)), PollIt];
            && FirstSignal(ops) == Some(DropIt) && CodeOf(DropIt) == None
            && Run(ops).yielded == [Ended(Some(code))]
  {
    var fired := [DropIt] + [FireTerm(Some(code))];
    RunOneMore([], DropIt);
    FirstOneMore([], DropIt);
    assert [] + [DropIt] == [DropIt];
    RunOneMore([DropIt], FireTerm(Some(code)));
    FirstOneMore([DropIt], FireTerm(Some(code)));
    RunOneMore(fired, PollIt);
    FirstOneMore(fired, PollIt);
    assert [DropIt, FireTerm(Some(code)), PollIt] == fired + [PollIt];
  }

  lemma FirstOneMore(ops: seq<Op>, op: Op)
    ensures FirstSignal(ops + [op]) ==
            if FirstSignal(ops).Some? then FirstSignal(ops) else if op.FireTerm? || op.DropIt? then Some(op) else None
  {
    assert (ops + [op])[..|ops|] == ops;
  }

  lemma RunOneMore(ops: seq<Op>, op: Op)
    ensures Run(ops + [op]) == Next(Run(ops), op)
  {
    assert (ops + [op])[..|ops|] == ops;
  }

  /** How many polls a schedule has from operation `m` on. */
  function PollsFrom(ops: seq<Op>, m: nat): nat {
    if |ops| <= m then 0
    else PollsFrom(ops[..|ops| - 1], m) + if ops[|ops| - 1].PollIt? then 1 else 0
  }

  /**
   * Once a signal has fired and no more output is sent from operation `m` on, every poll takes one
   * step: the queue drains line by line, the next poll terminates and the one after it ends the
   * stream, whether or not the queue was ever closed, and whatever else fires between the polls.
   */
  lemma {:induction false} EndsInTime(ops: seq<Op>, m: nat)
    requires m <= |ops| && forall k | m <= k < |ops| :: !ops[k].SendLine?
    requires Signal(Run(ops[..m]).stream).Some? && !Run(ops[..m]).stream.terminated
    ensures var (q, n, z) := (|Run(ops[..m]).stream.queue|, PollsFrom(ops, m), Run(ops));
            && Signal(z.stream).Some?
            && |z.stream.queue| == (if n <= q then q - n else 0)
            && (z.stream.terminated <==> n >= q + 1)
            && (z.ended <==> n >= q + 2)
    decreases |ops|
  {
    if m == |ops| {
      assert ops[..m] == ops;
      StreamShape(ops);
    } else {
      var init := ops[..|ops| - 1];
      assert init[..m] == ops[..m];
      EndsInTime(init, m);
    }
  }

  /** Without a signal the stream never terminates, however often it is polled. */
  lemma {:induction false} NeverEndsUnsignalled(ops: seq<Op>)
    requires Signal(Run(ops).stream).None?
    ensures !Run(ops).stream.terminated && !Run(ops).ended
  {
    if ops != [] {
      NeverEndsUnsignalled(ops[..|ops| - 1]);
    }
  }
}
