/**
 * The engine's wait loops over an abstract event source.
 *
 * The source is a trace: what each `WaitForEvent` call returns next, and what the calls made on
 * that event find. Where a wait's time slice ends before an event fires, the trace has a cut. Past
 * its end every wait times out.
 */
module WaitLoop {
  import opened Wrappers
  import opened Neutral

  datatype Status =
    | Go
    | GoHandled
    | GoNotHandled
    | StepOver
    | StepInto
    | StepBranch
    | Break
    | NoDebuggee
    | OtherStatus(code: int)

  /** What evaluating the stored condition yields at an event. */
  datatype Evaluation = EvaluationFailed | PartialParse | Evaluated(value: nat)

  /** What `GetLastEventInformation` reports. */
  datatype LastEvent = NoInformation | OtherEvent | BreakpointEvent(id: int, evaluation: Evaluation)

  /** What the event callbacks had recorded when the event fired. */
  datatype Recorded = Recorded(reason: string, exitCode: Option<int>, breakpointId: Option<int>, threadId: int)

  datatype Wait =
    | Cut
    | WaitFailed
    | Fired(status: Option<Status>, last: LastEvent, goAccepted: bool, recorded: Recorded)

  datatype WaitResult = Event(outcome: StopOutcome) | TimedOut

  type Conditions = map<int, string>

  predicate IsResume(status: Status) {
    || status.Go? || status.GoHandled? || status.GoNotHandled?
    || status.StepOver? || status.StepInto? || status.StepBranch?
  }

  /** Without a condition a breakpoint always stops; one that cannot be evaluated never does. */
  predicate ConditionMet(conditions: Conditions, id: int, evaluation: Evaluation) {
    id !in conditions || ('\0' !in conditions[id] && evaluation.Evaluated? && evaluation.value != 0)
  }

  function BuildStopOutcome(status: Status, r: Recorded): StopOutcome {
    if r.exitCode.Some? || status == NoDebuggee then Exited(r.exitCode)
    else Stopped(StopInfo(r.reason, r.threadId, "", if r.breakpointId.Some? then [r.breakpointId.value] else []))
  }

  // --- the specification: the first event that surfaces ---

  /** A conditional breakpoint that must not stop here. */
  predicate IsSkippedHit(conditions: Conditions, w: Wait) {
    && w.Fired? && w.status == Some(Break) && w.last.BreakpointEvent?
    && !ConditionMet(conditions, w.last.id, w.last.evaluation)
  }

  /** An event the wait does not report: a resume status, or a skipped hit that resumed. */
  predicate IsSilent(conditions: Conditions, w: Wait) {
    || (w.Fired? && w.status.Some? && IsResume(w.status.value))
    || (IsSkippedHit(conditions, w) && w.goAccepted)
  }

  /** What an event that is neither silent nor a cut makes of the wait. */
  function Surfaced(conditions: Conditions, w: Wait): Result<StopOutcome, string>
    requires !w.Cut? && !IsSilent(conditions, w)
  {
    if w.WaitFailed? then Failure("WaitForEvent")
    else if w.status.None? then Failure("GetExecutionStatus")
    else if IsSkippedHit(conditions, w) then Failure("SetExecutionStatus(GO)")
    else Success(BuildStopOutcome(w.status.value, w.recorded))
  }

  /** The first event of a trace that surfaces, wherever the time slices cut it. */
  function FirstStop(conditions: Conditions, trace: seq<Wait>): Option<Result<StopOutcome, string>> {
    if trace == [] then None
    else if trace[0].Cut? || IsSilent(conditions, trace[0]) then FirstStop(conditions, trace[1..])
    else Some(Surfaced(conditions, trace[0]))
  }

  // --- the same, told event by event ---

  /** A breakpoint with a condition that cannot be evaluated here, or is false. */
  predicate HitInVain(conditions: Conditions, last: LastEvent) {
    && last.BreakpointEvent?
    && last.id in conditions
    && (|| '\0' in conditions[last.id]
        || last.evaluation == EvaluationFailed || last.evaluation == PartialParse || last.evaluation == Evaluated(0))
  }

  /** The target runs on after this event, and the wait with it. */
  predicate RunsOn(conditions: Conditions, w: Wait) {
    && w.Fired?
    && w.status.Some?
    && (|| w.status.value in {Go, GoHandled, GoNotHandled, StepOver, StepInto, StepBranch}
        || (w.status.value == Break && HitInVain(conditions, w.last) && w.goAccepted))
  }

  /** What a reported stop says: the end of the debuggee, or the reason, thread and hit breakpoint recorded. */
  predicate Tells(outcome: StopOutcome, status: Status, r: Recorded) {
    match r.exitCode
    case Some(code) => outcome == Exited(Some(code))
    case None =>
      if status == NoDebuggee then outcome == Exited(None)
      else
        && outcome.Stopped?
        && outcome.info.reason == r.reason
        && outcome.info.threadId == r.threadId
        && outcome.info.description == ""
        && outcome.info.hitBreakpointIds == match r.breakpointId case Some(id) => [id] case None => []
  }

  /** What the wait returns for an event: an error of the engine, or a stop that is no hit in vain. */
  predicate Reports(conditions: Conditions, w: Wait, r: Result<StopOutcome, string>) {
    match w
    case Cut => false
    case WaitFailed => r.Failure?
    case Fired(None, _, _, _) => r.Failure?
    case Fired(Some(status), last, goAccepted, recorded) =>
      && status !in {Go, GoHandled, GoNotHandled, StepOver, StepInto, StepBranch}
      && if status == Break && HitInVain(conditions, last) then r.Failure? && !goAccepted
         else
           && r.Success? && Tells(r.value, status, recorded)
           && (status == Break && last.BreakpointEvent? && last.id in conditions ==>
                 last.evaluation.Evaluated? && last.evaluation.value != 0)
  }

  lemma OneEvent(conditions: Conditions, w: Wait)
    requires !w.Cut?
    ensures IsSilent(conditions, w) <==> RunsOn(conditions, w)
    ensures !IsSilent(conditions, w) ==> Reports(conditions, w, Surfaced(conditions, w))
  {
    if w.Fired? && w.status.Some? {
      var status := w.status.value;
      assert IsResume(status) <==> status in {Go, GoHandled, GoNotHandled, StepOver, StepInto, StepBranch};
      assert IsSkippedHit(conditions, w) <==> status == Break && HitInVain(conditions, w.last);
    }
  }

  /** The target runs on after every event before the first stop, and that stop is what its event reports. */
  lemma {:induction false} FirstStopReports(conditions: Conditions, trace: seq<Wait>) returns (n: nat)
    ensures n <= |trace| && forall i | 0 <= i < n :: trace[i].Cut? || RunsOn(conditions, trace[i])
    ensures FirstStop(conditions, trace).None? <==> n == |trace|
    ensures n < |trace| ==> Reports(conditions, trace[n], FirstStop(conditions, trace).value)
  {
    n := 0;
    if trace != [] {
      if !trace[0].Cut? {
        OneEvent(conditions, trace[0]);
      }
      if trace[0].Cut? || IsSilent(conditions, trace[0]) {
        n := FirstStopReports(conditions, trace[1..]);
        n := n + 1;
      }
    }
  }

  /** How many skipped hits a trace answers with GO. */
  function SkippedHits(conditions: Conditions, trace: seq<Wait>): nat {
    if trace == [] then 0
    else
      var rest := SkippedHits(conditions, trace[1..]);
      if IsSkippedHit(conditions, trace[0]) && trace[0].goAccepted then 1 + rest else rest
  }

  /** How many slices pass before the first stop. */
  function CutsBefore(conditions: Conditions, trace: seq<Wait>): nat {
    if trace == [] then 0
    else if trace[0].Cut? then 1 + CutsBefore(conditions, trace[1..])
    else if IsSilent(conditions, trace[0]) then CutsBefore(conditions, trace[1..])
    else 0
  }

  /** The trace as one unbroken wait would see it. */
  function Erase(trace: seq<Wait>): seq<Wait> {
    if trace == [] then []
    else (if trace[0].Cut? then [] else [trace[0]]) + Erase(trace[1..])
  }

  lemma {:induction false} Append(conditions: Conditions, a: seq<Wait>, b: seq<Wait>)
    ensures FirstStop(conditions, a + b) == if FirstStop(conditions, a).Some? then FirstStop(conditions, a)
        else FirstStop(conditions, b)
    ensures SkippedHits(conditions, a + b) == SkippedHits(conditions, a) + SkippedHits(conditions, b)
  {
    if a == [] {
      assert a + b == b;
    } else {
      Append(conditions, a[1..], b);
      assert (a + b)[1..] == a[1..] + b;
    }
  }

  /** Slicing the same events differently never changes which one surfaces. */
  lemma {:induction false} CutsDoNotMatter(conditions: Conditions, trace: seq<Wait>)
    ensures FirstStop(conditions, trace) == FirstStop(conditions, Erase(trace))
    ensures SkippedHits(conditions, trace) == SkippedHits(conditions, Erase(trace))
  {
    if trace != [] {
      CutsDoNotMatter(conditions, trace[1..]);
      assert Erase(trace) == if trace[0].Cut? then Erase(trace[1..]) else [trace[0]] + Erase(trace[1..]);
      if !trace[0].Cut? {
        assert Erase(trace)[1..] == Erase(trace[1..]);
      }
    }
  }

  lemma SameEventsSameStop(conditions: Conditions, a: seq<Wait>, b: seq<Wait>)
    requires Erase(a) == Erase(b)
    ensures FirstStop(conditions, a) == FirstStop(conditions, b)
    ensures SkippedHits(conditions, a) == SkippedHits(conditions, b)
  {
    CutsDoNotMatter(conditions, a);
    CutsDoNotMatter(conditions, b);
  }

  // --- the loops ---

  /** What one poll of the break loop finds: whether the interrupt is taken, and the status read. */
  datatype Poll = Poll(accepted: bool, status: Option<Status>, recorded: Recorded)

  function Relabel(outcome: StopOutcome): StopOutcome {
    if outcome.Stopped? then Stopped(outcome.info.(reason := "Execution paused")) else outcome
  }

  const BREAK_POLLS: nat := 50

  /**
   * What breaking in yields when the event that surfaces first, if any, lies `cuts` slices ahead:
   * that event when the polls reach it, an earlier poll that reads a stopped status, or an error.
   */
  function Regained(first: Option<Result<StopOutcome, string>>, cuts: nat, poll: nat -> Poll, k: nat, limit: nat)
    : Result<StopOutcome, string>
    decreases limit - k
  {
    if k >= limit then Failure("break: timed out")
    else if first.Some? && cuts == 0 then
      if first.value.Success? then Success(Relabel(first.value.value)) else first.value
    else if poll(k).status.None? then Failure("GetExecutionStatus")
    else if poll(k).status.value == Break || poll(k).status.value == NoDebuggee then
      Success(Relabel(BuildStopOutcome(poll(k).status.value, poll(k).recorded)))
    else if !poll(k + 1).accepted then Failure("SetInterrupt(ACTIVE)")
    else Regained(first, if cuts == 0 then 0 else cuts - 1, poll, k + 1, limit)
  }

  function BrokenIn(first: Option<Result<StopOutcome, string>>, cuts: nat, poll: nat -> Poll, limit: nat)
    : Result<StopOutcome, string>
  {
    if !poll(0).accepted then Failure("SetInterrupt(ACTIVE)") else Regained(first, cuts, poll, 0, limit)
  }

  /** A slice after which the loop goes on: the target still runs, and the next interrupt is taken. */
  predicate Quiet(poll: nat -> Poll, k: nat) {
    && poll(k).status.Some? && poll(k).status.value != Break && poll(k).status.value != NoDebuggee
    && poll(k + 1).accepted
  }

  function Minus(a: nat, b: nat): nat {
    if a < b then 0 else a - b
  }

  /** Quiet slices before the first stop are passed over. */
  lemma {:induction false} QuietSlicesPass(first: Option<Result<StopOutcome, string>>, cuts: nat, poll: nat -> Poll,
                                           k: nat, m: nat, limit: nat)
    requires k <= m <= limit && (first.Some? ==> m - k <= cuts)
    requires forall i | k <= i < m :: Quiet(poll, i)
    ensures Regained(first, cuts, poll, k, limit) == Regained(first, Minus(cuts, m - k), poll, m, limit)
    decreases m - k
  {
    if k < m {
      assert Quiet(poll, k);
      QuietSlicesPass(first, Minus(cuts, 1), poll, k + 1, m, limit);
    }
  }

  /**
   * Breaking into a target that keeps running until its first stop: that stop is returned, relabelled,
   * exactly when it lies fewer slices ahead than are polled, and otherwise the break times out.
   */
  lemma BreakingInReachesTheStop(first: Option<Result<StopOutcome, string>>, cuts: nat, poll: nat -> Poll, limit: nat)
    requires poll(0).accepted && forall i | 0 <= i < limit && (first.Some? ==> i < cuts) :: Quiet(poll, i)
    ensures BrokenIn(first, cuts, poll, limit) ==
            if first.Some? && cuts < limit then
              if first.value.Success? then Success(Relabel(first.value.value)) else first.value
            else Failure("break: timed out")
    // Relabelling gives a stop another reason and leaves everything else.
    ensures first.Some? && cuts < limit && first.value.Success? ==>
              match first.value.value
              case Stopped(info) =>
                BrokenIn(first, cuts, poll, limit) ==
                Success(Stopped(StopInfo("Execution paused", info.threadId, info.description, info.hitBreakpointIds)))
              case other => BrokenIn(first, cuts, poll, limit) == Success(other)
  {
    QuietSlicesPass(first, cuts, poll, 0, if first.Some? && cuts < limit then cuts else limit, limit);
  }

  /** A stopped status that the wait did not surface ends the break at its slice, before any stop further ahead. */
  lemma BreakingInSeesTheStatus(first: Option<Result<StopOutcome, string>>, cuts: nat, poll: nat -> Poll, k: nat,
      limit: nat)
    requires poll(0).accepted && k < limit && (first.Some? ==> k < cuts) && forall i | 0 <= i < k :: Quiet(poll, i)
    requires poll(k).status == Some(Break) || poll(k).status == Some(NoDebuggee)
    ensures BrokenIn(first, cuts, poll, limit) ==
        Success(Relabel(BuildStopOutcome(poll(k).status.value, poll(k).recorded)))
  {
    QuietSlicesPass(first, cuts, poll, 0, k, limit);
  }

  /**
   * What `go` yields: the first stop when it lies within the slices polled before the deadline and
   * the interrupt; else, when an interrupt came in, what breaking in regains; else nothing.
   */
  function Ran(first: Option<Result<StopOutcome, string>>, cuts: nat, slices: nat, interruptAt: nat, late: bool,
               poll: nat -> Poll, limit: nat)
    : Result<Option<StopOutcome>, string>
  {
    var polled := if slices < interruptAt then slices else interruptAt;
    if first.Some? && cuts < polled then
      if first.value.Success? then Success(Some(first.value.value)) else Failure(first.value.error)
    else if interruptAt <= polled || late then
      var regained := BrokenIn(first, if cuts < polled then 0 else cuts - polled, poll, limit);
      if regained.Success? then Success(Some(regained.value)) else Failure(regained.error)
    else Success(None)
  }

  /**
   * A `go` that is interrupted, before its last slice or after it, while the target keeps running
   * until its first stop: that stop, as it is when it lies within the slices polled until then, and
   * relabelled when breaking in reaches it; otherwise the break times out.
   */
  lemma InterruptedGo(first: Option<Result<StopOutcome, string>>, cuts: nat, slices: nat, interruptAt: nat, late: bool,
                      poll: nat -> Poll, limit: nat)
    requires interruptAt <= slices || late
    requires poll(0).accepted && forall i | 0 <= i < limit :: Quiet(poll, i)
    ensures var polled := if slices < interruptAt then slices else interruptAt;
            Ran(first, cuts, slices, interruptAt, late, poll, limit) ==
            if first.None? || cuts >= polled + limit then Failure("break: timed out")
            else if first.value.Failure? then Failure(first.value.error)
            else Success(Some(if cuts < polled then first.value.value else Relabel(first.value.value)))
  {
    var polled := if slices < interruptAt then slices else interruptAt;
    BreakingInReachesTheStop(first, Minus(cuts, polled), poll, limit);
  }

  /** A `go` that is not interrupted returns nothing exactly if no stop lies within its slices. */
  lemma GoAtDeadline(first: Option<Result<StopOutcome, string>>, cuts: nat, slices: nat, interruptAt: nat,
                     poll: nat -> Poll, limit: nat)
    requires slices < interruptAt
    ensures Ran(first, cuts, slices, interruptAt, false, poll, limit) == Success(None) <==>
            first.None? || slices <= cuts
  {
  }

  /** Breaking in fails at the first slice whose status cannot be read, or after which the interrupt is refused. */
  lemma BreakingInFails(first: Option<Result<StopOutcome, string>>, cuts: nat, poll: nat -> Poll, k: nat, limit: nat)
    requires poll(0).accepted && k < limit && (first.Some? ==> k < cuts) && forall i | 0 <= i < k :: Quiet(poll, i)
    requires poll(k).status != Some(Break) && poll(k).status != Some(NoDebuggee)
    ensures poll(k).status.None? || !poll(k + 1).accepted ==> BrokenIn(first, cuts, poll, limit).Failure?
  {
    QuietSlicesPass(first, cuts, poll, 0, k, limit);
  }

  /** An uninterrupted `go` with slices to spare returns the first stop, however its waits are cut. */
  lemma UninterruptedGo(conditions: Conditions, a: seq<Wait>, b: seq<Wait>, slicesA: nat, slicesB: nat,
                        interruptA: nat, interruptB: nat, poll: nat -> Poll, limit: nat)
    requires Erase(a) == Erase(b) && FirstStop(conditions, a).Some?
    requires CutsBefore(conditions, a) < slicesA < interruptA && CutsBefore(conditions, b) < slicesB < interruptB
    ensures FirstStop(conditions, Erase(a)).Some?
    ensures var first := FirstStop(conditions, Erase(a)).value;
            && Ran(FirstStop(conditions, a), CutsBefore(conditions, a), slicesA, interruptA, false, poll, limit) ==
               Ran(FirstStop(conditions, b), CutsBefore(conditions, b), slicesB, interruptB, false, poll, limit)
            && Ran(FirstStop(conditions, a), CutsBefore(conditions, a), slicesA, interruptA, false, poll, limit) ==
               if first.Success? then Success(Some(first.value)) else Failure(first.error)
  {
    SameEventsSameStop(conditions, a, b);
    CutsDoNotMatter(conditions, a);
  }

  class Waiter {
    /** What the event source will deliver, and how much of it was consumed. */
    const trace: seq<Wait>
    var next: nat
    /** GO commands issued from inside a wait. */
    var resumes: nat
    const conditions: Conditions
    const isDump: bool
    /** How often the break loop polls. */
    const breakPolls: nat

    constructor (trace: seq<Wait>, conditions: Conditions, isDump: bool)
      ensures Valid() && next == 0 && resumes == 0
      ensures this.trace == trace && this.conditions == conditions && this.isDump == isDump && breakPolls == 50
    {
      this.trace, this.conditions, this.isDump := trace, conditions, isDump;
      next, resumes, breakPolls := 0, 0, BREAK_POLLS;
    }

    /** Every skipped hit consumed so far was answered with exactly one GO, and nothing else was. */
    ghost predicate Valid()
      reads this
    {
      next <= |trace| && resumes == SkippedHits(conditions, trace[..next])
    }

    /** What lies ahead. */
    ghost function Ahead(): seq<Wait>
      requires next <= |trace|
      reads this
    {
      trace[next..]
    }

    /** Moving past one event that does not surface. */
    lemma StepOne()
      requires next < |trace|
      ensures SkippedHits(conditions, trace[..next + 1]) ==
              SkippedHits(conditions, trace[..next])
              + if IsSkippedHit(conditions, trace[next]) && trace[next].goAccepted then 1 else 0
      ensures trace[next..][0] == trace[next] && trace[next..][1..] == trace[next + 1..]
    {
      assert trace[..next + 1] == trace[..next] + [trace[next]];
      Append(conditions, trace[..next], [trace[next]]);
    }

    /**
     * One wait of at most a slice. It passes silent events, answering each skipped hit with one GO,
     * up to the first event that surfaces or the end of its slice.
     */
    method WaitForEvent() returns (r: Result<WaitResult, string>)
      requires Valid()
      modifies this
      ensures Valid() && old(next) <= next
      ensures r == Success(TimedOut) ==>
                && FirstStop(conditions, Ahead()) == FirstStop(conditions, old(Ahead()))
                && (|| CutsBefore(conditions, old(Ahead())) == 1 + CutsBefore(conditions, Ahead())
                    || (Ahead() == [] && CutsBefore(conditions, old(Ahead())) == 0))
      ensures r.Success? && r.value.Event? ==>
                FirstStop(conditions, old(Ahead())) == Some(Success(r.value.outcome)) &&
                    CutsBefore(conditions, old(Ahead())) == 0
      ensures r.Failure? ==>
                FirstStop(conditions, old(Ahead())) == Some(Failure(r.error)) &&
                    CutsBefore(conditions, old(Ahead())) == 0
      // It passes events after which the target runs on, and nothing else.
      ensures forall i | old(next) <= i < next - 1 :: RunsOn(conditions, trace[i])
      ensures r == Success(TimedOut) ==>
                next == old(next) == |trace|
                || (old(next) < next && (trace[next - 1].Cut? ||
                                         (next == |trace| && RunsOn(conditions, trace[next - 1]))))
      ensures r != Success(TimedOut) ==>
                old(next) < next
                && Reports(conditions, trace[next - 1],
                           if r.Success? then Success(r.value.outcome) else Failure(r.error))
    {
      while next < |trace|
        invariant Valid() && old(next) <= next
        invariant forall i | old(next) <= i < next :: RunsOn(conditions, trace[i])
        invariant FirstStop(conditions, Ahead()) == FirstStop(conditions, old(Ahead()))
        invariant CutsBefore(conditions, Ahead()) == CutsBefore(conditions, old(Ahead()))
      {
        var w := trace[next];
        StepOne();
        next := next + 1;
        match w
        case Cut =>
          return Success(TimedOut);
        case WaitFailed =>
          return Failure("WaitForEvent");
        case Fired(status, last, goAccepted, recorded) =>
          if status.None? {
            return Failure("GetExecutionStatus");
          }
          if IsResume(status.value) {
            continue;
          }
          if status.value == Break && conditions != map[] {
            if last.BreakpointEvent? && !ConditionMet(conditions, last.id, last.evaluation) {
              if !goAccepted {
                return Failure("SetExecutionStatus(GO)");
              }
              resumes := resumes + 1;
              continue;
            }
          }
          return Success(Event(BuildStopOutcome(status.value, recorded)));
      }
      return Success(TimedOut);
    }

    /**
     * Interrupt the target and poll for the break, re-issuing the interrupt after every slice.
     * `poll(k)` is what slice `k` finds; its `accepted` is the fate of the interrupt before it.
     */
    method BreakLoop(poll: nat -> Poll) returns (r: Result<StopOutcome, string>)
      requires Valid()
      modifies this
      ensures Valid() && old(next) <= next
      ensures r == BrokenIn(FirstStop(conditions, old(Ahead())), CutsBefore(conditions, old(Ahead())), poll, breakPolls)
    {
      if !poll(0).accepted {
        return Failure("SetInterrupt(ACTIVE)");
      }
      for k := 0 to breakPolls
        invariant Valid() && old(next) <= next
        invariant Regained(FirstStop(conditions, old(Ahead())), CutsBefore(conditions, old(Ahead())), poll,
                           0, breakPolls) ==
                  Regained(FirstStop(conditions, Ahead()), CutsBefore(conditions, Ahead()), poll, k, breakPolls)
      {
        var waited := WaitForEvent();
        if waited.Failure? {
          return Failure(waited.error);
        }
        if waited.value.Event? {
          return Success(Relabel(waited.value.outcome));
        }
        if poll(k).status.None? {
          return Failure("GetExecutionStatus");
        }
        var status := poll(k).status.value;
        if status == Break || status == NoDebuggee {
          return Success(Relabel(BuildStopOutcome(status, poll(k).recorded)));
        }
        if !poll(k + 1).accepted {
          return Failure("SetInterrupt(ACTIVE)");
        }
      }
      return Failure("break: timed out");
    }

    /**
     * Resume the target and poll for a stop. The outside world decides whether GO is taken, how many
     * slices fit before the deadline, before which slice an interrupt request is first seen, and
     * whether one arrives only after the last slice.
     */
    method Go(goAccepted: bool, slices: nat, interruptAt: nat, late: bool, poll: nat -> Poll)
      returns (r: Result<Option<StopOutcome>, string>)
      requires Valid()
      modifies this
      ensures Valid() && old(next) <= next
      ensures isDump || !goAccepted ==> r.Failure? && next == old(next)
      ensures !isDump && goAccepted ==>
                r == Ran(FirstStop(conditions, old(Ahead())), CutsBefore(conditions, old(Ahead())), slices, interruptAt,
                         late, poll, breakPolls)
      // A run that ends without a stop passed over none.
      ensures r == Success(None) ==> FirstStop(conditions, Ahead()) == FirstStop(conditions, old(Ahead()))
    {
      if isDump {
        return Failure("cannot continue a crash-dump session");
      }
      if !goAccepted {
        return Failure("SetExecutionStatus(GO)");
      }
      ghost var first, cuts := FirstStop(conditions, Ahead()), CutsBefore(conditions, Ahead());
      var polled := if slices < interruptAt then slices else interruptAt;
      r := PollSlices(polled);
      if r == Success(None) && (interruptAt <= polled || late) {
        ghost var left := if cuts < polled then 0 else cuts - polled;
        OnlyFirstMatters(first, CutsBefore(conditions, Ahead()), left, poll, 0, breakPolls);
        var regained := BreakLoop(poll);
        r := if regained.Success? then Success(Some(regained.value)) else Failure(regained.error);
      }
    }

    /** Wait slice after slice until something surfaces or the slices are used up. */
    method PollSlices(slices: nat) returns (r: Result<Option<StopOutcome>, string>)
      requires Valid()
      modifies this
      ensures Valid() && old(next) <= next
      ensures var (first, cuts) := (FirstStop(conditions, old(Ahead())), CutsBefore(conditions, old(Ahead())));
              if first.Some? && cuts < slices then
                r == (if first.value.Success? then Success(Some(first.value.value)) else Failure(first.value.error))
              else
                && r == Success(None)
                && FirstStop(conditions, Ahead()) == first
                && (first.Some? ==> CutsBefore(conditions, Ahead()) == cuts - slices)
    {
      ghost var first, cuts := FirstStop(conditions, Ahead()), CutsBefore(conditions, Ahead());
      for k := 0 to slices
        invariant Valid() && old(next) <= next
        invariant FirstStop(conditions, Ahead()) == first
        invariant first.Some? ==> k <= cuts && CutsBefore(conditions, Ahead()) == cuts - k
      {
        var waited := WaitForEvent();
        if waited.Failure? {
          return Failure(waited.error);
        }
        if waited.value.Event? {
          return Success(Some(waited.value.outcome));
        }
      }
      return Success(None);
    }
  }

  /** Without a stop ahead the number of slices ahead of it is immaterial. */
  lemma OnlyFirstMatters(first: Option<Result<StopOutcome, string>>, a: nat, b: nat, poll: nat -> Poll, k: nat,
      limit: nat)
    requires first.Some? ==> a == b
    ensures Regained(first, a, poll, k, limit) == Regained(first, b, poll, k, limit)
    decreases limit - k
  {
  }
}
