/**
 * The breakpoint tools over the session and the WinDbg backend, one call at a time. A stopped-path
 * call sends its whole proposed list first and touches the session only once that succeeded.
 */
module BreakpointHandlers {
  import opened Wrappers
  import opened Neutral
  import opened DbgEng
  import opened Reconciliation
  import opened BreakpointRuns
  import opened WinDbgBackend
  import opened Session
  import opened Agreement
  import opened BackendHistory

  datatype Outcome =
    | Pending
    | Set(id: int, verified: bool, line: int)
    | Removed(id: int)
    | Launched(outcome: LaunchOutcome)
    | Attached(to: AttachOutcome)
    | Disconnected
    | ToolError(message: string)

  /** One tool call, or a state the execution tools put a live session into meanwhile. */
  datatype ToolCall =
    | SetLine(file: string, line: int, condition: string)
    | SetName(name: string, condition: string)
    | RemoveId(id: int)
    | Launch(connects: bool, reply: Result<StopOutcome, BackendError>)
    | Attach(connects: bool, reply: Result<StopOutcome, BackendError>)
    | Disconnect
    | Execution(state: State)

  function AfterSetLine(s: Inner, file: string, bp: SourceBp, outcome: Outcome): Inner {
    match outcome
    case Pending => s.(pendingSourceBps := Push(s.pendingSourceBps, file, bp))
    case Set(id, verified, _) =>
      AddResponse(AddSource(s, file, bp), BreakpointInfo(id, Line(file, bp.line), bp.condition, verified))
    case _ => s
  }

  function AfterSetName(s: Inner, bp: FunctionBp, outcome: Outcome): Inner {
    match outcome
    case Pending => s.(pendingFunctionBps := s.pendingFunctionBps + [bp])
    case Set(id, verified, _) =>
      AddResponse(AddFunction(s, bp), BreakpointInfo(id, Name(bp.name), bp.condition, verified))
    case _ => s
  }

  function AfterStart(s: Inner, outcome: Outcome): Inner {
    match outcome
    case Launched(launched) => FlushPending(s).(state := if launched.LaunchStopped? then Halted else Ended)
    case Attached(to) => s.(state := if to.AttachStopped? then Halted else Ended)
    case _ => if s.state == Idle then Reset(s) else s
  }

  function AfterRemove(s: Inner, id: int, outcome: Outcome): Inner {
    if outcome.Removed? && id in s.bpResponses then RemoveById(s, id) else s
  }

  function AfterDisconnect(s: Inner, outcome: Outcome): Inner {
    if outcome.Disconnected? then Reset(s) else s
  }

  function AfterMove(s: Inner, state: State): Inner {
    if s.state != Idle && state != Idle then s.(state := state) else s
  }

  /** The session after a call that ended in `outcome`. */
  function After(s: Inner, call: ToolCall, outcome: Outcome): Inner {
    match call
    case SetLine(file, line, condition) => AfterSetLine(s, file, SourceBp(line, condition), outcome)
    case SetName(name, condition) => AfterSetName(s, FunctionBp(name, condition), outcome)
    case RemoveId(id) => AfterRemove(s, id, outcome)
    case Launch(_, _) => AfterStart(s, outcome)
    case Attach(_, _) => AfterStart(s, outcome)
    case Disconnect => AfterDisconnect(s, outcome)
    case Execution(state) => AfterMove(s, state)
  }

  class ToolServer {
    const session: SessionManager
    var backend: WinDbgBackend?
    /** What the backend went through since it was connected. */
    ghost var history: History

    ghost predicate Valid()
      reads this, session, backend, if backend == null then {} else {backend.engine}
    {
      && (backend != null ==> backend.Valid() && Current(history) == backend.State())
      && (session.inner.state == Idle ==> backend == null)
      && Agree(session.inner, Tracked())
    }

    ghost function Tracked(): map<BpLoc, BreakpointResult>
      reads this, backend, if backend == null then {} else {backend.engine}
    {
      if backend == null then map[] else backend.State().tracked
    }

    constructor (session: SessionManager)
      requires session.inner == FRESH
      ensures Valid() && this.session == session && backend == null && Once(history)
    {
      this.session := session;
      backend := null;
      ghost var h := Connected();
      history := h;
    }

    /** Send a file's lines to the backend, and note the call. */
    method SendLines(file: string, bps: seq<SourceBp>)
      returns (r: Result<seq<BreakpointResult>, BackendError>,
               ghost results: seq<BreakpointResult>, ghost attempted: set<int>, ghost kept: set<int>)
      requires backend != null && backend.Valid() && Current(history) == backend.State()
      modifies this`history, backend, backend.engine
      ensures backend.Valid() && Current(history) == backend.State()
      ensures Replaced(old(backend.State()), FileScope(file), SourceKeys(file, bps), r, results, attempted, kept,
                       backend.State())
      ensures Conditional(old(backend.State()), FileScope(file), SourceKeys(file, bps), SourceTexts(bps), results,
                          attempted, old(backend.engine.conditions), backend.engine.conditions)
      ensures r.Success? ==> Echoes(bps, r.value)
      ensures Noted(old(history), Setter(FileScope(file), SourceKeys(file, bps)), r.Success?, history)
      ensures Once(old(history))
              && (AskedOnce(SourceKeys(file, bps))
                  || (r.Failure? && Aborted(old(backend.State()), FileScope(file), SourceKeys(file, bps),
                                            backend.State()))) ==>
                Once(history)
    {
      r, results, attempted, kept := backend.SetSourceBreakpoints(file, bps);
      ghost var h := NoteSetter(history, FileScope(file), SourceKeys(file, bps), r, results, attempted, kept,
                                backend.State());
      history := h;
    }

    /** Send the functions to the backend, and note the call. */
    method SendFunctions(bps: seq<FunctionBp>)
      returns (r: Result<seq<BreakpointResult>, BackendError>,
               ghost results: seq<BreakpointResult>, ghost attempted: set<int>, ghost kept: set<int>)
      requires backend != null && backend.Valid() && Current(history) == backend.State()
      modifies this`history, backend, backend.engine
      ensures backend.Valid() && Current(history) == backend.State()
      ensures Replaced(old(backend.State()), FunctionScope, FunctionKeys(bps), r, results, attempted, kept,
                       backend.State())
      ensures Conditional(old(backend.State()), FunctionScope, FunctionKeys(bps), FunctionTexts(bps), results,
                          attempted, old(backend.engine.conditions), backend.engine.conditions)
      ensures r.Success? ==> RejectsAddresses(bps, r.value)
      ensures Noted(old(history), Setter(FunctionScope, FunctionKeys(bps)), r.Success?, history)
      ensures Once(old(history))
              && (AskedOnce(FunctionKeys(bps))
                  || (r.Failure? && Aborted(old(backend.State()), FunctionScope, FunctionKeys(bps),
                                            backend.State()))) ==>
                Once(history)
    {
      r, results, attempted, kept := backend.SetFunctionBreakpoints(bps);
      ghost var h := NoteSetter(history, FunctionScope, FunctionKeys(bps), r, results, attempted, kept,
                                backend.State());
      history := h;
    }

    /** `set_breakpoint`: pending while idle; when stopped, set and record the matched answer. */
    method HandleSetBreakpoint(file: string, line: int, condition: string) returns (r: Outcome)
      requires Valid()
      modifies this`history, session, backend, if backend == null then {} else {backend.engine}
      ensures Valid()
      ensures Once(old(history)) && ListedOnce(old(session.inner)) && ListedOnce(session.inner) ==> Once(history)
      // The list that is sent is the one the session then holds.
      ensures r.Set? ==> Noted(old(history), Resend(session.inner, Line(file, line)), true, history)
      ensures session.inner == AfterSetLine(old(session.inner), file, SourceBp(line, condition), r)
      ensures r.Pending? <==> old(session.inner.state) == Idle && line > 0
      ensures r.Set? ==> old(session.inner.state) == Halted && r.line == line && line > 0
      // The recorded id is the one the backend keeps for the line, when the line was indexed or new to the list.
      ensures r.Set? && r.verified && 0 <= line < U32_LIMIT ==>
                && FileLine(file, line) in Tracked()
                && (FileLine(file, line) in old(Tracked()) || Multiplicity(old(session.inner), Line(file, line)) == 0
                    ==> Tracked()[FileLine(file, line)].id == r.id)
      // Session and engine keep the condition asked for.
      ensures r.Set? ==>
                && session.inner.bpResponses[r.id] == BreakpointInfo(r.id, Line(file, line), condition, r.verified)
                && Listed(session.inner.sourceBps, file) ==
                   Listed(old(session.inner).sourceBps, file) + [SourceBp(line, condition)]
      ensures r.Set? && r.verified && 0 <= line < U32_LIMIT
              && Multiplicity(old(session.inner), Line(file, line)) == 0 ==>
                backend != null && Carries(backend.engine.conditions, r.id, condition)
      ensures r.Pending? || r.Set? || r.ToolError?
    {
      var s := session.inner;
      if s.state != Idle && s.state != Halted {
        return ToolError("invalid state");
      }
      if line <= 0 {
        return ToolError("'line' must be a positive integer");
      }
      if s.state == Idle {
        session.AddPendingSourceBreakpoint(file, line, condition);
        PendingKeepsAgree(s, session.inner, Tracked());
        return Pending;
      }
      if backend == null {
        return ToolError("setBreakpoints request failed");
      }
      var matched := SendOneMoreLine(file, SourceBp(line, condition));
      if matched.Failure? {
        return ToolError("setBreakpoints request failed");
      }
      session.AddSourceBreakpoint(file, line, condition);
      session.AddBreakpointResponse(BreakpointInfo(matched.value.id, Line(file, matched.value.line), condition,
                                                   matched.value.verified));
      return Set(matched.value.id, matched.value.verified, matched.value.line);
    }

    /** Send a file's list with one line more, and find the answer for that line. */
    method SendOneMoreLine(file: string, bp: SourceBp) returns (r: Result<BreakpointResult, BackendError>)
      requires Valid() && backend != null
      modifies this`history, backend, backend.engine
      ensures backend.Valid() && Current(history) == backend.State()
      ensures r.Failure? ==> Tracked() == old(Tracked()) && (Once(old(history)) ==> Once(history))
      ensures r.Success? ==>
                var s := AfterSetLine(session.inner, file, bp, Set(r.value.id, r.value.verified, r.value.line));
                && r.value.line == bp.line
                && Agree(s, Tracked())
                && Noted(old(history), Resend(s, Line(file, bp.line)), true, history)
                && (Once(old(history)) && ListedOnce(s) ==> Once(history))
      ensures r.Success? && r.value.verified && 0 <= bp.line < U32_LIMIT ==>
                && FileLine(file, bp.line) in Tracked()
                && (FileLine(file, bp.line) in old(Tracked()) || Multiplicity(session.inner, Line(file, bp.line)) == 0
                    ==> Tracked()[FileLine(file, bp.line)].id == r.value.id)
      // No breakpoint changes its condition, and a line that is new to the list gets its own.
      ensures r.Success? ==> SameConditions(old(backend.engine.pool).Keys, old(backend.engine.conditions),
                                            backend.engine.conditions)
      ensures r.Success? && r.value.verified && 0 <= bp.line < U32_LIMIT
              && Multiplicity(session.inner, Line(file, bp.line)) == 0 ==>
                Carries(backend.engine.conditions, r.value.id, bp.condition)
    {
      var s := session.inner;
      var bps := Listed(s.sourceBps, file) + [bp];
      ghost var pre, before := backend.State(), backend.engine.conditions;
      AllLinesAreRequested(s, pre.tracked, file, bp);
      var answer;
      ghost var results, attempted, kept;
      answer, results, attempted, kept := SendLines(file, bps);
      if answer.Failure? {
        NothingStale(pre, FileScope(file), SourceKeys(file, bps), answer, results, attempted, kept, backend.State());
        return Failure(answer.error);
      }
      var matched := FindLine(answer.value, bp.line);
      ghost var s' := AfterSetLine(s, file, bp, Set(matched.id, matched.verified, bp.line));
      SetSourceKeepsAgree(s, pre, file, bp, results, attempted, kept, backend.State(), s',
                          BreakpointInfo(matched.id, Line(file, bp.line), bp.condition, matched.verified));
      RecordedIsKept(s, pre, file, bp, results, attempted, kept, backend.State());
      NewLineCarries(s, pre, file, bp, results, attempted, kept, backend.State(), before, backend.engine.conditions);
      if ListedOnce(s') {
        ListAskedOnce(s', file);
      }
      return Success(matched);
    }

    /** `set_function_breakpoint`: like a line, but the last answer counts, and it may be a rejection. */
    method HandleSetFunctionBreakpoint(name: string, condition: string) returns (r: Outcome)
      requires Valid()
      modifies this`history, session, backend, if backend == null then {} else {backend.engine}
      ensures Valid()
      ensures Once(old(history)) && ListedOnce(old(session.inner)) && ListedOnce(session.inner) ==> Once(history)
      ensures r.Set? ==> Noted(old(history), Resend(session.inner, Name(name)), true, history)
      ensures session.inner == AfterSetName(old(session.inner), FunctionBp(name, condition), r)
      ensures r.Pending? <==> old(session.inner.state) == Idle
      ensures r.Set? ==>
                && old(session.inner.state) == Halted && r.line == 0
                && (r.verified ==> Function(name) in Tracked() && Tracked()[Function(name)].id == r.id)
      // Session and engine keep the condition asked for.
      ensures r.Set? ==>
                && session.inner.bpResponses[r.id] == BreakpointInfo(r.id, Name(name), condition, r.verified)
                && session.inner.functionBps == old(session.inner).functionBps + [FunctionBp(name, condition)]
      ensures r.Set? && r.verified && Function(name) !in old(Tracked()) ==>
                backend != null && Carries(backend.engine.conditions, r.id, condition)
      // A bare address never enters the session while stopped.
      ensures r.Set? ==> !IsBareAddressName(name)
      ensures r.Pending? || r.Set? || r.ToolError?
    {
      var s := session.inner;
      if s.state != Idle && s.state != Halted {
        return ToolError("invalid state");
      }
      if s.state == Idle {
        DeferFunction(name, condition);
        return Pending;
      }
      if backend == null {
        return ToolError("setFunctionBreakpoints request failed");
      }
      r := SetFunction(name, condition);
    }

    /** Keep a function for the launch. */
    method DeferFunction(name: string, condition: string)
      requires Valid()
      modifies session
      ensures Valid() && session.inner == AfterSetName(old(session.inner), FunctionBp(name, condition), Pending)
    {
      ghost var s := session.inner;
      session.AddPendingFunctionBreakpoint(name, condition);
      PendingKeepsAgree(s, session.inner, Tracked());
    }

    /** Commit a function that was set: its entry, and the answer for it. */
    method RecordFunction(name: string, condition: string, answer: BreakpointResult)
      modifies session
      ensures session.inner == AfterSetName(old(session.inner), FunctionBp(name, condition),
                                            Set(answer.id, answer.verified, 0))
    {
      session.AddFunctionBreakpoint(name, condition);
      session.AddBreakpointResponse(BreakpointInfo(answer.id, Name(name), condition, answer.verified));
    }

    /** Set a function while stopped: send first, commit on success. */
    method SetFunction(name: string, condition: string) returns (r: Outcome)
      requires Valid() && backend != null && session.inner.state != Idle
      modifies this`history, session, backend, backend.engine
      ensures Valid()
      ensures session.inner == AfterSetName(old(session.inner), FunctionBp(name, condition), r)
      ensures r.Set? || r.ToolError?
      ensures r.Set? ==>
                r.line == 0 && FunctionSent(old(session.inner), FunctionBp(name, condition), r.id, r.verified,
                                            old(Tracked()), Tracked(), backend.engine.conditions, old(history), history)
      ensures r.ToolError? && Once(old(history)) && ListedOnce(session.inner) ==> Once(history)
    {
      var last := SendOneMoreFunction(FunctionBp(name, condition));
      if last.Failure? {
        return ToolError(last.error);
      }
      RecordFunction(name, condition, last.value);
      return Set(last.value.id, last.value.verified, 0);
    }

    /** Send the functions with one more, and take the last answer; a rejection is an error with its message. */
    method SendOneMoreFunction(bp: FunctionBp) returns (r: Result<BreakpointResult, string>)
      requires Valid() && backend != null
      modifies this`history, backend, backend.engine
      ensures backend.Valid() && Current(history) == backend.State()
      ensures r.Failure? ==> Unlisted(session.inner, Tracked(), old(history), history)
      ensures r.Success? ==>
                && Agree(AfterSetName(session.inner, bp, Set(r.value.id, r.value.verified, 0)), Tracked())
                && FunctionSent(session.inner, bp, r.value.id, r.value.verified, old(Tracked()), Tracked(),
                                backend.engine.conditions, old(history), history)
    {
      var s := session.inner;
      var bps := s.functionBps + [bp];
      ghost var pre, before := backend.State(), backend.engine.conditions;
      var answer;
      ghost var results, attempted, kept;
      answer, results, attempted, kept := SendFunctions(bps);
      NameSettled(s, pre, bp, answer, results, attempted, kept, backend.State(), before, backend.engine.conditions,
                  old(history), history);
      if answer.Failure? {
        return Failure("setFunctionBreakpoints request failed");
      }
      var last := answer.value[|answer.value| - 1];
      return if last.rejected then Failure(last.message) else Success(last);
    }

    /** `remove_breakpoint`: send the list without the first matching entry, then forget it. */
    method HandleRemoveBreakpoint(id: int) returns (r: Outcome)
      requires Valid()
      modifies this`history, session, backend, if backend == null then {} else {backend.engine}
      ensures Valid()
      ensures Once(old(history)) && ListedOnce(old(session.inner)) && ListedOnce(session.inner) ==> Once(history)
      ensures session.inner == AfterRemove(old(session.inner), id, r)
      ensures r.Removed? ==>
                && r.id == id && id in old(session.inner).bpResponses && id !in session.inner.bpResponses
                && var site := old(session.inner).bpResponses[id].site;
                && Multiplicity(session.inner, site) == Multiplicity(old(session.inner), site) - 1
                && Noted(old(history), Resend(session.inner, site), true, history)
      ensures r.Removed? || r.ToolError?
    {
      var s := session.inner;
      if s.state != Halted {
        return ToolError("invalid state");
      }
      if id !in s.bpResponses {
        return ToolError("breakpoint ID not found");
      }
      var info := s.bpResponses[id];
      if backend == null {
        return ToolError("request failed");
      }
      ghost var tracked := Tracked();
      var answer := SendRemaining(id, info.site);
      if answer.Failure? {
        return ToolError("request failed");
      }
      var forgotten := session.RemoveBreakpointById(id);
      RemoveCounts(s, tracked, id, info.site);
      return Removed(id);
    }

    /** Send the list of `site` as it will be once breakpoint `id` is forgotten. */
    method SendRemaining(ghost id: int, site: Site) returns (answer: Result<seq<BreakpointResult>, BackendError>)
      requires Valid() && backend != null
      requires id in session.inner.bpResponses && session.inner.bpResponses[id].site == site
      modifies this`history, backend, backend.engine
      ensures backend.Valid() && Current(history) == backend.State()
      ensures Agree(if answer.Success? then RemoveById(session.inner, id) else session.inner, backend.State().tracked)
      ensures Noted(old(history), Resend(RemoveById(session.inner, id), site), answer.Success?, history)
      ensures Once(old(history)) && ListedOnce(session.inner) ==> Once(history)
    {
      var s := session.inner;
      ghost var pre := backend.State();
      ghost var results, attempted, kept;
      RemovalFindsItsEntry(s, pre.tracked, id);
      match site {
        case Name(name) =>
          var bps := RemainingFunctions(s, name);
          answer, results, attempted, kept := SendFunctions(bps);
          ResendFunctions(s, pre, id, name, answer, results, attempted, kept, backend.State());
        case Line(file, line) =>
          var bps := RemainingSource(s, file, line);
          answer, results, attempted, kept := SendLines(file, bps);
          ResendLines(s, pre, id, file, line, answer, results, attempted, kept, backend.State());
      }
      if ListedOnce(s) {
        RemainingAskedOnce(s, pre.tracked, id);
      }
    }

    /**
     * `launch`: hand the pending lists to a backend connected for this session alone. `connects`
     * and `reply` are the outside world's part: whether a backend comes up, and its launch answer.
     */
    method HandleLaunch(connects: bool, reply: Result<StopOutcome, BackendError>) returns (r: Outcome)
      requires Valid()
      modifies this, session
      ensures Valid()
      ensures Once(old(history)) && ListedOnce(session.inner) ==> Once(history)
      ensures session.inner == AfterStart(old(session.inner), r)
      ensures old(session.inner.state) != Idle ==> r.ToolError? && backend == old(backend)
      ensures old(session.inner.state) == Idle && r.ToolError? ==> backend == null
      ensures r.Launched? ==> backend != null && fresh(backend) && fresh(backend.engine)
      // A stopped launch has flushed once, and nothing else has happened to its backend.
      ensures r.Launched? ==> |history.events| == if r.outcome.LaunchStopped? then 1 else 0
      ensures r.Launched? <==> old(session.inner.state) == Idle && connects && reply.Success?
      ensures r.Launched? ==> r.outcome == ToLaunch(reply.value)
      ensures r.Launched? ==> session.inner.state == if r.outcome.LaunchStopped? then Halted else Ended
      ensures r.Launched? || r.ToolError?
    {
      if session.inner.state != Idle {
        return ToolError("invalid state");
      }
      ghost var s := session.inner;
      session.SetState(Configuring);
      var source, functions := session.FlushPendingBreakpoints();
      if !connects {
        session.Clear();
        ResetAgrees(session.inner);
        return ToolError("failed to initialize DbgEng");
      }
      r := LaunchConnected(reply, source, functions, s);
    }

    /** The rest of `launch`, once a backend came up for the session that was `s` while idle. */
    method LaunchConnected(reply: Result<StopOutcome, BackendError>, source: seq<(string, seq<SourceBp>)>,
                           functions: seq<FunctionBp>, ghost s: Inner)
      returns (r: Outcome)
      requires Agree(s, map[]) && s.state == Idle && session.inner == FlushPending(s).(state := Configuring)
      requires ByFile(source) == s.pendingSourceBps && |source| == |s.pendingSourceBps|
      requires functions == s.pendingFunctionBps
      modifies this, session
      ensures Valid()
      ensures Once(old(history)) && ListedOnce(session.inner) ==> Once(history)
      ensures session.inner == AfterStart(s, r)
      ensures r == if reply.Success? then Launched(ToLaunch(reply.value)) else ToolError("launch failed")
      ensures if r.Launched? then backend != null && fresh(backend) && fresh(backend.engine) else backend == null
      ensures r.Launched? ==> |history.events| == if r.outcome.LaunchStopped? then 1 else 0
    {
      var connected, outcome;
      ghost var pre, results;
      connected, outcome, pre, results := ConnectAndLaunch(reply, source, functions);
      backend := connected;
      if outcome.Failure? {
        backend := null;
        session.Clear();
        ResetAgrees(session.inner);
        return ToolError("launch failed");
      }
      session.SetState(if outcome.value.LaunchStopped? then Halted else Ended);
      LaunchAgrees(s, session.inner, source, functions, outcome.value, pre, results, backend.State());
      ghost var h := NoteLaunch(s, source, functions, outcome.value, results, backend.State());
      history := h;
      if ListedOnce(session.inner) {
        SameLists(session.inner, FlushPending(s));
      }
      return Launched(outcome.value);
    }

    /**
     * `attach` connects a backend too, but hands it nothing: the pending lists stay pending, and
     * neither the active lists nor the index gain an entry.
     */
    method HandleAttach(connects: bool, reply: Result<StopOutcome, BackendError>) returns (r: Outcome)
      requires Valid()
      modifies this, session
      ensures Valid()
      ensures Once(old(history)) && ListedOnce(session.inner) ==> Once(history)
      ensures session.inner == AfterStart(old(session.inner), r)
      ensures old(session.inner.state) != Idle ==> r.ToolError? && backend == old(backend)
      ensures old(session.inner.state) == Idle && r.ToolError? ==> backend == null
      ensures r.Attached? ==> backend != null && fresh(backend) && fresh(backend.engine)
      ensures r.Attached? ==> Tracked() == map[] && history.events == []
      ensures r.Attached? <==> old(session.inner.state) == Idle && connects && reply.Success?
      ensures r.Attached? ==>
                match reply.value
                case Stopped(info) => r.to == AttachStopped(info)
                case Exited(code) => r.to == AttachExited(code)
                case Terminated => r.to == AttachTerminated
      ensures r.Attached? ==> session.inner.state == if r.to.AttachStopped? then Halted else Ended
      ensures r.Attached? || r.ToolError?
    {
      if session.inner.state != Idle {
        return ToolError("invalid state");
      }
      ghost var s := session.inner;
      session.SetState(Configuring);
      if !connects || reply.Failure? {
        session.Clear();
        ResetAgrees(session.inner);
        return ToolError("attach failed");
      }
      var engine := new Engine();
      backend := new WinDbgBackend(engine);
      ghost var h := Connected();
      history := h;
      var outcome := ToAttach(reply.value);
      session.SetState(if outcome.AttachStopped? then Halted else Ended);
      PendingKeepsAgree(s, session.inner, map[]);
      return Attached(outcome);
    }

    /** `disconnect`: drop the backend and reset the session. */
    method HandleDisconnect() returns (r: Outcome)
      requires Valid()
      modifies this, session
      ensures Valid() && backend == null && history == old(history)
      ensures session.inner == AfterDisconnect(old(session.inner), r)
      ensures r.Disconnected? || r.ToolError?
      ensures r.ToolError? <==> old(session.inner.state) == Idle && r == ToolError("no debug session active")
    {
      if session.inner.state == Idle {
        return ToolError("no debug session active");
      }
      backend := null;
      session.Clear();
      ResetAgrees(session.inner);
      return Disconnected;
    }

    /** The execution tools put a live session into another state. */
    method MoveTo(state: State)
      requires Valid()
      modifies session
      ensures Valid() && session.inner == AfterMove(old(session.inner), state)
    {
      if session.inner.state != Idle && state != Idle {
        ghost var s := session.inner;
        session.SetState(state);
        PendingKeepsAgree(s, session.inner, Tracked());
      }
    }

    /** A call that starts, ends or moves the session as a whole. */
    method HandleLifecycle(call: ToolCall) returns (outcome: Outcome)
      requires Valid() && !(call.SetLine? || call.SetName? || call.RemoveId?)
      modifies this, session
      ensures Valid() && session.inner == After(old(session.inner), call, outcome)
      ensures Once(old(history)) && ListedOnce(session.inner) ==> Once(history)
      ensures backend == null || backend == old(backend) || (fresh(backend) && fresh(backend.engine))
    {
      outcome := Pending;
      match call {
        case Launch(connects, reply) => outcome := HandleLaunch(connects, reply);
        case Attach(connects, reply) => outcome := HandleAttach(connects, reply);
        case Disconnect => outcome := HandleDisconnect();
        case Execution(state) => MoveTo(state);
      }
    }

    /** A call about one breakpoint. */
    method HandleBreakpoint(call: ToolCall) returns (outcome: Outcome)
      requires Valid() && (call.SetLine? || call.SetName? || call.RemoveId?)
      modifies this`history, session, backend, if backend == null then {} else {backend.engine}
      ensures Valid() && session.inner == After(old(session.inner), call, outcome)
      ensures Once(old(history)) && ListedOnce(old(session.inner)) && ListedOnce(session.inner) ==> Once(history)
    {
      match call {
        case SetLine(file, line, condition) => outcome := HandleSetBreakpoint(file, line, condition);
        case SetName(name, condition) => outcome := HandleSetFunctionBreakpoint(name, condition);
        case RemoveId(id) => outcome := HandleRemoveBreakpoint(id);
      }
    }

    /** One call, or a move of the execution state of a live session. */
    method Handle(call: ToolCall) returns (outcome: Outcome)
      requires Valid()
      modifies this, session, backend, if backend == null then {} else {backend.engine}
      ensures Valid() && session.inner == After(old(session.inner), call, outcome)
      ensures Once(old(history)) && ListedOnce(old(session.inner)) && ListedOnce(session.inner) ==> Once(history)
      ensures backend == null || backend == old(backend) || (fresh(backend) && fresh(backend.engine))
    {
      if call.SetLine? || call.SetName? || call.RemoveId? {
        outcome := HandleBreakpoint(call);
      } else {
        outcome := HandleLifecycle(call);
      }
    }

    /**
     * Any calls at all, one after the other. What `Valid` says of the session's lists, the recorded
     * responses and the backend's index holds after each, so every removal finds its entry and every
     * indexed breakpoint is listed. And if the session never listed a site twice, and the engine
     * cooperated since it was connected, nothing else is in the engine: what can fire in it is what is
     * indexed, each at a site that is listed once.
     */
    method Serve(calls: seq<ToolCall>) returns (outcomes: seq<Outcome>, ghost states: seq<Inner>)
      requires Valid()
      modifies this, session, backend, if backend == null then {} else {backend.engine}
      ensures Valid() && |outcomes| == |calls|
      ensures |states| == |calls| + 1 && states[0] == old(session.inner) && states[|calls|] == session.inner
      ensures forall i | 0 <= i < |calls| :: states[i + 1] == After(states[i], calls[i], outcomes[i])
      ensures Once(old(history)) && (forall s <- states :: ListedOnce(s)) ==> Once(history)
      ensures backend != null && Once(history) && Cooperated(history) && ListedOnce(session.inner) ==>
                forall id <- backend.engine.pool :: OnlyListed(session.inner, backend.State(), id)
    {
      outcomes, states := [], [session.inner];
      for n := 0 to |calls|
        invariant Valid() && |outcomes| == n
        invariant |states| == n + 1 && states[0] == old(session.inner) && states[n] == session.inner
        invariant forall i | 0 <= i < n :: states[i + 1] == After(states[i], calls[i], outcomes[i])
        invariant Once(old(history)) && (forall s <- states :: ListedOnce(s)) ==> Once(history)
        invariant backend == null || backend == old(backend) || (fresh(backend) && fresh(backend.engine))
      {
        var outcome := Handle(calls[n]);
        outcomes, states := outcomes + [outcome], states + [session.inner];
      }
      if backend != null && Once(history) && Cooperated(history) && ListedOnce(session.inner) {
        forall id <- backend.engine.pool
          ensures OnlyListed(session.inner, backend.State(), id)
        {
          OnlyListedCanFire(history, session.inner, id);
        }
      }
    }
  }

  /**
   * Function `bp` was sent behind the session's list and answered with this id: the list sent is the
   * one the session will hold, and the index has the id if it verified, with its condition if it is new.
   */
  ghost predicate FunctionSent(s: Inner, bp: FunctionBp, id: int, verified: bool, tracked: map<BpLoc, BreakpointResult>,
                               tracked': map<BpLoc, BreakpointResult>, conditions: Conditions, h: History, h': History)
  {
    var s' := AfterSetName(s, bp, Set(id, verified, 0));
    && !IsBareAddressName(bp.name)
    && Noted(h, Resend(s', Name(bp.name)), true, h')
    && (Once(h) && ListedOnce(s') ==> Once(h'))
    && (verified ==>
          && Function(bp.name) in tracked' && tracked'[Function(bp.name)].id == id
          && (Function(bp.name) !in tracked ==> Carries(conditions, id, bp.condition)))
  }

  /** A backend is connected for one session: its engine, and its index, start empty. */
  method ConnectAndLaunch(reply: Result<StopOutcome, BackendError>, source: seq<(string, seq<SourceBp>)>,
      functions: seq<FunctionBp>)
    returns (backend: WinDbgBackend, outcome: Result<LaunchOutcome, BackendError>, ghost pre: World,
        ghost results: seq<BreakpointResult>)
    ensures fresh(backend) && fresh(backend.engine) && backend.Valid()
    ensures pre == EMPTY
    ensures outcome == if reply.Success? then Success(ToLaunch(reply.value)) else Failure(reply.error)
    ensures reply.Success? ==>
              match reply.value
              case Stopped(info) => outcome == Success(LaunchStopped(info))
              case Exited(code) => outcome == Success(LaunchExited(code))
              case Terminated => outcome == Success(LaunchExited(None))
    ensures if outcome.Success? && outcome.value.LaunchStopped?
            then Flushed(pre, FlushKeys(source) + FunctionKeys(functions), results, backend.State())
            else backend.State() == pre
  {
    var engine := new Engine();
    backend := new WinDbgBackend(engine);
    pre := backend.State();
    outcome, results := backend.Launch(reply, source, functions);
  }

  /** What a launch does to the empty engine of a new backend. */
  lemma NoteLaunch(s: Inner, source: seq<(string, seq<SourceBp>)>, functions: seq<FunctionBp>, outcome: LaunchOutcome,
                   results: seq<BreakpointResult>, post: World)
    returns (h: History)
    requires ByFile(source) == s.pendingSourceBps && |source| == |s.pendingSourceBps|
    requires functions == s.pendingFunctionBps
    requires if outcome.LaunchStopped? then Flushed(EMPTY, FlushKeys(source) + FunctionKeys(functions), results, post)
             else post == EMPTY
    ensures Current(h) == post && (ListedOnce(FlushPending(s)) ==> Once(h))
    ensures |h.events| == if outcome.LaunchStopped? then 1 else 0
  {
    if outcome.LaunchStopped? {
      h := NoteFlush(FlushKeys(source) + FunctionKeys(functions), results, post);
      if ListedOnce(FlushPending(s)) {
        LaunchAskedOnce(s, source, functions);
      }
    } else {
      h := Connected();
    }
  }

  lemma SameLists(s: Inner, s': Inner)
    requires s'.sourceBps == s.sourceBps && s'.functionBps == s.functionBps && ListedOnce(s)
    ensures ListedOnce(s')
  {
    forall site
      ensures Multiplicity(s', site) == Multiplicity(s, site)
    {
    }
  }

  /** The first answer at the line asked for, or else the last one. */
  function FindLine(results: seq<BreakpointResult>, line: int): (r: BreakpointResult)
    requires results != []
    ensures r in results
    ensures r.line == line || (forall other <- results :: other.line != line)
    ensures r.line != line ==> r == results[|results| - 1]
  {
    if results[0].line == line || |results| == 1 then results[0] else FindLine(results[1..], line)
  }

  lemma PendingKeepsAgree(s: Inner, s': Inner, tracked: map<BpLoc, BreakpointResult>)
    requires Agree(s, tracked)
    requires s'.sourceBps == s.sourceBps && s'.functionBps == s.functionBps && s'.bpResponses == s.bpResponses
    ensures Agree(s', tracked)
  {
    forall site
      ensures Multiplicity(s', site) == Multiplicity(s, site) && Recorded(s', site) == Recorded(s, site)
    {
    }
  }

  /** A proposed list covers all the indexed lines of its file. */
  lemma AllLinesAreRequested(s: Inner, tracked: map<BpLoc, BreakpointResult>, file: string, bp: SourceBp)
    requires Agree(s, tracked)
    ensures var bps := Listed(s.sourceBps, file) + [bp];
            forall loc <- tracked :: FileScope(file).Covers(loc) ==> Some(loc) in SourceKeys(file, bps)
  {
    var bps := Listed(s.sourceBps, file) + [bp];
    assert LinesOf(bps) == LinesOf(Listed(s.sourceBps, file)) + [bp.line];
    forall loc <- tracked | FileScope(file).Covers(loc)
      ensures Some(loc) in SourceKeys(file, bps)
    {
      assert Multiplicity(s, SiteOf(loc)) > 0;
      SourceKeyIsListed(file, bps, loc);
    }
  }

  lemma SetSourceKeepsAgree(s: Inner, pre: World, file: string, bp: SourceBp, results: seq<BreakpointResult>,
                            attempted: set<int>, kept: set<int>, post: World, s': Inner, info: BreakpointInfo)
    requires Agree(s, pre.tracked)
    requires Reconciled(pre, FileScope(file), SourceKeys(file, Listed(s.sourceBps, file) + [bp]), results, attempted,
        kept, post)
    requires info.site == Line(file, bp.line) && s' == AddResponse(AddSource(s, file, bp), info)
    ensures Agree(s', post.tracked)
  {
    AddSourceCounts(s, file, bp);
    forall site
      ensures Multiplicity(s', site) == Multiplicity(AddSource(s, file, bp), site)
    {
    }
    var bps := Listed(s.sourceBps, file) + [bp];
    forall loc <- post.tracked
      ensures loc in pre.tracked || Multiplicity(s', SiteOf(loc)) > 0
    {
      IndexedWasRequested(pre, FileScope(file), SourceKeys(file, bps), results, attempted, kept, post, loc);
      SourceKeyIsListed(file, bps, loc);
    }
    SetKeepsAgree(s, pre.tracked, s', info, post.tracked);
  }

  /** The first answer at a line, by its position. */
  lemma {:induction false} FindLineIsFirst(results: seq<BreakpointResult>, line: int) returns (m: nat)
    requires exists r <- results :: r.line == line
    ensures m < |results| && FindLine(results, line) == results[m] && results[m].line == line
    ensures forall k | 0 <= k < m :: results[k].line != line
  {
    if results[0].line == line {
      m := 0;
    } else {
      assert |results| > 1 && exists r <- results[1..] :: r.line == line;
      m := FindLineIsFirst(results[1..], line);
      m := m + 1;
    }
  }

  /** At most one of the answers for a location is verified. */
  ghost predicate VerifiedOnce(keys: Keys, results: seq<BreakpointResult>, loc: BpLoc)
    requires |keys| == |results|
  {
    forall i, j | 0 <= i < j < |keys| && keys[i] == Some(loc) && keys[j] == Some(loc) ::
      !(results[i].verified && results[j].verified)
  }

  /**
   * The session records the first answer at the line, the backend indexes the last verified one.
   * They carry one id exactly if the line was indexed before, or no other request for it verified.
   */
  lemma MatchedIsIndexed(pre: World, file: string, bps: seq<SourceBp>, line: u32, results: seq<BreakpointResult>,
                         attempted: set<int>, kept: set<int>, post: World)
    requires Reconciled(pre, FileScope(file), SourceKeys(file, bps), results, attempted, kept, post)
    requires Echoes(bps, results) && results != [] && results[|results| - 1].line == line
    requires FindLine(results, line).verified
    ensures var loc := FileLine(file, line);
            && loc in post.tracked
            && (post.tracked[loc].id == FindLine(results, line).id <==>
                loc in pre.tracked || VerifiedOnce(SourceKeys(file, bps), results, loc))
  {
    var (keys, loc, prior) := (SourceKeys(file, bps), FileLine(file, line), Within(pre.tracked, FileScope(file)));
    assert results[|results| - 1] in results;
    var m := FindLineIsFirst(results, line);
    assert keys[m] == Some(loc);
    var last := LatestIsLast(keys, results, loc);
    assert post.tracked[loc] == results[last];
    if loc !in pre.tracked {
      assert SetNow(prior, keys, results, m) && SetNow(prior, keys, results, last);
      if last == m {
        forall i, j | 0 <= i < j < |keys| && keys[i] == Some(loc) && keys[j] == Some(loc)
          ensures !(results[i].verified && results[j].verified)
        {
          assert results[i].line == line;
        }
      }
    }
  }

  /** So they agree when the line was indexed before, or is new to the list and thus asked for once. */
  lemma RecordedIsKept(s: Inner, pre: World, file: string, bp: SourceBp, results: seq<BreakpointResult>,
                       attempted: set<int>, kept: set<int>, post: World)
    requires var bps := Listed(s.sourceBps, file) + [bp];
             && Reconciled(pre, FileScope(file), SourceKeys(file, bps), results, attempted, kept, post)
             && Echoes(bps, results)
    ensures FindLine(results, bp.line).line == bp.line
    ensures FindLine(results, bp.line).verified && 0 <= bp.line < U32_LIMIT ==>
              var loc := FileLine(file, bp.line);
              && loc in post.tracked
              && (loc in pre.tracked || Multiplicity(s, Line(file, bp.line)) == 0 ==>
                  post.tracked[loc].id == FindLine(results, bp.line).id)
  {
    var bps := Listed(s.sourceBps, file) + [bp];
    assert results[|results| - 1].line == bp.line && results[|results| - 1] in results;
    if FindLine(results, bp.line).verified && 0 <= bp.line < U32_LIMIT {
      MatchedIsIndexed(pre, file, bps, bp.line, results, attempted, kept, post);
      if Multiplicity(s, Line(file, bp.line)) == 0 {
        NewLineIsLast(s, file, bp, results);
      }
    }
  }

  /** Adding a line leaves every condition alone, and a line that is new to the list gets its own. */
  lemma NewLineCarries(s: Inner, pre: World, file: string, bp: SourceBp, results: seq<BreakpointResult>,
                       attempted: set<int>, kept: set<int>, post: World, before: Conditions, after: Conditions)
    requires Agree(s, pre.tracked)
    requires var bps := Listed(s.sourceBps, file) + [bp];
             && Reconciled(pre, FileScope(file), SourceKeys(file, bps), results, attempted, kept, post)
             && Conditional(pre, FileScope(file), SourceKeys(file, bps), SourceTexts(bps), results, attempted, before,
                            after)
             && Echoes(bps, results)
    ensures SameConditions(pre.pool.Keys, before, after)
    ensures FindLine(results, bp.line).verified && 0 <= bp.line < U32_LIMIT
            && Multiplicity(s, Line(file, bp.line)) == 0 ==>
              Carries(after, FindLine(results, bp.line).id, bp.condition)
  {
    var bps := Listed(s.sourceBps, file) + [bp];
    AllLinesAreRequested(s, pre.tracked, file, bp);
    NoneAttempted(pre, FileScope(file), SourceKeys(file, bps), results, attempted, kept, post);
    if FindLine(results, bp.line).verified && 0 <= bp.line < U32_LIMIT && Multiplicity(s, Line(file, bp.line)) == 0 {
      NewLineIsLast(s, file, bp, results);
      assert SiteOf(FileLine(file, bp.line)) == Line(file, bp.line);
      assert SetNow(Within(pre.tracked, FileScope(file)), SourceKeys(file, bps), results, |bps| - 1);
    }
  }

  /** The answer to a line that is new to the list is the last one. */
  lemma NewLineIsLast(s: Inner, file: string, bp: SourceBp, results: seq<BreakpointResult>)
    requires Echoes(Listed(s.sourceBps, file) + [bp], results) && Multiplicity(s, Line(file, bp.line)) == 0
    ensures FindLine(results, bp.line) == results[|results| - 1]
    ensures forall i | 0 <= i < |results| - 1 :: results[i].line != bp.line
  {
    var listed := Listed(s.sourceBps, file);
    assert results[|listed|] in results && results[|listed|].line == bp.line;
    var m := FindLineIsFirst(results, bp.line);
    assert bp.line !in LinesOf(listed);
    forall i | 0 <= i < |listed|
      ensures results[i].line != bp.line
    {
      assert LinesOf(listed)[i] == (listed + [bp])[i].line;
    }
  }

  lemma NewNameCarries(s: Inner, pre: World, bp: FunctionBp, results: seq<BreakpointResult>, attempted: set<int>,
                       kept: set<int>, post: World, before: Conditions, after: Conditions)
    requires Agree(s, pre.tracked) && Sound(pre)
    requires var bps := s.functionBps + [bp];
             && Reconciled(pre, FunctionScope, FunctionKeys(bps), results, attempted, kept, post)
             && Conditional(pre, FunctionScope, FunctionKeys(bps), FunctionTexts(bps), results, attempted, before,
                            after)
    ensures SameConditions(pre.pool.Keys, before, after)
    ensures var last := results[|results| - 1];
            last.verified && Function(bp.name) !in pre.tracked ==> Carries(after, last.id, bp.condition)
  {
    var bps := s.functionBps + [bp];
    var n := |bps| - 1;
    AllNamesAreRequested(s, pre, bp);
    NoneAttempted(pre, FunctionScope, FunctionKeys(bps), results, attempted, kept, post);
    if results[n].verified && Function(bp.name) !in pre.tracked {
      assert FunctionKeys(bps)[n] == FunctionKey(bp.name);
      assert SetNow(Within(pre.tracked, FunctionScope), FunctionKeys(bps), results, n);
    }
  }

  /** The session as it is still agrees with the backend, and lists without a repeat keep its history without one. */
  ghost predicate Unlisted(s: Inner, tracked: map<BpLoc, BreakpointResult>, h: History, h': History) {
    Agree(s, tracked) && (Once(h) && ListedOnce(s) ==> Once(h'))
  }

  /** So it is when a function was sent behind the list and the engine thread died, */
  lemma NameUnanswered(s: Inner, pre: World, bp: FunctionBp, answer: Result<seq<BreakpointResult>, BackendError>,
                       results: seq<BreakpointResult>, attempted: set<int>, kept: set<int>, post: World, h: History,
                       h': History)
    requires Agree(s, pre.tracked) && Sound(pre) && answer.Failure?
    requires var keys := FunctionKeys(s.functionBps + [bp]);
             && Replaced(pre, FunctionScope, keys, answer, results, attempted, kept, post)
             && (Once(h) && Aborted(pre, FunctionScope, keys, post) ==> Once(h'))
    ensures Unlisted(s, post.tracked, h, h')
  {
    AllNamesAreRequested(s, pre, bp);
    NothingStale(pre, FunctionScope, FunctionKeys(s.functionBps + [bp]), answer, results, attempted, kept, post);
  }

  /** and when it was rejected. */
  lemma NameRejected(s: Inner, pre: World, bp: FunctionBp, results: seq<BreakpointResult>, attempted: set<int>,
                     kept: set<int>, post: World, h: History, h': History)
    requires Agree(s, pre.tracked)
    requires Reconciled(pre, FunctionScope, FunctionKeys(s.functionBps + [bp]), results, attempted, kept, post)
    requires RejectsAddresses(s.functionBps + [bp], results) && results[|results| - 1].rejected
    requires Once(h) && AskedOnce(FunctionKeys(s.functionBps + [bp])) ==> Once(h')
    ensures Unlisted(s, post.tracked, h, h')
  {
    RejectionKeepsAgree(s, pre, bp, results, attempted, kept, post);
    if ListedOnce(s) {
      RejectionAskedOnce(s, bp);
    }
  }

  /** Any other is to be listed and recorded. */
  lemma NameAccepted(s: Inner, pre: World, bp: FunctionBp, results: seq<BreakpointResult>, attempted: set<int>,
                     kept: set<int>, post: World, before: Conditions, after: Conditions, h: History, h': History)
    requires Agree(s, pre.tracked) && Sound(pre)
    requires Reconciled(pre, FunctionScope, FunctionKeys(s.functionBps + [bp]), results, attempted, kept, post)
    requires Conditional(pre, FunctionScope, FunctionKeys(s.functionBps + [bp]), FunctionTexts(s.functionBps + [bp]),
                         results, attempted, before, after)
    requires RejectsAddresses(s.functionBps + [bp], results) && !results[|results| - 1].rejected
    requires Noted(h, Setter(FunctionScope, FunctionKeys(s.functionBps + [bp])), true, h')
    requires Once(h) && AskedOnce(FunctionKeys(s.functionBps + [bp])) ==> Once(h')
    ensures var last := results[|results| - 1];
            && Agree(AfterSetName(s, bp, Set(last.id, last.verified, 0)), post.tracked)
            && FunctionSent(s, bp, last.id, last.verified, pre.tracked, post.tracked, after, h, h')
    ensures SameConditions(pre.pool.Keys, before, after)
  {
    var last := results[|results| - 1];
    var s' := AfterSetName(s, bp, Set(last.id, last.verified, 0));
    NewNameCarries(s, pre, bp, results, attempted, kept, post, before, after);
    SetFunctionKeepsAgree(s, pre, bp, results, attempted, kept, post, s',
                          BreakpointInfo(last.id, Name(bp.name), bp.condition, last.verified));
    if ListedOnce(s') {
      ListAskedOnce(s', "");
    }
  }

  lemma NameSettled(s: Inner, pre: World, bp: FunctionBp, answer: Result<seq<BreakpointResult>, BackendError>,
                    results: seq<BreakpointResult>, attempted: set<int>, kept: set<int>, post: World,
                    before: Conditions, after: Conditions, h: History, h': History)
    requires Agree(s, pre.tracked) && Sound(pre)
    requires var (bps, keys) := (s.functionBps + [bp], FunctionKeys(s.functionBps + [bp]));
             && Replaced(pre, FunctionScope, keys, answer, results, attempted, kept, post)
             && Conditional(pre, FunctionScope, keys, FunctionTexts(bps), results, attempted, before, after)
             && (answer.Success? ==> RejectsAddresses(bps, answer.value))
             && Noted(h, Setter(FunctionScope, keys), answer.Success?, h')
             && (Once(h) && (AskedOnce(keys) || (answer.Failure? && Aborted(pre, FunctionScope, keys, post))) ==>
                   Once(h'))
    ensures answer.Failure? ==> Unlisted(s, post.tracked, h, h')
    ensures answer.Success? ==>
              |answer.value| > 0 &&
              var last := answer.value[|answer.value| - 1];
              if last.rejected then Unlisted(s, post.tracked, h, h')
              else
                && Agree(AfterSetName(s, bp, Set(last.id, last.verified, 0)), post.tracked)
                && FunctionSent(s, bp, last.id, last.verified, pre.tracked, post.tracked, after, h, h')
  {
    if answer.Failure? {
      NameUnanswered(s, pre, bp, answer, results, attempted, kept, post, h, h');
    } else if results[|results| - 1].rejected {
      NameRejected(s, pre, bp, results, attempted, kept, post, h, h');
    } else {
      NameAccepted(s, pre, bp, results, attempted, kept, post, before, after, h, h');
    }
  }

  /**
   * Neither holds of a line that did not resolve when it was first set and does when it is set again:
   * both requests for it are set now, and the session records one breakpoint, the backend the other.
   */
  lemma RelistedLineDiverges(file: string, line: u32, r1: BreakpointResult, r2: BreakpointResult, s: Inner, post: World)
    requires r1 == BreakpointResult(1, true, line, "", false) && r2 == BreakpointResult(2, true, line, "", false)
    requires s == AddSource(FRESH, file, SourceBp(line, ""))
    requires var bp := EngineBp(Some(FileLine(file, line)), true);
             post == World(map[1 := bp, 2 := bp], {}, map[FileLine(file, line) := r2])
    ensures var (bps, empty) := (Listed(s.sourceBps, file) + [SourceBp(line, "")], World(map[], {}, map[]));
            && Multiplicity(s, Line(file, line)) == 1
            && Reconciled(empty, FileScope(file), SourceKeys(file, bps), [r1, r2], {}, {}, post)
            && Echoes(bps, [r1, r2])
            && FindLine([r1, r2], line).id == 1 && post.tracked[FileLine(file, line)].id == 2
  {
    var (one, loc) := (SourceBp(line, ""), FileLine(file, line));
    assert Listed(s.sourceBps, file) == [one] && LinesOf([one]) == [line as int];
    assert SourceKeys(file, [one, one]) == [Some(loc), Some(loc)];
    assert Listed(s.sourceBps, file) + [one] == [one, one];
    RepeatedLineLeaks(file, line, r1, r2, post);
  }

  lemma AllNamesAreRequested(s: Inner, pre: World, bp: FunctionBp)
    requires Agree(s, pre.tracked) && Sound(pre)
    ensures forall loc <- pre.tracked :: FunctionScope.Covers(loc) ==> Some(loc) in FunctionKeys(s.functionBps + [bp])
  {
    assert NamesOf(s.functionBps + [bp]) == NamesOf(s.functionBps) + [bp.name];
    forall loc <- pre.tracked | FunctionScope.Covers(loc)
      ensures Some(loc) in FunctionKeys(s.functionBps + [bp])
    {
      assert Multiplicity(s, SiteOf(loc)) > 0;
      FunctionKeyIsListed(s.functionBps + [bp], loc);
    }
  }

  lemma RejectionKeepsAgree(s: Inner, pre: World, bp: FunctionBp, results: seq<BreakpointResult>,
                            attempted: set<int>, kept: set<int>, post: World)
    requires Agree(s, pre.tracked) && IsBareAddressName(bp.name)
    requires Reconciled(pre, FunctionScope, FunctionKeys(s.functionBps + [bp]), results, attempted, kept, post)
    ensures Agree(s, post.tracked)
  {
    forall loc <- post.tracked
      ensures Multiplicity(s, SiteOf(loc)) > 0
    {
      IndexedWasRequested(pre, FunctionScope, FunctionKeys(s.functionBps + [bp]), results, attempted, kept, post, loc);
      if FunctionScope.Covers(loc) {
        RejectedIsNotRequested(s, bp, loc);
      }
    }
  }

  lemma RejectedIsNotRequested(s: Inner, bp: FunctionBp, loc: BpLoc)
    requires IsBareAddressName(bp.name) && Some(loc) in FunctionKeys(s.functionBps + [bp])
    ensures Multiplicity(s, SiteOf(loc)) > 0
  {
    var bps := s.functionBps + [bp];
    var i :| 0 <= i < |bps| && FunctionKeys(bps)[i] == Some(loc);
    assert NamesOf(s.functionBps)[i] == loc.name;
  }

  lemma SetFunctionKeepsAgree(s: Inner, pre: World, bp: FunctionBp, results: seq<BreakpointResult>,
                              attempted: set<int>, kept: set<int>, post: World, s': Inner, info: BreakpointInfo)
    requires Agree(s, pre.tracked) && !IsBareAddressName(bp.name)
    requires Reconciled(pre, FunctionScope, FunctionKeys(s.functionBps + [bp]), results, attempted, kept, post)
    requires info.site == Name(bp.name) && s' == AddResponse(AddFunction(s, bp), info)
    ensures Agree(s', post.tracked)
    ensures var last := results[|results| - 1];
            last.verified ==> Function(bp.name) in post.tracked && post.tracked[Function(bp.name)] == last
  {
    AddFunctionCounts(s, bp);
    forall site
      ensures Multiplicity(s', site) == Multiplicity(AddFunction(s, bp), site)
    {
    }
    var bps := s.functionBps + [bp];
    var keys, n := FunctionKeys(bps), |bps| - 1;
    forall loc <- post.tracked
      ensures loc in pre.tracked || Multiplicity(s', SiteOf(loc)) > 0
    {
      IndexedWasRequested(pre, FunctionScope, keys, results, attempted, kept, post, loc);
      FunctionKeyIsListed(bps, loc);
    }
    SetKeepsAgree(s, pre.tracked, s', info, post.tracked);
    assert keys[n] == Some(Function(bp.name));
  }

  /** Re-sending the functions without one recorded name. */
  lemma ResendFunctions(s: Inner, pre: World, id: int, name: string, r: Result<seq<BreakpointResult>, BackendError>,
                        results: seq<BreakpointResult>, attempted: set<int>, kept: set<int>, post: World)
    requires Agree(s, pre.tracked) && id in s.bpResponses && s.bpResponses[id].site == Name(name)
    requires Replaced(pre, FunctionScope, FunctionKeys(RemainingFunctions(s, name)), r, results, attempted, kept, post)
    ensures r.Success? ==> Agree(RemoveById(s, id), post.tracked)
    ensures r.Failure? ==> Agree(s, post.tracked)
  {
    var bps := RemainingFunctions(s, name);
    var s' := RemoveById(s, id);
    if post.tracked != pre.tracked || r.Success? {
      forall loc <- post.tracked
        ensures Multiplicity(s', SiteOf(loc)) > 0 && Multiplicity(s, SiteOf(loc)) > 0
      {
        IndexedWasRequested(pre, FunctionScope, FunctionKeys(bps), results, attempted, kept, post, loc);
        FunctionKeyIsListed(bps, loc);
        RemoveCounts(s, pre.tracked, id, SiteOf(loc));
      }
      RemoveKeepsAgree(s, pre.tracked, id, post.tracked);
    }
  }

  /** Re-sending a file's lines without one recorded line. */
  lemma ResendLines(s: Inner, pre: World, id: int, file: string, line: int,
                    r: Result<seq<BreakpointResult>, BackendError>,
                    results: seq<BreakpointResult>, attempted: set<int>, kept: set<int>, post: World)
    requires Agree(s, pre.tracked) && id in s.bpResponses && s.bpResponses[id].site == Line(file, line)
    requires Replaced(pre, FileScope(file), SourceKeys(file, RemainingSource(s, file, line)), r, results, attempted,
        kept, post)
    ensures r.Success? ==> Agree(RemoveById(s, id), post.tracked)
    ensures r.Failure? ==> Agree(s, post.tracked)
  {
    var bps := RemainingSource(s, file, line);
    var s' := RemoveById(s, id);
    RemovalFindsItsEntry(s, pre.tracked, id);
    if post.tracked != pre.tracked || r.Success? {
      forall loc <- post.tracked
        ensures Multiplicity(s', SiteOf(loc)) > 0 && Multiplicity(s, SiteOf(loc)) > 0
      {
        IndexedWasRequested(pre, FileScope(file), SourceKeys(file, bps), results, attempted, kept, post, loc);
        SourceKeyIsListed(file, bps, loc);
        RemoveCounts(s, pre.tracked, id, SiteOf(loc));
      }
      RemoveKeepsAgree(s, pre.tracked, id, post.tracked);
    }
  }

  lemma ResetAgrees(s: Inner)
    requires s.bpResponses == map[]
    ensures Agree(s, map[])
  {
    forall site
      ensures Recorded(s, site) == {}
    {
    }
  }

  lemma LaunchAgrees(s: Inner, s': Inner, source: seq<(string, seq<SourceBp>)>, functions: seq<FunctionBp>,
                     outcome: LaunchOutcome, pre: World, results: seq<BreakpointResult>, post: World)
    requires Agree(s, map[]) && pre.tracked == map[]
    requires ByFile(source) == s.pendingSourceBps && |source| == |s.pendingSourceBps|
    requires functions == s.pendingFunctionBps
    requires s' == FlushPending(s).(state := s'.state)
    requires if outcome.LaunchStopped? then Flushed(pre, FlushKeys(source) + FunctionKeys(functions), results, post)
        else post == pre
    ensures Agree(s', post.tracked)
  {
    if outcome.LaunchStopped? {
      FlushAgrees(s, source, functions, pre, results, post);
    } else {
      forall site
        ensures |Recorded(FlushPending(s), site)| <= Multiplicity(FlushPending(s), site)
      {
        FlushKeepsRecorded(s, site);
      }
    }
    PendingKeepsAgree(FlushPending(s), s', post.tracked);
  }
}
