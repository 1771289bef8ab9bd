# A verified model of the debugger MCP server's core

The repository is an MCP server that drives two debuggers: lldb, over the Debug Adapter Protocol,
and WinDbg, through the DbgEng engine. These Dafny modules model the parts of it that keep state
under failure and concurrency, and prove what they are relied on for. `dafny verify dfyconfig.toml`
verifies all of them, with no other flags.

- **WinDbg breakpoints** (`DbgEng`, `Reconciliation`, `WinDbgBackend`, `BreakpointRuns`). The tool
  layer always sends the full list of breakpoints it wants; the backend makes a flat engine pool
  match it. The engine may fail any call, may die before or after it acts, and may reuse ids. A
  `World` is the pool beside the backend's index; `Reconciled`, `Aborted` and `Flushed` are all that
  one call may do to it. The methods of `WinDbgBackend` are proved to do no more, and the lemmas draw
  the consequences: soundness on every run with no assumption, and exact agreement with the exact
  condition for it.
- **The session above it** (`Session`, `Agreement`, `BackendHistory`, `BreakpointHandlers`). The
  session's lists and recorded responses, the transactional tool handlers, and the agreement of both
  with the backend's index over any sequence of calls; and, with the backend's history since it was
  connected, when the engine holds nothing but what the session lists.
- **The engine's wait loops** (`WaitLoop`). Waiting, going and breaking in, over a trace of events,
  refine "the first event that surfaces", wherever the time slices cut the trace.
- **The DAP client** (`StopWaiter`, `DapClient`, `RequestRuns`, `ResumeRuns`, `ReadLoop`,
  `LaunchHandshake`). Each lock section is one atomic step. Requests, resumed calls among them, the
  stop waiter, the read loop with its recovery, and the launch handshake are state machines that run
  against an adapter which may send anything at any time.
- **Printers, parsers, traversals** (`Framing`, `Flatten`, `HexDump`), each with an independent
  reader, walk or decoder that it is proved against.
- **Buffers, epoch, event stream** (`OutputBuffer`, `StderrRing`, `SessionEpoch`, `EventStream`).

Code that updates an object is a class here, and its methods are proved against functions and
relations on values; the laws over whole runs are lemmas about those. `Neutral`, `Wrappers`, `Bytes`
and `UnicodeText` hold what is shared. A method that takes a `*` stands for a choice the outside
world makes; ghost results of a method witness how far a call came.

Where the code and its documentation differ, the model follows the code:

- `flatten_variables` says that the result never exceeds `max_count`. The cap is looked at only after
  a node was emitted, so with `max_count` 0 one node is returned (`Flatten.ZeroCapIsExceeded`; the
  bound holds exactly for a positive cap or an empty walk, `Flatten.CapHolds`). The one caller in the
  repository passes 100, so only the library function itself can be called that way.
- The framing reader says that a truncated header is an error. A stream that ends in a lone carriage
  return counts as the blank line, so an empty body whose frame lacks only its last byte still reads
  (`Framing.TruncatedFrame`).
- The event stream says that the first of its two termination signals wins. The race is looked at
  only when a poll finds no output, and then the engine's code is preferred even if the backend was
  dropped first (`EventStream.LateCodeOvertakesDrop`). The first signal's code is carried exactly
  unless a drop comes first and an exit code still follows before that poll
  (`EventStream.FirstSignalWins`).
- The setters say that the engine ends up with exactly the requested breakpoints. Reuse is checked
  against the breakpoints indexed before the call only, so an untracked line requested twice leaves
  one breakpoint that nobody indexes (`BreakpointRuns.RepeatedLineLeaks`; the exact condition is
  `Reconciliation.ReconcileExact`). The same goes for a pending line that the launch flush sets twice
  (`BreakpointRuns.RepeatedPendingLineLeaks`; `BreakpointRuns.FlushExact` and, in terms of what is
  asked for, `BreakpointRuns.CooperativeFlushExact`). And a dropped breakpoint
  whose id is 0 is never removed (`Reconciliation.ZeroIdSurvives`, `Reconciliation.DroppedUnlessZero`).
- The setters preserve ids so that a stop reports the id that `set_breakpoint` returned. The tool
  returns the first answer at the line, the backend indexes the last verified one. A line that did not
  resolve when it was first set, and does when it is set again, is set twice in that call, and the two
  differ (`BreakpointHandlers.RelistedLineDiverges`; the exact condition is
  `BreakpointHandlers.MatchedIsIndexed`).
- The epoch is said to keep stale writes out. It is a 64-bit counter that wraps: after 2^64 resets, or
  any other multiple and no other number, a stale write gets through (`SessionEpoch.WrappedEpoch`,
  `SessionEpoch.GuardPassesExactly`).

## Model

| member | source | states |
|---|---|---|
| `DbgEng.Engine.SetBreakpoint` | crates/dbgeng-sys/src/engine.rs:423-464 | success adds one enabled breakpoint at the location under a new id, with its condition and no inherited one; failure changes nothing or leaves one orphan behind |
| `DbgEng.Engine.RemoveBreakpoint` | crates/dbgeng-sys/src/engine.rs:534-548 | success removes exactly that breakpoint and its condition; failure leaves the pool alone; conditions stay a subset of the live ids |
| `DbgEng.Engine.ClearConditions` | crates/dbgeng-sys/src/engine.rs:1022 | a new session starts with no conditions |
| `WinDbgBackend.BpResultOrContinue` | crates/windbg-backend/src/backend.rs:356-376 | only a dead engine thread stays an error; every other failure becomes an unverified answer with id 0 that echoes the line |
| `WinDbgBackend.WinDbgBackend.CallSet` | crates/windbg-backend/src/backend.rs:217-232 | a marshalled set may be lost before or after the engine acts; what it set unheard is an orphan; what it reports set carries the condition asked for, and no other condition changes |
| `WinDbgBackend.WinDbgBackend.CallRemove` | crates/windbg-backend/src/backend.rs:217-232 | a marshalled removal may be lost before or after the engine acts; it removes the one id or nothing, and drops no other id's condition |
| `WinDbgBackend.WinDbgBackend.RemoveEngineBreakpoint` | crates/windbg-backend/src/backend.rs:182-195 | skips ids that are not positive, swallows everything but a dead thread, and removes at most the one id |
| `WinDbgBackend.WinDbgBackend.SetNew` | crates/windbg-backend/src/backend.rs:595-616 | setting a new location extends the pass by its answer, verified at the location with the condition asked for, or unverified at the given line |
| `WinDbgBackend.WinDbgBackend.AnswerLine` | crates/windbg-backend/src/backend.rs:561-617 | one requested line extends the pass by one answer: out of range, the indexed one, or a new one, always echoing the line |
| `WinDbgBackend.WinDbgBackend.AddLines` | crates/windbg-backend/src/backend.rs:559-617 | answers every request in order, and the new map is the latest verified answer of each requested line |
| `WinDbgBackend.WinDbgBackend.RemoveStaleLines` | crates/windbg-backend/src/backend.rs:630-638 | tries exactly the dropped lines' real ids, all of them unless the thread dies, and touches nothing else in the pool |
| `WinDbgBackend.WinDbgBackend.SetSourceBreakpoints` | crates/windbg-backend/src/backend.rs:530-651 | the call reconciles the file, or fails having set some requests and touched neither index nor old breakpoints, or fails after the commit; the index stays sound; answer i has request i's line; each breakpoint set carries its request's condition, and no other lost or gained one but those it tried to remove |
| `WinDbgBackend.WinDbgBackend.AnswerName` | crates/windbg-backend/src/backend.rs:672-725 | one requested function extends the pass by one answer: rejected, the indexed one, or a new one |
| `WinDbgBackend.WinDbgBackend.AddNames` | crates/windbg-backend/src/backend.rs:669-726 | answers every function in order, rejects exactly the bare addresses, and collects the latest verified answers |
| `WinDbgBackend.WinDbgBackend.RemoveStaleNames` | crates/windbg-backend/src/backend.rs:732-740 | tries exactly the dropped functions' real ids, all of them unless the thread dies |
| `WinDbgBackend.WinDbgBackend.SetFunctionBreakpoints` | crates/windbg-backend/src/backend.rs:653-748 | the same three outcomes, and the same of conditions, for the functions; exactly the bare `0x` names are rejected |
| `WinDbgBackend.IndexedCarries` | crates/windbg-backend/src/backend.rs:582-617 | after a call, what was indexed before keeps entry and condition, and what is newly indexed answers a request and carries that request's condition |
| `WinDbgBackend.WinDbgBackend.FlushOne` | crates/windbg-backend/src/backend.rs:419-430 | a flushed set adds one breakpoint at its location, with its condition, or, on any failure, nothing that is known of |
| `WinDbgBackend.WinDbgBackend.FlushLine` | crates/windbg-backend/src/backend.rs:409-437 | flushing one line sets it, skips it when malformed, and indexes it only when it verified |
| `WinDbgBackend.WinDbgBackend.FlushName` | crates/windbg-backend/src/backend.rs:439-466 | flushing one function skips bare addresses and indexes it only when it verified |
| `WinDbgBackend.WinDbgBackend.FlushFile` | crates/windbg-backend/src/backend.rs:408-438 | a file's pending lines are flushed in order, and the index follows |
| `WinDbgBackend.WinDbgBackend.FlushFunctions` | crates/windbg-backend/src/backend.rs:439-466 | the pending functions are flushed in order, and the index follows |
| `WinDbgBackend.WinDbgBackend.Launch` | crates/windbg-backend/src/backend.rs:395-476 | no condition of an earlier session is left; only a stop flushes; the flush sets the pending requests in order, each with its own condition, and indexes what verified; no flush failure fails the launch; every outcome maps to its launch outcome |
| `Reconciliation.LatestIsAnswer` | crates/windbg-backend/src/backend.rs:589-616 | a location is in the committed map exactly if some request for it verified, and then with one such answer |
| `Reconciliation.DistinctIds` | crates/windbg-backend/src/backend.rs:112-118 | a sound index never gives two locations one id |
| `Reconciliation.ReconcileKeepsSound` | crates/windbg-backend/src/backend.rs:619-651 | whatever failed, the index stays sound, still requested locations keep their entry, and no removal was tried on an indexed id |
| `Reconciliation.AbortKeepsSound` | crates/windbg-backend/src/backend.rs:608-610 | a call cut short by a dead thread leaves the index sound |
| `Reconciliation.FlushKeepsSound` | crates/windbg-backend/src/backend.rs:407-466 | a flush keeps the index sound even if it sets an indexed location again, and keeps the entries it does not name |
| `Reconciliation.ReconcileExact` | crates/windbg-backend/src/backend.rs:535-543 | engine and index agree on the scope after a reconcile if and only if nothing was set twice, no orphan can fire, and every dropped breakpoint went |
| `Reconciliation.ExactCorrespondence` | crates/windbg-backend/src/backend.rs:535-543 | agreement is a one-to-one correspondence between the enabled breakpoints of a scope and its index entries |
| `Reconciliation.DroppedUnlessZero` | crates/windbg-backend/src/backend.rs:182-185 | with an engine that does all it is asked, a dropped breakpoint survives exactly when its id is the skipped 0 |
| `Reconciliation.ZeroIdSurvives` | crates/windbg-backend/src/backend.rs:182-185 | a tracked line with id 0 that is dropped stays in the engine, unindexed |
| `Reconciliation.CooperativeReconcileExact` | crates/windbg-backend/src/backend.rs:582-617 | with ids from 1, agreement follows when no untracked location repeats; when all verify, only then |
| `Reconciliation.OtherScopesUntouched` | crates/windbg-backend/src/backend.rs:540-543 | every other file's and the functions' index entries are unchanged |
| `Reconciliation.OtherScopesKeepAgreeing` | crates/windbg-backend/src/backend.rs:630-648 | a reconcile cannot break the agreement of another scope |
| `Reconciliation.BareAddressShape` | crates/windbg-backend/src/backend.rs:331-334 | a name is a bare address exactly if nothing but white space stands before `0x` or `0X` in it |
| `BreakpointRuns.EveryRunIsSound` | crates/windbg-backend/src/backend.rs:407-748 | the index is sound after every prefix of every run of flushes and setters |
| `BreakpointRuns.NoBareAddressIsSet` | crates/windbg-backend/src/backend.rs:331-334 | on no run is a breakpoint set at a bare `0x` name: one that sits there was there, unchanged, from the start |
| `BreakpointRuns.NoRemovalHitsTracked` | crates/windbg-backend/src/backend.rs:182-195 | on no run is a removal tried on an id that is indexed when the call is over, and indexed ids are live |
| `BreakpointRuns.IdsAreStable` | crates/windbg-backend/src/backend.rs:582-593 | a location that verified and stays in every request never changes its id |
| `BreakpointRuns.FlushExact` | crates/windbg-backend/src/backend.rs:407-466 | engine and index agree on a scope after a flush if and only if none of its locations was set twice or set though indexed, and no orphan can fire |
| `BreakpointRuns.CooperativeFlushExact` | crates/windbg-backend/src/backend.rs:407-466 | when a flush leaves no orphan, agreement on a scope follows if the request names no location of it twice and none that is indexed; when all that is asked for in the scope verifies, only then |
| `BreakpointRuns.CleanRunsAgree` | crates/windbg-backend/src/backend.rs:535-543 | over a run of clean calls every scope stays in agreement |
| `BreakpointRuns.RepeatedLineLeaks` | crates/windbg-backend/src/backend.rs:589-616 | an untracked line requested twice leaks a breakpoint though the engine did everything right |
| `BreakpointRuns.RepeatedPendingLineLeaks` | crates/windbg-backend/src/backend.rs:408-437 | a pending line asked for twice leaks a breakpoint at the launch flush |
| `Session.SessionManager.RemoveBreakpointById` | crates/mcp-session/src/manager.rs:323-358 | an unknown id fails and changes nothing; otherwise the first entry of its line or name, told on the lists, and the response go |
| `Session.SessionManager.FlushPendingBreakpoints` | crates/mcp-session/src/manager.rs:410-426 | the pending lists move behind the active ones, file by file, and are handed out |
| `Session.SessionManager.AddSourceBreakpoint` | crates/mcp-session/src/manager.rs:281-292 | one entry at the end of the file's list, nothing else |
| `Session.SessionManager.AddFunctionBreakpoint` | crates/mcp-session/src/manager.rs:295-302 | one entry at the end of the functions, nothing else |
| `Session.SessionManager.AddBreakpointResponse` | crates/mcp-session/src/manager.rs:305-307 | the response is stored under its id |
| `Session.SessionManager.AddPendingSourceBreakpoint` | crates/mcp-session/src/manager.rs:385-395 | one entry at the end of the file's pending list, nothing else |
| `Session.SessionManager.AddPendingFunctionBreakpoint` | crates/mcp-session/src/manager.rs:398-404 | one entry at the end of the pending functions, nothing else |
| `Session.SessionManager.SetState` | crates/mcp-session/src/manager.rs:116-118 | the state and nothing else |
| `Session.SessionManager.Clear` | crates/mcp-session/src/manager.rs:169-184 | everything under the session's lock is cleared and the generation moves on by one, modulo 2^64 |
| `Session.SessionManager.SetStateIfGeneration` | crates/mcp-session/src/manager.rs:126-133 | writes the state exactly when the generation matches, and says so |
| `Session.SessionManager.TerminateIfGeneration` | crates/mcp-session/src/manager.rs:235-245 | ends the session and records a known code exactly when the generation matches |
| `Session.SessionManager.SetLastStopped` | crates/mcp-session/src/manager.rs:254-256 | the stop cache and nothing else |
| `Agreement.RemovalFindsItsEntry` | crates/mcp-session/src/manager.rs:334-354 | under agreement a recorded breakpoint always has an entry in the list it is removed from |
| `Agreement.FlushCounts` | crates/mcp-session/src/manager.rs:416-423 | a flush adds exactly the pending multiplicity of every site |
| `Agreement.SetKeepsAgree` | crates/mcp-tools/src/handlers/breakpoints.rs:90-100 | one entry and one response more at a site keep the agreement |
| `Agreement.RemoveCounts` | crates/mcp-session/src/manager.rs:334-356 | a removal lowers its own site's multiplicity by one and no other's |
| `Agreement.RemoveKeepsAgree` | crates/mcp-tools/src/handlers/breakpoints.rs:249-278 | a committed removal keeps the agreement |
| `Agreement.FlushAgrees` | crates/mcp-tools/src/handlers/lifecycle.rs:54-66 | after a launch flush on a fresh backend everything indexed is in the session's lists |
| `Agreement.PendingLineIsFlushed` | crates/windbg-backend/src/backend.rs:408-418 | the launch flush asks for every pending line it was handed, each with its own condition |
| `Agreement.FlushAsksForPending` | crates/mcp-tools/src/handlers/lifecycle.rs:54-66 | a launch asks for a line exactly if it is in the file's pending list |
| `Agreement.NothingStale` | crates/mcp-tools/src/handlers/breakpoints.rs:59-80 | re-sending a list that covers the index removes nothing, so a failed set left the index as it was |
| `BreakpointHandlers.ToolServer.HandleSetBreakpoint` | crates/mcp-tools/src/handlers/breakpoints.rs:27-115 | failure leaves the session unchanged; idle buffers; stopped sends the file's list with the new entry, then adds that entry and one response; the recorded id is the one the backend indexes whenever the line was indexed before or is new to the list; session and, for a new line, engine keep the condition asked for |
| `BreakpointHandlers.ToolServer.HandleSetFunctionBreakpoint` | crates/mcp-tools/src/handlers/breakpoints.rs:120-223 | the same for functions, where the recorded id is always the indexed one and every new function has its condition; a bare address is refused and never recorded |
| `BreakpointHandlers.ToolServer.HandleRemoveBreakpoint` | crates/mcp-tools/src/handlers/breakpoints.rs:229-286 | failure leaves the session unchanged; success sends the list without the first entry of the recorded site, and takes exactly that one |
| `BreakpointHandlers.ToolServer.HandleLaunch` | crates/mcp-tools/src/handlers/lifecycle.rs:51-168 | succeeds exactly from idle when a backend comes up and launches; a failed launch resets; a launch flushes the pending lists to a new backend; afterwards lists, responses and index agree |
| `BreakpointHandlers.ToolServer.HandleAttach` | crates/mcp-tools/src/handlers/lifecycle.rs:172-300 | succeeds exactly from idle when a backend comes up and attaches; a failed attach resets; an attach connects a backend with an empty index and leaves every list, pending or active, as it was |
| `BreakpointHandlers.ConnectAndLaunch` | crates/mcp-tools/src/handlers/lifecycle.rs:80-128 | a launch runs on a backend whose engine and index are its own; only a stop flushes; a stop, an exit with its code, and an end come out as they are |
| `BreakpointHandlers.ToolServer.HandleDisconnect` | crates/mcp-tools/src/handlers/lifecycle.rs:304-330 | the backend goes and the session is reset, unless it was idle |
| `BreakpointHandlers.ToolServer.Serve` | crates/mcp-tools/src/handlers/breakpoints.rs:27-286 | over any sequence of set, remove, launch, attach and disconnect calls the session moves as the outcomes say and the agreement of lists, responses and index holds after each; if no site was ever listed twice and the engine cooperated, what can fire in it is exactly indexed, at sites listed once |
| `BackendHistory.LaunchAskedOnce` | crates/mcp-tools/src/handlers/lifecycle.rs:54-66 | when no site is listed twice after the pending lists were moved, the launch flush asks for nothing twice |
| `BackendHistory.RemainingAskedOnce` | crates/mcp-tools/src/handlers/breakpoints.rs:340-361 | when no site is listed twice, the list a removal sends asks for nothing twice |
| `BackendHistory.OnceAgrees` | crates/windbg-backend/src/backend.rs:535-543 | a backend that was never asked for a location twice in one call, over an engine that did all it was asked, holds exactly what it indexes in every scope |
| `BackendHistory.OnlyListedCanFire` | crates/windbg-backend/src/backend.rs:535-543 | then every breakpoint that can fire is indexed under its id, at a site the session lists once |
| `BreakpointHandlers.FindLine` | crates/mcp-tools/src/handlers/breakpoints.rs:79-87 | the matched answer is the first at the requested line, or else the last |
| `BreakpointHandlers.MatchedIsIndexed` | crates/mcp-tools/src/handlers/breakpoints.rs:79-100 | the matched answer and the index carry one id if and only if the line was indexed before or no other request for it verified |
| `BreakpointHandlers.RecordedIsKept` | crates/mcp-tools/src/handlers/breakpoints.rs:79-100 | so they do when the line was indexed before, or is new to the list |
| `BreakpointHandlers.RelistedLineDiverges` | crates/mcp-tools/src/handlers/breakpoints.rs:79-100 | a listed line that is not indexed, set again, is recorded under one id and indexed under another |
| `WaitLoop.Waiter.WaitForEvent` | crates/dbgeng-sys/src/engine.rs:1693-1800 | every event passed was a resume status, or a hit whose stored condition failed to evaluate, parsed partially, holds a NUL or was 0; a conditional hit that is returned had a value other than 0; what is returned has the recorded code, reason, thread and id; each skipped hit got exactly one GO |
| `WaitLoop.FirstStopReports` | crates/dbgeng-sys/src/engine.rs:1744-1785 | the first stop of a trace, on which the loops above it rest, told event by event in the same terms |
| `WaitLoop.Waiter.PollSlices` | crates/dbgeng-sys/src/engine.rs:1219-1224 | the first stop if it lies within the slices polled, else nothing, with the stop still ahead and that many slices nearer |
| `WaitLoop.Waiter.BreakLoop` | crates/dbgeng-sys/src/engine.rs:1301-1329 | up to 50 slices: the first surfacing event relabelled, an earlier stopped status, or the error of the first failing call |
| `WaitLoop.BreakingInReachesTheStop` | crates/dbgeng-sys/src/engine.rs:1306-1328 | breaking into a target that runs until its first stop returns that stop, with another reason and nothing else changed, exactly if it lies within the slices polled, and otherwise times out |
| `WaitLoop.BreakingInSeesTheStatus` | crates/dbgeng-sys/src/engine.rs:1313-1320 | a stopped status that no wait surfaced ends the break at its slice |
| `WaitLoop.BreakingInFails` | crates/dbgeng-sys/src/engine.rs:1306-1328 | so does an unreadable status or a refused interrupt, as an error |
| `WaitLoop.InterruptedGo` | crates/dbgeng-sys/src/engine.rs:1217-1240 | an interrupted run of a target that runs until its first stop returns that stop, as it is or relabelled by where it lies, or times out |
| `WaitLoop.GoAtDeadline` | crates/dbgeng-sys/src/engine.rs:1203-1240 | an uninterrupted run returns nothing exactly if no stop lies within its slices |
| `WaitLoop.Waiter.Go` | crates/dbgeng-sys/src/engine.rs:1203-1240 | the first stop if it lies before deadline and interrupt, else what breaking in regains, else nothing, and then no stop was passed over |
| `WaitLoop.CutsDoNotMatter` | crates/dbgeng-sys/src/engine.rs:1769-1775 | where time slices cut a trace changes neither the first stop nor the number of resumes |
| `WaitLoop.UninterruptedGo` | crates/dbgeng-sys/src/engine.rs:1217-1240 | two uninterrupted runs over the same events, sliced differently, return the same first stop |
| `StopWaiter.StopWaiter.RegisterWaiter` | crates/dap-client/src/stop_waiter.rs:46-51 | a new channel takes the slot; a sender still in it is dropped |
| `StopWaiter.StopWaiter.Send` | crates/dap-client/src/stop_waiter.rs:77-85 | the registered channel gets the outcome and the slot is empty; without one nothing happens |
| `StopWaiter.TraceLaw` | crates/dap-client/src/stop_waiter.rs:46-85 | on every interleaving each registration receives the first outcome before the next registration, or is closed by it, or stays open |
| `StopWaiter.NoOutcomeTwice` | crates/dap-client/src/stop_waiter.rs:77-85 | no outcome goes to two registrations: what two of them received was produced at two places of the trace, in their order |
| `StopWaiter.OneRecipientPerOutcome` | crates/dap-client/src/stop_waiter.rs:77-85 | there are never more receivers than outcomes |
| `DapClient.Client.NextSeq` | crates/dap-client/src/client.rs:74-76 | numbers count up from 1 |
| `DapClient.Client.RegisterPending` | crates/dap-client/src/client.rs:79-83 | a fresh channel waits under the number |
| `DapClient.Client.RemovePending` | crates/dap-client/src/client.rs:87-89 | takes out at most the one entry, closing its channel |
| `DapClient.Client.DispatchResponse` | crates/dap-client/src/client.rs:94-105 | hands a response to the entry of its own number and says whether there was one |
| `DapClient.Client.CancelAllPending` | crates/dap-client/src/client.rs:111-122 | the map is empty and every pending channel is told that the transport is closed, no other |
| `DapClient.Client.SignalInitialized` | crates/dap-client/src/client.rs:132-138 | sets the latch and nothing else |
| `RequestRuns.StepIsSafe` | crates/dap-client/src/client.rs:279-329 | every step of every caller and of the read loop keeps the request invariant |
| `RequestRuns.EveryRunIsSafe` | crates/dap-client/src/client.rs:279-329 | the invariant holds on every run |
| `RequestRuns.FateOfRequest` | crates/dap-client/src/client.rs:279-329 | numbers are distinct from 1; each issued one is unregistered, pending, or was resolved exactly once, by a response with its own number if answered, as its channel says |
| `RequestRuns.ResolvedForGood` | crates/dap-client/src/client.rs:385-414 | a resolved request is never pending nor resolved again, whatever duplicates, drops and cancels race |
| `RequestRuns.CancelReleasesAll` | crates/dap-client/src/client.rs:111-122 | cancelling resolves every request registered before it, for good |
| `ReadLoop.Loop.FireTerminated` | crates/dap-client/src/read_loop.rs:60-75 | the signal is sent at most once, with the last recorded exit code |
| `ReadLoop.Loop.Dispatch` | crates/dap-client/src/read_loop.rs:163-231 | a message runs its own sections in order, the exit code before the stop waiter, the signal before the cancel |
| `ReadLoop.Loop.Recover` | crates/dap-client/src/read_loop.rs:239-258 | drain, release the stop waiter, fire the signal, in that order |
| `ReadLoop.Loop.Run` | crates/dap-client/src/read_loop.rs:149-159 | every message's sections in order, and recovery once |
| `ReadLoop.CallersLeaveSinks` | crates/dap-client/src/read_loop.rs:51-57 | whatever callers do between the loop's sections, its sinks see the loop only |
| `ReadLoop.OneTerminationSignal` | crates/dap-client/src/read_loop.rs:59-83 | the terminated signal fires exactly once, with the last exit code before the first terminated event or the end of the stream |
| `ReadLoop.RecoveryReleases` | crates/dap-client/src/read_loop.rs:239-258 | every pending request and a registered stop waiter are told; none stays; the latch is not touched |
| `ReadLoop.WaiterHears` | crates/dap-client/src/read_loop.rs:189-231 | over any messages a registered stop waiter hears the first stopped, exited or terminated one, as that outcome, and nothing before it |
| `ReadLoop.LatchHears` | crates/dap-client/src/read_loop.rs:198-201 | the latch is set exactly if it was or an `initialized` event is among the messages |
| `ReadLoop.OutputIsForwarded` | crates/dap-client/src/read_loop.rs:202-208 | the output events are forwarded in order, all of them and nothing else |
| `ReadLoop.ResponsesArrive` | crates/dap-client/src/read_loop.rs:166-176 | a pending request receives the first response of its own number, successful or not, and no other one |
| `LaunchHandshake.StepKeeps` | crates/lldb-backend/src/backend.rs:191-274 | every step of caller and read loop keeps the handshake invariant and never takes back a decided fact |
| `LaunchHandshake.EveryRunKeeps` | crates/lldb-backend/src/backend.rs:191-274 | the invariant holds on every run of launch or attach |
| `LaunchHandshake.RunGrows` | crates/dap-client/src/client.rs:94-122 | along a run a decided answer, outcome, write or latch never changes again |
| `LaunchHandshake.ResultIsExpected` | crates/lldb-backend/src/backend.rs:191-274 | a finished caller's result is the first operation that failed, or the stop, told by writes, answers and outcomes alone |
| `LaunchHandshake.PlacementDoesNotMatter` | crates/lldb-backend/src/backend.rs:174-182 | two finished runs whose facts do not contradict each other end alike, wherever the launch response and `initialized` fell |
| `LaunchHandshake.WrittenInOrder` | crates/lldb-backend/src/backend.rs:191-256 | when a request is on the wire every operation before it has passed |
| `LaunchHandshake.ConfiguredInOrder` | crates/lldb-backend/src/backend.rs:217-256 | once `configurationDone` is written, initializing succeeded, launch is out, `initialized` came, the answer to every `setBreakpoints` has that command and reports success, so does the answer for functions, and with stop-on-entry the stop waiter is registered |
| `LaunchHandshake.RefusedExactly` | crates/lldb-backend/src/backend.rs:115-155 | a finished caller is refused at exactly the first operation whose write failed, whose reply was lost, or whose answer is unsuccessful where success is looked at: not for `setExceptionBreakpoints` and `configurationDone` |
| `LaunchHandshake.AttachRegistersLast` | crates/lldb-backend/src/backend.rs:288-320 | attaching registers for a stop only after all four requests were answered, initialize and attach with success, and `initialized` came |
| `LaunchHandshake.StopIsFirstAfterRegistration` | crates/lldb-backend/src/backend.rs:259-320 | launch and attach, on the client made for them, return the first outcome produced after they registered |
| `LaunchHandshake.LaunchEndsAsAsked` | crates/lldb-backend/src/backend.rs:258-274 | a launch that is not refused waits for a stop exactly with stop-on-entry |
| `LaunchHandshake.NoLostEntryStop` | crates/lldb-backend/src/backend.rs:244-274 | with stop-on-entry a launch that succeeds returns the first stop, exit with its code, or end after its only registration |
| `LaunchHandshake.EnabledStays` | crates/lldb-backend/src/backend.rs:191-274 | nothing the read loop does blocks a caller that can move |
| `LaunchHandshake.NeverStuck` | crates/lldb-backend/src/backend.rs:176-182 | while the transport is up, whenever a launch is blocked an adapter that defers the launch response may send the one thing it waits for, and the read loop may take it in |
| `LaunchHandshake.LaunchCompletes` | crates/lldb-backend/src/backend.rs:176-182 | from every reachable state with the transport up such an adapter brings the launch to its end in a bounded number of steps, and not to a refusal unless something had failed before |
| `LaunchHandshake.LaunchSucceeds` | crates/lldb-backend/src/backend.rs:176-182 | every launch has a run to success with an adapter that answers launch only after `configurationDone` |
| `LaunchHandshake.DrainReleases` | crates/dap-client/src/read_loop.rs:244-248 | every request registered when recovery drains has its answer or is told, for good |
| `LaunchHandshake.BlockedForGood` | crates/dap-client/src/read_loop.rs:239-258 | once the loop is gone a blocked caller ends the run |
| `LaunchHandshake.BlockedExactly` | crates/dap-client/src/client.rs:146-161 | a launch is blocked exactly on an unfired latch, or on a reply or stop nobody has produced |
| `LaunchHandshake.EofStrandsTheLatch` | crates/dap-client/src/read_loop.rs:239-258 | a launch that waits for `initialized` when the stream ends stays blocked exactly if it had not fired |
| `LaunchHandshake.LaunchCanBeStranded` | crates/dap-client/src/read_loop.rs:239-258 | every launch has a run that ends blocked that way |
| `ResumeRuns.StepIsSafe` | crates/lldb-backend/src/backend.rs:393-405 | every step of every resumed call, of any other caller and of the read loop keeps the resume invariant |
| `ResumeRuns.EveryRunIsSafe` | crates/lldb-backend/src/backend.rs:393-405 | the invariant holds on every run, with any number of resumed calls and other requests |
| `ResumeRuns.ResumeReturnsFirstOutcome` | crates/lldb-backend/src/backend.rs:393-405 | a resumed call on a shared client returns only after a response to its own request, and then the first outcome after its registration, or terminated if it was replaced first |
| `ResumeRuns.ResumeWaitsForOutcome` | crates/lldb-backend/src/backend.rs:399-404 | an answered call can return exactly once something followed its registration |
| `ResumeRuns.ResumeFailsOnlyWhenCancelled` | crates/lldb-backend/src/backend.rs:395-398 | a written request fails only because the transport was cancelled under it |
| `Framing.Reader.ReadLine` | crates/dap-client/src/wire.rs:301-302 | consumes through the first line feed or to the end, and decodes that |
| `Framing.Reader.ReadHeader` | crates/dap-client/src/wire.rs:294-336 | the length of the header block at the front, or its first error, and what follows it |
| `Framing.Reader.ReadMessage` | crates/dap-client/src/wire.rs:283-291 | the frame at the front of the input, or the error, and what follows it |
| `Framing.Writer.WriteMessage` | crates/dap-client/src/wire.rs:259-273 | success appends exactly one frame with the body's exact length; a write or flush error leaves a prefix of that frame |
| `Framing.DecimalParses` | crates/dap-client/src/wire.rs:265 | a printed length parses back to itself |
| `Framing.ParsesExactly` | crates/dap-client/src/wire.rs:319-326 | a length is an optional plus sign and one or more digits, and nothing else is one |
| `Framing.Utf8Exactly` | crates/dap-client/src/wire.rs:301-302 | a header line decodes exactly if it is the encoding of a text, and to that text: no overlong form or surrogate does |
| `Framing.FrameIs` | crates/dap-client/src/wire.rs:259-273 | the bytes of a frame, spelled out |
| `Framing.LengthLineIsRead` | crates/dap-client/src/wire.rs:319-331 | the written length line is one line of ASCII whose field is its length, or refused over the limit |
| `Framing.FrameRoundTrip` | crates/dap-client/src/wire.rs:283-291 | a written frame reads back exactly, or is refused when its body is over 64 MiB |
| `Framing.StreamRoundTrip` | crates/dap-client/src/wire.rs:275-291 | a stream of written frames reads back as those bodies in order and a clean end, exactly if none is over the limit |
| `Framing.TruncatedFrame` | crates/dap-client/src/wire.rs:300-315 | no proper prefix of a frame reads, but for an empty body lacking its last byte; the error is `Eof` exactly for the empty prefix |
| `Framing.OtherFieldsDoNotMatter` | crates/dap-client/src/wire.rs:332-334 | another header line anywhere in the block changes neither the body nor what follows |
| `Flatten.FlattenVariables` | crates/mcp-tools/src/flatten.rs:69-129 | the capped walk is the uncapped walk cut at the cap: its first nodes and true, or its error, or all of it and false |
| `Flatten.FlattenRecursive` | crates/mcp-tools/src/flatten.rs:134-189 | the same of every subtree, on the shared result vector |
| `Flatten.FlattenOne` | crates/mcp-tools/src/flatten.rs:99-125 | a variable is emitted, bare and expanded or with its child count, and the cap is looked at after each node |
| `Flatten.CapHolds` | crates/mcp-tools/src/flatten.rs:65-68 | the cap is respected exactly for a positive cap or an empty walk, and `truncated` says whether it was met |
| `Flatten.ZeroCapIsExceeded` | crates/mcp-tools/src/flatten.rs:116-122 | with a cap of 0 one plain variable is returned all the same |
| `Flatten.NestedFollowsParent` | crates/mcp-tools/src/flatten.rs:94-113 | the walk is in preorder, no deeper than asked, and every nested node follows its bare parent and carries its name |
| `Flatten.WalkIsExact` | crates/mcp-tools/src/flatten.rs:82-125 | the walk shows no position but those whose top-level name passes the filter, no deeper than asked; without a fetch error all of them, children unfiltered; each with its variable's value and type, the dotted names on the way to it, and its child count exactly if it is a container that is not expanded |
| `Flatten.WalkFailsAsFetched` | crates/mcp-tools/src/flatten.rs:142-144 | the walk fails exactly if it asks for children that cannot be fetched, and with such an error |
| `HexDump.FormatHexDump` | crates/mcp-tools/src/format.rs:21-64 | the nested loops print the rows of the dump |
| `HexDump.FormatColumns` | crates/mcp-tools/src/format.rs:32-41 | sixteen byte columns, blank where the row is short, with a space more before the ninth |
| `HexDump.FormatGutter` | crates/mcp-tools/src/format.rs:44-55 | sixteen characters of gutter |
| `HexDump.RowReads` | crates/mcp-tools/src/format.rs:27-41 | the fixed-width columns of a row decode to its address and bytes |
| `HexDump.DigitShape` | crates/mcp-tools/src/format.rs:34 | hexadecimal digits are lower-case and in their order |
| `HexDump.RowLooks` | crates/mcp-tools/src/format.rs:27-57 | the fixed parts of a row and where they stand |
| `HexDump.GutterShape` | crates/mcp-tools/src/format.rs:44-55 | the gutter shows printable bytes as themselves, others as dots, missing ones as spaces |
| `HexDump.HexDumpRoundTrip` | crates/mcp-tools/src/format.rs:13-64 | decoding gives back the bytes; one row for every 16 begun, labelled start + 16k modulo 2^64; no trailing newline |
| `OutputBuffer.OutputBuffer.Append` | crates/mcp-session/src/output_buffer.rs:44-59 | the buffer holds the longest fitting suffix of what was appended since the last drain, its exact size, and whether that is all |
| `OutputBuffer.OutputBuffer.Evict` | crates/mcp-session/src/output_buffer.rs:54-58 | what is left after evicting is what fits, its size is exact, and the flag is raised exactly if something went |
| `OutputBuffer.OutputBuffer.Drain` | crates/mcp-session/src/output_buffer.rs:65-84 | returns that suffix in order, behind one marker if something was evicted, and starts afresh |
| `OutputBuffer.FittingIsLongest` | crates/mcp-session/src/output_buffer.rs:54-58 | what is held is a suffix that fits in 1 MiB, and a suffix fits exactly if it is no longer |
| `OutputBuffer.FittingExtends` | crates/mcp-session/src/output_buffer.rs:54-58 | earlier evictions make no difference to what is held later |
| `OutputBuffer.Replay` | crates/mcp-session/src/output_buffer.rs:44-84 | any run of appends and drains yields, drain by drain, the longest fitting suffix of its period |
| `OutputBuffer.NothingLost` | crates/mcp-session/src/output_buffer.rs:65-84 | while every period fits, the drains and the rest are exactly what was appended |
| `StderrRing.StderrBuffer.Write` | crates/lldb-backend/src/subprocess.rs:70-87 | the ring holds the last bytes of everything written, whichever branch ran, and reports the full length |
| `StderrRing.LastExtends` | crates/lldb-backend/src/subprocess.rs:75-85 | keeping the tail of a tail and more is keeping the tail of it all |
| `StderrRing.WriteAll` | crates/lldb-backend/src/subprocess.rs:55-87 | after any writes, the last min(capacity, total) bytes; capacity 0 means 4096 |
| `SessionEpoch.EventPump.Handle` | crates/mcp-session/src/pump.rs:30-41 | output is appended, a termination applies only under the captured generation |
| `SessionEpoch.EventPump.Run` | crates/mcp-session/src/pump.rs:30-41 | an undisturbed pump appends all output in order and applies the guarded terminations |
| `SessionEpoch.HandleStopResult` | crates/mcp-tools/src/handlers/execution.rs:208-253 | under the captured generation a stop is cached with its state, an exit records its code if it has one, and an end ends the session; under another one nothing changes; stops and exits drain the output either way |
| `SessionEpoch.ResetSession` | crates/mcp-session/src/manager.rs:169-189 | a whole reset: the record is cleared, the generation moves on, and the output buffer starts afresh |
| `SessionEpoch.GuardPassesExactly` | crates/mcp-session/src/manager.rs:126-133 | the guard lets a worker through exactly when the resets since its capture are a multiple of 2^64 |
| `SessionEpoch.EpochErasure` | crates/mcp-session/src/manager.rs:228-245 | with fewer than 2^64 resets every run equals the run with its stale guarded writes deleted |
| `SessionEpoch.WrappedEpoch` | crates/mcp-session/src/manager.rs:172 | after 2^64 resets, or any other multiple, a stale termination ends a session that is not its own |
| `EventStream.EventStream.Poll` | crates/windbg-backend/src/factory.rs:235-267 | queued output first, under the category of its kind, then the terminal event with the code that is there if a signal fired, then the end; otherwise pending |
| `EventStream.EventStream.PollTerminate` | crates/windbg-backend/src/factory.rs:211-222 | the engine's signal is looked at before the drop |
| `EventStream.StreamShape` | crates/windbg-backend/src/factory.rs:203-269 | on every schedule: the lines sent, in order, at most one terminal event after them, and the end only after that |
| `EventStream.TerminalEventIsLast` | crates/windbg-backend/src/factory.rs:235-267 | the terminal event needs an empty queue and a fired signal, follows everything sent, and prefers the engine's code |
| `EventStream.FirstSignalWins` | crates/windbg-backend/src/factory.rs:208-222 | the terminal event carries the first signal's code if and only if it is not the case that a drop came first and an exit code of the engine followed before the terminating poll |
| `EventStream.LateCodeOvertakesDrop` | crates/windbg-backend/src/factory.rs:208-222 | a drop, then an exit code, then a poll yield that code |
| `EventStream.EndsInTime` | crates/windbg-backend/src/factory.rs:181-194 | once a signal fired and output stops, whatever else fires between the polls, n polls leave max(q - n, 0) of q queued lines, the terminal event comes exactly from poll q + 1 on and the end from poll q + 2 on, closed queue or not |
| `EventStream.NeverEndsUnsignalled` | crates/windbg-backend/src/factory.rs:203-269 | without a signal the stream neither terminates nor ends |

## Left out

- COM calls, process creation, registry and extension loading: DbgEng is a pool and a trace whose calls may fail in any way.
- JSON: frame bodies are opaque bytes, and requests and responses carry only the fields the protocol logic looks at.
- The wording of errors and the shape of tool responses, argument parsing and schemas.
- Time: deadlines and 200 ms slices are cut points that the outside world places.
- Concurrent breakpoint handlers: the handlers are modelled one call at a time; the code does not serialise them.
- Source breakpoints through lldb where the adapter moves the line: the handlers are modelled over the WinDbg backend, which echoes the line.
- Breakpoints changed by `run_command` behind the backend's back, and a changed condition on a location that is already set, which the code does not re-apply.
- Condition bodies: whether a condition evaluates, and to what, is part of the event.
- The crash-dump flag, frame map, program name and pid of the session: no modelled operation depends on them except the refusal to resume a dump, which `WaitLoop.Waiter.Go` has.
- The session writes that check no epoch appear in `SessionEpoch` only as free steps: the running state and its revert, the stop cache under its second lock, the final writes of launch and attach.
- Cancellation of a launch by the client, and failures while connecting beyond "no backend came up".
- Kernel attach, dump opening, backend selection, address parsing, inspection requests.
- Channel sends: a lock section takes the sender out and sends after unlocking; the model treats taking and sending as one step.
- Two callers waiting for `initialized` at once: the later one replaces the earlier, which the code then lets go on; only one handshake runs at a time here.
- BpResultOrContinue: the message of an unverified answer is not stated, because wording is left out.
- ReadMessage: decoding of the body, which can fail for a frame that was read, is left out with JSON.
- NextSeq: numbers are unbounded; the 64-bit wrap after 2^63 requests is not modelled.
- FlattenVariables: fetching is a function of the reference, and the filter a predicate on names; children counts do not wrap at 64 bits.
- HandleLaunch: each launch and attach connects a backend with an empty engine, as the factory does.
- BlockedExactly: it is stated for launch; attach shares the machine and its invariant.
- A disconnect while a launch or attach is under way: the handshakes run with their one caller on a client made for them. Resumed calls are modelled on a client in full use.
- Dump and kernel connections, which connect a backend without flushing just as attach does.
