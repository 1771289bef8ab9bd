/** The stop and launch outcomes every backend translates to. */
module Neutral {
  import opened Bytes
  import opened Wrappers

  datatype StopInfo = StopInfo(reason: string, threadId: int, description: string, hitBreakpointIds: seq<int>)

  datatype StopOutcome = Stopped(info: StopInfo) | Exited(code: Option<int>) | Terminated

  datatype BackendEvent = ProgramOutput(category: seq<byte>, text: seq<byte>) | SessionEnded(code: Option<int>)

  datatype LaunchOutcome = LaunchStopped(info: StopInfo) | LaunchRunning | LaunchExited(code: Option<int>)

  datatype AttachOutcome = AttachStopped(info: StopInfo) | AttachExited(code: Option<int>) | AttachTerminated

  function ToAttach(outcome: StopOutcome): AttachOutcome {
    match outcome
    case Stopped(info) => AttachStopped(info)
    case Exited(code) => AttachExited(code)
    case Terminated => AttachTerminated
  }

  /** A session that ends while launching counts as exited, with whatever code is known. */
  function ToLaunch(outcome: StopOutcome): LaunchOutcome {
    match outcome
    case Stopped(info) => LaunchStopped(info)
    case Exited(code) => LaunchExited(code)
    case Terminated => LaunchExited(None)
  }
}
