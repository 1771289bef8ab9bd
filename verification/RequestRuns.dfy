/**
 * Requests and responses under every interleaving: callers that number, register, write, give up
 * or receive, against a read loop that dispatches arbitrary responses and may cancel everything.
 * Each step is one lock section or one write.
 */
module RequestRuns {
  import opened StopWaiter
  import opened DapClient

  /** Where a caller stands. Between numbering and registering its request is in no map. */
  datatype Phase = Numbered | Enrolled | Written | Done

  /** `guarded` is whether an abort guard watches over the entry from its registration on. */
  datatype Request = Request(seq_: nat, guarded: bool, phase: Phase, channel: nat)

  /** The ways an entry leaves the map. */
  datatype How = Answered(response: Response) | RolledBack | Aborted | Cancelled

  /** `past` records, for each sequence number, every time an entry for it was taken out. */
  datatype System = System(shared: Shared, requests: seq<Request>, past: map<nat, seq<How>>)

  datatype Step =
    | Number(guarded: bool)
    | Enroll(i: nat)
    | Write(i: nat, ok: bool)
    | Abandon(i: nat)
    | Receive(i: nat)
    | Respond(response: Response)
    | CancelAll

  const INITIAL := System(NEW, [], map[])

  function Past(y: System, n: nat): seq<How> {
    if n in y.past then y.past[n] else []
  }

  /** Take the entry out if it is there, and say so. */
  function TakeOut(y: System, n: nat, how: How): System {
    if n in y.shared.pending then
      y.(shared := Take(y.shared, n, Verdict(how)), past := y.past[n := Past(y, n) + [how]])
    else y
  }

  function Verdict(how: How): Channel<Reply> {
    match how
    case Answered(response) => Delivered(Answer(response))
    case Cancelled => Delivered(TransportClosed)
    case RolledBack => Closed
    case Aborted => Closed
  }

  function MoveTo(y: System, i: nat, phase: Phase): System
    requires i < |y.requests|
  {
    y.(requests := y.requests[i := y.requests[i].(phase := phase)])
  }

  predicate Enabled(y: System, step: Step) {
    match step
    case Number(_) => true
    case Enroll(i) => i < |y.requests| && y.requests[i].phase == Numbered
    case Write(i, _) => i < |y.requests| && y.requests[i].phase == Enrolled
    // A caller can be dropped while it writes or waits.
    case Abandon(i) => i < |y.requests| && (y.requests[i].phase == Enrolled || y.requests[i].phase == Written)
    case Receive(i) =>
      && i < |y.requests| && y.requests[i].phase == Written
      && y.requests[i].channel < |y.shared.replies| && y.shared.replies[y.requests[i].channel] != Open
    case Respond(_) => true
    case CancelAll => true
  }

  function Next(y: System, step: Step): System
    requires Enabled(y, step)
  {
    match step
    case Number(guarded) =>
      var n := y.shared.seq_ + 1;
      y.(shared := y.shared.(seq_ := n), requests := y.requests + [Request(n, guarded, Numbered, 0)])
    case Enroll(i) =>
      var n := y.requests[i].seq_;
      System(Enter(y.shared, n),
             y.requests[i := y.requests[i].(phase := Enrolled, channel := |y.shared.replies|)],
             if n in y.shared.pending then y.past[n := Past(y, n) + [Aborted]] else y.past)
    case Write(i, ok) =>
      if ok then MoveTo(y, i, Written) else MoveTo(TakeOut(y, y.requests[i].seq_, RolledBack), i, Done)
    case Abandon(i) =>
      // Without a guard a dropped caller leaves its entry behind.
      MoveTo(if y.requests[i].guarded then TakeOut(y, y.requests[i].seq_, Aborted) else y, i, Done)
    case Receive(i) => MoveTo(y, i, Done)
    case Respond(response) =>
      if response.requestSeq >= 0 then TakeOut(y, response.requestSeq, Answered(response)) else y
    case CancelAll =>
      System(Drain(y.shared), y.requests,
             map n | n in y.past.Keys + y.shared.pending.Keys ::
               if n in y.shared.pending then Past(y, n) + [Cancelled] else y.past[n])
  }

  // --- safety ---

  /** What holds of request `i`, numbered `i + 1`. */
  ghost predicate RequestSafe(y: System, i: nat)
    requires i < |y.requests|
  {
    var r := y.requests[i];
    && r.seq_ == i + 1
    && (r.phase == Numbered ==> r.seq_ !in y.shared.pending && Past(y, r.seq_) == [])
    && (r.phase != Numbered ==>
          && r.channel < |y.shared.replies|
          && if r.seq_ in y.shared.pending then
               && y.shared.pending[r.seq_] == r.channel
               && y.shared.replies[r.channel] == Open
               && Past(y, r.seq_) == []
             else
               && |Past(y, r.seq_)| == 1
               && y.shared.replies[r.channel] == Verdict(Past(y, r.seq_)[0])
               && (Past(y, r.seq_)[0].Answered? ==> Past(y, r.seq_)[0].response.requestSeq == r.seq_))
  }

  ghost predicate Safe(y: System) {
    && y.shared.seq_ == |y.requests|
    && (forall n <- y.shared.pending :: 1 <= n <= |y.requests|)
    && (forall n <- y.past :: 1 <= n <= |y.requests|)
    && (forall i: nat | i < |y.requests| :: RequestSafe(y, i))
    && (forall i: nat, j: nat | i < j < |y.requests| && y.requests[i].phase != Numbered &&
        y.requests[j].phase != Numbered ::
          y.requests[i].channel != y.requests[j].channel)
  }

  lemma StepIsSafe(y: System, step: Step)
    requires Safe(y) && Enabled(y, step)
    ensures Safe(Next(y, step))
  {
    match step
    case Number(_) => NumberIsSafe(y, step);
    case Enroll(i) => EnrollIsSafe(y, i);
    case Write(i, ok) =>
      if !ok {
        TakeOutIsSafe(y, y.requests[i].seq_, RolledBack);
        MoveIsSafe(TakeOut(y, y.requests[i].seq_, RolledBack), i, Done);
      } else {
        MoveIsSafe(y, i, Written);
      }
    case Abandon(i) =>
      if y.requests[i].guarded {
        TakeOutIsSafe(y, y.requests[i].seq_, Aborted);
        MoveIsSafe(TakeOut(y, y.requests[i].seq_, Aborted), i, Done);
      } else {
        MoveIsSafe(y, i, Done);
      }
    case Receive(i) => MoveIsSafe(y, i, Done);
    case Respond(response) =>
      if response.requestSeq >= 0 {
        TakeOutIsSafe(y, response.requestSeq, Answered(response));
      }
    case CancelAll => CancelIsSafe(y);
  }

  lemma NumberIsSafe(y: System, step: Step)
    requires Safe(y) && step.Number?
    ensures Safe(Next(y, step))
  {
    var z := Next(y, step);
    forall i: nat | i < |z.requests|
      ensures RequestSafe(z, i)
    {
      assert i < |y.requests| ==> RequestSafe(y, i);
    }
  }

  lemma EnrollIsSafe(y: System, i: nat)
    requires Safe(y) && Enabled(y, Enroll(i))
    ensures Safe(Next(y, Enroll(i)))
  {
    var z := Next(y, Enroll(i));
    assert RequestSafe(y, i);
    forall a: nat, b: nat | a < b < |z.requests| && z.requests[a].phase != Numbered && z.requests[b].phase != Numbered
      ensures z.requests[a].channel != z.requests[b].channel
    {
      assert RequestSafe(y, a) && RequestSafe(y, b);
    }
    forall j: nat | j < |z.requests|
      ensures RequestSafe(z, j)
    {
      assert RequestSafe(y, j);
    }
  }

  lemma MoveIsSafe(y: System, i: nat, phase: Phase)
    requires Safe(y) && i < |y.requests| && y.requests[i].phase != Numbered && phase != Numbered
    ensures Safe(MoveTo(y, i, phase))
  {
    var z := MoveTo(y, i, phase);
    forall j: nat | j < |z.requests|
      ensures RequestSafe(z, j)
    {
      assert RequestSafe(y, j);
    }
  }

  lemma TakeOutIsSafe(y: System, n: nat, how: How)
    requires Safe(y) && (how.Answered? ==> how.response.requestSeq == n)
    ensures Safe(TakeOut(y, n, how))
    ensures TakeOut(y, n, how).requests == y.requests
  {
    var z := TakeOut(y, n, how);
    if n in y.shared.pending {
      assert RequestSafe(y, n - 1);
      forall j: nat | j < |z.requests|
        ensures RequestSafe(z, j)
      {
        assert RequestSafe(y, j);
      }
    }
  }

  lemma CancelIsSafe(y: System)
    requires Safe(y)
    ensures Safe(Next(y, CancelAll))
  {
    var z := Next(y, CancelAll);
    forall j: nat | j < |z.requests|
      ensures RequestSafe(z, j)
    {
      var r := y.requests[j];
      assert RequestSafe(y, j);
      if r.phase != Numbered {
        if r.seq_ in y.shared.pending {
          assert r.channel in y.shared.pending.Values;
        } else {
          forall n <- y.shared.pending
            ensures y.shared.pending[n] != r.channel
          {
            assert RequestSafe(y, n - 1);
          }
        }
      }
    }
  }

  // --- over whole runs ---

  ghost predicate IsRun(systems: seq<System>, steps: seq<Step>) {
    && |systems| == |steps| + 1
    && systems[0] == INITIAL
    && forall k | 0 <= k < |steps| :: Enabled(systems[k], steps[k]) && systems[k + 1] == Next(systems[k], steps[k])
  }

  lemma {:induction false} EveryRunIsSafe(systems: seq<System>, steps: seq<Step>, k: nat)
    requires IsRun(systems, steps) && k < |systems|
    ensures Safe(systems[k])
  {
    if k > 0 {
      EveryRunIsSafe(systems, steps, k - 1);
      StepIsSafe(systems[k - 1], steps[k - 1]);
    }
  }

  datatype Fate = Unregistered | Waiting | Resolved(how: How)

  /**
   * On every run sequence numbers are distinct and start at 1, and each issued one is in exactly
   * one state: not yet registered, pending, or taken out exactly once, by its own response if it
   * was answered; and the channel its caller holds says the same.
   */
  lemma FateOfRequest(systems: seq<System>, steps: seq<Step>, k: nat, i: nat) returns (fate: Fate)
    requires IsRun(systems, steps) && k < |systems| && i < |systems[k].requests|
    ensures systems[k].requests[i].seq_ == i + 1
    ensures var (y, r) := (systems[k], systems[k].requests[i]);
            match fate
            case Unregistered => r.phase == Numbered && r.seq_ !in y.shared.pending && Past(y, r.seq_) == []
            case Waiting =>
              && r.phase != Numbered && r.seq_ in y.shared.pending && Past(y, r.seq_) == []
              && r.channel < |y.shared.replies| && y.shared.replies[r.channel] == Open
            case Resolved(how) =>
              && r.phase != Numbered && r.seq_ !in y.shared.pending && Past(y, r.seq_) == [how]
              && r.channel < |y.shared.replies| && y.shared.replies[r.channel] == Verdict(how)
              && (how.Answered? ==> how.response.requestSeq == r.seq_)
  {
    EveryRunIsSafe(systems, steps, k);
    var (y, r) := (systems[k], systems[k].requests[i]);
    assert RequestSafe(y, i);
    if r.phase == Numbered {
      return Unregistered;
    }
    if r.seq_ in y.shared.pending {
      return Waiting;
    }
    assert Past(y, r.seq_) == [Past(y, r.seq_)[0]];
    return Resolved(Past(y, r.seq_)[0]);
  }

  /** Once registered and resolved, a request is never pending again and its past never grows. */
  lemma ResolvedForGood(systems: seq<System>, steps: seq<Step>, k: nat, m: nat, i: nat)
    requires IsRun(systems, steps) && k <= m < |systems| && i < |systems[k].requests|
    requires systems[k].requests[i].phase != Numbered && i + 1 !in systems[k].shared.pending
    ensures i < |systems[m].requests| && systems[m].requests[i].phase != Numbered
    ensures i + 1 !in systems[m].shared.pending && Past(systems[m], i + 1) == Past(systems[k], i + 1)
  {
    var past := Past(systems[k], i + 1);
    var flags := seq(|systems|, j requires 0 <= j < |systems| => ResolvedAs(systems[j], i, past));
    forall j | 0 <= j < |flags| - 1 && flags[j]
      ensures flags[j + 1]
    {
      ResolvedOneMore(systems, steps, j, i);
    }
    StaysTrue(flags, k, m);
  }

  /** Request `i` was registered, is not pending, and has been resolved as `past` says. */
  predicate ResolvedAs(y: System, i: nat, past: seq<How>) {
    && i < |y.requests| && y.requests[i].phase != Numbered
    && i + 1 !in y.shared.pending && Past(y, i + 1) == past
  }

  lemma {:induction false} StaysTrue(flags: seq<bool>, k: nat, m: nat)
    requires forall j | 0 <= j < |flags| - 1 :: flags[j] ==> flags[j + 1]
    requires k <= m < |flags| && flags[k]
    ensures flags[m]
    decreases m - k
  {
    if k < m {
      StaysTrue(flags, k, m - 1);
    }
  }

  lemma ResolvedOneMore(systems: seq<System>, steps: seq<Step>, k: nat, i: nat)
    requires IsRun(systems, steps) && k < |steps| && i < |systems[k].requests|
    requires systems[k].requests[i].phase != Numbered && i + 1 !in systems[k].shared.pending
    ensures i < |systems[k + 1].requests| && systems[k + 1].requests[i].phase != Numbered
    ensures i + 1 !in systems[k + 1].shared.pending && Past(systems[k + 1], i + 1) == Past(systems[k], i + 1)
  {
    EveryRunIsSafe(systems, steps, k);
    ResolvedStays(systems[k], steps[k], i);
  }

  lemma ResolvedStays(y: System, step: Step, i: nat)
    requires Safe(y) && Enabled(y, step) && i < |y.requests|
    requires y.requests[i].phase != Numbered && i + 1 !in y.shared.pending
    ensures i < |Next(y, step).requests| && Next(y, step).requests[i].phase != Numbered
    ensures i + 1 !in Next(y, step).shared.pending && Past(Next(y, step), i + 1) == Past(y, i + 1)
  {
    if step.Enroll? {
      assert RequestSafe(y, step.i) && RequestSafe(y, i);
    }
  }

  /** Cancelling leaves no request that was registered before it pending, then or ever after. */
  lemma CancelReleasesAll(systems: seq<System>, steps: seq<Step>, k: nat, m: nat, i: nat)
    requires IsRun(systems, steps) && k < |steps| && steps[k] == CancelAll && k < m < |systems|
    requires i < |systems[k].requests| && systems[k].requests[i].phase != Numbered
    ensures i + 1 !in systems[m].shared.pending
    ensures |Past(systems[m], i + 1)| == 1
  {
    EveryRunIsSafe(systems, steps, k + 1);
    assert RequestSafe(systems[k + 1], i);
    ResolvedForGood(systems, steps, k + 1, m, i);
  }
}
