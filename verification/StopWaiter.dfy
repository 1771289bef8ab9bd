/**
 * The single-slot stop waiter. Each registration gets a channel of its own; a producer fills the
 * channel in the slot, and a new registration drops the sender that is still there.
 */
module StopWaiter {
  import opened Wrappers
  import opened Neutral

  /** A oneshot channel as its receiver sees it. */
  datatype Channel<T> = Open | Delivered(value: T) | Closed

  /** The slot holds the index of a channel whose sender is still alive. */
  datatype Slot = Slot(sender: Option<nat>, channels: seq<Channel<StopOutcome>>)

  const EMPTY := Slot(None, [])

  function Register(s: Slot): Slot {
    var kept := if s.sender.Some? && s.sender.value < |s.channels| then s.channels[s.sender.value := Closed]
        else s.channels;
    Slot(Some(|s.channels|), kept + [Open])
  }

  function Produce(s: Slot, outcome: StopOutcome): Slot {
    if s.sender.Some? && s.sender.value < |s.channels| then
      Slot(None, s.channels[s.sender.value := Delivered(outcome)])
    else s.(sender := None)
  }

  class StopWaiter {
    var slot: Option<nat>
    /** The far ends of all channels handed out, oldest first. */
    ghost var channels: seq<Channel<StopOutcome>>
    var registrations: nat

    ghost predicate Valid()
      reads this
    {
      registrations == |channels| && (slot.Some? ==> slot.value < |channels|)
    }

    ghost function State(): Slot
      reads this
    {
      Slot(slot, channels)
    }

    constructor ()
      ensures Valid() && State() == EMPTY
    {
      slot, channels, registrations := None, [], 0;
    }

    method RegisterWaiter() returns (receiver: nat)
      requires Valid()
      modifies this
      ensures Valid() && State() == Register(old(State())) && receiver == |old(channels)|
    {
      if slot.Some? {
        channels := channels[slot.value := Closed];
      }
      receiver := registrations;
      registrations, channels := registrations + 1, channels + [Open];
      slot := Some(receiver);
    }

    /** The producers: a stop, an exit, or a cancellation. Without a waiter each does nothing. */
    method Send(outcome: StopOutcome)
      requires Valid()
      modifies this
      ensures Valid() && State() == Produce(old(State()), outcome)
    {
      var sender := slot;
      slot := None;
      if sender.Some? {
        channels := channels[sender.value := Delivered(outcome)];
      }
    }
  }

  // --- the law over every interleaving ---

  datatype Op = Registered | Produced(outcome: StopOutcome)

  function Apply(s: Slot, op: Op): Slot {
    match op
    case Registered => Register(s)
    case Produced(outcome) => Produce(s, outcome)
  }

  function Run(ops: seq<Op>): Slot {
    if ops == [] then EMPTY else Apply(Run(ops[..|ops| - 1]), ops[|ops| - 1])
  }

  function Registrations(ops: seq<Op>): nat {
    if ops == [] then 0
    else Registrations(ops[..|ops| - 1]) + if ops[|ops| - 1].Registered? then 1 else 0
  }

  /** What follows the `k`-th registration. */
  function After(ops: seq<Op>, k: nat): seq<Op>
    requires k < Registrations(ops)
  {
    var n := |ops| - 1;
    if k == Registrations(ops[..n]) then [] else After(ops[..n], k) + [ops[n]]
  }

  /** What a receiver must see, by what happened after its registration: whichever came first. */
  function Law(after: seq<Op>): Channel<StopOutcome> {
    if after == [] then Open
    else match after[0]
         case Registered => Closed
         case Produced(outcome) => Delivered(outcome)
  }

  /**
   * Every registration receives exactly the first outcome produced before the next registration,
   * and is closed when it is replaced first.
   */
  lemma {:induction false} TraceLaw(ops: seq<Op>)
    ensures |Run(ops).channels| == Registrations(ops)
    ensures forall k | 0 <= k < Registrations(ops) :: Run(ops).channels[k] == Law(After(ops, k))
    // The slot is armed for the newest registration exactly while nothing has followed it.
    ensures var newest := Registrations(ops) - 1;
            Run(ops).sender == if newest >= 0 && After(ops, newest) == [] then Some(newest) else None
  {
    if ops != [] {
      var n := |ops| - 1;
      TraceLaw(ops[..n]);
      var s, count := Run(ops[..n]), Registrations(ops[..n]);
      forall k | 0 <= k < count
        ensures Run(ops).channels[k] == Law(After(ops, k))
      {
        assert After(ops, k) == After(ops[..n], k) + [ops[n]];
        OnlyNewestIsOpen(ops[..n], k);
      }
    }
  }

  lemma {:induction false} OnlyNewestIsOpen(ops: seq<Op>, k: nat)
    requires k < Registrations(ops)
    ensures After(ops, k) == [] ==> k == Registrations(ops) - 1
  {
  }

  lemma {:induction false} AfterIsSuffix(ops: seq<Op>, k: nat)
    requires k < Registrations(ops)
    ensures |After(ops, k)| < |ops| && After(ops, k) == ops[|ops| - |After(ops, k)|..]
    ensures ops[|ops| - |After(ops, k)| - 1] == Registered
  {
    var n := |ops| - 1;
    if k < Registrations(ops[..n]) {
      AfterIsSuffix(ops[..n], k);
    }
  }

  lemma {:induction false} LaterIsShorter(ops: seq<Op>, j: nat, k: nat)
    requires j < k < Registrations(ops)
    ensures |After(ops, k)| < |After(ops, j)|
  {
    var n := |ops| - 1;
    if k < Registrations(ops[..n]) {
      LaterIsShorter(ops[..n], j, k);
    }
  }

  /** Where in the trace the outcome that registration `k` received was produced. */
  function ReceivedAt(ops: seq<Op>, k: nat): int
    requires k < Registrations(ops)
  {
    |ops| - |After(ops, k)|
  }

  /** No outcome reaches two registrations: what two of them received was produced at two places of the trace. */
  lemma NoOutcomeTwice(ops: seq<Op>, j: nat, k: nat)
    requires j < k < Registrations(ops)
    requires |Run(ops).channels| == Registrations(ops) && Run(ops).channels[j].Delivered? &&
        Run(ops).channels[k].Delivered?
    ensures 0 <= ReceivedAt(ops, j) < ReceivedAt(ops, k) < |ops|
    ensures ops[ReceivedAt(ops, j)] == Produced(Run(ops).channels[j].value)
    ensures ops[ReceivedAt(ops, k)] == Produced(Run(ops).channels[k].value)
  {
    TraceLaw(ops);
    AfterIsSuffix(ops, j);
    AfterIsSuffix(ops, k);
    LaterIsShorter(ops, j, k);
  }

  function Productions(ops: seq<Op>): nat {
    if ops == [] then 0
    else Productions(ops[..|ops| - 1]) + if ops[|ops| - 1].Produced? then 1 else 0
  }

  function Recipients(channels: seq<Channel<StopOutcome>>): set<nat> {
    set k: nat | k < |channels| && channels[k].Delivered?
  }

  /** There are never more recipients than outcomes. */
  lemma {:induction false} OneRecipientPerOutcome(ops: seq<Op>)
    ensures |Recipients(Run(ops).channels)| <= Productions(ops)
  {
    if ops == [] {
      assert Recipients(Run(ops).channels) == {};
    } else {
      var n := |ops| - 1;
      var s := Run(ops[..n]);
      OneRecipientPerOutcome(ops[..n]);
      TraceLaw(ops[..n]);
      OneMoreRecipient(s, ops[n]);
    }
  }

  lemma OneMoreRecipient(s: Slot, op: Op)
    requires s.sender.Some? ==> s.sender.value < |s.channels| && s.channels[s.sender.value] == Open
    ensures |Recipients(Apply(s, op).channels)| <= |Recipients(s.channels)| + if op.Produced? then 1 else 0
  {
    var t := Apply(s, op);
    if s.sender.Some? && op.Produced? {
      assert Recipients(t.channels) == Recipients(s.channels) + {s.sender.value};
    } else {
      assert Recipients(t.channels) == Recipients(s.channels);
    }
  }
}
