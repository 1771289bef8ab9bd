/**
 * The DAP client's shared state: sequence numbers, the map of pending requests with their reply
 * channels, and the `initialized` latch. Each method is one lock section.
 */
module DapClient {
  import opened StopWaiter

  datatype Response = Response(requestSeq: int, command: string, success: bool)

  /** What a waiting caller receives: its response, or the news that the transport is closed. */
  datatype Reply = Answer(response: Response) | TransportClosed

  datatype Shared = Shared(seq_: nat, pending: map<nat, nat>, replies: seq<Channel<Reply>>, initialized: bool)

  const NEW := Shared(0, map[], [], false)

  /** Take the entry of a request out of the map and do `fate` to its channel. */
  function Take(s: Shared, seq_: nat, fate: Channel<Reply>): Shared {
    if seq_ in s.pending && s.pending[seq_] < |s.replies| then
      s.(pending := s.pending - {seq_}, replies := s.replies[s.pending[seq_] := fate])
    else s
  }

  /** A fresh channel for a request; an entry it replaced would lose its sender. */
  function Enter(s: Shared, seq_: nat): Shared {
    var t := Take(s, seq_, Closed);
    t.(pending := t.pending[seq_ := |t.replies|], replies := t.replies + [Open])
  }

  function Dispatch(s: Shared, response: Response): Shared {
    if response.requestSeq >= 0 then Take(s, response.requestSeq, Delivered(Answer(response))) else s
  }

  function Drain(s: Shared): Shared {
    s.(pending := map[],
       replies := seq(|s.replies|, c requires 0 <= c < |s.replies| =>
         if c in s.pending.Values then Delivered(TransportClosed) else s.replies[c]))
  }

  class Client {
    var seq_: nat
    var pending: map<nat, nat>
    /** The far ends of all reply channels, oldest first. */
    ghost var replies: seq<Channel<Reply>>
    var channels: nat
    var initialized: bool

    ghost predicate Valid()
      reads this
    {
      channels == |replies| && forall q <- pending :: pending[q] < |replies|
    }

    ghost function State(): Shared
      reads this
    {
      Shared(seq_, pending, replies, initialized)
    }

    constructor ()
      ensures Valid() && State() == NEW
    {
      seq_, pending, replies, channels, initialized := 0, map[], [], 0, false;
    }

    /** Pre-increment: the first number handed out is 1. */
    method NextSeq() returns (n: nat)
      requires Valid()
      modifies this
      ensures Valid() && n == old(seq_) + 1 && State() == old(State()).(seq_ := n)
    {
      seq_ := seq_ + 1;
      n := seq_;
    }

    method RegisterPending(n: nat) returns (receiver: nat)
      requires Valid()
      modifies this
      ensures Valid() && State() == Enter(old(State()), n) && receiver == pending[n]
    {
      if n in pending {
        replies := replies[pending[n] := Closed];
      }
      receiver := channels;
      channels, replies := channels + 1, replies + [Open];
      pending := pending[n := receiver];
    }

    /** Idempotent: used by the abort guard and by the roll-back of a failed write. */
    method RemovePending(n: nat)
      requires Valid()
      modifies this
      ensures Valid() && State() == Take(old(State()), n, Closed)
    {
      if n in pending {
        replies := replies[pending[n] := Closed];
        pending := pending - {n};
      }
    }

    /** Hand a response to whoever waits for it; nobody waiting is not an error. */
    method DispatchResponse(response: Response) returns (delivered: bool)
      requires Valid()
      modifies this
      ensures Valid() && State() == Dispatch(old(State()), response)
      ensures delivered <==> response.requestSeq >= 0 && response.requestSeq in old(pending)
    {
      if response.requestSeq < 0 || response.requestSeq !in pending {
        return false;
      }
      var n: nat := response.requestSeq;
      replies := replies[pending[n] := Delivered(Answer(response))];
      pending := pending - {n};
      return true;
    }

    /** Fail every pending request; the order in which the entries are drained does not show. */
    method CancelAllPending()
      requires Valid()
      modifies this
      ensures Valid() && State() == Drain(old(State()))
    {
      var drained := pending.Values;
      pending := map[];
      ghost var was := replies;
      while drained != {}
        invariant Valid() && pending == map[] && |replies| == |was|
        invariant seq_ == old(seq_) && initialized == old(initialized)
        invariant drained <= old(pending).Values
        invariant forall c | 0 <= c < |was| ::
                    replies[c] == if c in old(pending).Values && c !in drained then Delivered(TransportClosed)
                        else was[c]
        decreases drained
      {
        var c :| c in drained;
        drained := drained - {c};
        replies := replies[c := Delivered(TransportClosed)];
      }
    }

    /** A latch: a second signal changes nothing. */
    method SignalInitialized()
      requires Valid()
      modifies this
      ensures Valid() && State() == old(State()).(initialized := true)
    {
      initialized := true;
    }
  }
}
