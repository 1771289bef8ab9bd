/** The session's output buffer: oldest entries go first once the total exceeds the cap. */
module OutputBuffer {
  import opened Bytes

  const MAX_SIZE: nat := 1_048_576

  datatype OutputEntry = OutputEntry(category: seq<byte>, text: seq<byte>)

  const MARKER := OutputEntry(Ascii("console"), Ascii("[output truncated]"))

  function SizeOf(e: OutputEntry): nat {
    |e.category| + |e.text|
  }

  function Total(entries: seq<OutputEntry>): nat {
    if entries == [] then 0 else SizeOf(entries[0]) + Total(entries[1..])
  }

  lemma {:induction false} TotalAdds(a: seq<OutputEntry>, b: seq<OutputEntry>)
    ensures Total(a + b) == Total(a) + Total(b)
  {
    if a == [] {
      assert a + b == b;
    } else {
      TotalAdds(a[1..], b);
      assert (a + b)[1..] == a[1..] + b;
    }
  }

  datatype Buffered = Buffered(entries: seq<OutputEntry>, size: nat, truncated: bool)

  class OutputBuffer {
    var entries: seq<OutputEntry>
    var size: nat
    var truncated: bool
    /** Everything appended since the last drain. */
    ghost var since: seq<OutputEntry>

    /** The buffer holds the longest suffix that fits, knows its exact size, and whether that is all. */
    ghost predicate Valid()
      reads this
    {
      Buffered(entries, size, truncated) == Held(since)
    }

    constructor ()
      ensures Valid() && since == []
    {
      entries, size, truncated, since := [], 0, false, [];
    }

    /** Append, then evict from the front while over the cap. */
    method Append(category: seq<byte>, text: seq<byte>)
      requires Valid()
      modifies this
      ensures Valid() && since == old(since) + [OutputEntry(category, text)]
    {
      ghost var e := OutputEntry(category, text);
      TotalAdds(entries, [e]);
      FittingExtends(since, e);
      CutGrows(since, e);
      since := since + [e];
      entries := entries + [OutputEntry(category, text)];
      size := size + (|category| + |text|);
      Evict();
    }

    method Evict()
      requires size == Total(entries)
      modifies this`entries, this`size, this`truncated
      ensures entries == Fitting(old(entries)) && size == Total(entries)
      ensures truncated == (old(truncated) || |entries| < |old(entries)|)
    {
      while size > MAX_SIZE && entries != []
        invariant size == Total(entries) && |entries| <= |old(entries)|
        invariant Fitting(entries) == Fitting(old(entries))
        invariant truncated == (old(truncated) || |entries| < |old(entries)|)
      {
        var dropped := entries[0];
        entries := entries[1..];
        size := size - (|dropped.category| + |dropped.text|);
        truncated := true;
      }
    }

    /** Hand over everything and start afresh; an eviction since the last drain shows as one marker in front. */
    method Drain() returns (result: seq<OutputEntry>)
      requires Valid()
      modifies this
      ensures Valid() && since == []
      ensures result == Drained(old(since))
      // The marker stands in front, exactly if something was evicted; behind it is what is left, as it came.
      ensures Total(old(since)) <= 1_048_576 ==> result == old(since)
      ensures Total(old(since)) > 1_048_576 ==>
                && 0 < |result| <= |old(since)|
                && result[0] == OutputEntry(Ascii("console"), Ascii("[output truncated]"))
                && result[1..] == old(since)[|old(since)| - (|result| - 1)..]
    {
      CutIsShorter(since);
      FittingIsSuffix(since);
      if entries == [] && !truncated {
        since := [];
        return [];
      }
      result := [];
      if truncated {
        result := [MARKER];
        truncated := false;
      }
      result := result + entries;
      entries, size, since := [], 0, [];
    }
  }

  /** Drop from the front until the rest fits. */
  function Fitting(all: seq<OutputEntry>): seq<OutputEntry> {
    if Total(all) <= MAX_SIZE then all else Fitting(all[1..])
  }

  /** The buffer's state, told by what was appended since the last drain. */
  function Held(since: seq<OutputEntry>): Buffered {
    Buffered(Fitting(since), Total(Fitting(since)), Fitting(since) != since)
  }

  function Drained(since: seq<OutputEntry>): seq<OutputEntry> {
    (if Fitting(since) != since then [MARKER] else []) + Fitting(since)
  }

  lemma {:induction false} FittingIsSuffix(all: seq<OutputEntry>)
    ensures |Fitting(all)| <= |all| && Fitting(all) == all[|all| - |Fitting(all)|..]
    ensures Total(Fitting(all)) <= MAX_SIZE
  {
    if Total(all) > MAX_SIZE {
      FittingIsSuffix(all[1..]);
    }
  }

  /** It is the longest suffix that fits: a suffix fits exactly if it is no longer. */
  lemma {:induction false} FittingIsLongest(all: seq<OutputEntry>, k: nat)
    requires k <= |all|
    ensures |Fitting(all)| <= |all| && Fitting(all) == all[|all| - |Fitting(all)|..]
    ensures Total(all[k..]) <= 1_048_576 <==> |all| - k <= |Fitting(all)|
  {
    FittingIsSuffix(all);
    TotalAdds(all[..k], all[k..]);
    assert all[..k] + all[k..] == all;
    if Total(all) > MAX_SIZE {
      if k > 0 {
        FittingIsLongest(all[1..], k - 1);
        assert all[1..][k - 1..] == all[k..];
      } else {
        FittingIsSuffix(all[1..]);
      }
    }
  }

  /** What was evicted before makes no difference to what fits afterwards. */
  lemma {:induction false} FittingExtends(since: seq<OutputEntry>, e: OutputEntry)
    ensures Fitting(Fitting(since) + [e]) == Fitting(since + [e])
  {
    if Total(since) > MAX_SIZE {
      FittingExtends(since[1..], e);
      TotalAdds(since, [e]);
      assert (since + [e])[1..] == since[1..] + [e];
    }
  }

  /** Something is missing afterwards if it was before, or if appending evicted something. */
  lemma CutGrows(since: seq<OutputEntry>, e: OutputEntry)
    ensures Fitting(since + [e]) != since + [e] <==>
            Fitting(since) != since || |Fitting(since + [e])| < |Fitting(since) + [e]|
  {
    CutIsShorter(since);
    CutIsShorter(since + [e]);
    FittingExtends(since, e);
    CutIsShorter(Fitting(since) + [e]);
  }

  /** What fits is everything exactly when it is as long. */
  lemma CutIsShorter(all: seq<OutputEntry>)
    ensures |Fitting(all)| <= |all| && (Fitting(all) != all <==> |Fitting(all)| < |all|)
  {
    FittingIsSuffix(all);
  }

  // --- whole runs ---

  datatype Op = Append(entry: OutputEntry) | Drain

  /** What was appended after the last drain. */
  function Since(ops: seq<Op>): seq<OutputEntry> {
    if ops == [] then []
    else
      match ops[|ops| - 1]
      case Append(entry) => Since(ops[..|ops| - 1]) + [entry]
      case Drain => []
  }

  /** Run the operations on a new buffer, with what the drains returned joined up. */
  method Replay(ops: seq<Op>) returns (buffer: OutputBuffer, out: seq<OutputEntry>)
    ensures buffer.Valid() && buffer.since == Since(ops)
    ensures out == AllDrained(ops)
  {
    buffer := new OutputBuffer();
    out := [];
    for n := 0 to |ops|
      invariant fresh(buffer) && buffer.Valid() && buffer.since == Since(ops[..n])
      invariant out == AllDrained(ops[..n])
    {
      assert ops[..n + 1][..n] == ops[..n];
      match ops[n]
      case Append(entry) => buffer.Append(entry.category, entry.text);
      case Drain =>
        var part := buffer.Drain();
        out := out + part;
    }
    assert ops[..|ops|] == ops;
  }

  function AllDrained(ops: seq<Op>): seq<OutputEntry> {
    if ops == [] then []
    else
      var before := AllDrained(ops[..|ops| - 1]);
      if ops[|ops| - 1].Drain? then before + Drained(Since(ops[..|ops| - 1])) else before
  }

  function Appended(ops: seq<Op>): seq<OutputEntry> {
    if ops == [] then []
    else
      match ops[|ops| - 1]
      case Append(entry) => Appended(ops[..|ops| - 1]) + [entry]
      case Drain => Appended(ops[..|ops| - 1])
  }

  /** As long as everything between two drains fits, nothing is lost, reordered or marked. */
  lemma {:induction false} NothingLost(ops: seq<Op>)
    requires forall n | 0 <= n <= |ops| :: Total(Since(ops[..n])) <= MAX_SIZE
    ensures AllDrained(ops) + Since(ops) == Appended(ops)
  {
    assert ops[..|ops|] == ops;
    if ops != [] {
      var n := |ops| - 1;
      forall k | 0 <= k <= n
        ensures Total(Since(ops[..n][..k])) <= MAX_SIZE
      {
        assert ops[..n][..k] == ops[..k];
      }
      NothingLost(ops[..n]);
      assert Total(Since(ops[..n])) <= MAX_SIZE;
    }
  }
}
