/** The ring that keeps the tail of the adapter's standard error. */
module StderrRing {
  import opened Bytes

  const DEFAULT_STDERR_CAP: nat := 4096

  /** The last `n` bytes, or all of them. */
  function Last(n: nat, s: seq<byte>): (tail: seq<byte>)
    ensures |tail| == if |s| < n then |s| else n
  {
    if |s| <= n then s else s[|s| - n..]
  }

  class StderrBuffer {
    var buf: seq<byte>
    const size: nat
    /** Everything written so far. */
    ghost var written: seq<byte>

    ghost predicate Valid()
      reads this
    {
      size > 0 && buf == Last(size, written)
    }

    constructor (size: nat)
      ensures Valid() && written == [] && this.size == if size == 0 then DEFAULT_STDERR_CAP else size
    {
      this.size := if size == 0 then DEFAULT_STDERR_CAP else size;
      buf, written := [], [];
    }

    /** Never fails, and reports the whole length whatever it keeps. */
    method Write(data: seq<byte>) returns (n: nat)
      requires Valid()
      modifies this
      ensures Valid() && written == old(written) + data && n == |data|
    {
      n := |data|;
      LastExtends(size, written, data);
      written := written + data;
      if |data| >= size {
        buf := data[|data| - size..];
        return;
      }
      buf := buf + data;
      if |buf| > size {
        var excess := |buf| - size;
        buf := buf[excess..];
      }
    }
  }

  lemma LastExtends(n: nat, written: seq<byte>, data: seq<byte>)
    ensures Last(n, Last(n, written) + data) == Last(n, written + data)
    ensures |data| >= n ==> Last(n, written + data) == data[|data| - n..]
  {
  }

  function Joined(writes: seq<seq<byte>>): seq<byte> {
    if writes == [] then [] else Joined(writes[..|writes| - 1]) + writes[|writes| - 1]
  }

  /** Any writes at all, into a ring of any capacity. */
  method WriteAll(size: nat, writes: seq<seq<byte>>) returns (kept: seq<byte>)
    ensures kept == Last(if size == 0 then 4096 else size, Joined(writes))
  {
    var ring := new StderrBuffer(size);
    for i := 0 to |writes|
      invariant fresh(ring) && ring.Valid() && ring.size == (if size == 0 then DEFAULT_STDERR_CAP else size)
      invariant ring.written == Joined(writes[..i])
    {
      assert writes[..i + 1][..i] == writes[..i];
      var _ := ring.Write(writes[i]);
    }
    assert writes[..|writes|] == writes;
    kept := ring.buf;
  }
}
