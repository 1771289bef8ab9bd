/**
 * What a backend went through since it was connected, as a run of calls, and what that says of its
 * engine when the session above it lists no site twice.
 */
module BackendHistory {
  import opened Wrappers
  import opened DbgEng
  import opened Reconciliation
  import opened BreakpointRuns
  import opened WinDbgBackend
  import opened Session
  import opened Agreement

  const EMPTY := World(map[], {}, map[])

  datatype Record = Record(worlds: seq<World>, events: seq<Event>)

  /** A run from an empty engine, on which only the first call may be the launch flush. */
  ghost predicate IsHistory(h: Record) {
    && Run(h.worlds, h.events)
    && h.worlds[0] == EMPTY
    && forall i | 0 < i < |h.events| :: h.events[i].call.Setter?
  }

  type History = h: Record | IsHistory(h) ghost witness Record([EMPTY], [])

  ghost function Current(h: History): World {
    h.worlds[|h.events|]
  }

  lemma Connected() returns (h: History)
    ensures h.events == [] && Current(h) == EMPTY
  {
    h := Record([EMPTY], []);
  }

  /** `h'` is `h` and one call more, which committed if it was answered. */
  ghost predicate Noted(h: History, call: Call, answered: bool, h': History) {
    && |h'.events| == |h.events| + 1
    && h'.events[..|h.events|] == h.events
    && h'.worlds[..|h.worlds|] == h.worlds
    && h'.events[|h.events|].call == call
    && (answered ==> !h'.events[|h.events|].aborted)
  }

  /** The replace-all call that sends the list a site is on. */
  function Resend(s: Inner, site: Site): Call {
    match site
    case Line(file, _) => Setter(FileScope(file), SourceKeys(file, Listed(s.sourceBps, file)))
    case Name(_) => Setter(FunctionScope, FunctionKeys(s.functionBps))
  }

  // --- no site twice ---

  function KeysOf(call: Call): Keys {
    match call
    case Flush(keys) => keys
    case Setter(_, keys) => keys
  }

  ghost predicate AskedOnce(keys: Keys) {
    forall i, j | 0 <= i < j < |keys| :: keys[i].Some? ==> keys[i] != keys[j]
  }

  /** No call that got as far as the index asked for a location twice. */
  ghost predicate Once(h: History) {
    forall e <- h.events :: e.aborted || AskedOnce(KeysOf(e.call))
  }

  /** No site stands in the session's active lists twice. */
  ghost predicate ListedOnce(s: Inner) {
    forall site :: Multiplicity(s, site) <= 1
  }

  lemma NoteEvent(h: History, e: Event, post: World) returns (h': History)
    requires Stepped(Current(h), e, post) && e.call.Setter?
    ensures Current(h') == post && h'.events == h.events + [e] && h'.worlds == h.worlds + [post]
  {
    var r := Record(h.worlds + [post], h.events + [e]);
    forall i | 0 <= i < |r.events|
      ensures Stepped(r.worlds[i], r.events[i], r.worlds[i + 1])
    {
      assert i < |h.events| ==> Stepped(h.worlds[i], h.events[i], h.worlds[i + 1]);
    }
    h' := r;
  }

  /** One replace-all call more; one that failed and may have aborted counts as aborted. */
  lemma NoteSetter(h: History, scope: Scope, keys: Keys, r: Result<seq<BreakpointResult>, BackendError>,
                   results: seq<BreakpointResult>, attempted: set<int>, kept: set<int>, post: World)
    returns (h': History)
    requires Replaced(Current(h), scope, keys, r, results, attempted, kept, post)
    ensures Current(h') == post && Noted(h, Setter(scope, keys), r.Success?, h')
    ensures Once(h) && (AskedOnce(keys) || (r.Failure? && Aborted(Current(h), scope, keys, post))) ==> Once(h')
  {
    var aborted := r.Failure? && Aborted(Current(h), scope, keys, post);
    h' := NoteEvent(h, Event(Setter(scope, keys), results, attempted, kept, aborted), post);
  }

  /** The launch flush of a backend that was just connected. */
  lemma NoteFlush(keys: Keys, results: seq<BreakpointResult>, post: World) returns (h': History)
    requires Flushed(EMPTY, keys, results, post)
    ensures Current(h') == post && |h'.events| == 1 && h'.events[0].call == Flush(keys)
    ensures AskedOnce(keys) ==> Once(h')
  {
    var e := Event(Flush(keys), results, {}, {}, false);
    assert Stepped(EMPTY, e, post);
    h' := Record([EMPTY, post], [e]);
  }

  // --- what a list asks for ---

  lemma CountedTwice<T>(xs: seq<T>, i: nat, j: nat)
    requires i < j < |xs| && xs[i] == xs[j]
    ensures multiset(xs)[xs[i]] >= 2
  {
    assert xs == xs[..j] + [xs[j]] + xs[j + 1..];
    assert xs[..j][i] == xs[i];
    assert xs[i] in multiset(xs[..j]);
  }

  lemma SourceAskedOnce(file: string, bps: seq<SourceBp>)
    requires forall line :: multiset(LinesOf(bps))[line] <= 1
    ensures AskedOnce(SourceKeys(file, bps))
  {
    var keys := SourceKeys(file, bps);
    forall i, j | 0 <= i < j < |keys| && keys[i].Some?
      ensures keys[i] != keys[j]
    {
      if keys[i] == keys[j] {
        CountedTwice(LinesOf(bps), i, j);
      }
    }
  }

  lemma FunctionsAskedOnce(bps: seq<FunctionBp>)
    requires forall name :: multiset(NamesOf(bps))[name] <= 1
    ensures AskedOnce(FunctionKeys(bps))
  {
    var keys := FunctionKeys(bps);
    forall i, j | 0 <= i < j < |keys| && keys[i].Some?
      ensures keys[i] != keys[j]
    {
      if keys[i] == keys[j] {
        CountedTwice(NamesOf(bps), i, j);
      }
    }
  }

  /** The lists of a session that names no site twice ask for nothing twice. */
  lemma ListAskedOnce(s: Inner, file: string)
    requires ListedOnce(s)
    ensures AskedOnce(SourceKeys(file, Listed(s.sourceBps, file)))
    ensures AskedOnce(FunctionKeys(s.functionBps))
  {
    forall line
      ensures multiset(LinesOf(Listed(s.sourceBps, file)))[line] <= 1
    {
      assert Multiplicity(s, Line(file, line)) <= 1;
    }
    forall name
      ensures multiset(NamesOf(s.functionBps))[name] <= 1
    {
      assert Multiplicity(s, Name(name)) <= 1;
    }
    SourceAskedOnce(file, Listed(s.sourceBps, file));
    FunctionsAskedOnce(s.functionBps);
  }

  /** Nor do the lists that a removal sends. */
  lemma RemainingAskedOnce(s: Inner, tracked: map<BpLoc, BreakpointResult>, id: int)
    requires Agree(s, tracked) && id in s.bpResponses && ListedOnce(s)
    ensures AskedOnce(KeysOf(Resend(RemoveById(s, id), s.bpResponses[id].site)))
  {
    forall site
      ensures Multiplicity(RemoveById(s, id), site) <= 1
    {
      RemoveCounts(s, tracked, id, site);
      assert Multiplicity(s, site) <= 1;
    }
    ListAskedOnce(RemoveById(s, id), match s.bpResponses[id].site case Line(file, _) => file case Name(_) => "");
  }

  /** A rejected name at the end of the list adds nothing that is asked for. */
  lemma RejectionAskedOnce(s: Inner, bp: FunctionBp)
    requires ListedOnce(s) && IsBareAddressName(bp.name)
    ensures AskedOnce(FunctionKeys(s.functionBps + [bp]))
  {
    ListAskedOnce(s, "");
    var keys := FunctionKeys(s.functionBps + [bp]);
    assert keys[..|s.functionBps|] == FunctionKeys(s.functionBps);
    forall i, j | 0 <= i < j < |keys| && keys[i].Some?
      ensures keys[i] != keys[j]
    {
      assert j < |s.functionBps| ==> FunctionKeys(s.functionBps)[i] != FunctionKeys(s.functionBps)[j];
    }
  }

  lemma AskedOnceTogether(a: Keys, b: Keys)
    requires AskedOnce(a) && AskedOnce(b) && forall k <- a :: k.Some? ==> k !in b
    ensures AskedOnce(a + b)
  {
    var keys := a + b;
    forall i, j | 0 <= i < j < |keys| && keys[i].Some?
      ensures keys[i] != keys[j]
    {
      if i < |a| <= j {
        assert keys[i] in a && keys[j] in b;
      }
    }
  }

  /** Lists that ask for no line twice, of files that are all different. */
  lemma {:induction false} FlushAskedOnce(source: seq<(string, seq<SourceBp>)>)
    requires |ByFile(source)| == |source|
    requires forall file, line :: multiset(LinesOf(Listed(ByFile(source), file)))[line] <= 1
    ensures AskedOnce(FlushKeys(source))
  {
    if source != [] {
      var n := |source| - 1;
      var (file, bps) := source[n];
      ByFileSize(source[..n]);
      ByFileGrows(source);
      forall f, line
        ensures multiset(LinesOf(Listed(ByFile(source[..n]), f)))[line] <= 1
      {
        assert f != file ==> Listed(ByFile(source[..n]), f) == Listed(ByFile(source), f);
        assert f == file ==> Listed(ByFile(source[..n]), f) == [];
      }
      FlushAskedOnce(source[..n]);
      assert Listed(ByFile(source), file) == bps;
      SourceAskedOnce(file, bps);
      forall k <- FlushKeys(source[..n]) | k.Some?
        ensures k !in SourceKeys(file, bps)
      {
        FlushedLineIsPending(source[..n], k.value);
        assert k.value.file in ByFile(source[..n]);
        SourceKeyIsListed(file, bps, k.value);
      }
      AskedOnceTogether(FlushKeys(source[..n]), SourceKeys(file, bps));
    }
  }

  /** When the lists that a launch moved end up without a repeat, its flush asks for nothing twice. */
  lemma LaunchAskedOnce(s: Inner, source: seq<(string, seq<SourceBp>)>, functions: seq<FunctionBp>)
    requires ListedOnce(FlushPending(s))
    requires ByFile(source) == s.pendingSourceBps && |source| == |s.pendingSourceBps|
    requires functions == s.pendingFunctionBps
    ensures AskedOnce(FlushKeys(source) + FunctionKeys(functions))
  {
    forall file, line
      ensures multiset(LinesOf(Listed(ByFile(source), file)))[line] <= 1
    {
      FlushCounts(s, Line(file, line));
      assert Multiplicity(FlushPending(s), Line(file, line)) <= 1;
    }
    forall name
      ensures multiset(NamesOf(functions))[name] <= 1
    {
      FlushCounts(s, Name(name));
      assert Multiplicity(FlushPending(s), Name(name)) <= 1;
    }
    FlushAskedOnce(source);
    FunctionsAskedOnce(functions);
    forall k <- FlushKeys(source) | k.Some?
      ensures k !in FunctionKeys(functions)
    {
      FlushedLineIsPending(source, k.value);
      FunctionKeyIsListed(functions, k.value);
    }
    AskedOnceTogether(FlushKeys(source), FunctionKeys(functions));
  }

  // --- exactness ---

  /** The engine did all it was asked in every call, never died, and numbers its breakpoints from 1. */
  ghost predicate Cooperated(h: History) {
    forall i | 0 <= i < |h.events| ::
      && !h.events[i].aborted
      && (forall id <- h.worlds[i].pool :: 0 < id)
      && h.worlds[i + 1].orphans == h.worlds[i].orphans
      && match h.events[i].call
         case Flush(_) => true
         case Setter(scope, keys) =>
           Cooperative(h.worlds[i], scope, keys, h.events[i].attempted, h.events[i].kept, h.worlds[i + 1])
  }

  /** When no call asked for a location twice and the engine cooperated, it holds exactly what is indexed. */
  lemma OnceAgrees(h: History, scope: Scope)
    requires Once(h) && Cooperated(h)
    ensures Sound(Current(h)) && NoLeak(Current(h), scope)
  {
    var n := |h.events|;
    forall k | 0 <= k < n
      ensures Clean(h.worlds[k], h.events[k], h.worlds[k + 1])
    {
      assert h.events[k] in h.events;
      assert h.events[k].aborted || AskedOnce(KeysOf(h.events[k].call));
    }
    EveryRunIsSound(h.worlds, h.events, n);
    CleanRunsAgree(h.worlds, h.events, n, scope);
  }

  /** Breakpoint `id` cannot fire anywhere, or is indexed where it fires, at a site listed once. */
  ghost predicate OnlyListed(s: Inner, w: World, id: int)
    requires id in w.pool
  {
    w.pool[id].enabled && w.pool[id].loc.Some? ==>
      var loc := w.pool[id].loc.value;
      loc in w.tracked && w.tracked[loc].id == id && Multiplicity(s, SiteOf(loc)) == 1
  }

  lemma OnlyListedCanFire(h: History, s: Inner, id: int)
    requires Once(h) && Cooperated(h) && Agree(s, Current(h).tracked) && ListedOnce(s) && id in Current(h).pool
    ensures OnlyListed(s, Current(h), id)
  {
    var w := Current(h);
    if w.pool[id].enabled && w.pool[id].loc.Some? {
      var loc := w.pool[id].loc.value;
      var scope := match loc case FileLine(file, _) => FileScope(file) case Function(_) => FunctionScope;
      OnceAgrees(h, scope);
      assert scope.Covers(loc) && loc in w.tracked;
      assert 0 < Multiplicity(s, SiteOf(loc)) <= 1;
    }
  }
}
