/** How the session's breakpoint lists, its recorded responses and the backend's index agree. */
module Agreement {
  import opened Wrappers
  import opened DbgEng
  import opened Reconciliation
  import opened WinDbgBackend
  import opened Session

  function SiteOf(loc: BpLoc): Site {
    match loc
    case FileLine(file, line) => Line(file, line)
    case Function(name) => Name(name)
  }

  /** How often the active lists ask for a site. */
  function Multiplicity(s: Inner, site: Site): nat {
    match site
    case Line(file, line) => multiset(LinesOf(Listed(s.sourceBps, file)))[line]
    case Name(name) => multiset(NamesOf(s.functionBps))[name]
  }

  /** The ids recorded for a site. */
  function Recorded(s: Inner, site: Site): set<int> {
    set id | id in s.bpResponses && s.bpResponses[id].site == site
  }

  ghost predicate Agree(s: Inner, tracked: map<BpLoc, BreakpointResult>) {
    && (forall loc <- tracked :: Multiplicity(s, SiteOf(loc)) > 0)
    && (forall site :: |Recorded(s, site)| <= Multiplicity(s, site))
  }

  /** A recorded breakpoint always has an entry in the list it will be removed from. */
  lemma RemovalFindsItsEntry(s: Inner, tracked: map<BpLoc, BreakpointResult>, id: int)
    requires Agree(s, tracked) && id in s.bpResponses
    ensures match s.bpResponses[id].site
            case Line(file, line) => file in s.sourceBps && Position(LinesOf(s.sourceBps[file]), line).Some?
            case Name(name) => Position(NamesOf(s.functionBps), name).Some?
  {
    var site := s.bpResponses[id].site;
    assert id in Recorded(s, site);
    assert Multiplicity(s, site) > 0;
  }

  /** Committing a set keeps the agreement: one entry and at most one response more at its site. */
  lemma SetKeepsAgree(s: Inner, tracked: map<BpLoc, BreakpointResult>, s': Inner, info: BreakpointInfo,
                      tracked': map<BpLoc, BreakpointResult>)
    requires Agree(s, tracked)
    requires forall site :: Multiplicity(s', site) == Multiplicity(s, site) + if site == info.site then 1 else 0
    requires s'.bpResponses == s.bpResponses[info.id := info]
    requires forall loc <- tracked' :: loc in tracked || Multiplicity(s', SiteOf(loc)) > 0
    ensures Agree(s', tracked')
  {
    forall site
      ensures |Recorded(s', site)| <= Multiplicity(s', site)
    {
      RecordOne(s, s', info, site);
    }
  }

  lemma RecordOne(s: Inner, s': Inner, info: BreakpointInfo, site: Site)
    requires s'.bpResponses == s.bpResponses[info.id := info]
    ensures |Recorded(s', site)| <= |Recorded(s, site)| + if site == info.site then 1 else 0
  {
    if site == info.site {
      assert Recorded(s', site) == Recorded(s, site) + {info.id};
    } else {
      SubsetSize(Recorded(s', site), Recorded(s, site));
    }
  }

  lemma SubsetSize<T>(a: set<T>, b: set<T>)
    requires a <= b
    ensures |a| <= |b|
  {
    assert b == a + (b - a);
  }

  lemma AddSourceCounts(s: Inner, file: string, bp: SourceBp)
    ensures forall site :: Multiplicity(AddSource(s, file, bp), site) ==
                           Multiplicity(s, site) + if site == Line(file, bp.line) then 1 else 0
  {
    assert LinesOf(Listed(s.sourceBps, file) + [bp]) == LinesOf(Listed(s.sourceBps, file)) + [bp.line];
  }

  lemma AddFunctionCounts(s: Inner, bp: FunctionBp)
    ensures forall site :: Multiplicity(AddFunction(s, bp), site) ==
                           Multiplicity(s, site) + if site == Name(bp.name) then 1 else 0
  {
    assert NamesOf(s.functionBps + [bp]) == NamesOf(s.functionBps) + [bp.name];
  }

  lemma WithoutFirstCounts<K>(keys: seq<K>, x: K)
    requires x in keys
    ensures multiset(WithoutFirst(keys, keys, x)) == multiset(keys) - multiset{x}
  {
    var p := Position(keys, x).value;
    assert keys == keys[..p] + [x] + keys[p + 1..];
  }

  /** Removing one recorded breakpoint takes exactly one entry from its site. */
  lemma RemoveCounts(s: Inner, tracked: map<BpLoc, BreakpointResult>, id: int, site: Site)
    requires Agree(s, tracked) && id in s.bpResponses
    ensures Multiplicity(RemoveById(s, id), site) ==
            Multiplicity(s, site) - if site == s.bpResponses[id].site then 1 else 0
  {
    RemovalFindsItsEntry(s, tracked, id);
    match s.bpResponses[id].site
    case Line(file, line) => RemoveAtLine(s, id, site, file, line);
    case Name(name) => RemoveAtName(s, id, site, name);
  }

  lemma RemoveAtLine(s: Inner, id: int, site: Site, file: string, line: int)
    requires id in s.bpResponses && s.bpResponses[id].site == Line(file, line)
    requires file in s.sourceBps && line in LinesOf(s.sourceBps[file])
    ensures Multiplicity(RemoveById(s, id), site) == Multiplicity(s, site) - if site == Line(file, line) then 1 else 0
  {
    RemoveLineCounts(s.sourceBps[file], line);
  }

  lemma RemoveAtName(s: Inner, id: int, site: Site, name: string)
    requires id in s.bpResponses && s.bpResponses[id].site == Name(name) && name in NamesOf(s.functionBps)
    ensures Multiplicity(RemoveById(s, id), site) == Multiplicity(s, site) - if site == Name(name) then 1 else 0
  {
    RemoveNameCounts(s.functionBps, name);
  }

  lemma RemoveLineCounts(bps: seq<SourceBp>, line: int)
    requires line in LinesOf(bps)
    ensures multiset(LinesOf(WithoutFirst(bps, LinesOf(bps), line))) == multiset(LinesOf(bps)) - multiset{line}
  {
    WithoutFirstCounts(LinesOf(bps), line);
    assert LinesOf(WithoutFirst(bps, LinesOf(bps), line)) == WithoutFirst(LinesOf(bps), LinesOf(bps), line);
  }

  lemma RemoveNameCounts(bps: seq<FunctionBp>, name: string)
    requires name in NamesOf(bps)
    ensures multiset(NamesOf(WithoutFirst(bps, NamesOf(bps), name))) == multiset(NamesOf(bps)) - multiset{name}
  {
    WithoutFirstCounts(NamesOf(bps), name);
    assert NamesOf(WithoutFirst(bps, NamesOf(bps), name)) == WithoutFirst(NamesOf(bps), NamesOf(bps), name);
  }

  /** A committed removal keeps the agreement when the backend indexes nothing the shorter list lacks. */
  lemma RemoveKeepsAgree(s: Inner, tracked: map<BpLoc, BreakpointResult>, id: int,
                         tracked': map<BpLoc, BreakpointResult>)
    requires Agree(s, tracked) && id in s.bpResponses
    requires forall loc <- tracked' :: Multiplicity(RemoveById(s, id), SiteOf(loc)) > 0
    ensures Agree(RemoveById(s, id), tracked')
  {
    forall site
      ensures |Recorded(RemoveById(s, id), site)| <= Multiplicity(RemoveById(s, id), site)
    {
      RemoveCounts(s, tracked, id, site);
      assert Recorded(RemoveById(s, id), site) == Recorded(s, site) - {id};
    }
  }

  /** Flushing the pending lists only adds entries. */
  lemma FlushCounts(s: Inner, site: Site)
    ensures Multiplicity(FlushPending(s), site) ==
            Multiplicity(s, site) + match site
                                    case Line(file, line) => multiset(LinesOf(Listed(s.pendingSourceBps, file)))[line]
                                    case Name(name) => multiset(NamesOf(s.pendingFunctionBps))[name]
  {
    match site
    case Line(file, line) =>
      var (old_, new_) := (Listed(s.sourceBps, file), Listed(s.pendingSourceBps, file));
      assert LinesOf(old_ + new_) == LinesOf(old_) + LinesOf(new_);
    case Name(name) =>
      assert NamesOf(s.functionBps + s.pendingFunctionBps) == NamesOf(s.functionBps) + NamesOf(s.pendingFunctionBps);
  }

  lemma {:induction false} FlushedLineIsPending(source: seq<(string, seq<SourceBp>)>, loc: BpLoc)
    requires Some(loc) in FlushKeys(source) && |ByFile(source)| == |source|
    ensures loc.FileLine? && loc.line in LinesOf(Listed(ByFile(source), loc.file))
  {
    var n := |source| - 1;
    ByFileSize(source[..n]);
    ByFileGrows(source);
    if Some(loc) in FlushKeys(source[..n]) {
      FlushedLineIsPending(source[..n], loc);
    } else {
      var i :| 0 <= i < |source[n].1| && SourceKeys(source[n].0, source[n].1)[i] == Some(loc);
      assert LinesOf(source[n].1)[i] == loc.line;
    }
  }

  /** And nothing that is pending is left out: each entry is asked for, with its own condition. */
  lemma {:induction false} PendingLineIsFlushed(source: seq<(string, seq<SourceBp>)>, k: nat, i: nat)
    requires k < |source| && i < |source[k].1|
    ensures |FlushTexts(source)| == |FlushKeys(source)|
    ensures exists j :: 0 <= j < |FlushKeys(source)|
                        && FlushKeys(source)[j] == SourceKey(source[k].0, source[k].1[i].line)
                        && FlushTexts(source)[j] == source[k].1[i].condition
  {
    var n := |source| - 1;
    FlushLengths(source[..n]);
    if k < n {
      PendingLineIsFlushed(source[..n], k, i);
      var j :| 0 <= j < |FlushKeys(source[..n])|
               && FlushKeys(source[..n])[j] == SourceKey(source[k].0, source[k].1[i].line)
               && FlushTexts(source[..n])[j] == source[k].1[i].condition;
      assert FlushKeys(source)[j] == FlushKeys(source[..n])[j] && FlushTexts(source)[j] == FlushTexts(source[..n])[j];
    } else {
      var j := |FlushKeys(source[..n])| + i;
      assert FlushKeys(source)[j] == SourceKeys(source[n].0, source[n].1)[i];
      assert FlushTexts(source)[j] == SourceTexts(source[n].1)[i];
    }
  }

  lemma {:induction false} FlushLengths(source: seq<(string, seq<SourceBp>)>)
    ensures |FlushTexts(source)| == |FlushKeys(source)|
  {
    if source != [] {
      FlushLengths(source[..|source| - 1]);
    }
  }

  /** By file: a launch asks for exactly the pending lines that a breakpoint can be set at. */
  lemma {:induction false} FlushAsksForPending(source: seq<(string, seq<SourceBp>)>, file: string, line: u32)
    requires |ByFile(source)| == |source|
    ensures Some(FileLine(file, line)) in FlushKeys(source) <==> line in LinesOf(Listed(ByFile(source), file))
  {
    if Some(FileLine(file, line)) in FlushKeys(source) {
      FlushedLineIsPending(source, FileLine(file, line));
    }
    if line in LinesOf(Listed(ByFile(source), file)) {
      var k := FileIsInSource(source, file);
      var i :| 0 <= i < |source[k].1| && LinesOf(source[k].1)[i] == line;
      PendingLineIsFlushed(source, k, i);
    }
  }

  lemma {:induction false} FileIsInSource(source: seq<(string, seq<SourceBp>)>, file: string) returns (k: nat)
    requires file in ByFile(source)
    ensures k < |source| && source[k] == (file, ByFile(source)[file])
  {
    var n := |source| - 1;
    if source[n].0 == file {
      k := n;
    } else {
      k := FileIsInSource(source[..n], file);
    }
  }

  lemma ByFileGrows(source: seq<(string, seq<SourceBp>)>)
    requires source != []
    ensures var (n, earlier) := (|source| - 1, ByFile(source[..|source| - 1]));
            |ByFile(source)| == |earlier| + if source[n].0 in earlier then 0 else 1
  {
    var n := |source| - 1;
    assert ByFile(source).Keys == ByFile(source[..n]).Keys + {source[n].0};
  }

  lemma ByFileSize(source: seq<(string, seq<SourceBp>)>)
    ensures |ByFile(source)| <= |source|
  {
    if source != [] {
      ByFileSize(source[..|source| - 1]);
      ByFileGrows(source);
    }
  }

  /** A launch flush on a fresh backend agrees with the session that handed out its lists. */
  lemma FlushAgrees(s: Inner, source: seq<(string, seq<SourceBp>)>, functions: seq<FunctionBp>,
                    pre: World, results: seq<BreakpointResult>, post: World)
    requires Agree(s, map[]) && pre.tracked == map[]
    requires ByFile(source) == s.pendingSourceBps && |source| == |s.pendingSourceBps|
    requires functions == s.pendingFunctionBps
    requires Flushed(pre, FlushKeys(source) + FunctionKeys(functions), results, post)
    ensures Agree(FlushPending(s), post.tracked)
  {
    forall site
      ensures |Recorded(FlushPending(s), site)| <= Multiplicity(FlushPending(s), site)
    {
      FlushKeepsRecorded(s, site);
    }
    var keys := FlushKeys(source) + FunctionKeys(functions);
    forall loc <- post.tracked
      ensures Multiplicity(FlushPending(s), SiteOf(loc)) > 0
    {
      FlushedWasRequested(pre, keys, results, post, loc);
      FlushedIsListed(s, source, functions, loc);
    }
  }

  lemma FlushedWasRequested(pre: World, keys: Keys, results: seq<BreakpointResult>, post: World, loc: BpLoc)
    requires Flushed(pre, keys, results, post) && loc in post.tracked
    ensures loc in pre.tracked || Some(loc) in keys
  {
    LatestIsAnswer(keys, results, loc);
  }

  lemma FlushKeepsRecorded(s: Inner, site: Site)
    ensures Recorded(FlushPending(s), site) == Recorded(s, site)
    ensures Multiplicity(FlushPending(s), site) >= Multiplicity(s, site)
  {
    FlushCounts(s, site);
  }

  lemma FlushedIsListed(s: Inner, source: seq<(string, seq<SourceBp>)>, functions: seq<FunctionBp>, loc: BpLoc)
    requires ByFile(source) == s.pendingSourceBps && |source| == |s.pendingSourceBps|
    requires functions == s.pendingFunctionBps
    requires Some(loc) in FlushKeys(source) + FunctionKeys(functions)
    ensures Multiplicity(FlushPending(s), SiteOf(loc)) > 0
  {
    FlushCounts(s, SiteOf(loc));
    if Some(loc) in FlushKeys(source) {
      FlushedLineIsPending(source, loc);
    } else {
      FunctionKeyIsListed(functions, loc);
    }
  }

  // --- the backend half of a handler ---

  /** What a reconcile leaves indexed in its scope was requested. */
  lemma IndexedWasRequested(pre: World, scope: Scope, keys: Keys, results: seq<BreakpointResult>,
                            attempted: set<int>, kept: set<int>, post: World, loc: BpLoc)
    requires Reconciled(pre, scope, keys, results, attempted, kept, post) && loc in post.tracked
    ensures if scope.Covers(loc) then Some(loc) in keys else loc in pre.tracked
  {
    LatestIsAnswer(keys, results, loc);
  }

  lemma SourceKeyIsListed(file: string, bps: seq<SourceBp>, loc: BpLoc)
    ensures Some(loc) in SourceKeys(file, bps) ==>
              loc.FileLine? && loc.file == file && multiset(LinesOf(bps))[loc.line] > 0
    ensures loc.FileLine? && loc.file == file && loc.line < U32_LIMIT && multiset(LinesOf(bps))[loc.line] > 0 ==>
              Some(loc) in SourceKeys(file, bps)
  {
    if Some(loc) in SourceKeys(file, bps) {
      var i :| 0 <= i < |bps| && SourceKeys(file, bps)[i] == Some(loc);
      assert LinesOf(bps)[i] == loc.line;
    }
    if loc.FileLine? && loc.file == file && loc.line < U32_LIMIT && multiset(LinesOf(bps))[loc.line] > 0 {
      assert loc.line in LinesOf(bps);
      var i :| 0 <= i < |bps| && LinesOf(bps)[i] == loc.line;
      assert SourceKeys(file, bps)[i] == Some(loc);
    }
  }

  lemma FunctionKeyIsListed(bps: seq<FunctionBp>, loc: BpLoc)
    ensures Some(loc) in FunctionKeys(bps) ==> loc.Function? && multiset(NamesOf(bps))[loc.name] > 0
    ensures loc.Function? && !IsBareAddress(loc) && multiset(NamesOf(bps))[loc.name] > 0 ==>
        Some(loc) in FunctionKeys(bps)
  {
    if Some(loc) in FunctionKeys(bps) {
      var i :| 0 <= i < |bps| && FunctionKeys(bps)[i] == Some(loc);
      assert NamesOf(bps)[i] == loc.name;
    }
    if loc.Function? && !IsBareAddress(loc) && multiset(NamesOf(bps))[loc.name] > 0 {
      assert loc.name in NamesOf(bps);
      var i :| 0 <= i < |bps| && NamesOf(bps)[i] == loc.name;
      assert FunctionKeys(bps)[i] == Some(loc);
    }
  }

  lemma NoneAttempted(pre: World, scope: Scope, keys: Keys, results: seq<BreakpointResult>, attempted: set<int>,
                      kept: set<int>, post: World)
    requires Reconciled(pre, scope, keys, results, attempted, kept, post)
    requires forall loc <- pre.tracked :: scope.Covers(loc) ==> Some(loc) in keys
    ensures attempted == {}
  {
    assert forall id :: !Stale(pre, scope, keys, id);
    assert forall id :: id !in attempted;
  }

  /**
   * Re-sending a list that covers all that is indexed in its scope has nothing to remove, so a call
   * that fails fails before it indexes anything.
   */
  lemma NothingStale(pre: World, scope: Scope, keys: Keys, r: Result<seq<BreakpointResult>, BackendError>,
                     results: seq<BreakpointResult>, attempted: set<int>, kept: set<int>, post: World)
    requires Replaced(pre, scope, keys, r, results, attempted, kept, post) && r.Failure?
    requires forall loc <- pre.tracked :: scope.Covers(loc) ==> Some(loc) in keys
    ensures Aborted(pre, scope, keys, post) && post.tracked == pre.tracked
  {
    assert forall id :: !Stale(pre, scope, keys, id);
  }
}
