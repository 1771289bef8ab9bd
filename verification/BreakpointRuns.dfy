/** Whole runs of the WinDbg breakpoint operations, against an engine that may fail at any call. */
module BreakpointRuns {
  import opened Wrappers
  import opened DbgEng
  import opened Reconciliation

  datatype Call = Flush(keys: Keys) | Setter(scope: Scope, keys: Keys)

  /** One call and how it went; `aborted` when the engine thread died before the index was committed. */
  datatype Event = Event(call: Call, results: seq<BreakpointResult>, attempted: set<int>, kept: set<int>, aborted: bool)

  ghost predicate Stepped(pre: World, e: Event, post: World) {
    match e.call
    case Flush(keys) => Flushed(pre, keys, e.results, post)
    case Setter(scope, keys) =>
      if e.aborted then Aborted(pre, scope, keys, post)
      else Reconciled(pre, scope, keys, e.results, e.attempted, e.kept, post)
  }

  /** A run starts with an empty index beside any engine, and moves by calls. */
  ghost predicate Run(worlds: seq<World>, events: seq<Event>) {
    && |worlds| == |events| + 1
    && worlds[0].tracked == map[] && worlds[0].orphans <= worlds[0].pool.Keys
    && forall i | 0 <= i < |events| :: Stepped(worlds[i], events[i], worlds[i + 1])
  }

  lemma StepKeepsSound(pre: World, e: Event, post: World)
    requires Sound(pre) && Stepped(pre, e, post)
    ensures Sound(post)
  {
    match e.call
    case Flush(keys) => FlushKeepsSound(pre, keys, e.results, post);
    case Setter(scope, keys) =>
      if e.aborted {
        AbortKeepsSound(pre, scope, keys, post);
      } else {
        ReconcileKeepsSound(pre, scope, keys, e.results, e.attempted, e.kept, post);
      }
  }

  /** The index is sound after every prefix of every run. */
  lemma {:induction false} EveryRunIsSound(worlds: seq<World>, events: seq<Event>, i: nat)
    requires Run(worlds, events) && i < |worlds|
    ensures Sound(worlds[i])
  {
    if i > 0 {
      EveryRunIsSound(worlds, events, i - 1);
      StepKeepsSound(worlds[i - 1], events[i - 1], worlds[i]);
    }
  }

  /** On no run does a removal hit an id that the index still holds when the call is over. */
  lemma NoRemovalHitsTracked(worlds: seq<World>, events: seq<Event>, i: nat, loc: BpLoc)
    requires Run(worlds, events) && i < |events| && loc in worlds[i + 1].tracked
    ensures events[i].call.Setter? && !events[i].aborted ==> worlds[i + 1].tracked[loc].id !in events[i].attempted
    ensures worlds[i + 1].tracked[loc].id in worlds[i + 1].pool
  {
    EveryRunIsSound(worlds, events, i);
    EveryRunIsSound(worlds, events, i + 1);
    assert LiveAt(worlds[i + 1].tracked[loc], loc, worlds[i + 1].pool, worlds[i + 1].orphans);
    if events[i].call.Setter? && !events[i].aborted {
      var Event(Setter(scope, keys), results, attempted, kept, _) := events[i];
      ReconcileKeepsSound(worlds[i], scope, keys, results, attempted, kept, worlds[i + 1]);
    }
  }

  lemma StepSetsNoBareAddress(pre: World, e: Event, post: World, id: int)
    requires Stepped(pre, e, post)
    requires id in post.pool && post.pool[id].loc.Some? && IsBareAddress(post.pool[id].loc.value)
    ensures id in pre.pool && pre.pool[id] == post.pool[id]
  {
    if e.call.Setter? && !e.aborted {
      var Event(Setter(scope, keys), results, attempted, kept, _) := e;
      var pool: map<int, EngineBp> :| Added(pre, Within(pre.tracked, scope), keys, results, pool, post.orphans)
                                      && post.pool == pool - (attempted - kept);
      assert id in pool && pool[id] == post.pool[id];
    }
  }

  /**
   * On no run is a bare address set: a breakpoint at one was in the engine, unchanged, from the start.
   * (Nor is one ever tracked, which soundness says.)
   */
  lemma {:induction false} NoBareAddressIsSet(worlds: seq<World>, events: seq<Event>, i: nat, id: int)
    requires Run(worlds, events) && i < |worlds|
    requires id in worlds[i].pool && worlds[i].pool[id].loc.Some? && IsBareAddress(worlds[i].pool[id].loc.value)
    ensures id in worlds[0].pool && worlds[0].pool[id] == worlds[i].pool[id]
  {
    if i > 0 {
      StepSetsNoBareAddress(worlds[i - 1], events[i - 1], worlds[i], id);
      NoBareAddressIsSet(worlds, events, i - 1, id);
    }
  }

  /** The call asks for `loc` again, or is no business of its scope. */
  predicate StillWanted(call: Call, loc: BpLoc) {
    match call
    case Flush(keys) => Some(loc) !in keys
    case Setter(scope, keys) => scope.Covers(loc) ==> Some(loc) in keys
  }

  /** A location that verified once and stays in every request never changes id. */
  lemma {:induction false} IdsAreStable(worlds: seq<World>, events: seq<Event>, i: nat, j: nat, loc: BpLoc)
    requires Run(worlds, events) && i <= j < |worlds| && loc in worlds[i].tracked
    requires forall k | i <= k < j :: StillWanted(events[k].call, loc)
    ensures loc in worlds[j].tracked && worlds[j].tracked[loc] == worlds[i].tracked[loc]
    decreases j - i
  {
    if i < j {
      IdsAreStable(worlds, events, i, j - 1, loc);
      EveryRunIsSound(worlds, events, j - 1);
      assert StillWanted(events[j - 1].call, loc);
      StepKeepsWanted(worlds[j - 1], events[j - 1], worlds[j], loc);
    }
  }

  lemma StepKeepsWanted(pre: World, e: Event, post: World, loc: BpLoc)
    requires Sound(pre) && Stepped(pre, e, post) && loc in pre.tracked && StillWanted(e.call, loc)
    ensures loc in post.tracked && post.tracked[loc] == pre.tracked[loc]
  {
    match e.call
    case Flush(keys) => FlushKeepsSound(pre, keys, e.results, post);
    case Setter(scope, keys) =>
      if !e.aborted {
        ReconcileKeepsSound(pre, scope, keys, e.results, e.attempted, e.kept, post);
        LatestIsAnswer(keys, e.results, loc);
        if !scope.Covers(loc) && Some(loc) in keys {
          assert false;
        }
      }
  }

  // --- exact agreement over runs ---

  /** A call on which engine and index stay in agreement: nothing died, refused or was asked twice. */
  ghost predicate Clean(pre: World, e: Event, post: World) {
    && (forall id <- pre.pool :: 0 < id)
    && post.orphans == pre.orphans
    && match e.call
       case Flush(keys) => NoRepeats(pre, keys) && forall loc <- pre.tracked :: Some(loc) !in keys
       case Setter(scope, keys) =>
         !e.aborted && NoRepeats(pre, keys) && Cooperative(pre, scope, keys, e.attempted, e.kept, post)
  }

  /** No location of the scope was set twice by a flush, and none that was tracked was set again. */
  ghost predicate SetAfresh(pre: World, scope: Scope, keys: Keys, results: seq<BreakpointResult>)
    requires |keys| == |results|
  {
    && (forall i, j | 0 <= i < j < |keys| && SetNow(map[], keys, results, i) && SetNow(map[], keys, results, j) ::
          scope.Covers(keys[i].value) ==> keys[i] != keys[j])
    && (forall i | 0 <= i < |keys| && SetNow(map[], keys, results, i) && scope.Covers(keys[i].value) ::
          keys[i].value !in pre.tracked)
  }

  /**
   * When index and engine agreed on a scope before a flush, they agree afterwards exactly when each
   * location of it was set at most once, none that was indexed was, and no half-made breakpoint can
   * fire. The flush looks at neither: it sets whatever is pending.
   */
  lemma FlushExact(pre: World, keys: Keys, results: seq<BreakpointResult>, post: World, scope: Scope)
    requires Sound(pre) && NoLeak(pre, scope) && Flushed(pre, keys, results, post)
    ensures NoLeak(post, scope) <==> SetAfresh(pre, scope, keys, results) && NoFiringOrphan(pre, scope, post)
  {
    FlushKeepsSound(pre, keys, results, post);
    if NoLeak(post, scope) {
      NoLeakMeansAfresh(pre, keys, results, post, scope);
    } else {
      var id :| id in post.pool && post.pool[id].enabled && post.pool[id].loc.Some? &&
          scope.Covers(post.pool[id].loc.value)
                && (post.pool[id].loc.value in post.tracked ==> post.tracked[post.pool[id].loc.value].id != id);
      LeakHasCause(pre, keys, results, post, scope, id);
    }
  }

  lemma NoLeakMeansAfresh(pre: World, keys: Keys, results: seq<BreakpointResult>, post: World, scope: Scope)
    requires Sound(pre) && Flushed(pre, keys, results, post) && Sound(post) && NoLeak(post, scope)
    ensures SetAfresh(pre, scope, keys, results) && NoFiringOrphan(pre, scope, post)
  {
    forall i, j | 0 <= i < j < |keys| && SetNow(map[], keys, results, i) && SetNow(map[], keys, results, j)
                  && scope.Covers(keys[i].value)
      ensures keys[i] != keys[j]
    {
      assert LiveAt(results[i], keys[i].value, post.pool, post.orphans);
      assert LiveAt(results[j], keys[j].value, post.pool, post.orphans);
    }
    forall i | 0 <= i < |keys| && SetNow(map[], keys, results, i) && scope.Covers(keys[i].value)
      ensures keys[i].value !in pre.tracked
    {
      var loc := keys[i].value;
      assert LiveAt(results[i], loc, post.pool, post.orphans);
      assert loc in pre.tracked ==> LiveAt(pre.tracked[loc], loc, pre.pool, pre.orphans);
    }
    forall id | id in post.orphans && id !in pre.orphans && id in post.pool
      ensures !(post.pool[id].enabled && post.pool[id].loc.Some? && scope.Covers(post.pool[id].loc.value))
    {
      if post.pool[id].loc.Some? && post.pool[id].loc.value in post.tracked {
        assert LiveAt(post.tracked[post.pool[id].loc.value], post.pool[id].loc.value, post.pool, post.orphans);
      }
    }
  }

  /** A breakpoint that leaks was already indexed, was set twice, or is an orphan. */
  lemma LeakHasCause(pre: World, keys: Keys, results: seq<BreakpointResult>, post: World, scope: Scope, id: int)
    requires Sound(pre) && NoLeak(pre, scope) && Flushed(pre, keys, results, post)
    requires id in post.pool && post.pool[id].enabled && post.pool[id].loc.Some? &&
        scope.Covers(post.pool[id].loc.value)
    requires post.pool[id].loc.value in post.tracked ==> post.tracked[post.pool[id].loc.value].id != id
    ensures SetAfresh(pre, scope, keys, results) ==> !NoFiringOrphan(pre, scope, post)
  {
    var loc := post.pool[id].loc.value;
    LatestIsAnswer(keys, results, loc);
    if id in pre.pool {
      assert loc in pre.tracked && pre.tracked[loc].id == id;
      var j :| 0 <= j < |keys| && keys[j] == Some(loc) && results[j].verified &&
          Latest(keys, results)[loc] == results[j];
      assert SetNow(map[], keys, results, j);
    } else if id !in post.orphans {
      var i :| 0 <= i < |keys| && SetNow(map[], keys, results, i) && results[i].id == id;
      assert LiveAt(results[i], keys[i].value, post.pool, post.orphans);
      assert keys[i] == Some(loc);
      var j :| 0 <= j < |keys| && keys[j] == Some(loc) && results[j].verified &&
          Latest(keys, results)[loc] == results[j];
      assert SetNow(map[], keys, results, j) && i != j;
    } else {
      assert id !in pre.orphans;
    }
  }

  /** The request names no location of the scope twice, and none that is indexed. */
  ghost predicate AskedAfresh(pre: World, scope: Scope, keys: Keys) {
    && (forall i, j | 0 <= i < j < |keys| :: keys[i].Some? && scope.Covers(keys[i].value) ==> keys[i] != keys[j])
    && (forall loc <- pre.tracked :: scope.Covers(loc) ==> Some(loc) !in keys)
  }

  /**
   * A flush that leaves no orphan keeps the agreement on a scope when the request names no location
   * of it twice and none that is indexed; and when everything asked for in it verifies, only then.
   */
  lemma CooperativeFlushExact(pre: World, keys: Keys, results: seq<BreakpointResult>, post: World, scope: Scope)
    requires Sound(pre) && NoLeak(pre, scope) && Flushed(pre, keys, results, post) && post.orphans == pre.orphans
    ensures AskedAfresh(pre, scope, keys) ==> NoLeak(post, scope)
    ensures (forall i | 0 <= i < |keys| && keys[i].Some? && scope.Covers(keys[i].value) :: results[i].verified) ==>
              (NoLeak(post, scope) <==> AskedAfresh(pre, scope, keys))
  {
    FlushExact(pre, keys, results, post, scope);
    if AskedAfresh(pre, scope, keys) {
      forall i | 0 <= i < |keys| && SetNow(map[], keys, results, i) && scope.Covers(keys[i].value)
        ensures keys[i].value !in pre.tracked
      {
        assert keys[i] in keys;
      }
    } else if (forall i | 0 <= i < |keys| && keys[i].Some? && scope.Covers(keys[i].value) :: results[i].verified) {
      AllSetNotAfresh(pre, keys, results, scope);
    }
  }

  /** When every request of the scope verified, one that was not asked for afresh was not set afresh. */
  lemma AllSetNotAfresh(pre: World, keys: Keys, results: seq<BreakpointResult>, scope: Scope)
    requires |keys| == |results| && !AskedAfresh(pre, scope, keys)
    requires forall i | 0 <= i < |keys| && keys[i].Some? && scope.Covers(keys[i].value) :: results[i].verified
    ensures !SetAfresh(pre, scope, keys, results)
  {
    if i, j :| 0 <= i < j < |keys| && keys[i].Some? && scope.Covers(keys[i].value) && keys[i] == keys[j] {
      assert SetNow(map[], keys, results, i) && SetNow(map[], keys, results, j);
    } else {
      var loc :| loc in pre.tracked && scope.Covers(loc) && Some(loc) in keys;
      var i :| 0 <= i < |keys| && keys[i] == Some(loc);
      assert SetNow(map[], keys, results, i);
    }
  }

  /** A flush of locations that are new and not repeated, and that leaves no orphan, keeps the agreement. */
  lemma CleanFlushAgrees(pre: World, keys: Keys, results: seq<BreakpointResult>, post: World, scope: Scope)
    requires Sound(pre) && NoLeak(pre, scope) && Flushed(pre, keys, results, post)
    requires post.orphans == pre.orphans && NoRepeats(pre, keys) && (forall loc <- pre.tracked :: Some(loc) !in keys)
    ensures NoLeak(post, scope)
  {
    CooperativeFlushExact(pre, keys, results, post, scope);
    forall i, j | 0 <= i < j < |keys| && keys[i].Some? && scope.Covers(keys[i].value)
      ensures keys[i] != keys[j]
    {
      assert keys[i] in keys;
    }
  }

  /** Over a run of clean calls the engine holds exactly the indexed breakpoints of every scope. */
  lemma {:induction false} CleanRunsAgree(worlds: seq<World>, events: seq<Event>, i: nat, scope: Scope)
    requires Run(worlds, events) && i < |worlds| && NoLeak(worlds[0], scope)
    requires forall k | 0 <= k < i :: Clean(worlds[k], events[k], worlds[k + 1])
    ensures NoLeak(worlds[i], scope)
  {
    if i > 0 {
      var (pre, e, post) := (worlds[i - 1], events[i - 1], worlds[i]);
      CleanRunsAgree(worlds, events, i - 1, scope);
      EveryRunIsSound(worlds, events, i - 1);
      assert Stepped(pre, e, post) && Clean(pre, e, post);
      match e.call
      case Flush(keys) => CleanFlushAgrees(pre, keys, e.results, post, scope);
      case Setter(own, keys) =>
        if own == scope {
          CooperativeReconcileExact(pre, scope, keys, e.results, e.attempted, e.kept, post);
        } else {
          OtherScopesKeepAgreeing(pre, own, keys, e.results, e.attempted, e.kept, post, scope);
        }
    }
  }

  /** Requesting an untracked line twice in one call leaks, however well the engine behaves. */
  lemma RepeatedLineLeaks(file: string, line: u32, r1: BreakpointResult, r2: BreakpointResult, post: World)
    requires r1 == BreakpointResult(1, true, line, "", false) && r2 == BreakpointResult(2, true, line, "", false)
    requires var bp := EngineBp(Some(FileLine(file, line)), true);
             post == World(map[1 := bp, 2 := bp], {}, map[FileLine(file, line) := r2])
    ensures var (empty, scope) := (World(map[], {}, map[]), FileScope(file));
            var keys := [Some(FileLine(file, line)), Some(FileLine(file, line))];
            && Reconciled(empty, scope, keys, [r1, r2], {}, {}, post)
            && Cooperative(empty, scope, keys, {}, {}, post)
            && NoLeak(empty, scope) && !NoLeak(post, scope)
  {
    var loc, empty, scope := FileLine(file, line), World(map[], {}, map[]), FileScope(file);
    var keys := [Some(loc), Some(loc)];
    SetTwice(loc, r1, r2, post.pool);
    assert Within(empty.tracked, scope) == map[];
    assert post.pool == post.pool - ({} - {});
    assert Added(empty, Within(empty.tracked, scope), keys, [r1, r2], post.pool, post.orphans);
    assert post.pool[1].loc.value == loc && post.tracked[loc].id == 2;
  }

  /** So does a pending line that was asked for twice before the launch. */
  lemma RepeatedPendingLineLeaks(file: string, line: u32, r1: BreakpointResult, r2: BreakpointResult, post: World)
    requires r1 == BreakpointResult(1, true, line, "", false) && r2 == BreakpointResult(2, true, line, "", false)
    requires var bp := EngineBp(Some(FileLine(file, line)), true);
             post == World(map[1 := bp, 2 := bp], {}, map[FileLine(file, line) := r2])
    ensures var (empty, keys) := (World(map[], {}, map[]), [Some(FileLine(file, line)), Some(FileLine(file, line))]);
            && Flushed(empty, keys, [r1, r2], post)
            && NoLeak(empty, FileScope(file)) && !NoLeak(post, FileScope(file))
  {
    var loc := FileLine(file, line);
    SetTwice(loc, r1, r2, post.pool);
    assert post.tracked == map[] + map[loc := r2];
    assert post.pool[1].loc.value == loc && post.tracked[loc].id == 2;
  }

  lemma SetTwice(loc: BpLoc, r1: BreakpointResult, r2: BreakpointResult, pool: map<int, EngineBp>)
    requires r1.id != r2.id && pool == map[r1.id := EngineBp(Some(loc), true), r2.id := EngineBp(Some(loc), true)]
    requires r1.verified && !r1.rejected && r1.line == LineOf(loc) == r2.line && r2.verified && !r2.rejected
    ensures Added(World(map[], {}, map[]), map[], [Some(loc), Some(loc)], [r1, r2], pool, {})
    ensures Latest([Some(loc), Some(loc)], [r1, r2]) == map[loc := r2]
  {
    var keys, results := [Some(loc), Some(loc)], [r1, r2];
    assert SetNow(map[], keys, results, 0) && SetNow(map[], keys, results, 1);
    assert keys[..1] == [Some(loc)] && results[..1] == [r1];
    assert Latest(keys[..1], results[..1]) == map[loc := r1];
    assert Some(loc) == keys[0];
  }
}
