/**
 * What the breakpoint setters of the WinDbg backend promise, on values.
 *
 * A `World` is the engine's flat pool beside the backend's index into it. `Reconciled`, `Aborted`
 * and `Flushed` say what one call may do to a world when any engine call may fail; the lemmas draw
 * the consequences over whole runs.
 */
module Reconciliation {
  import opened Wrappers
  import opened DbgEng
  import opened UnicodeText

  datatype World = World(pool: map<int, EngineBp>, orphans: set<int>, tracked: map<BpLoc, BreakpointResult>)

  /** The category one setter owns: the lines of one file, or all functions. */
  datatype Scope = FileScope(file: string) | FunctionScope
  {
    predicate Covers(loc: BpLoc) {
      match this
      case FileScope(file) => loc.FileLine? && loc.file == file
      case FunctionScope => loc.Function?
    }
  }

  /** A name that is really an absolute address, which relaunching would misplace. */
  predicate IsBareAddressName(name: string) {
    var trimmed := TrimStart(name);
    "0x" <= trimmed || "0X" <= trimmed
  }

  /** At `k`, behind nothing but white space, stand a zero and an `x` of either case. */
  predicate HexPrefixAt(name: string, k: nat) {
    && k + 1 < |name|
    && name[k] == '0' && (name[k + 1] == 'x' || name[k + 1] == 'X')
    && forall i | 0 <= i < k :: IsWhitespace(name[i])
  }

  lemma PrefixIsHex(trimmed: string)
    ensures "0x" <= trimmed || "0X" <= trimmed <==>
            |trimmed| > 1 && trimmed[0] == '0' && (trimmed[1] == 'x' || trimmed[1] == 'X')
  {
  }

  lemma BareAddressShape(name: string)
    ensures IsBareAddressName(name) <==> exists k: nat :: HexPrefixAt(name, k)
  {
    TrimStartIsSuffix(name);
    TrimStartStops(name);
    forall i: nat | i < |name| - |TrimStart(name)| {
      TrimStartStrips(name, i);
    }
    PrefixIsHex(TrimStart(name));
    var k := |name| - |TrimStart(name)|;
    assert IsBareAddressName(name) ==> HexPrefixAt(name, k);
    forall m: nat | HexPrefixAt(name, m)
      ensures IsBareAddressName(name)
    {
      HexPrefixIsTrimmed(name, m, TrimStart(name));
    }
  }

  /** What follows the white space before `0x` starts with it. */
  lemma HexPrefixIsTrimmed(name: string, m: nat, trimmed: string)
    requires HexPrefixAt(name, m) && |trimmed| <= |name| && trimmed == name[|name| - |trimmed|..]
    requires forall i | 0 <= i < |name| - |trimmed| :: IsWhitespace(name[i])
    requires trimmed != "" ==> !IsWhitespace(trimmed[0])
    ensures |trimmed| > 1 && trimmed[0] == '0' && (trimmed[1] == 'x' || trimmed[1] == 'X')
  {
    assert !IsWhitespace('0');
    assert |name| - |trimmed| <= m;
    assert trimmed[0] == name[|name| - |trimmed|];
  }

  predicate IsBareAddress(loc: BpLoc) {
    loc.Function? && IsBareAddressName(loc.name)
  }

  /** One entry per requested breakpoint: where it asks to be, or `None` when it must not be set. */
  type Keys = seq<Option<BpLoc>>

  ghost predicate KeysIn(keys: Keys, scope: Scope) {
    forall k <- keys :: k.Some? ==> scope.Covers(k.value) && !IsBareAddress(k.value)
  }

  function Within(tracked: map<BpLoc, BreakpointResult>, scope: Scope): map<BpLoc, BreakpointResult> {
    map loc | loc in tracked && scope.Covers(loc) :: tracked[loc]
  }

  function Outside(tracked: map<BpLoc, BreakpointResult>, scope: Scope): map<BpLoc, BreakpointResult> {
    map loc | loc in tracked && !scope.Covers(loc) :: tracked[loc]
  }

  /** The verified answer of each requested location; when one is requested twice the last wins. */
  function Latest(keys: Keys, results: seq<BreakpointResult>): map<BpLoc, BreakpointResult>
    requires |keys| == |results|
  {
    if keys == [] then map[]
    else
      var n := |keys| - 1;
      var earlier := Latest(keys[..n], results[..n]);
      if keys[n].Some? && results[n].verified then earlier[keys[n].value := results[n]] else earlier
  }

  /** `r` names a breakpoint that is live, enabled and placed exactly at `loc`. */
  ghost predicate LiveAt(r: BreakpointResult, loc: BpLoc, pool: map<int, EngineBp>, orphans: set<int>) {
    && r.verified
    && !r.rejected
    && r.line == LineOf(loc)
    && r.id in pool
    && r.id !in orphans
    && pool[r.id] == EngineBp(Some(loc), true)
  }

  /** The index never points at the wrong breakpoint. */
  ghost predicate Sound(w: World) {
    && w.orphans <= w.pool.Keys
    && forall loc <- w.tracked :: LiveAt(w.tracked[loc], loc, w.pool, w.orphans) && !IsBareAddress(loc)
  }

  /** Every breakpoint that can fire inside `scope` is indexed. */
  ghost predicate NoLeak(w: World, scope: Scope) {
    forall id <- w.pool ::
      w.pool[id].enabled && w.pool[id].loc.Some? && scope.Covers(w.pool[id].loc.value) ==>
        w.pool[id].loc.value in w.tracked && w.tracked[w.pool[id].loc.value].id == id
  }

  // --- one pass over a request ---

  /** `results[i]` answers `keys[i]`: the indexed result, a breakpoint set just now, or none. */
  ghost predicate Answers(pre: World, prior: map<BpLoc, BreakpointResult>, keys: Keys,
                          results: seq<BreakpointResult>, pool: map<int, EngineBp>, orphans: set<int>) {
    && |results| == |keys|
    && (forall i | 0 <= i < |keys| ::
          match keys[i]
          case None => !results[i].verified && results[i].id == 0
          case Some(loc) =>
            if loc in prior then results[i] == prior[loc]
            else if results[i].verified then results[i].id !in pre.pool && LiveAt(results[i], loc, pool, orphans)
            else results[i].id == 0)
    // Two breakpoints set by the same call have different ids.
    && (forall i, j | 0 <= i < j < |keys| :: SetNow(prior, keys, results, i) && SetNow(prior, keys, results, j) ==>
          results[i].id != results[j].id)
  }

  /** Request `i` made the engine set a breakpoint. */
  ghost predicate SetNow(prior: map<BpLoc, BreakpointResult>, keys: Keys, results: seq<BreakpointResult>, i: int)
    requires 0 <= i < |keys| == |results|
  {
    keys[i].Some? && keys[i].value !in prior && results[i].verified
  }

  /** Between `pre` and now the engine only gained breakpoints, each requested here or an orphan. */
  ghost predicate Gained(pre: World, prior: map<BpLoc, BreakpointResult>, keys: Keys,
                         pool: map<int, EngineBp>, orphans: set<int>) {
    && pre.pool.Keys <= pool.Keys
    && pre.orphans <= orphans <= pool.Keys
    && (forall id <- pre.pool :: pool[id] == pre.pool[id])
    && (forall id | id in orphans && id !in pre.orphans :: id !in pre.pool)
    && (forall id | id in pool && id !in pre.pool && pool[id].loc.Some? ::
          pool[id].loc in keys && pool[id].loc.value !in prior)
  }

  /** Every gained breakpoint that is not an orphan was reported to the caller. */
  ghost predicate Reported(pre: World, prior: map<BpLoc, BreakpointResult>, keys: Keys,
                           results: seq<BreakpointResult>, pool: map<int, EngineBp>, orphans: set<int>)
    requires |results| == |keys|
  {
    forall id | id in pool && id !in pre.pool && id !in orphans ::
      exists i :: 0 <= i < |keys| && SetNow(prior, keys, results, i) && results[i].id == id
  }

  ghost predicate Added(pre: World, prior: map<BpLoc, BreakpointResult>, keys: Keys,
                        results: seq<BreakpointResult>, pool: map<int, EngineBp>, orphans: set<int>) {
    && Answers(pre, prior, keys, results, pool, orphans)
    && Gained(pre, prior, keys, pool, orphans)
    && Reported(pre, prior, keys, results, pool, orphans)
  }

  // --- conditions ---

  /** Breakpoint `id` stops on `text` alone, or unconditionally when that is empty. */
  ghost predicate Carries(conditions: Conditions, id: int, text: string) {
    (id in conditions <==> text != "") && (id in conditions ==> conditions[id] == text)
  }

  /** None of the breakpoints `ids` lost, gained or changed a condition. */
  ghost predicate SameConditions(ids: set<int>, before: Conditions, after: Conditions) {
    forall id <- ids :: (id in after <==> id in before) && (id in before ==> after[id] == before[id])
  }

  /** What a pass set carries the condition it was asked with; what was there keeps its own. */
  ghost predicate Conditioned(pre: World, prior: map<BpLoc, BreakpointResult>, keys: Keys,
                              results: seq<BreakpointResult>, texts: Texts) {
    && |texts.asked| == |keys| == |results|
    && SameConditions(pre.pool.Keys, texts.before, texts.now)
    && forall i | 0 <= i < |keys| && SetNow(prior, keys, results, i) ::
         Carries(texts.now, results[i].id, texts.asked[i])
  }

  // --- one call ---

  /** The ids a reconcile drops: indexed in the scope, no longer requested, and real. */
  ghost predicate Stale(pre: World, scope: Scope, keys: Keys, id: int) {
    id > 0 && exists loc <- pre.tracked :: scope.Covers(loc) && Some(loc) !in keys && pre.tracked[loc].id == id
  }

  /**
   * The request was processed and the index committed. `attempted` are the ids it tried to remove,
   * `kept` those of them that the engine still holds.
   */
  ghost predicate Reconciled(pre: World, scope: Scope, keys: Keys, results: seq<BreakpointResult>,
                             attempted: set<int>, kept: set<int>, post: World) {
    && |results| == |keys|
    && KeysIn(keys, scope)
    && post.tracked == Outside(pre.tracked, scope) + Latest(keys, results)
    && kept <= attempted
    && (forall id <- attempted :: Stale(pre, scope, keys, id))
    && exists pool ::
         && Added(pre, Within(pre.tracked, scope), keys, results, pool, post.orphans)
         && post.pool == pool - (attempted - kept)
  }

  /** Every stale id was tried: the engine thread answered throughout. */
  ghost predicate AllTried(pre: World, scope: Scope, keys: Keys, attempted: set<int>) {
    forall id :: Stale(pre, scope, keys, id) ==> id in attempted
  }

  /** The engine thread died while setting: the index is untouched and nothing was removed. */
  ghost predicate Aborted(pre: World, scope: Scope, keys: Keys, post: World) {
    && KeysIn(keys, scope)
    && post.tracked == pre.tracked
    && Gained(pre, Within(pre.tracked, scope), keys, post.pool, post.orphans)
  }

  /** The launch flush sets every request blindly and indexes what verified. */
  ghost predicate Flushed(pre: World, keys: Keys, results: seq<BreakpointResult>, post: World) {
    && Added(pre, map[], keys, results, post.pool, post.orphans)
    && (forall k <- keys :: k.Some? ==> !IsBareAddress(k.value))
    && post.tracked == pre.tracked + Latest(keys, results)
  }

  // --- steps of the add pass ---

  /** The condition each request of a pass carried, and the engine's conditions before the pass and now. */
  datatype Texts = Texts(asked: seq<string>, before: Conditions, now: Conditions)

  /** How far the add pass of one call has come. */
  datatype Progress = Progress(pre: World, prior: map<BpLoc, BreakpointResult>, keys: Keys,
                               results: seq<BreakpointResult>, pool: map<int, EngineBp>, orphans: set<int>,
                               texts: Texts)

  type Pass = p: Progress | Added(p.pre, p.prior, p.keys, p.results, p.pool, p.orphans)
                            && Conditioned(p.pre, p.prior, p.keys, p.results, p.texts)
    ghost witness Progress(World(map[], {}, map[]), map[], [], [], map[], {}, Texts([], map[], map[]))

  lemma Start(pre: World, prior: map<BpLoc, BreakpointResult>, conditions: Conditions) returns (p: Pass)
    requires pre.orphans <= pre.pool.Keys
    ensures p == Progress(pre, prior, [], [], pre.pool, pre.orphans, Texts([], conditions, conditions))
  {
    p := Progress(pre, prior, [], [], pre.pool, pre.orphans, Texts([], conditions, conditions));
  }

  /** The pass after answering one more request. */
  ghost function Next(p: Progress, key: Option<BpLoc>, condition: string, r: BreakpointResult,
                      pool: map<int, EngineBp>, orphans: set<int>, now: Conditions): Progress {
    p.(keys := p.keys + [key], results := p.results + [r], pool := pool, orphans := orphans,
       texts := p.texts.(asked := p.texts.asked + [condition], now := now))
  }

  /** A request that does not reach the engine: skipped, rejected or already indexed. */
  lemma SkipOne(p: Pass, key: Option<BpLoc>, condition: string, r: BreakpointResult) returns (p': Pass)
    requires match key
             case None => !r.verified && r.id == 0
             case Some(loc) => if loc in p.prior then r == p.prior[loc] else !r.verified && r.id == 0
    ensures p' == Next(p, key, condition, r, p.pool, p.orphans, p.texts.now)
    ensures Latest(p'.keys, p'.results) ==
            if key.Some? && r.verified then Latest(p.keys, p.results)[key.value := r] else Latest(p.keys, p.results)
  {
    var q := Next(p, key, condition, r, p.pool, p.orphans, p.texts.now);
    LatestOfNext(p, key, r);
    Skipped(p, key, condition, r);
    TextsSoFar(p, q);
    p' := q;
  }

  lemma Skipped(p: Pass, key: Option<BpLoc>, condition: string, r: BreakpointResult)
    requires match key
             case None => !r.verified && r.id == 0
             case Some(loc) => if loc in p.prior then r == p.prior[loc] else !r.verified && r.id == 0
    ensures var q := Next(p, key, condition, r, p.pool, p.orphans, p.texts.now);
            Added(q.pre, q.prior, q.keys, q.results, q.pool, q.orphans)
  {
    SetSoFar(p, Next(p, key, condition, r, p.pool, p.orphans, p.texts.now));
  }

  /** A set that failed, perhaps leaving an orphan. */
  lemma LeaveOrphan(p: Pass, loc: BpLoc, condition: string, r: BreakpointResult, pool: map<int, EngineBp>,
                    orphans: set<int>, now: Conditions)
    returns (p': Pass)
    requires loc !in p.prior && !r.verified && r.id == 0
    requires LeftBehind(p.pool, p.orphans, loc, pool, orphans) && SameConditions(p.pool.Keys, p.texts.now, now)
    ensures p' == Next(p, Some(loc), condition, r, pool, orphans, now)
    ensures Latest(p'.keys, p'.results) == Latest(p.keys, p.results)
  {
    var q := SkipOne(p, Some(loc), condition, r);
    OrphanGained(q, loc, pool, orphans);
    TextsKept(q, now);
    p' := q.(pool := pool, orphans := orphans, texts := q.texts.(now := now));
  }

  /** A set that succeeded. */
  lemma AddOne(p: Pass, loc: BpLoc, condition: string, r: BreakpointResult, now: Conditions) returns (p': Pass)
    requires loc !in p.prior && r.id !in p.pool && r.verified && !r.rejected && r.line == LineOf(loc)
    requires SameConditions(p.pool.Keys, p.texts.now, now) && Carries(now, r.id, condition)
    ensures p' == Next(p, Some(loc), condition, r, p.pool[r.id := EngineBp(Some(loc), true)], p.orphans, now)
    ensures Latest(p'.keys, p'.results) == Latest(p.keys, p.results)[loc := r]
  {
    var q := Next(p, Some(loc), condition, r, p.pool[r.id := EngineBp(Some(loc), true)], p.orphans, now);
    LatestOfNext(p, Some(loc), r);
    SetSoFar(p, q);
    SetLast(p, q, loc, r);
    TextsSoFar(p, q);
    p' := q;
  }

  /** Conditions already in place stay, and the last request set nothing or carries its own. */
  lemma TextsSoFar(p: Pass, q: Progress)
    requires q.pre == p.pre && q.prior == p.prior && q.texts.before == p.texts.before
    requires |q.keys| == |p.keys| + 1 == |q.results| == |q.texts.asked|
    requires q.keys[..|p.keys|] == p.keys && q.results[..|p.keys|] == p.results
    requires q.texts.asked[..|p.keys|] == p.texts.asked
    requires SameConditions(p.pool.Keys, p.texts.now, q.texts.now)
    requires SetNow(q.prior, q.keys, q.results, |p.keys|) ==>
               Carries(q.texts.now, q.results[|p.keys|].id, q.texts.asked[|p.keys|])
    ensures Conditioned(q.pre, q.prior, q.keys, q.results, q.texts)
  {
    SetSoFar(p, q);
    forall i | 0 <= i < |q.keys| && SetNow(q.prior, q.keys, q.results, i)
      ensures Carries(q.texts.now, q.results[i].id, q.texts.asked[i])
    {
      if i < |p.keys| {
        assert LiveAt(p.results[i], p.keys[i].value, p.pool, p.orphans);
        assert q.texts.asked[..|p.keys|][i] == p.texts.asked[i];
        assert Carries(p.texts.now, p.results[i].id, p.texts.asked[i]);
      }
    }
  }

  lemma TextsKept(p: Pass, now: Conditions)
    requires SameConditions(p.pool.Keys, p.texts.now, now)
    ensures Conditioned(p.pre, p.prior, p.keys, p.results, p.texts.(now := now))
  {
    forall i | 0 <= i < |p.keys| && SetNow(p.prior, p.keys, p.results, i)
      ensures Carries(now, p.results[i].id, p.texts.asked[i])
    {
      assert LiveAt(p.results[i], p.keys[i].value, p.pool, p.orphans);
    }
  }

  lemma LatestOfNext(p: Pass, key: Option<BpLoc>, r: BreakpointResult)
    ensures Latest(p.keys + [key], p.results + [r]) ==
            if key.Some? && r.verified then Latest(p.keys, p.results)[key.value := r] else Latest(p.keys, p.results)
  {
    var keys, results := p.keys + [key], p.results + [r];
    assert keys[..|p.keys|] == p.keys && results[..|p.keys|] == p.results;
  }

  /** Requests answered earlier keep their answers. */
  lemma SetSoFar(p: Pass, q: Progress)
    requires q.prior == p.prior && |q.keys| == |p.keys| + 1 == |q.results|
    requires q.keys[..|p.keys|] == p.keys && q.results[..|p.keys|] == p.results
    ensures forall i | 0 <= i < |p.keys| :: q.keys[i] == p.keys[i] && q.results[i] == p.results[i]
    ensures forall i | 0 <= i < |p.keys| :: SetNow(q.prior, q.keys, q.results, i) <==>
        SetNow(p.prior, p.keys, p.results, i)
    ensures forall id | id in p.pool && id !in p.pre.pool && id !in p.orphans ::
              exists i :: 0 <= i < |q.keys| && SetNow(q.prior, q.keys, q.results, i) && q.results[i].id == id
  {
    forall i | 0 <= i < |p.keys|
      ensures q.keys[i] == p.keys[i] && q.results[i] == p.results[i]
      ensures SetNow(q.prior, q.keys, q.results, i) <==> SetNow(p.prior, p.keys, p.results, i)
    {
      assert q.keys[..|p.keys|][i] == p.keys[i] && q.results[..|p.keys|][i] == p.results[i];
    }
    forall id | id in p.pool && id !in p.pre.pool && id !in p.orphans
      ensures exists i :: 0 <= i < |q.keys| && SetNow(q.prior, q.keys, q.results, i) && q.results[i].id == id
    {
      var i :| 0 <= i < |p.keys| && SetNow(p.prior, p.keys, p.results, i) && p.results[i].id == id;
      assert SetNow(q.prior, q.keys, q.results, i);
    }
  }

  lemma OrphanGained(q: Pass, loc: BpLoc, pool: map<int, EngineBp>, orphans: set<int>)
    requires Some(loc) in q.keys && loc !in q.prior
    requires LeftBehind(q.pool, q.orphans, loc, pool, orphans)
    ensures Added(q.pre, q.prior, q.keys, q.results, pool, orphans)
  {
    forall id | id in pool && id !in q.pre.pool && pool[id].loc.Some?
      ensures pool[id].loc in q.keys && pool[id].loc.value !in q.prior
    {
      assert id in q.pool ==> pool[id] == q.pool[id];
    }
    forall i | 0 <= i < |q.keys| && SetNow(q.prior, q.keys, q.results, i)
      ensures LiveAt(q.results[i], q.keys[i].value, pool, orphans)
    {
      assert LiveAt(q.results[i], q.keys[i].value, q.pool, q.orphans);
    }
  }

  lemma SetLast(p: Pass, q: Progress, loc: BpLoc, r: BreakpointResult)
    requires loc !in p.prior && r.id !in p.pool && r.verified && !r.rejected && r.line == LineOf(loc)
    requires q.pre == p.pre && q.prior == p.prior && q.keys == p.keys + [Some(loc)] && q.results == p.results + [r]
    requires q.pool == p.pool[r.id := EngineBp(Some(loc), true)] && q.orphans == p.orphans
    ensures Added(q.pre, q.prior, q.keys, q.results, q.pool, q.orphans)
  {
    SetSoFar(p, q);
    var n := |p.keys|;
    assert SetNow(q.prior, q.keys, q.results, n);
    forall i | 0 <= i < n && SetNow(q.prior, q.keys, q.results, i)
      ensures q.results[i].id != r.id && LiveAt(q.results[i], q.keys[i].value, q.pool, q.orphans)
    {
      assert LiveAt(p.results[i], p.keys[i].value, p.pool, p.orphans);
    }
  }

  // --- what one call guarantees ---

  lemma {:induction false} LatestIsAnswer(keys: Keys, results: seq<BreakpointResult>, loc: BpLoc)
    requires |keys| == |results|
    ensures loc in Latest(keys, results) <==> exists i :: 0 <= i < |keys| && keys[i] == Some(loc) && results[i].verified
    ensures loc in Latest(keys, results) ==>
              exists i :: 0 <= i < |keys| && keys[i] == Some(loc) && results[i].verified
                          && Latest(keys, results)[loc] == results[i]
  {
    if keys != [] {
      var n := |keys| - 1;
      LatestIsAnswer(keys[..n], results[..n], loc);
      if keys[n] == Some(loc) && results[n].verified {
        assert Latest(keys, results)[loc] == results[n];
      } else if loc in Latest(keys[..n], results[..n]) {
        var i :| 0 <= i < n && keys[..n][i] == Some(loc) && results[..n][i].verified
                 && Latest(keys[..n], results[..n])[loc] == results[..n][i];
        assert keys[i] == Some(loc) && Latest(keys, results)[loc] == results[i];
      } else if exists i :: 0 <= i < |keys| && keys[i] == Some(loc) && results[i].verified {
        var i :| 0 <= i < |keys| && keys[i] == Some(loc) && results[i].verified;
        assert i < n && keys[..n][i] == Some(loc) && results[..n][i].verified;
      }
    }
  }

  /** Which answer that is: the last verified one. */
  lemma {:induction false} LatestIsLast(keys: Keys, results: seq<BreakpointResult>, loc: BpLoc) returns (last: nat)
    requires |keys| == |results| && exists i :: 0 <= i < |keys| && keys[i] == Some(loc) && results[i].verified
    ensures last < |keys| && keys[last] == Some(loc) && results[last].verified
    ensures loc in Latest(keys, results) && Latest(keys, results)[loc] == results[last]
    ensures forall k | last < k < |keys| :: !(keys[k] == Some(loc) && results[k].verified)
  {
    var n := |keys| - 1;
    if keys[n] == Some(loc) && results[n].verified {
      last := n;
    } else {
      var i :| 0 <= i < |keys| && keys[i] == Some(loc) && results[i].verified;
      assert i < n && keys[..n][i] == Some(loc) && results[..n][i].verified;
      last := LatestIsLast(keys[..n], results[..n], loc);
      assert keys[last] == keys[..n][last] && results[last] == results[..n][last];
      assert Latest(keys, results)[loc] == Latest(keys[..n], results[..n])[loc];
      forall k | last < k < |keys|
        ensures !(keys[k] == Some(loc) && results[k].verified)
      {
        assert k < n ==> keys[..n][k] == keys[k] && results[..n][k] == results[k];
      }
    }
  }

  /** Distinct locations are indexed under distinct ids. */
  lemma DistinctIds(w: World, a: BpLoc, b: BpLoc)
    requires Sound(w) && a in w.tracked && b in w.tracked && a != b
    ensures w.tracked[a].id != w.tracked[b].id
  {
    assert LiveAt(w.tracked[a], a, w.pool, w.orphans) && LiveAt(w.tracked[b], b, w.pool, w.orphans);
  }

  /** A reconcile keeps the index sound, whatever failed. */
  lemma ReconcileKeepsSound(pre: World, scope: Scope, keys: Keys, results: seq<BreakpointResult>,
                            attempted: set<int>, kept: set<int>, post: World)
    requires Sound(pre) && Reconciled(pre, scope, keys, results, attempted, kept, post)
    ensures Sound(post)
    // A location that stays requested stays indexed, under the same id.
    ensures forall loc <- pre.tracked :: scope.Covers(loc) && Some(loc) in keys ==>
              loc in post.tracked && post.tracked[loc] == pre.tracked[loc]
    // No removal was ever tried on an id that is indexed afterwards.
    ensures forall loc <- post.tracked :: post.tracked[loc].id !in attempted
  {
    var prior := Within(pre.tracked, scope);
    var pool :| Added(pre, prior, keys, results, pool, post.orphans) && post.pool == pool - (attempted - kept);
    forall loc | loc in post.tracked
      ensures LiveAt(post.tracked[loc], loc, post.pool, post.orphans) && !IsBareAddress(loc)
      ensures post.tracked[loc].id !in attempted
      ensures loc in prior ==> post.tracked[loc] == pre.tracked[loc]
    {
      if loc in Latest(keys, results) {
        LatestIsAnswer(keys, results, loc);
        var i :| 0 <= i < |keys| && keys[i] == Some(loc) && results[i].verified &&
            Latest(keys, results)[loc] == results[i];
        assert keys[i] in keys;
        if loc in prior {
          KeptIdIsNotStale(pre, scope, keys, loc);
        }
      } else {
        assert loc in Outside(pre.tracked, scope);
        KeptIdIsNotStale(pre, scope, keys, loc);
      }
    }
    forall id <- post.orphans
      ensures id in post.pool
    {
      StaleIsLive(pre, scope, keys, id);
    }
    forall loc | loc in pre.tracked && scope.Covers(loc) && Some(loc) in keys
      ensures loc in post.tracked
    {
      var i :| 0 <= i < |keys| && keys[i] == Some(loc);
      assert loc in prior && results[i] == prior[loc];
      LatestIsAnswer(keys, results, loc);
    }
  }

  /** The id of a location that is not dropped is not among the ids to remove. */
  lemma KeptIdIsNotStale(pre: World, scope: Scope, keys: Keys, loc: BpLoc)
    requires Sound(pre) && loc in pre.tracked && (!scope.Covers(loc) || Some(loc) in keys)
    ensures !Stale(pre, scope, keys, pre.tracked[loc].id)
  {
    forall other <- pre.tracked | scope.Covers(other) && Some(other) !in keys
      ensures pre.tracked[other].id != pre.tracked[loc].id
    {
      DistinctIds(pre, other, loc);
    }
  }

  /** Only ids that are live, and that some caller was told, are ever stale. */
  lemma StaleIsLive(pre: World, scope: Scope, keys: Keys, id: int)
    requires Sound(pre)
    ensures Stale(pre, scope, keys, id) ==> id in pre.pool && id !in pre.orphans
  {
  }

  /** An aborted call leaves the index as it was, and still sound. */
  lemma AbortKeepsSound(pre: World, scope: Scope, keys: Keys, post: World)
    requires Sound(pre) && Aborted(pre, scope, keys, post)
    ensures Sound(post)
  {
  }

  /** A flush keeps the index sound, even when it indexes a location a second time. */
  lemma FlushKeepsSound(pre: World, keys: Keys, results: seq<BreakpointResult>, post: World)
    requires Sound(pre) && Flushed(pre, keys, results, post)
    ensures Sound(post)
    ensures forall loc <- pre.tracked :: Some(loc) !in keys ==>
        loc in post.tracked && post.tracked[loc] == pre.tracked[loc]
  {
    forall loc | loc in post.tracked
      ensures LiveAt(post.tracked[loc], loc, post.pool, post.orphans) && !IsBareAddress(loc)
    {
      if loc in Latest(keys, results) {
        LatestIsAnswer(keys, results, loc);
        var i :| 0 <= i < |keys| && keys[i] == Some(loc) && results[i].verified &&
            Latest(keys, results)[loc] == results[i];
        assert keys[i] in keys;
      }
    }
    forall loc <- pre.tracked | Some(loc) !in keys
      ensures loc !in Latest(keys, results)
    {
      LatestIsAnswer(keys, results, loc);
    }
  }

  // --- exact agreement ---

  /** No location outside the index is requested twice. */
  ghost predicate NoRepeats(pre: World, keys: Keys) {
    forall i, j | 0 <= i < j < |keys| :: keys[i].Some? && keys[i].value !in pre.tracked ==> keys[i] != keys[j]
  }

  /** No location outside the index was set twice by this call. */
  ghost predicate SetOnce(prior: map<BpLoc, BreakpointResult>, keys: Keys, results: seq<BreakpointResult>)
    requires |keys| == |results|
  {
    forall i, j | 0 <= i < j < |keys| && SetNow(prior, keys, results, i) && SetNow(prior, keys, results, j) ::
      keys[i] != keys[j]
  }

  ghost predicate NoFiringOrphan(pre: World, scope: Scope, post: World) {
    forall id | id in post.orphans && id !in pre.orphans && id in post.pool ::
      !(post.pool[id].enabled && post.pool[id].loc.Some? && scope.Covers(post.pool[id].loc.value))
  }

  /** Every breakpoint this call had to drop is gone. */
  ghost predicate Dropped(pre: World, scope: Scope, keys: Keys, post: World) {
    forall loc <- pre.tracked :: scope.Covers(loc) && Some(loc) !in keys ==> pre.tracked[loc].id !in post.pool
  }

  /**
   * When the index and the engine agreed on a scope before a reconcile, they agree afterwards
   * exactly when nothing was set twice, no half-made breakpoint can fire, and all stale ones went.
   */
  lemma ReconcileExact(pre: World, scope: Scope, keys: Keys, results: seq<BreakpointResult>,
                       attempted: set<int>, kept: set<int>, post: World)
    requires Sound(pre) && NoLeak(pre, scope)
    requires Reconciled(pre, scope, keys, results, attempted, kept, post)
    ensures NoLeak(post, scope) <==>
            && SetOnce(Within(pre.tracked, scope), keys, results)
            && NoFiringOrphan(pre, scope, post)
            && Dropped(pre, scope, keys, post)
  {
    var prior := Within(pre.tracked, scope);
    var pool :| Added(pre, prior, keys, results, pool, post.orphans) && post.pool == pool - (attempted - kept);
    ReconcileKeepsSound(pre, scope, keys, results, attempted, kept, post);
    forall id { StaleIsLive(pre, scope, keys, id); }
    if NoLeak(post, scope) {
      NoLeakMeansSetOnce(pre, scope, keys, results, pool, post);
      NoLeakMeansDropped(pre, scope, keys, results, post);
    } else {
      var id :| id in post.pool && post.pool[id].enabled && post.pool[id].loc.Some? &&
          scope.Covers(post.pool[id].loc.value)
                && (post.pool[id].loc.value in post.tracked ==> post.tracked[post.pool[id].loc.value].id != id);
      if id in pre.pool {
        assert pre.pool[id].loc.value in pre.tracked;
      } else if id !in post.orphans {
        SetOnceIsIndexed(prior, keys, results, post.pool[id].loc.value, id, pre, pool, post.orphans);
      }
    }
  }

  lemma NoLeakMeansDropped(pre: World, scope: Scope, keys: Keys, results: seq<BreakpointResult>, post: World)
    requires Sound(pre) && NoLeak(post, scope) && |keys| == |results|
    requires post.tracked == Outside(pre.tracked, scope) + Latest(keys, results)
    requires forall id | id in pre.pool && id in post.pool :: post.pool[id] == pre.pool[id]
    ensures Dropped(pre, scope, keys, post)
  {
    forall loc <- pre.tracked | scope.Covers(loc) && Some(loc) !in keys
      ensures pre.tracked[loc].id !in post.pool
    {
      LatestIsAnswer(keys, results, loc);
      assert loc !in post.tracked;
      assert LiveAt(pre.tracked[loc], loc, pre.pool, pre.orphans);
    }
  }

  /** A breakpoint that was set now, and whose location was set only once, is the one indexed there. */
  lemma SetOnceIsIndexed(prior: map<BpLoc, BreakpointResult>, keys: Keys, results: seq<BreakpointResult>, loc: BpLoc,
                         id: int, pre: World, pool: map<int, EngineBp>, orphans: set<int>)
    requires Added(pre, prior, keys, results, pool, orphans)
    requires id in pool && id !in pre.pool && id !in orphans && pool[id].loc == Some(loc)
    ensures SetOnce(prior, keys, results) ==> loc in Latest(keys, results) && Latest(keys, results)[loc].id == id
  {
    var i :| 0 <= i < |keys| && SetNow(prior, keys, results, i) && results[i].id == id;
    LatestIsAnswer(keys, results, loc);
    assert keys[i] == Some(loc);
    var j :| 0 <= j < |keys| && keys[j] == Some(loc) && results[j].verified && Latest(keys, results)[loc] == results[j];
    assert SetNow(prior, keys, results, j);
  }

  lemma NoLeakMeansSetOnce(pre: World, scope: Scope, keys: Keys, results: seq<BreakpointResult>,
                           pool: map<int, EngineBp>, post: World)
    requires Sound(pre) && NoLeak(post, scope) && KeysIn(keys, scope)
    requires Added(pre, Within(pre.tracked, scope), keys, results, pool, post.orphans)
    requires forall id <- pool :: id !in pre.pool ==> id in post.pool && post.pool[id] == pool[id]
    ensures SetOnce(Within(pre.tracked, scope), keys, results)
  {
    var prior := Within(pre.tracked, scope);
    forall i, j | 0 <= i < j < |keys| && SetNow(prior, keys, results, i) && SetNow(prior, keys, results, j)
      ensures keys[i] != keys[j]
    {
      assert keys[i] in keys && keys[j] in keys;
      assert post.pool[results[i].id] == EngineBp(keys[i], true) && post.pool[results[j].id] == EngineBp(keys[j], true);
    }
  }

  /** Agreement puts the enabled breakpoints of a scope and its index in one-to-one correspondence. */
  lemma ExactCorrespondence(w: World, scope: Scope, loc: BpLoc, id: int)
    requires Sound(w) && NoLeak(w, scope) && scope.Covers(loc)
    ensures (id in w.pool && w.pool[id] == EngineBp(Some(loc), true)) <==> (loc in w.tracked && w.tracked[loc].id == id)
  {
    if loc in w.tracked {
      assert LiveAt(w.tracked[loc], loc, w.pool, w.orphans);
    }
  }

  /** The engine did all it was asked: it removed every stale id and left no half-made breakpoint. */
  ghost predicate Cooperative(pre: World, scope: Scope, keys: Keys, attempted: set<int>, kept: set<int>, post: World) {
    AllTried(pre, scope, keys, attempted) && kept == {} && post.orphans == pre.orphans
  }

  /** With a cooperative engine, a stale breakpoint survives exactly when its id is the skipped 0. */
  lemma DroppedUnlessZero(pre: World, scope: Scope, keys: Keys, results: seq<BreakpointResult>,
                          attempted: set<int>, kept: set<int>, post: World)
    requires Sound(pre) && (forall id <- pre.pool :: 0 <= id)
    requires Reconciled(pre, scope, keys, results, attempted, kept, post) &&
        Cooperative(pre, scope, keys, attempted, kept, post)
    ensures Dropped(pre, scope, keys, post) <==>
            forall loc <- pre.tracked :: scope.Covers(loc) && Some(loc) !in keys ==> pre.tracked[loc].id != 0
  {
    forall loc <- pre.tracked
      ensures pre.tracked[loc].id in pre.pool
    {
      assert LiveAt(pre.tracked[loc], loc, pre.pool, pre.orphans);
    }
  }

  /** A line indexed under id 0 stays in the engine when it is dropped, and nothing indexes it any more. */
  lemma ZeroIdSurvives(file: string, line: u32, pre: World, post: World)
    requires var loc := FileLine(file, line);
             && pre == World(map[0 := EngineBp(Some(loc), true)], {},
                 map[loc := BreakpointResult(0, true, line, "", false)])
             && post == World(pre.pool, {}, map[])
    ensures Sound(pre) && NoLeak(pre, FileScope(file))
    ensures Reconciled(pre, FileScope(file), [], [], {}, {}, post) &&
        Cooperative(pre, FileScope(file), [], {}, {}, post)
    ensures !Dropped(pre, FileScope(file), [], post) && !NoLeak(post, FileScope(file))
  {
    var loc := FileLine(file, line);
    assert Added(pre, Within(pre.tracked, FileScope(file)), [], [], pre.pool, post.orphans);
    assert post.pool == pre.pool - ({} - {});
    assert Outside(pre.tracked, FileScope(file)) == map[];
    assert loc in pre.tracked && pre.pool[0].loc.value == loc;
  }

  /**
   * A cooperative engine that numbers breakpoints from 1 ends up with exactly the requested
   * breakpoints when no untracked location is repeated; and when everything verifies, only then.
   */
  lemma CooperativeReconcileExact(pre: World, scope: Scope, keys: Keys, results: seq<BreakpointResult>,
                                  attempted: set<int>, kept: set<int>, post: World)
    requires Sound(pre) && NoLeak(pre, scope) && (forall id <- pre.pool :: 0 < id)
    requires Reconciled(pre, scope, keys, results, attempted, kept, post) &&
        Cooperative(pre, scope, keys, attempted, kept, post)
    ensures NoRepeats(pre, keys) ==> NoLeak(post, scope)
    ensures (forall i | 0 <= i < |keys| :: keys[i].Some? ==> results[i].verified) ==>
              (NoLeak(post, scope) <==> NoRepeats(pre, keys))
  {
    ReconcileKeepsSound(pre, scope, keys, results, attempted, kept, post);
    ReconcileExact(pre, scope, keys, results, attempted, kept, post);
    DroppedUnlessZero(pre, scope, keys, results, attempted, kept, post);
    forall loc <- pre.tracked
      ensures pre.tracked[loc].id in pre.pool
    {
      assert LiveAt(pre.tracked[loc], loc, pre.pool, pre.orphans);
    }
    var prior := Within(pre.tracked, scope);
    if (forall i | 0 <= i < |keys| :: keys[i].Some? ==> results[i].verified) && SetOnce(prior, keys, results) {
      forall i, j | 0 <= i < j < |keys| && keys[i].Some? && keys[i].value !in pre.tracked
        ensures keys[i] != keys[j]
      {
        if keys[j] == keys[i] {
          assert SetNow(prior, keys, results, i) && SetNow(prior, keys, results, j);
        }
      }
    }
    if NoRepeats(pre, keys) {
      forall i, j | 0 <= i < j < |keys| && SetNow(prior, keys, results, i) && SetNow(prior, keys, results, j)
        ensures keys[i] != keys[j]
      {
        assert keys[i] in keys;
      }
    }
  }

  /** Other scopes keep their index entries. */
  lemma OtherScopesUntouched(pre: World, scope: Scope, keys: Keys, results: seq<BreakpointResult>,
                             attempted: set<int>, kept: set<int>, post: World, other: Scope)
    requires Reconciled(pre, scope, keys, results, attempted, kept, post) && other != scope
    ensures Within(post.tracked, other) == Within(pre.tracked, other)
  {
    forall loc | other.Covers(loc)
      ensures loc !in Latest(keys, results)
    {
      LatestIsAnswer(keys, results, loc);
    }
  }

  /** Nor does a reconcile add or drop a breakpoint that could fire in another scope. */
  lemma OtherScopesKeepAgreeing(pre: World, scope: Scope, keys: Keys, results: seq<BreakpointResult>,
                                attempted: set<int>, kept: set<int>, post: World, other: Scope)
    requires Reconciled(pre, scope, keys, results, attempted, kept, post) && other != scope
    requires NoLeak(pre, other)
    ensures NoLeak(post, other)
  {
    OtherScopesUntouched(pre, scope, keys, results, attempted, kept, post, other);
    var pool: map<int, EngineBp> :| Added(pre, Within(pre.tracked, scope), keys, results, pool, post.orphans)
                                    && post.pool == pool - (attempted - kept);
    forall id <- post.pool | post.pool[id].enabled && post.pool[id].loc.Some? && other.Covers(post.pool[id].loc.value)
      ensures post.pool[id].loc.value in post.tracked && post.tracked[post.pool[id].loc.value].id == id
    {
      var loc := post.pool[id].loc.value;
      assert id in pool && pool[id] == post.pool[id];
      assert id !in pre.pool ==> Some(loc) in keys;
      assert pre.pool[id] == pool[id];
      assert loc in Within(pre.tracked, other);
      assert loc in Within(post.tracked, other);
    }
  }
}
