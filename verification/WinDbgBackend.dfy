/** The WinDbg backend's breakpoint operations: the two setters and the flush inside `launch`. */
module WinDbgBackend {
  import opened Wrappers
  import opened Neutral
  import opened DbgEng
  import opened Reconciliation

  datatype SourceBp = SourceBp(line: int, condition: string)

  datatype FunctionBp = FunctionBp(name: string, condition: string)

  /** `Closed` is a transport failure: the engine thread is gone. */
  datatype BackendError = Closed | Dap(message: string)

  datatype BreakpointTable = BreakpointTable(source: map<string, map<u32, BreakpointResult>>,
                                             functions: map<string, BreakpointResult>)

  const ADDRESS_BP_GUIDANCE := "set address breakpoints by command"

  // --- the index, location by location ---

  predicate Tracks(t: BreakpointTable, loc: BpLoc) {
    match loc
    case FileLine(file, line) => line in FileLines(t, file)
    case Function(name) => name in t.functions
  }

  function Entry(t: BreakpointTable, loc: BpLoc): BreakpointResult
    requires Tracks(t, loc)
  {
    match loc
    case FileLine(file, line) => FileLines(t, file)[line]
    case Function(name) => t.functions[name]
  }

  ghost predicate IsIndex(t: BreakpointTable, entries: map<BpLoc, BreakpointResult>) {
    && (forall loc :: loc in entries <==> Tracks(t, loc))
    && (forall loc <- entries :: entries[loc] == Entry(t, loc))
  }

  lemma IndexExists(t: BreakpointTable)
    ensures exists entries :: IsIndex(t, entries)
  {
    var locations := (set file, line | file in t.source && line in t.source[file] :: FileLine(file, line))
                     + (set name | name in t.functions :: Function(name));
    forall loc
      ensures loc in locations <==> Tracks(t, loc)
    {
    }
    var entries := map loc | loc in locations :: Entry(t, loc);
    assert IsIndex(t, entries);
  }

  /** The index as one map over locations. */
  ghost function Entries(t: BreakpointTable): (entries: map<BpLoc, BreakpointResult>)
    ensures IsIndex(t, entries)
  {
    IndexExists(t);
    var entries :| IsIndex(t, entries);
    entries
  }

  ghost function AsFile(file: string, lines: map<u32, BreakpointResult>): map<BpLoc, BreakpointResult> {
    map line | line in lines :: FileLine(file, line) := lines[line]
  }

  ghost function AsFunctions(names: map<string, BreakpointResult>): map<BpLoc, BreakpointResult> {
    map name | name in names :: Function(name) := names[name]
  }

  function FileLines(t: BreakpointTable, file: string): map<u32, BreakpointResult> {
    if file in t.source then t.source[file] else map[]
  }

  lemma EntriesOfFile(t: BreakpointTable, file: string)
    ensures Within(Entries(t), FileScope(file)) == AsFile(file, FileLines(t, file))
  {
  }

  lemma EntriesOfFunctions(t: BreakpointTable)
    ensures Within(Entries(t), FunctionScope) == AsFunctions(t.functions)
  {
  }

  lemma CommitFile(t: BreakpointTable, t': BreakpointTable, file: string, lines: map<u32, BreakpointResult>)
    requires t'.functions == t.functions
    requires t'.source == if lines == map[] then t.source - {file} else t.source[file := lines]
    ensures Entries(t') == Outside(Entries(t), FileScope(file)) + AsFile(file, lines)
  {
    var entries := Outside(Entries(t), FileScope(file)) + AsFile(file, lines);
    forall loc
      ensures loc in entries <==> Tracks(t', loc)
      ensures loc in entries ==> entries[loc] == Entry(t', loc)
    {
      OtherFile(t, t', file, lines, loc);
      assert loc in Entries(t) <==> Tracks(t, loc);
    }
    SameIndex(t', entries);
  }

  /** Replacing the lines of one file changes what is tracked in that file only. */
  lemma OtherFile(t: BreakpointTable, t': BreakpointTable, file: string, lines: map<u32, BreakpointResult>, loc: BpLoc)
    requires t'.functions == t.functions
    requires t'.source == if lines == map[] then t.source - {file} else t.source[file := lines]
    ensures Tracks(t', loc) <==> if FileScope(file).Covers(loc) then loc.line in lines else Tracks(t, loc)
    ensures Tracks(t', loc) ==> Entry(t', loc) == if FileScope(file).Covers(loc) then lines[loc.line] else Entry(t, loc)
  {
  }

  lemma CommitFunctions(t: BreakpointTable, names: map<string, BreakpointResult>)
    ensures Entries(t.(functions := names)) == Outside(Entries(t), FunctionScope) + AsFunctions(names)
  {
  }

  // --- what a request asks for ---

  function SourceKey(file: string, line: int): Option<BpLoc> {
    if 0 <= line < U32_LIMIT then Some(FileLine(file, line)) else None
  }

  function SourceKeys(file: string, bps: seq<SourceBp>): Keys {
    seq(|bps|, i requires 0 <= i < |bps| => SourceKey(file, bps[i].line))
  }

  function FunctionKey(name: string): Option<BpLoc> {
    if IsBareAddressName(name) then None else Some(Function(name))
  }

  function FunctionKeys(bps: seq<FunctionBp>): Keys {
    seq(|bps|, i requires 0 <= i < |bps| => FunctionKey(bps[i].name))
  }

  function FlushKeys(source: seq<(string, seq<SourceBp>)>): Keys {
    if source == [] then []
    else FlushKeys(source[..|source| - 1]) + SourceKeys(source[|source| - 1].0, source[|source| - 1].1)
  }

  function SourceTexts(bps: seq<SourceBp>): seq<string> {
    seq(|bps|, i requires 0 <= i < |bps| => bps[i].condition)
  }

  function FunctionTexts(bps: seq<FunctionBp>): seq<string> {
    seq(|bps|, i requires 0 <= i < |bps| => bps[i].condition)
  }

  function FlushTexts(source: seq<(string, seq<SourceBp>)>): seq<string> {
    if source == [] then []
    else FlushTexts(source[..|source| - 1]) + SourceTexts(source[|source| - 1].1)
  }

  /** A failure to resolve becomes an unverified answer; only a dead engine thread stays an error. */
  function BpResultOrContinue(outcome: Result<BreakpointResult, BackendError>, unverifiedLine: int)
    : (r: Result<BreakpointResult, BackendError>)
    ensures r.Failure? <==> outcome == Failure(Closed)
    ensures outcome.Success? ==> r == outcome
    ensures r.Success? && outcome.Failure? ==>
              r.value.id == 0 && !r.value.verified && !r.value.rejected && r.value.line == unverifiedLine
  {
    match outcome
    case Success(result) => Success(result)
    case Failure(Closed) => Failure(Closed)
    case Failure(Dap(message)) => Success(BreakpointResult(0, false, unverifiedLine, message, false))
  }

  class WinDbgBackend {
    const engine: Engine
    var breakpoints: BreakpointTable

    /** The engine's pool beside the index into it. */
    ghost function State(): World
      reads this, engine
    {
      World(engine.pool, engine.orphans, Entries(breakpoints))
    }

    ghost predicate Valid()
      reads this, engine
    {
      engine.Valid() && Sound(State())
    }

    constructor (engine: Engine)
      requires engine.Valid()
      ensures Valid() && this.engine == engine && State() == World(engine.pool, engine.orphans, map[])
    {
      this.engine := engine;
      breakpoints := BreakpointTable(map[], map[]);
    }

    /** Marshal a set to the engine thread, which may be gone before or after it acts. */
    method CallSet(loc: BpLoc, condition: string) returns (r: Result<BreakpointResult, BackendError>)
      requires engine.Valid()
      modifies engine
      ensures engine.Valid()
      ensures r.Success? ==>
                && r.value == BreakpointResult(r.value.id, true, LineOf(loc), "", false)
                && r.value.id !in old(engine.pool)
                && engine.pool == old(engine.pool)[r.value.id := EngineBp(Some(loc), true)]
                && engine.orphans == old(engine.orphans)
                && Carries(engine.conditions, r.value.id, condition)
      ensures SameConditions(old(engine.pool).Keys, old(engine.conditions), engine.conditions)
      ensures r.Failure? ==> LeftBehind(old(engine.pool), old(engine.orphans), loc, engine.pool, engine.orphans)
    {
      var delivered, answered: bool := *, *;
      if !delivered {
        return Failure(Closed);
      }
      var outcome := engine.SetBreakpoint(loc, condition);
      if !answered {
        if outcome.Success? {
          engine.orphans := engine.orphans + {outcome.value.id};
        }
        return Failure(Closed);
      }
      match outcome
      case Success(result) => return Success(result);
      case Failure(message) => return Failure(Dap(message));
    }

    /** Marshal a removal to the engine thread, which may be gone before or after it acts. */
    method CallRemove(id: int) returns (r: Result<(), BackendError>)
      requires engine.Valid()
      modifies engine
      ensures engine.Valid()
      ensures var bpId := id % U32_LIMIT;
              || (engine.pool == old(engine.pool) && engine.orphans == old(engine.orphans) && r.Failure?)
              || (engine.pool == old(engine.pool) - {bpId} && engine.orphans == old(engine.orphans) - {bpId})
      ensures || engine.conditions == old(engine.conditions)
              || engine.conditions == old(engine.conditions) - {id % U32_LIMIT}
    {
      var delivered, answered: bool := *, *;
      if !delivered {
        return Failure(Closed);
      }
      var outcome := engine.RemoveBreakpoint(id);
      if !answered {
        return Failure(Closed);
      }
      match outcome
      case Success(_) => return Success(());
      case Failure(message) => return Failure(Dap(message));
    }

    /** Best effort: only a dead engine thread is an error, and ids that are not real are skipped. */
    method RemoveEngineBreakpoint(id: int) returns (r: Result<(), BackendError>)
      requires engine.Valid() && id < U32_LIMIT
      modifies engine
      ensures engine.Valid()
      ensures r.Failure? ==> r.error == Closed
      ensures id <= 0 ==> r.Success? && engine.pool == old(engine.pool) && engine.orphans == old(engine.orphans)
      ensures || (engine.pool == old(engine.pool) && engine.orphans == old(engine.orphans))
              || (engine.pool == old(engine.pool) - {id} && engine.orphans == old(engine.orphans) - {id})
      ensures SameConditions(old(engine.pool).Keys - if id > 0 then {id} else {}, old(engine.conditions),
                             engine.conditions)
    {
      if id <= 0 {
        return Success(());
      }
      var outcome := CallRemove(id);
      match outcome
      case Success(_) => return Success(());
      case Failure(Closed) => return Failure(Closed);
      case Failure(Dap(_)) => return Success(());
    }

    /** The pass stands where the engine stands. */
    ghost predicate At(p: Pass)
      reads this, engine
    {
      engine.Valid() && p.pool == engine.pool && p.orphans == engine.orphans && p.texts.now == engine.conditions
    }

    /** Set a location that is not indexed; one that does not resolve is answered, not an error. */
    method SetNew(loc: BpLoc, condition: string, unverifiedLine: int, ghost p: Pass)
      returns (r: Result<BreakpointResult, BackendError>, ghost p': Pass)
      requires At(p) && loc !in p.prior
      modifies engine
      ensures At(p') && Extends(p, Some(loc), condition, r, p')
      ensures r.Success? ==> !r.value.rejected
      ensures r.Success? ==> r.value.line == if r.value.verified then LineOf(loc) else unverifiedLine
    {
      var outcome := CallSet(loc, condition);
      r := BpResultOrContinue(outcome, unverifiedLine);
      if r.Success? && r.value.verified {
        p' := AddOne(p, loc, condition, r.value, engine.conditions);
      } else {
        ghost var unset := if r.Success? then r.value else BreakpointResult(0, false, unverifiedLine, "", false);
        p' := LeaveOrphan(p, loc, condition, unset, engine.pool, engine.orphans, engine.conditions);
      }
    }

    /** One requested line: out of range, already indexed, or new. */
    method AnswerLine(file: string, bp: SourceBp, prior: map<u32, BreakpointResult>, ghost p: Pass)
      returns (r: Result<BreakpointResult, BackendError>, ghost p': Pass)
      requires At(p) && PriorIn(p, FileScope(file)) && p.prior == AsFile(file, prior)
      modifies engine
      ensures At(p') && Extends(p, SourceKey(file, bp.line), bp.condition, r, p')
      ensures r.Success? ==> r.value.line == bp.line && !r.value.rejected
      ensures r.Success? && bp.line in prior && 0 <= bp.line < U32_LIMIT ==> r.value.verified
    {
      if !(0 <= bp.line < U32_LIMIT) {
        var unset := BreakpointResult(0, false, bp.line, "line out of range", false);
        p' := SkipOne(p, None, bp.condition, unset);
        return Success(unset), p';
      }
      if bp.line in prior {
        ghost var loc := FileLine(file, bp.line);
        assert p.prior[loc] == prior[bp.line];
        PriorIsLive(p, FileScope(file), loc);
        p' := SkipOne(p, Some(loc), bp.condition, prior[bp.line]);
        return Success(prior[bp.line]), p';
      }
      r, p' := SetNew(FileLine(file, bp.line), bp.condition, bp.line, p);
    }

    /** One step of that pass: request `n` is desired, answered, and mapped if its answer is a real one. */
    method AddLine(file: string, bps: seq<SourceBp>, n: nat, prior: map<u32, BreakpointResult>,
                   newMap: map<u32, BreakpointResult>, desiredLines: set<u32>, ghost p: Pass)
      returns (result: Result<BreakpointResult, BackendError>, newMap': map<u32, BreakpointResult>,
               desiredLines': set<u32>, ghost p': Pass)
      requires At(p) && PriorIn(p, FileScope(file)) && p.prior == AsFile(file, prior)
      requires n < |bps| && LinesDone(file, bps[..n], p, newMap, desiredLines)
      modifies engine
      ensures At(p') && Continues(p, p')
      ensures result.Failure? ==> result.error == Closed && p'.keys <= SourceKeys(file, bps)
      ensures result.Success? ==>
                LinesDone(file, bps[..n + 1], p', newMap', desiredLines') && p'.results == p.results + [result.value]
    {
      NextSourceKey(file, bps, n);
      var line := bps[n].line;
      newMap', desiredLines' := newMap, desiredLines;
      result, p' := AnswerLine(file, bps[n], prior, p);
      if 0 <= line < U32_LIMIT {
        desiredLines' := desiredLines + {line};
      }
      if result.Failure? {
        return;
      }
      if 0 <= line < U32_LIMIT && (line in prior || result.value.verified) {
        newMap' := newMap[line := result.value];
      }
      NextLine(file, bps, n, p, p', result.value, newMap, desiredLines);
    }

    /** The add pass over one file: reuse what is indexed, set what is new. */
    method AddLines(file: string, bps: seq<SourceBp>, prior: map<u32, BreakpointResult>, ghost start: Pass)
      returns (r: Result<seq<BreakpointResult>, BackendError>, newMap: map<u32, BreakpointResult>,
               desiredLines: set<u32>, ghost p: Pass)
      requires At(start) && PriorIn(start, FileScope(file)) && start.prior == AsFile(file, prior)
      requires start.keys == [] && start.texts.asked == []
      modifies engine
      ensures At(p) && Continues(start, p)
      ensures r.Failure? ==> r.error == Closed && p.keys <= SourceKeys(file, bps)
      ensures r.Success? ==>
                LinesDone(file, bps, p, newMap, desiredLines) && p.results == r.value
    {
      newMap, desiredLines, p := map[], {}, start;
      var results: seq<BreakpointResult> := [];
      for n := 0 to |bps|
        invariant At(p) && Continues(start, p)
        invariant LinesDone(file, bps[..n], p, newMap, desiredLines) && p.results == results
      {
        var result;
        result, newMap, desiredLines, p := AddLine(file, bps, n, prior, newMap, desiredLines, p);
        if result.Failure? {
          return Failure(Closed), newMap, desiredLines, p;
        }
        results := results + [result.value];
      }
      assert bps[..|bps|] == bps;
      r := Success(results);
    }

    /** The removal pass over one file, in no particular order; a dead engine thread ends it early. */
    method RemoveStaleLines(ghost file: string, prior: map<u32, BreakpointResult>, desiredLines: set<u32>)
      returns (r: Result<(), BackendError>, ghost attempted: set<int>, ghost kept: set<int>)
      requires engine.Valid() && forall line <- prior :: prior[line].id < U32_LIMIT && prior[line].id !in engine.orphans
      modifies engine
      ensures engine.Valid() && engine.orphans == old(engine.orphans)
      ensures engine.pool == old(engine.pool) - (attempted - kept) && kept <= attempted
      ensures SameConditions(old(engine.pool).Keys - attempted, old(engine.conditions), engine.conditions)
      ensures forall id <- attempted :: exists line <- prior :: line !in desiredLines && prior[line].id == id && id > 0
      ensures r.Success? ==> forall line <- prior :: line !in desiredLines && prior[line].id > 0 ==>
          prior[line].id in attempted
      ensures r.Failure? ==> r.error == Closed && exists id :: id in attempted
    {
      attempted, kept := {}, {};
      var todo := prior.Keys;
      while todo != {}
        invariant engine.Valid() && engine.orphans == old(engine.orphans)
        invariant todo <= prior.Keys && kept <= attempted
        invariant engine.pool == old(engine.pool) - (attempted - kept)
        invariant SameConditions(old(engine.pool).Keys - attempted, old(engine.conditions), engine.conditions)
        invariant forall id <- attempted :: exists line <- prior ::
            line !in desiredLines && prior[line].id == id && id > 0
        invariant forall line <- prior :: line !in todo && line !in desiredLines && prior[line].id > 0 ==>
            prior[line].id in attempted
        decreases todo
      {
        var line :| line in todo;
        todo := todo - {line};
        if line !in desiredLines {
          ghost var id, before := prior[line].id, engine.pool;
          r := RemoveEngineBreakpoint(prior[line].id);
          if id > 0 {
            attempted, kept := attempted + {id}, if engine.pool == before && id in before then kept + {id}
                else kept - {id};
          }
          if r.Failure? {
            return;
          }
        }
      }
      r := Success(());
    }

    /**
     * Replace-all for one file: reuse what is indexed, set what is new, drop what is no longer
     * requested. The ghost results witness how far the call came when it fails.
     */
    method SetSourceBreakpoints(file: string, bps: seq<SourceBp>)
      returns (r: Result<seq<BreakpointResult>, BackendError>,
               ghost results: seq<BreakpointResult>, ghost attempted: set<int>, ghost kept: set<int>)
      requires Valid()
      modifies this`breakpoints, engine
      ensures Valid()
      ensures Replaced(old(State()), FileScope(file), SourceKeys(file, bps), r, results, attempted, kept, State())
      ensures Conditional(old(State()), FileScope(file), SourceKeys(file, bps), SourceTexts(bps), results, attempted,
                          old(engine.conditions), engine.conditions)
      ensures r.Success? ==> Echoes(bps, r.value)
    {
      ghost var pre, scope, keys := State(), FileScope(file), SourceKeys(file, bps);
      var prior := FileLines(breakpoints, file);
      EntriesOfFile(breakpoints, file);
      attempted, kept, results := {}, {}, [];

      ghost var p := Start(pre, Within(pre.tracked, scope), engine.conditions);
      var added, newMap, desiredLines;
      added, newMap, desiredLines, p := AddLines(file, bps, prior, p);
      if added.Failure? {
        SourceKeysInScope(file, bps);
        Abort(p, scope, keys, SourceTexts(bps), State());
        return Failure(Closed), results, attempted, kept;
      }
      results := added.value;

      LinesAreLive(p, file, prior);
      var removeResult;
      removeResult, attempted, kept := RemoveStaleLines(file, prior, desiredLines);
      StaleLines(pre, file, prior, keys, desiredLines);

      if newMap == map[] {
        breakpoints := breakpoints.(source := breakpoints.source - {file});
      } else {
        breakpoints := breakpoints.(source := breakpoints.source[file := newMap]);
      }
      CommitFile(old(breakpoints), breakpoints, file, newMap);
      SourceKeysInScope(file, bps);
      Finish(p, scope, attempted, kept, State(), engine.conditions);
      if removeResult.Failure? {
        return Failure(Closed), results, attempted, kept;
      }
      return Success(added.value), results, attempted, kept;
    }

    /** One requested function: an address to reject, already indexed, or new. */
    method AnswerName(bp: FunctionBp, prior: map<string, BreakpointResult>, ghost p: Pass)
      returns (r: Result<BreakpointResult, BackendError>, ghost p': Pass)
      requires At(p) && PriorIn(p, FunctionScope) && p.prior == AsFunctions(prior)
      modifies engine
      ensures At(p') && Extends(p, FunctionKey(bp.name), bp.condition, r, p')
      ensures r.Success? ==> r.value.line == 0 && (r.value.rejected <==> IsBareAddressName(bp.name))
      ensures r.Success? && bp.name in prior && !IsBareAddressName(bp.name) ==> r.value.verified
    {
      if IsBareAddressName(bp.name) {
        var rejected := BreakpointResult(0, false, 0, ADDRESS_BP_GUIDANCE, true);
        p' := SkipOne(p, None, bp.condition, rejected);
        return Success(rejected), p';
      }
      if bp.name in prior {
        ghost var loc := Function(bp.name);
        assert p.prior[loc] == prior[bp.name];
        PriorIsLive(p, FunctionScope, loc);
        p' := SkipOne(p, Some(loc), bp.condition, prior[bp.name]);
        return Success(prior[bp.name]), p';
      }
      r, p' := SetNew(Function(bp.name), bp.condition, 0, p);
    }

    /** One step of the pass over the functions: request `n` is desired and answered unless it is an address. */
    method AddName(bps: seq<FunctionBp>, n: nat, prior: map<string, BreakpointResult>,
                   newMap: map<string, BreakpointResult>, desiredNames: set<string>, ghost p: Pass)
      returns (result: Result<BreakpointResult, BackendError>, newMap': map<string, BreakpointResult>,
               desiredNames': set<string>, ghost p': Pass)
      requires At(p) && PriorIn(p, FunctionScope) && p.prior == AsFunctions(prior)
      requires n < |bps| && NamesDone(bps[..n], p, newMap, desiredNames)
      modifies engine
      ensures At(p') && Continues(p, p')
      ensures result.Failure? ==> result.error == Closed && p'.keys <= FunctionKeys(bps)
      ensures result.Success? ==>
                NamesDone(bps[..n + 1], p', newMap', desiredNames') && p'.results == p.results + [result.value]
    {
      NextFunctionKey(bps, n);
      var name := bps[n].name;
      newMap', desiredNames' := newMap, desiredNames;
      result, p' := AnswerName(bps[n], prior, p);
      if !IsBareAddressName(name) {
        desiredNames' := desiredNames + {name};
      }
      if result.Failure? {
        return;
      }
      if !IsBareAddressName(name) && (name in prior || result.value.verified) {
        newMap' := newMap[name := result.value];
      }
      NextName(bps, n, p, p', result.value, newMap, desiredNames);
    }

    /** The add pass over the functions: reject addresses, reuse what is indexed, set what is new. */
    method AddNames(bps: seq<FunctionBp>, prior: map<string, BreakpointResult>, ghost start: Pass)
      returns (r: Result<seq<BreakpointResult>, BackendError>, newMap: map<string, BreakpointResult>,
               desiredNames: set<string>, ghost p: Pass)
      requires At(start) && PriorIn(start, FunctionScope) && start.prior == AsFunctions(prior)
      requires start.keys == [] && start.texts.asked == []
      modifies engine
      ensures At(p) && Continues(start, p)
      ensures r.Failure? ==> r.error == Closed && p.keys <= FunctionKeys(bps)
      ensures r.Success? ==>
                NamesDone(bps, p, newMap, desiredNames) && p.results == r.value
    {
      newMap, desiredNames, p := map[], {}, start;
      var results: seq<BreakpointResult> := [];
      for n := 0 to |bps|
        invariant At(p) && Continues(start, p)
        invariant NamesDone(bps[..n], p, newMap, desiredNames) && p.results == results
      {
        var result;
        result, newMap, desiredNames, p := AddName(bps, n, prior, newMap, desiredNames, p);
        if result.Failure? {
          return Failure(Closed), newMap, desiredNames, p;
        }
        results := results + [result.value];
      }
      assert bps[..|bps|] == bps;
      r := Success(results);
    }

    /** The removal pass over the functions, in no particular order. */
    method RemoveStaleNames(prior: map<string, BreakpointResult>, desiredNames: set<string>)
      returns (r: Result<(), BackendError>, ghost attempted: set<int>, ghost kept: set<int>)
      requires engine.Valid() && forall name <- prior :: prior[name].id < U32_LIMIT && prior[name].id !in engine.orphans
      modifies engine
      ensures engine.Valid() && engine.orphans == old(engine.orphans)
      ensures engine.pool == old(engine.pool) - (attempted - kept) && kept <= attempted
      ensures SameConditions(old(engine.pool).Keys - attempted, old(engine.conditions), engine.conditions)
      ensures forall id <- attempted :: exists name <- prior :: name !in desiredNames && prior[name].id == id && id > 0
      ensures r.Success? ==> forall name <- prior :: name !in desiredNames && prior[name].id > 0 ==>
          prior[name].id in attempted
      ensures r.Failure? ==> r.error == Closed && exists id :: id in attempted
    {
      attempted, kept := {}, {};
      var todo := prior.Keys;
      while todo != {}
        invariant engine.Valid() && engine.orphans == old(engine.orphans)
        invariant todo <= prior.Keys && kept <= attempted
        invariant engine.pool == old(engine.pool) - (attempted - kept)
        invariant SameConditions(old(engine.pool).Keys - attempted, old(engine.conditions), engine.conditions)
        invariant forall id <- attempted :: exists name <- prior ::
            name !in desiredNames && prior[name].id == id && id > 0
        invariant forall name <- prior :: name !in todo && name !in desiredNames && prior[name].id > 0 ==>
            prior[name].id in attempted
        decreases todo
      {
        var name :| name in todo;
        todo := todo - {name};
        if name !in desiredNames {
          ghost var id, before := prior[name].id, engine.pool;
          r := RemoveEngineBreakpoint(prior[name].id);
          if id > 0 {
            attempted, kept := attempted + {id}, if engine.pool == before && id in before then kept + {id}
                else kept - {id};
          }
          if r.Failure? {
            return;
          }
        }
      }
      r := Success(());
    }

    /** Replace-all for the functions, the same contract as for one file. */
    method SetFunctionBreakpoints(bps: seq<FunctionBp>)
      returns (r: Result<seq<BreakpointResult>, BackendError>,
               ghost results: seq<BreakpointResult>, ghost attempted: set<int>, ghost kept: set<int>)
      requires Valid()
      modifies this`breakpoints, engine
      ensures Valid()
      ensures Replaced(old(State()), FunctionScope, FunctionKeys(bps), r, results, attempted, kept, State())
      ensures Conditional(old(State()), FunctionScope, FunctionKeys(bps), FunctionTexts(bps), results, attempted,
                          old(engine.conditions), engine.conditions)
      ensures r.Success? ==> RejectsAddresses(bps, r.value)
    {
      ghost var pre, scope, keys := State(), FunctionScope, FunctionKeys(bps);
      var prior := breakpoints.functions;
      EntriesOfFunctions(breakpoints);
      attempted, kept, results := {}, {}, [];

      ghost var p := Start(pre, Within(pre.tracked, scope), engine.conditions);
      var added, newMap, desiredNames;
      added, newMap, desiredNames, p := AddNames(bps, prior, p);
      if added.Failure? {
        FunctionKeysInScope(bps);
        Abort(p, scope, keys, FunctionTexts(bps), State());
        return Failure(Closed), results, attempted, kept;
      }
      results := added.value;

      NamesAreLive(p, prior);
      var removeResult;
      removeResult, attempted, kept := RemoveStaleNames(prior, desiredNames);
      StaleNames(pre, prior, keys, desiredNames);

      breakpoints := breakpoints.(functions := newMap);
      CommitFunctions(old(breakpoints), newMap);
      FunctionKeysInScope(bps);
      Finish(p, scope, attempted, kept, State(), engine.conditions);
      if removeResult.Failure? {
        return Failure(Closed), results, attempted, kept;
      }
      return Success(added.value), results, attempted, kept;
    }

    /** Set one flushed location, best effort: every failure, even a dead engine thread, is ignored. */
    method FlushOne(loc: BpLoc, condition: string, ghost p: Pass)
      returns (verified: Option<BreakpointResult>, ghost p': Pass)
      requires At(p) && p.prior == map[]
      modifies engine
      ensures At(p') && Continues(p, p') && p'.keys == p.keys + [Some(loc)]
      ensures p'.texts.asked == p.texts.asked + [condition]
      ensures Latest(p'.keys, p'.results) ==
              if verified.Some? then Latest(p.keys, p.results)[loc := verified.value] else Latest(p.keys, p.results)
    {
      var outcome := CallSet(loc, condition);
      if outcome.Success? && outcome.value.verified {
        p' := AddOne(p, loc, condition, outcome.value, engine.conditions);
        return Some(outcome.value), p';
      }
      ghost var unset := BreakpointResult(0, false, LineOf(loc), "", false);
      p' := LeaveOrphan(p, loc, condition, unset, engine.pool, engine.orphans, engine.conditions);
      return None, p';
    }

    /** The index holds what it held before the flush, and what the flush verified since. */
    ghost predicate Indexed(p: Pass)
      reads this
    {
      Entries(breakpoints) == p.pre.tracked + Latest(p.keys, p.results)
    }

    /** Flush one pending line; a malformed one is skipped. */
    method FlushLine(file: string, bp: SourceBp, ghost p: Pass) returns (ghost p': Pass)
      requires At(p) && p.prior == map[] && Indexed(p)
      modifies this`breakpoints, engine
      ensures At(p') && Continues(p, p') && Indexed(p')
      ensures p'.keys == p.keys + [SourceKey(file, bp.line)] && p'.texts.asked == p.texts.asked + [bp.condition]
    {
      if !(0 <= bp.line < U32_LIMIT) {
        p' := SkipOne(p, None, bp.condition, BreakpointResult(0, false, bp.line, "", false));
        return;
      }
      var result;
      result, p' := FlushOne(FileLine(file, bp.line), bp.condition, p);
      if result.Some? {
        InsertLine(breakpoints, p.pre.tracked, Latest(p.keys, p.results), file, bp.line, result.value);
        breakpoints := breakpoints.(source :=
            breakpoints.source[file := FileLines(breakpoints, file)[bp.line := result.value]]);
      }
    }

    /** Flush one pending function; an address is skipped. */
    method FlushName(bp: FunctionBp, ghost p: Pass) returns (ghost p': Pass)
      requires At(p) && p.prior == map[] && Indexed(p)
      modifies this`breakpoints, engine
      ensures At(p') && Continues(p, p') && Indexed(p')
      ensures p'.keys == p.keys + [FunctionKey(bp.name)] && p'.texts.asked == p.texts.asked + [bp.condition]
    {
      if IsBareAddressName(bp.name) {
        p' := SkipOne(p, None, bp.condition, BreakpointResult(0, false, 0, "", false));
        return;
      }
      var result;
      result, p' := FlushOne(Function(bp.name), bp.condition, p);
      if result.Some? {
        InsertName(breakpoints, p.pre.tracked, Latest(p.keys, p.results), bp.name, result.value);
        breakpoints := breakpoints.(functions := breakpoints.functions[bp.name := result.value]);
      }
    }

    /** The flush of one file's pending lines. */
    method FlushFile(file: string, bps: seq<SourceBp>, ghost start: Pass) returns (ghost p: Pass)
      requires At(start) && start.prior == map[] && Indexed(start)
      modifies this`breakpoints, engine
      ensures At(p) && Continues(start, p) && Indexed(p)
      ensures p.keys == start.keys + SourceKeys(file, bps) && p.texts.asked == start.texts.asked + SourceTexts(bps)
    {
      p := start;
      for n := 0 to |bps|
        invariant At(p) && Continues(start, p) && Indexed(p)
        invariant p.keys == start.keys + SourceKeys(file, bps[..n])
        invariant p.texts.asked == start.texts.asked + SourceTexts(bps[..n])
      {
        NextSourceKey(file, bps, n);
        OneMore(start.keys, SourceKeys(file, bps[..n]), SourceKey(file, bps[n].line));
        OneMore(start.texts.asked, SourceTexts(bps[..n]), bps[n].condition);
        p := FlushLine(file, bps[n], p);
      }
      assert bps[..|bps|] == bps;
    }

    /** The flush of the pending functions. */
    method FlushFunctions(bps: seq<FunctionBp>, ghost start: Pass) returns (ghost p: Pass)
      requires At(start) && start.prior == map[] && Indexed(start)
      modifies this`breakpoints, engine
      ensures At(p) && Continues(start, p) && Indexed(p)
      ensures p.keys == start.keys + FunctionKeys(bps) && p.texts.asked == start.texts.asked + FunctionTexts(bps)
    {
      p := start;
      for n := 0 to |bps|
        invariant At(p) && Continues(start, p) && Indexed(p)
        invariant p.keys == start.keys + FunctionKeys(bps[..n])
        invariant p.texts.asked == start.texts.asked + FunctionTexts(bps[..n])
      {
        NextFunctionKey(bps, n);
        OneMore(start.keys, FunctionKeys(bps[..n]), FunctionKey(bps[n].name));
        OneMore(start.texts.asked, FunctionTexts(bps[..n]), bps[n].condition);
        p := FlushName(bps[n], p);
      }
      assert bps[..|bps|] == bps;
    }

    /**
     * Launch: `launched` is the engine thread's answer to the launch command. Only a stop flushes
     * the pending breakpoints, and no flush failure fails the launch.
     */
    method Launch(launched: Result<StopOutcome, BackendError>, source: seq<(string, seq<SourceBp>)>,
        functions: seq<FunctionBp>)
      returns (r: Result<LaunchOutcome, BackendError>, ghost results: seq<BreakpointResult>)
      requires Valid()
      modifies this`breakpoints, engine
      ensures Valid()
      ensures r == if launched.Success? then Success(ToLaunch(launched.value)) else Failure(launched.error)
      ensures if launched.Success? && launched.value.Stopped?
              then Flushed(old(State()), FlushKeys(source) + FunctionKeys(functions), results, State())
              else State() == old(State())
      // No condition of an earlier session is left, and each flushed breakpoint has its own.
      ensures launched.Success? ==>
                if launched.value.Stopped?
                then FlushConditional(old(State()), FlushKeys(source) + FunctionKeys(functions),
                                      FlushTexts(source) + FunctionTexts(functions), results, engine.conditions)
                else engine.conditions == map[]
    {
      results := [];
      var delivered: bool := *;
      if delivered || launched.Success? {
        engine.ClearConditions();
      }
      if launched.Failure? {
        return Failure(launched.error), results;
      }
      if !launched.value.Stopped? {
        return Success(ToLaunch(launched.value)), results;
      }
      results := FlushAll(source, functions);
      return Success(ToLaunch(launched.value)), results;
    }

    /** The flush of everything that is pending. */
    method FlushAll(source: seq<(string, seq<SourceBp>)>, functions: seq<FunctionBp>)
      returns (ghost results: seq<BreakpointResult>)
      requires Valid() && engine.conditions == map[]
      modifies this`breakpoints, engine
      ensures Valid()
      ensures Flushed(old(State()), FlushKeys(source) + FunctionKeys(functions), results, State())
      ensures FlushConditional(old(State()), FlushKeys(source) + FunctionKeys(functions),
                               FlushTexts(source) + FunctionTexts(functions), results, engine.conditions)
    {
      ghost var start := Start(State(), map[], engine.conditions);
      ghost var p := start;
      for n := 0 to |source|
        invariant At(p) && Continues(start, p) && Indexed(p)
        invariant p.keys == FlushKeys(source[..n]) && p.texts.asked == FlushTexts(source[..n])
      {
        assert source[..n + 1][..n] == source[..n];
        p := FlushFile(source[n].0, source[n].1, p);
      }
      assert source[..|source|] == source;
      p := FlushFunctions(functions, p);
      results := p.results;
      FlushKeysAreNames(source, functions);
      FlushKeepsSound(p.pre, FlushKeys(source) + FunctionKeys(functions), results, State());
      FlushTextsAre(p);
    }
  }

  /** All that one replace-all call may do. */
  ghost predicate Replaced(pre: World, scope: Scope, keys: Keys, r: Result<seq<BreakpointResult>, BackendError>,
                           results: seq<BreakpointResult>, attempted: set<int>, kept: set<int>, post: World) {
    match r
    case Success(answers) =>
      && answers == results
      && Reconciled(pre, scope, keys, results, attempted, kept, post)
      && AllTried(pre, scope, keys, attempted)
    case Failure(error) =>
      && error == Closed
      && (|| Aborted(pre, scope, keys, post)
          || (Reconciled(pre, scope, keys, results, attempted, kept, post) && exists id :: id in attempted))
  }

  /**
   * What one replace-all call does to the engine's conditions: each breakpoint it set carries the
   * condition of its own request, and no other lost or gained one but those it tried to remove.
   */
  ghost predicate Conditional(pre: World, scope: Scope, keys: Keys, asked: seq<string>, results: seq<BreakpointResult>,
                              attempted: set<int>, before: Conditions, after: Conditions) {
    && SameConditions(pre.pool.Keys - attempted, before, after)
    && (|results| == |keys| == |asked| ==>
          forall i | 0 <= i < |keys| && SetNow(Within(pre.tracked, scope), keys, results, i) ::
            Carries(after, results[i].id, asked[i]))
  }

  /** A launch leaves no condition on an older breakpoint, and gives each one it set its own. */
  ghost predicate FlushConditional(pre: World, keys: Keys, asked: seq<string>, results: seq<BreakpointResult>,
                                   after: Conditions) {
    && (forall id <- after :: id !in pre.pool)
    && |results| == |keys| == |asked|
    && forall i | 0 <= i < |keys| && SetNow(map[], keys, results, i) :: Carries(after, results[i].id, asked[i])
  }

  /**
   * After a replace-all call, a breakpoint that was indexed before keeps its entry and its condition;
   * every other one that is indexed answers a request of this call, and carries that request's condition.
   */
  lemma IndexedCarries(pre: World, scope: Scope, keys: Keys, asked: seq<string>, results: seq<BreakpointResult>,
                       attempted: set<int>, kept: set<int>, post: World, before: Conditions, after: Conditions,
                       loc: BpLoc)
    requires Sound(pre) && Reconciled(pre, scope, keys, results, attempted, kept, post) && |asked| == |keys|
    requires Conditional(pre, scope, keys, asked, results, attempted, before, after)
    requires loc in post.tracked
    ensures if loc in pre.tracked then
              post.tracked[loc] == pre.tracked[loc] && SameConditions({post.tracked[loc].id}, before, after)
            else
              exists i :: 0 <= i < |keys| && keys[i] == Some(loc) && results[i] == post.tracked[loc]
                          && Carries(after, results[i].id, asked[i])
  {
    ReconcileKeepsSound(pre, scope, keys, results, attempted, kept, post);
    LatestIsAnswer(keys, results, loc);
    if loc in pre.tracked {
      assert LiveAt(pre.tracked[loc], loc, pre.pool, pre.orphans);
      if loc !in Latest(keys, results) {
        assert !scope.Covers(loc);
      } else {
        var i :| 0 <= i < |keys| && keys[i] == Some(loc) && results[i].verified;
        assert keys[i] in keys;
      }
    } else {
      var i :| 0 <= i < |keys| && keys[i] == Some(loc) && results[i].verified &&
          Latest(keys, results)[loc] == results[i];
      assert SetNow(Within(pre.tracked, scope), keys, results, i);
    }
  }

  lemma FlushTextsAre(p: Pass)
    requires p.prior == map[] && p.texts.before == map[]
    ensures FlushConditional(p.pre, p.keys, p.texts.asked, p.results, p.texts.now)
  {
  }

  lemma TextsAfterRemoval(p: Pass, scope: Scope, attempted: set<int>, after: Conditions)
    requires p.prior == Within(p.pre.tracked, scope) && attempted <= p.pre.pool.Keys
    requires SameConditions(p.pool.Keys - attempted, p.texts.now, after)
    ensures Conditional(p.pre, scope, p.keys, p.texts.asked, p.results, attempted, p.texts.before, after)
  {
    forall i | 0 <= i < |p.keys| && SetNow(p.prior, p.keys, p.results, i)
      ensures Carries(after, p.results[i].id, p.texts.asked[i])
    {
      assert LiveAt(p.results[i], p.keys[i].value, p.pool, p.orphans);
      assert Carries(p.texts.now, p.results[i].id, p.texts.asked[i]);
    }
  }

  /** The same pass over the same index, further on. */
  ghost predicate Continues(start: Pass, p: Pass) {
    p.pre == start.pre && p.prior == start.prior && p.texts.before == start.texts.before
  }

  /** One request further: answered by `r`, or cut short by a dead engine thread. */
  ghost predicate Extends(p: Pass, key: Option<BpLoc>, condition: string, r: Result<BreakpointResult, BackendError>,
                          p': Pass) {
    && Continues(p, p') && p'.keys == p.keys + [key] && p'.texts.asked == p.texts.asked + [condition]
    && (r.Failure? ==> r.error == Closed)
    && (r.Success? ==>
          && p'.results == p.results + [r.value]
          && Latest(p'.keys, p'.results) ==
             if key.Some? && r.value.verified then Latest(p.keys, p.results)[key.value := r.value]
                 else Latest(p.keys, p.results))
  }

  /** What the pass may reuse is the sound index entry of its scope. */
  ghost predicate PriorIn(p: Pass, scope: Scope) {
    Sound(p.pre) && p.prior == Within(p.pre.tracked, scope)
  }

  /** The tracked ids of a scope are real, and none of them became an orphan meanwhile. */
  lemma LinesAreLive(p: Pass, file: string, prior: map<u32, BreakpointResult>)
    requires PriorIn(p, FileScope(file)) && p.prior == AsFile(file, prior)
    ensures forall line <- prior :: prior[line].id in p.pool && prior[line].id !in p.orphans
  {
    forall line <- prior
      ensures prior[line].id in p.pool && prior[line].id !in p.orphans
    {
      assert p.prior[FileLine(file, line)] == prior[line];
      PriorIsLive(p, FileScope(file), FileLine(file, line));
    }
  }

  lemma NamesAreLive(p: Pass, prior: map<string, BreakpointResult>)
    requires PriorIn(p, FunctionScope) && p.prior == AsFunctions(prior)
    ensures forall name <- prior :: prior[name].id in p.pool && prior[name].id !in p.orphans
  {
    forall name <- prior
      ensures prior[name].id in p.pool && prior[name].id !in p.orphans
    {
      assert p.prior[Function(name)] == prior[name];
      PriorIsLive(p, FunctionScope, Function(name));
    }
  }

  /** Committing the answers of a complete pass, after removing some stale ids, reconciles. */
  lemma Finish(p: Pass, scope: Scope, attempted: set<int>, kept: set<int>, post: World, after: Conditions)
    requires PriorIn(p, scope) && KeysIn(p.keys, scope)
    requires kept <= attempted && (forall id <- attempted :: Stale(p.pre, scope, p.keys, id))
    requires post == World(p.pool - (attempted - kept), p.orphans,
        Outside(p.pre.tracked, scope) + Latest(p.keys, p.results))
    requires SameConditions(p.pool.Keys - attempted, p.texts.now, after)
    ensures Reconciled(p.pre, scope, p.keys, p.results, attempted, kept, post) && Sound(post)
    ensures Conditional(p.pre, scope, p.keys, p.texts.asked, p.results, attempted, p.texts.before, after)
  {
    assert Added(p.pre, Within(p.pre.tracked, scope), p.keys, p.results, p.pool, post.orphans);
    ReconcileKeepsSound(p.pre, scope, p.keys, p.results, attempted, kept, post);
    forall id <- attempted
      ensures id in p.pre.pool
    {
      StaleIsLive(p.pre, scope, p.keys, id);
    }
    TextsAfterRemoval(p, scope, attempted, after);
  }

  /** A pass cut short leaves the index, and every condition in place, as they were. */
  lemma Abort(p: Pass, scope: Scope, keys: Keys, asked: seq<string>, post: World)
    requires PriorIn(p, scope) && KeysIn(keys, scope) && p.keys <= keys
    requires post == World(p.pool, p.orphans, p.pre.tracked)
    ensures Aborted(p.pre, scope, keys, post) && Sound(post)
    ensures Conditional(p.pre, scope, keys, asked, [], {}, p.texts.before, p.texts.now)
  {
    GainedForLonger(p, keys);
    AbortKeepsSound(p.pre, scope, keys, post);
  }

  lemma PriorIsLive(p: Pass, scope: Scope, loc: BpLoc)
    requires PriorIn(p, scope) && loc in p.prior
    ensures LiveAt(p.prior[loc], loc, p.pre.pool, p.pre.orphans)
  {
    assert loc in p.pre.tracked;
  }

  lemma PutLine(file: string, lines: map<u32, BreakpointResult>, line: u32, r: BreakpointResult)
    ensures AsFile(file, lines[line := r]) == AsFile(file, lines)[FileLine(file, line) := r]
  {
  }

  /** The tracked lines that are not desired are the stale ones. */
  lemma StaleLines(pre: World, file: string, prior: map<u32, BreakpointResult>, keys: Keys, desiredLines: set<u32>)
    requires Within(pre.tracked, FileScope(file)) == AsFile(file, prior)
    requires DesiresLines(file, desiredLines, keys)
    ensures forall id :: Stale(pre, FileScope(file), keys, id) <==>
                         exists line <- prior :: line !in desiredLines && prior[line].id == id && id > 0
  {
    var lines := AsFile(file, prior);
    forall line <- prior
      ensures FileLine(file, line) in pre.tracked && pre.tracked[FileLine(file, line)] == prior[line]
    {
      assert FileLine(file, line) in lines;
    }
    forall loc <- pre.tracked | FileScope(file).Covers(loc)
      ensures loc.line in prior && prior[loc.line] == pre.tracked[loc]
    {
      assert loc in lines;
    }
  }

  /** Each answer carries the line of its request. */
  ghost predicate Echoes(bps: seq<SourceBp>, results: seq<BreakpointResult>) {
    && |results| == |bps|
    && forall i | 0 <= i < |bps| :: results[i].line == bps[i].line && !results[i].rejected
  }

  lemma NextEcho(bps: seq<SourceBp>, n: nat, results: seq<BreakpointResult>, r: BreakpointResult)
    requires n < |bps| && Echoes(bps[..n], results) && r.line == bps[n].line && !r.rejected
    ensures Echoes(bps[..n + 1], results + [r])
  {
  }

  lemma NextSourceKey(file: string, bps: seq<SourceBp>, n: nat)
    requires n < |bps|
    ensures SourceKeys(file, bps[..n + 1]) == SourceKeys(file, bps[..n]) + [SourceKey(file, bps[n].line)]
    ensures SourceTexts(bps[..n + 1]) == SourceTexts(bps[..n]) + [bps[n].condition]
    ensures bps[..n + 1] == bps[..n] + [bps[n]]
    ensures SourceKeys(file, bps[..n + 1]) <= SourceKeys(file, bps)
  {
  }

  lemma OneMore<T>(earlier: seq<T>, xs: seq<T>, x: T)
    ensures earlier + xs + [x] == earlier + (xs + [x])
  {
  }

  lemma SourceKeysInScope(file: string, bps: seq<SourceBp>)
    ensures KeysIn(SourceKeys(file, bps), FileScope(file))
  {
  }

  ghost predicate DesiresLines(file: string, desiredLines: set<u32>, keys: Keys) {
    forall line: u32 :: line in desiredLines <==> Some(FileLine(file, line)) in keys
  }

  lemma DesiresLine(file: string, desiredLines: set<u32>, keys: Keys, line: int)
    requires DesiresLines(file, desiredLines, keys)
    ensures DesiresLines(file, if 0 <= line < U32_LIMIT then desiredLines + {line} else desiredLines,
                         keys + [SourceKey(file, line)])
  {
  }

  ghost predicate DesiresNames(desiredNames: set<string>, keys: Keys) {
    forall name :: name in desiredNames <==> Some(Function(name)) in keys
  }

  lemma DesiresName(desiredNames: set<string>, keys: Keys, name: string)
    requires DesiresNames(desiredNames, keys)
    ensures DesiresNames(if IsBareAddressName(name) then desiredNames else desiredNames + {name},
                         keys + [FunctionKey(name)])
  {
  }

  /** The add pass over a file when these requests are answered: its new map and the lines it desires. */
  ghost predicate LinesDone(file: string, bps: seq<SourceBp>, p: Pass, newMap: map<u32, BreakpointResult>,
                            desiredLines: set<u32>) {
    && p.keys == SourceKeys(file, bps) && p.texts.asked == SourceTexts(bps)
    && AsFile(file, newMap) == Latest(p.keys, p.results)
    && DesiresLines(file, desiredLines, p.keys)
    && Echoes(bps, p.results)
  }

  lemma NextLine(file: string, bps: seq<SourceBp>, n: nat, p: Pass, p': Pass, r: BreakpointResult,
                 newMap: map<u32, BreakpointResult>, desiredLines: set<u32>)
    requires n < |bps| && LinesDone(file, bps[..n], p, newMap, desiredLines)
    requires Extends(p, SourceKey(file, bps[n].line), bps[n].condition, Success(r), p')
    requires r.line == bps[n].line && !r.rejected
    ensures var line := bps[n].line;
            LinesDone(file, bps[..n + 1], p',
                      if 0 <= line < U32_LIMIT && r.verified then newMap[line := r] else newMap,
                      if 0 <= line < U32_LIMIT then desiredLines + {line} else desiredLines)
  {
    var line := bps[n].line;
    NextSourceKey(file, bps, n);
    DesiresLine(file, desiredLines, p.keys, line);
    NextEcho(bps, n, p.results, r);
    if 0 <= line < U32_LIMIT {
      PutLine(file, newMap, line, r);
    }
  }

  /** The add pass over the functions when these requests are answered. */
  ghost predicate NamesDone(bps: seq<FunctionBp>, p: Pass, newMap: map<string, BreakpointResult>,
                            desiredNames: set<string>) {
    && p.keys == FunctionKeys(bps) && p.texts.asked == FunctionTexts(bps)
    && AsFunctions(newMap) == Latest(p.keys, p.results)
    && DesiresNames(desiredNames, p.keys)
    && RejectsAddresses(bps, p.results)
  }

  lemma NextName(bps: seq<FunctionBp>, n: nat, p: Pass, p': Pass, r: BreakpointResult,
                 newMap: map<string, BreakpointResult>, desiredNames: set<string>)
    requires n < |bps| && NamesDone(bps[..n], p, newMap, desiredNames)
    requires Extends(p, FunctionKey(bps[n].name), bps[n].condition, Success(r), p')
    requires r.line == 0 && (r.rejected <==> IsBareAddressName(bps[n].name))
    ensures var name := bps[n].name;
            NamesDone(bps[..n + 1], p',
                      if !IsBareAddressName(name) && r.verified then newMap[name := r] else newMap,
                      if IsBareAddressName(name) then desiredNames else desiredNames + {name})
  {
    var name := bps[n].name;
    NextFunctionKey(bps, n);
    DesiresName(desiredNames, p.keys, name);
    NextRejection(bps, n, p.results, r);
    PutName(newMap, name, r);
  }

  lemma GainedForLonger(p: Pass, more: Keys)
    requires p.keys <= more
    ensures Gained(p.pre, p.prior, more, p.pool, p.orphans)
  {
    assert forall k <- p.keys :: k in more;
  }

  lemma PutName(names: map<string, BreakpointResult>, name: string, r: BreakpointResult)
    ensures AsFunctions(names[name := r]) == AsFunctions(names)[Function(name) := r]
  {
  }

  /** The tracked names that are not desired are the stale ones. */
  lemma StaleNames(pre: World, prior: map<string, BreakpointResult>, keys: Keys, desiredNames: set<string>)
    requires Within(pre.tracked, FunctionScope) == AsFunctions(prior)
    requires DesiresNames(desiredNames, keys)
    ensures forall id :: Stale(pre, FunctionScope, keys, id) <==>
                         exists name <- prior :: name !in desiredNames && prior[name].id == id && id > 0
  {
    var names := AsFunctions(prior);
    forall name <- prior
      ensures Function(name) in pre.tracked && pre.tracked[Function(name)] == prior[name]
    {
      assert Function(name) in names;
    }
    forall loc <- pre.tracked | FunctionScope.Covers(loc)
      ensures loc.name in prior && prior[loc.name] == pre.tracked[loc]
    {
      assert loc in names;
    }
  }

  /** Exactly the bare addresses are answered as rejected; no answer carries a line. */
  ghost predicate RejectsAddresses(bps: seq<FunctionBp>, results: seq<BreakpointResult>) {
    && |results| == |bps|
    && forall i | 0 <= i < |bps| :: results[i].line == 0 && (results[i].rejected <==> IsBareAddressName(bps[i].name))
  }

  lemma NextRejection(bps: seq<FunctionBp>, n: nat, results: seq<BreakpointResult>, r: BreakpointResult)
    requires n < |bps| && RejectsAddresses(bps[..n], results)
    requires r.line == 0 && (r.rejected <==> IsBareAddressName(bps[n].name))
    ensures RejectsAddresses(bps[..n + 1], results + [r])
  {
  }

  lemma NextFunctionKey(bps: seq<FunctionBp>, n: nat)
    requires n < |bps|
    ensures FunctionKeys(bps[..n + 1]) == FunctionKeys(bps[..n]) + [FunctionKey(bps[n].name)]
    ensures FunctionTexts(bps[..n + 1]) == FunctionTexts(bps[..n]) + [bps[n].condition]
    ensures bps[..n + 1] == bps[..n] + [bps[n]]
    ensures FunctionKeys(bps[..n + 1]) <= FunctionKeys(bps)
  {
  }

  lemma FunctionKeysInScope(bps: seq<FunctionBp>)
    ensures KeysIn(FunctionKeys(bps), FunctionScope)
  {
  }

  lemma {:induction false} FlushKeysAreNames(source: seq<(string, seq<SourceBp>)>, functions: seq<FunctionBp>)
    ensures forall k <- FlushKeys(source) :: k.Some? ==> k.value.FileLine?
    ensures forall k <- FlushKeys(source) + FunctionKeys(functions) :: k.Some? ==> !IsBareAddress(k.value)
  {
    if source != [] {
      FlushKeysAreNames(source[..|source| - 1], functions);
    }
    FunctionKeysInScope(functions);
  }

  lemma SameIndex(t: BreakpointTable, entries: map<BpLoc, BreakpointResult>)
    requires IsIndex(t, entries)
    ensures Entries(t) == entries
  {
  }

  lemma InsertLine(t: BreakpointTable, base: map<BpLoc, BreakpointResult>, flushed: map<BpLoc, BreakpointResult>,
                   file: string, line: u32, r: BreakpointResult)
    requires Entries(t) == base + flushed
    ensures Entries(t.(source := t.source[file := FileLines(t, file)[line := r]])) ==
        base + flushed[FileLine(file, line) := r]
  {
    var t' := t.(source := t.source[file := FileLines(t, file)[line := r]]);
    var entries := base + flushed[FileLine(file, line) := r];
    assert line in FileLines(t, file)[line := r];
    forall loc
      ensures loc in entries <==> Tracks(t', loc)
      ensures loc in entries ==> entries[loc] == Entry(t', loc)
    {
      OtherFile(t, t', file, FileLines(t, file)[line := r], loc);
      assert loc in Entries(t) <==> Tracks(t, loc);
    }
    SameIndex(t', entries);
  }

  lemma OtherName(t: BreakpointTable, name: string, r: BreakpointResult, loc: BpLoc)
    ensures var t' := t.(functions := t.functions[name := r]);
            && (Tracks(t', loc) <==> loc == Function(name) || Tracks(t, loc))
            && (Tracks(t', loc) ==> Entry(t', loc) == if loc == Function(name) then r else Entry(t, loc))
  {
  }

  lemma InsertName(t: BreakpointTable, base: map<BpLoc, BreakpointResult>, flushed: map<BpLoc, BreakpointResult>,
                   name: string, r: BreakpointResult)
    requires Entries(t) == base + flushed
    ensures Entries(t.(functions := t.functions[name := r])) == base + flushed[Function(name) := r]
  {
    var t' := t.(functions := t.functions[name := r]);
    var entries := base + flushed[Function(name) := r];
    forall loc
      ensures loc in entries <==> Tracks(t', loc)
      ensures loc in entries ==> entries[loc] == Entry(t', loc)
    {
      OtherName(t, name, r, loc);
      assert loc in Entries(t) <==> Tracks(t, loc);
    }
    SameIndex(t', entries);
  }
}
