/** The session manager: one locked record, and the operations the breakpoint handlers use on it. */
module Session {
  import opened Bytes
  import opened Wrappers
  import opened Neutral
  import opened WinDbgBackend

  datatype State = Idle | Configuring | Halted | Running | Ended

  /** Where a breakpoint was asked for, whether or not the backend could take it. */
  datatype Site = Line(file: string, line: int) | Name(name: string)

  datatype BreakpointInfo = BreakpointInfo(id: int, site: Site, condition: string, verified: bool)

  datatype Inner = Inner(
    state: State,
    generation: nat,
    exitCode: Option<int>,
    lastStopped: Option<StopInfo>,
    sourceBps: map<string, seq<SourceBp>>,
    functionBps: seq<FunctionBp>,
    bpResponses: map<int, BreakpointInfo>,
    pendingSourceBps: map<string, seq<SourceBp>>,
    pendingFunctionBps: seq<FunctionBp>)

  const FRESH := Inner(Idle, 0, None, None, map[], [], map[], map[], [])

  function Listed(lists: map<string, seq<SourceBp>>, file: string): seq<SourceBp> {
    if file in lists then lists[file] else []
  }

  function Push(lists: map<string, seq<SourceBp>>, file: string, bp: SourceBp): map<string, seq<SourceBp>> {
    lists[file := Listed(lists, file) + [bp]]
  }

  function LinesOf(bps: seq<SourceBp>): seq<int> {
    seq(|bps|, i requires 0 <= i < |bps| => bps[i].line)
  }

  function NamesOf(bps: seq<FunctionBp>): seq<string> {
    seq(|bps|, i requires 0 <= i < |bps| => bps[i].name)
  }

  /** The position of the first occurrence, as `Iterator::position` finds it. */
  function Position<T(==)>(xs: seq<T>, x: T): (p: Option<nat>)
    ensures p.Some? <==> x in xs
    ensures p.Some? ==> p.value < |xs| && xs[p.value] == x && x !in xs[..p.value]
  {
    if xs == [] then None
    else if xs[0] == x then Some(0)
    else
      var rest := Position(xs[1..], x);
      if rest.None? then None else Some(rest.value + 1)
  }

  /** A list without the entry at the first occurrence of `x` in `keys`. */
  function WithoutFirst<T, K(==)>(list: seq<T>, keys: seq<K>, x: K): seq<T>
    requires |keys| == |list|
  {
    var p := Position(keys, x);
    if p.None? then list else list[..p.value] + list[p.value + 1..]
  }

  // --- the whole effect of each operation ---

  function Reset(s: Inner): Inner {
    FRESH.(generation := (s.generation + 1) % U64_LIMIT)
  }

  function AddSource(s: Inner, file: string, bp: SourceBp): Inner {
    s.(sourceBps := Push(s.sourceBps, file, bp))
  }

  function AddFunction(s: Inner, bp: FunctionBp): Inner {
    s.(functionBps := s.functionBps + [bp])
  }

  function AddResponse(s: Inner, info: BreakpointInfo): Inner {
    s.(bpResponses := s.bpResponses[info.id := info])
  }

  function RemainingSource(s: Inner, file: string, line: int): seq<SourceBp> {
    WithoutFirst(Listed(s.sourceBps, file), LinesOf(Listed(s.sourceBps, file)), line)
  }

  function RemainingFunctions(s: Inner, name: string): seq<FunctionBp> {
    WithoutFirst(s.functionBps, NamesOf(s.functionBps), name)
  }

  function RemoveById(s: Inner, id: int): Inner
    requires id in s.bpResponses
  {
    var forgotten := s.(bpResponses := s.bpResponses - {id});
    match s.bpResponses[id].site
    case Line(file, line) =>
      if file in s.sourceBps then forgotten.(sourceBps := s.sourceBps[file := RemainingSource(s, file, line)])
      else forgotten
    case Name(name) => forgotten.(functionBps := RemainingFunctions(s, name))
  }

  /** Every file's list of `more` put behind its list in `lists`. */
  function Extended(lists: map<string, seq<SourceBp>>, more: map<string, seq<SourceBp>>): map<string, seq<SourceBp>> {
    map file | file in lists.Keys + more.Keys :: Listed(lists, file) + Listed(more, file)
  }

  /** The lists of a launch spec by file; no file is named twice when it has as many entries as files. */
  function ByFile(source: seq<(string, seq<SourceBp>)>): map<string, seq<SourceBp>> {
    if source == [] then map[]
    else ByFile(source[..|source| - 1])[source[|source| - 1].0 := source[|source| - 1].1]
  }

  lemma ExtendOne(lists: map<string, seq<SourceBp>>, more: map<string, seq<SourceBp>>, file: string, bps: seq<SourceBp>)
    requires file !in more
    ensures var active := Extended(lists, more);
            active[file := Listed(active, file) + bps] == Extended(lists, more[file := bps])
    ensures Extended(lists, map[]) == lists
  {
    var active, active' := Extended(lists, more), Extended(lists, more[file := bps]);
    assert Listed(active, file) + bps == Listed(lists, file) + bps;
    forall f <- active'
      ensures active'[f] == active[file := Listed(active, file) + bps][f]
    {
      assert f != file ==> Listed(more[file := bps], f) == Listed(more, f);
    }
    assert forall f <- lists :: Listed(lists, f) + Listed(map[], f) == lists[f];
  }

  function FlushPending(s: Inner): Inner {
    s.(sourceBps := Extended(s.sourceBps, s.pendingSourceBps),
       functionBps := s.functionBps + s.pendingFunctionBps,
       pendingSourceBps := map[],
       pendingFunctionBps := [])
  }

  function SetStateIf(s: Inner, generation: nat, state: State): Inner {
    if s.generation == generation then s.(state := state) else s
  }

  function TerminateIf(s: Inner, generation: nat, code: Option<int>): Inner {
    if s.generation == generation then s.(state := Ended, exitCode := if code.Some? then code else s.exitCode) else s
  }

  /** `after` is `list` without its first entry of key `x`, or `list` itself when it has none. */
  ghost predicate LosesFirst<T(!new), K(!new)>(keys: seq<K>, x: K, list: seq<T>, after: seq<T>)
    requires |keys| == |list|
  {
    if x in keys then
      exists p: nat :: p < |keys| && keys[p] == x && x !in keys[..p] && after == list[..p] + list[p + 1..]
    else after == list
  }

  class SessionManager {
    var inner: Inner

    constructor ()
      ensures inner == FRESH
    {
      inner := FRESH;
    }

    method Clear()
      modifies this
      ensures inner == Reset(old(inner))
    {
      inner := FRESH.(generation := (inner.generation + 1) % U64_LIMIT);
    }

    method SetState(state: State)
      modifies this
      ensures inner == old(inner).(state := state)
    {
      inner := inner.(state := state);
    }

    /** Check and write under one lock. */
    method SetStateIfGeneration(generation: nat, state: State) returns (applied: bool)
      modifies this
      ensures inner == SetStateIf(old(inner), generation, state) && applied == (old(inner).generation == generation)
      ensures inner == if applied then old(inner).(state := state) else old(inner)
    {
      if inner.generation != generation {
        return false;
      }
      inner := inner.(state := state);
      return true;
    }

    method TerminateIfGeneration(generation: nat, code: Option<int>) returns (applied: bool)
      modifies this
      ensures inner == TerminateIf(old(inner), generation, code) && applied == (old(inner).generation == generation)
      ensures !applied ==> inner == old(inner)
      ensures applied ==> inner == old(inner).(state := Ended, exitCode := inner.exitCode)
      ensures applied ==> inner.exitCode == match code case Some(_) => code case None => old(inner).exitCode
    {
      if inner.generation != generation {
        return false;
      }
      if code.Some? {
        inner := inner.(exitCode := code);
      }
      inner := inner.(state := Ended);
      return true;
    }

    method SetLastStopped(info: StopInfo)
      modifies this
      ensures inner == old(inner).(lastStopped := Some(info))
    {
      inner := inner.(lastStopped := Some(info));
    }

    method AddSourceBreakpoint(file: string, line: int, condition: string)
      modifies this
      ensures inner == AddSource(old(inner), file, SourceBp(line, condition))
      ensures inner.sourceBps == old(inner).sourceBps[file := Listed(old(inner).sourceBps, file)
                                                              + [SourceBp(line, condition)]]
    {
      var bps := if file in inner.sourceBps then inner.sourceBps[file] else [];
      inner := inner.(sourceBps := inner.sourceBps[file := bps + [SourceBp(line, condition)]]);
    }

    method AddFunctionBreakpoint(name: string, condition: string)
      modifies this
      ensures inner == AddFunction(old(inner), FunctionBp(name, condition))
    {
      inner := inner.(functionBps := inner.functionBps + [FunctionBp(name, condition)]);
    }

    method AddBreakpointResponse(info: BreakpointInfo)
      modifies this
      ensures inner == AddResponse(old(inner), info)
    {
      inner := inner.(bpResponses := inner.bpResponses[info.id := info]);
    }

    method AddPendingSourceBreakpoint(file: string, line: int, condition: string)
      modifies this
      ensures inner == old(inner).(pendingSourceBps :=
          Push(old(inner).pendingSourceBps, file, SourceBp(line, condition)))
    {
      var bps := if file in inner.pendingSourceBps then inner.pendingSourceBps[file] else [];
      inner := inner.(pendingSourceBps := inner.pendingSourceBps[file := bps + [SourceBp(line, condition)]]);
    }

    method AddPendingFunctionBreakpoint(name: string, condition: string)
      modifies this
      ensures inner == old(inner).(pendingFunctionBps := old(inner).pendingFunctionBps + [FunctionBp(name, condition)])
    {
      inner := inner.(pendingFunctionBps := inner.pendingFunctionBps + [FunctionBp(name, condition)]);
    }

    /** Forget a breakpoint by id: the first entry of its line or name goes, and so does the response. */
    method RemoveBreakpointById(id: int) returns (r: Result<bool, string>)
      modifies this
      ensures r.Failure? <==> id !in old(inner).bpResponses
      ensures r.Failure? ==> inner == old(inner)
      ensures r.Success? ==> inner == RemoveById(old(inner), id) && r.value == old(inner).bpResponses[id].site.Name?
      // What goes is the first entry of the recorded line or name, if there is one.
      ensures r.Success? ==>
                match old(inner).bpResponses[id].site
                case Line(file, line) =>
                  && inner.functionBps == old(inner).functionBps
                  && (forall other :: other != file ==>
                        Listed(inner.sourceBps, other) == Listed(old(inner).sourceBps, other))
                  && LosesFirst(LinesOf(Listed(old(inner).sourceBps, file)), line, Listed(old(inner).sourceBps, file),
                                Listed(inner.sourceBps, file))
                case Name(name) =>
                  && inner.sourceBps == old(inner).sourceBps
                  && LosesFirst(NamesOf(old(inner).functionBps), name, old(inner).functionBps, inner.functionBps)
    {
      if id !in inner.bpResponses {
        return Failure("not found");
      }
      match inner.bpResponses[id].site {
        case Line(file, line) =>
          if file in inner.sourceBps {
            var bps := inner.sourceBps[file];
            var pos := Position(LinesOf(bps), line);
            if pos.Some? {
              bps := bps[..pos.value] + bps[pos.value + 1..];
            }
            inner := inner.(sourceBps := inner.sourceBps[file := bps]);
          }
          r := Success(false);
        case Name(name) =>
          var pos := Position(NamesOf(inner.functionBps), name);
          if pos.Some? {
            inner := inner.(functionBps := inner.functionBps[..pos.value] + inner.functionBps[pos.value + 1..]);
          }
          r := Success(true);
      }
      inner := inner.(bpResponses := inner.bpResponses - {id});
    }

    /** Move the pending lists to the end of the active ones, file by file, and hand them out. */
    method FlushPendingBreakpoints() returns (source: seq<(string, seq<SourceBp>)>, functions: seq<FunctionBp>)
      modifies this
      ensures inner == FlushPending(old(inner))
      ensures functions == old(inner).pendingFunctionBps
      ensures ByFile(source) == old(inner).pendingSourceBps && |source| == |old(inner).pendingSourceBps|
      // The pending entries come behind the active ones.
      ensures forall file :: Listed(inner.sourceBps, file) ==
                             Listed(old(inner).sourceBps, file) + Listed(old(inner).pendingSourceBps, file)
      ensures inner.functionBps == old(inner).functionBps + old(inner).pendingFunctionBps
      ensures inner.pendingSourceBps == map[] && inner.pendingFunctionBps == []
    {
      var sourceFiles := inner.pendingSourceBps;
      functions := inner.pendingFunctionBps;
      inner := inner.(pendingSourceBps := map[], pendingFunctionBps := []);
      var active;
      active, source := AppendLists(inner.sourceBps, sourceFiles);
      inner := inner.(sourceBps := active, functionBps := inner.functionBps + functions);
    }
  }

  lemma ByFileOneMore(source: seq<(string, seq<SourceBp>)>, file: string, bps: seq<SourceBp>)
    ensures ByFile(source + [(file, bps)]) == ByFile(source)[file := bps]
  {
    assert (source + [(file, bps)])[..|source|] == source;
  }

  /** Put one list of `more` behind the one in the active lists, and note it as moved. */
  method AppendOne(ghost lists: map<string, seq<SourceBp>>, active: map<string, seq<SourceBp>>,
                   source: seq<(string, seq<SourceBp>)>, ghost moved: map<string, seq<SourceBp>>,
                   file: string, bps: seq<SourceBp>)
    returns (active': map<string, seq<SourceBp>>, source': seq<(string, seq<SourceBp>)>)
    requires active == Extended(lists, moved) && ByFile(source) == moved && file !in moved
    ensures active' == Extended(lists, moved[file := bps]) && ByFile(source') == moved[file := bps]
    ensures |source'| == |source| + 1
  {
    ExtendOne(lists, moved, file, bps);
    ByFileOneMore(source, file, bps);
    active' := active[file := Listed(active, file) + bps];
    source' := source + [(file, bps)];
  }

  /** What was moved, while `todo` are the files still to go. */
  ghost predicate Before(moved: map<string, seq<SourceBp>>, more: map<string, seq<SourceBp>>, todo: set<string>) {
    todo <= more.Keys && moved.Keys == more.Keys - todo && forall file <- moved :: moved[file] == more[file]
  }

  lemma BeforeOneLess(moved: map<string, seq<SourceBp>>, more: map<string, seq<SourceBp>>, todo: set<string>,
                      file: string)
    requires Before(moved, more, todo) && file in todo
    ensures file in more && file !in moved
    ensures Before(moved[file := more[file]], more, todo - {file})
    ensures |todo - {file}| == |todo| - 1
  {
  }

  lemma BeforeNone(moved: map<string, seq<SourceBp>>, more: map<string, seq<SourceBp>>)
    requires Before(moved, more, {})
    ensures moved == more
  {
  }

  /** Put every list of `more` behind the one in `lists`, and collect what was moved. */
  method AppendLists(lists: map<string, seq<SourceBp>>, more: map<string, seq<SourceBp>>)
    returns (active: map<string, seq<SourceBp>>, source: seq<(string, seq<SourceBp>)>)
    ensures active == Extended(lists, more)
    ensures ByFile(source) == more && |source| == |more|
  {
    ghost var moved: map<string, seq<SourceBp>> := map[];
    var todo := more.Keys;
    active, source := lists, [];
    ExtendOne(lists, moved, "", []);
    while todo != {}
      invariant Before(moved, more, todo)
      invariant active == Extended(lists, moved)
      invariant ByFile(source) == moved && |source| + |todo| == |more.Keys|
      decreases todo
    {
      var file :| file in todo;
      BeforeOneLess(moved, more, todo, file);
      active, source := AppendOne(lists, active, source, moved, file, more[file]);
      moved := moved[file := more[file]];
      todo := todo - {file};
    }
    BeforeNone(moved, more);
  }
}
