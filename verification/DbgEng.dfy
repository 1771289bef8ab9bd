/**
 * The breakpoint side of the DbgEng engine: one flat pool of breakpoints, untagged by file or
 * category, and the engine-side condition map. Every COM call is free to fail, so each choice the
 * engine makes is left nondeterministic.
 */
module DbgEng {
  import opened Wrappers

  const U32_LIMIT := 0x1_0000_0000

  type u32 = n: int | 0 <= n < U32_LIMIT

  datatype BpLoc = FileLine(file: string, line: u32) | Function(name: string)

  /** What the engine knows of one breakpoint: where it was placed, and whether it can fire. */
  datatype EngineBp = EngineBp(loc: Option<BpLoc>, enabled: bool)

  datatype BreakpointResult =
    BreakpointResult(id: int, verified: bool, line: int, message: string, rejected: bool)

  /** The texts the engine evaluates when a breakpoint fires, by breakpoint id. */
  type Conditions = map<int, string>

  function LineOf(loc: BpLoc): int {
    if loc.FileLine? then loc.line else 0
  }

  class Engine {
    /** The live breakpoints by id. */
    var pool: map<int, EngineBp>
    /** Conditions evaluated at a stop, by breakpoint id. */
    var conditions: Conditions
    /** Live breakpoints whose id no caller was ever told. */
    ghost var orphans: set<int>

    ghost predicate Valid()
      reads this
    {
      && conditions.Keys <= pool.Keys
      && orphans <= pool.Keys
      && forall id <- pool :: 0 <= id < U32_LIMIT
    }

    constructor ()
      ensures Valid() && pool == map[] && conditions == map[] && orphans == {}
    {
      pool, conditions, orphans := map[], map[], {};
    }

    /**
     * Resolve `loc`, add a breakpoint, place it, enable it and read its id back. A failure after
     * the add leaves the new breakpoint in the pool with nobody knowing its id.
     */
    method SetBreakpoint(loc: BpLoc, condition: string) returns (r: Result<BreakpointResult, string>)
      requires Valid()
      modifies this
      ensures Valid()
      ensures r.Success? ==>
                && r.value == BreakpointResult(r.value.id, true, LineOf(loc), "", false)
                && r.value.id !in old(pool)
                && pool == old(pool)[r.value.id := EngineBp(Some(loc), true)]
                && orphans == old(orphans)
                && conditions == (if condition == "" then old(conditions) else old(conditions)[r.value.id := condition])
      ensures r.Failure? ==>
                && conditions == old(conditions)
                && LeftBehind(old(pool), old(orphans), loc, pool, orphans)
      // A new breakpoint never inherits the condition of an earlier one with the same id.
      ensures r.Success? && condition == "" ==> r.value.id !in conditions
    {
      var resolved, added, placed, enabled, identified: bool := *, *, *, *, *;
      var id: int := *;
      if !resolved {
        return Failure("GetOffsetByLine/GetOffsetByName");
      }
      if !added || id in pool || !(0 <= id < U32_LIMIT) {
        return Failure("AddBreakpoint");
      }
      pool := pool[id := EngineBp(None, false)];
      if !placed {
        orphans := orphans + {id};
        return Failure("SetOffset");
      }
      pool := pool[id := EngineBp(Some(loc), false)];
      if !enabled {
        orphans := orphans + {id};
        return Failure("AddFlags(ENABLED)");
      }
      pool := pool[id := EngineBp(Some(loc), true)];
      if !identified {
        orphans := orphans + {id};
        return Failure("GetId");
      }
      if condition != "" {
        conditions := conditions[id := condition];
      }
      return Success(BreakpointResult(id, true, LineOf(loc), "", false));
    }

    /** Look the breakpoint up, drop its condition, then remove it; the last call can still fail. */
    method RemoveBreakpoint(id: int) returns (r: Result<(), string>)
      requires Valid()
      modifies this
      ensures Valid()
      ensures var bpId := id % U32_LIMIT;
              && (r.Success? ==> bpId in old(pool) && pool == old(pool) - {bpId} && orphans == old(orphans) - {bpId}
                                 && conditions == old(conditions) - {bpId})
              && (r.Failure? ==> pool == old(pool) && orphans == old(orphans)
                                 && (conditions == old(conditions) || conditions == old(conditions) - {bpId}))
    {
      var found, removed: bool := *, *;
      var bpId := id % U32_LIMIT;
      if !found || bpId !in pool {
        return Failure("GetBreakpointById");
      }
      conditions := conditions - {bpId};
      if !removed {
        return Failure("RemoveBreakpoint");
      }
      pool, orphans := pool - {bpId}, orphans - {bpId};
      return Success(());
    }

    /** A new session starts without the conditions of an earlier one. */
    method ClearConditions()
      requires Valid()
      modifies this`conditions
      ensures Valid() && conditions == map[]
    {
      conditions := map[];
    }
  }

  /** A set that failed for `loc` changed nothing, or added one breakpoint that is now an orphan. */
  ghost predicate LeftBehind(pool: map<int, EngineBp>, orphans: set<int>, loc: BpLoc,
                             pool': map<int, EngineBp>, orphans': set<int>) {
    || (pool' == pool && orphans' == orphans)
    || exists id: int, bp: EngineBp ::
         && id !in pool
         && (bp.loc == None || bp.loc == Some(loc))
         && pool' == pool[id := bp]
         && orphans' == orphans + {id}
  }
}
