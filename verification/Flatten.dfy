/** The capped, depth-limited walk over a tree of variables that is fetched level by level. */
module Flatten {
  import opened Wrappers

  datatype Variable = Variable(name: string, value: string, ty: string, reference: int, named: int, indexed: int)

  datatype FlatVariable = FlatVariable(name: string, value: string, ty: string, hasChildren: bool, childrenCount: int)

  type Fetch<!E> = int -> Result<seq<Variable>, E>

  // --- the uncapped walk ---

  /** A node and where it stands: its position at every level. */
  datatype Entry = Entry(path: seq<nat>, flat: FlatVariable)

  /** What a walk emits before its first fetch error, and that error. */
  datatype Walk<E> = Walk(entries: seq<Entry>, error: Option<E>)

  function Then<E>(a: Walk<E>, b: Walk<E>): Walk<E> {
    if a.error.Some? then a else Walk(a.entries + b.entries, b.error)
  }

  /** A container that is not expanded says how many children it has. */
  function NodeOf(v: Variable, name: string, depth: int): FlatVariable {
    if v.reference > 0 && depth <= 0 then FlatVariable(name, v.value, v.ty, true, v.named + v.indexed)
    else FlatVariable(name, v.value, v.ty, false, 0)
  }

  function Levels(depth: int): nat {
    if depth > 0 then depth else 0
  }

  /** Variables from position `i` on, each followed by what is below it. */
  function Siblings<E>(fetch: Fetch<E>, vars: seq<Variable>, i: nat, path: seq<nat>, prefix: string, depth: int,
                       keep: string -> bool): Walk<E>
    decreases Levels(depth), 0, |vars| - i
  {
    if i >= |vars| then Walk([], None)
    else
      var rest := Siblings(fetch, vars, i + 1, path, prefix, depth, keep);
      if keep(vars[i].name) then Then(Subtree(fetch, vars[i], path + [i], prefix, depth), rest) else rest
  }

  function Subtree<E>(fetch: Fetch<E>, v: Variable, path: seq<nat>, prefix: string, depth: int): Walk<E>
    decreases Levels(depth), 0, 0
  {
    var name := prefix + v.name;
    Then(Walk([Entry(path, NodeOf(v, name, depth))], None),
         if v.reference > 0 && depth > 0 then Below(fetch, v.reference, path, name, depth - 1) else Walk([], None))
  }

  function Below<E>(fetch: Fetch<E>, reference: int, path: seq<nat>, prefix: string, depth: int): Walk<E>
    decreases Levels(depth), 1, 0
  {
    match fetch(reference)
    case Failure(error) => Walk([], Some(error))
    case Success(vars) => Siblings(fetch, vars, 0, path, prefix + ".", depth, _ => true)
  }

  /** The filter applies to the names at the top only. */
  function Uncapped<E>(fetch: Fetch<E>, reference: int, depth: int, keep: string -> bool): Walk<E> {
    match fetch(reference)
    case Failure(error) => Walk([], Some(error))
    case Success(vars) => Siblings(fetch, vars, 0, [], "", depth, keep)
  }

  function Flat(entries: seq<Entry>): (flat: seq<FlatVariable>)
    ensures |flat| == |entries|
  {
    seq(|entries|, i requires 0 <= i < |entries| => entries[i].flat)
  }

  /** The cap is looked at only after a node was emitted, so it is never below 1. */
  function Cap(maxCount: nat): nat {
    if maxCount == 0 then 1 else maxCount
  }

  function Cut<E>(w: Walk<E>, maxCount: nat): Result<(seq<FlatVariable>, bool), E> {
    if |w.entries| >= Cap(maxCount) then Success((Flat(w.entries[..Cap(maxCount)]), true))
    else if w.error.Some? then Failure(w.error.value)
    else Success((Flat(w.entries), false))
  }

  // --- the capped walk ---

  /** The result vector the recursion shares. */
  class Collected {
    var items: seq<FlatVariable>

    constructor ()
      ensures items == []
    {
      items := [];
    }
  }

  /** What a part of the capped walk does to the shared vector, told by the uncapped walk of that part. */
  ghost predicate Collects<E>(before: seq<FlatVariable>, after: seq<FlatVariable>, w: Walk<E>, maxCount: nat,
      r: Result<bool, E>) {
    var all := before + Flat(w.entries);
    if |all| >= Cap(maxCount) then r == Success(true) && after == all[..Cap(maxCount)]
    else after == all && r == if w.error.Some? then Failure(w.error.value) else Success(false)
  }

  lemma CollectsThen<E>(before: seq<FlatVariable>, middle: seq<FlatVariable>, after: seq<FlatVariable>,
                        a: Walk<E>, b: Walk<E>, maxCount: nat, first: Result<bool, E>, r: Result<bool, E>)
    requires |before| < Cap(maxCount) && Collects(before, middle, a, maxCount, first)
    requires if first == Success(false) then Collects(middle, after, b, maxCount, r) else after == middle && r == first
    ensures Collects(before, after, Then(a, b), maxCount, r)
  {
    var all := before + Flat(a.entries);
    assert before + Flat(a.entries + b.entries) == all + Flat(b.entries);
    if |all| >= Cap(maxCount) {
      assert (all + Flat(b.entries))[..Cap(maxCount)] == all[..Cap(maxCount)];
    }
  }

  /** Push one node, and look at the cap. */
  method Push<E>(result: Collected, flat: FlatVariable, maxCount: nat, ghost path: seq<nat>)
      returns (r: Result<bool, E>)
    requires |result.items| < Cap(maxCount)
    modifies result
    ensures Collects(old(result.items), result.items, Walk([Entry(path, flat)], None), maxCount, r)
  {
    result.items := result.items + [flat];
    assert Flat([Entry(path, flat)]) == [flat];
    r := Success(|result.items| >= maxCount);
  }

  /** One variable and, if it is to be expanded, everything below it. */
  method FlattenOne<E>(fetch: Fetch<E>, v: Variable, name: string, depth: int, result: Collected, maxCount: nat,
                       ghost path: seq<nat>, ghost prefix: string)
    returns (r: Result<bool, E>)
    requires |result.items| < Cap(maxCount) && name == prefix + v.name
    modifies result
    ensures Collects(old(result.items), result.items, Subtree(fetch, v, path, prefix, depth), maxCount, r)
    decreases Levels(depth), 0
  {
    ghost var before := result.items;
    ghost var own: Walk<E> := Walk([Entry(path, NodeOf(v, name, depth))], None);
    if v.reference > 0 && depth > 0 {
      var first: Result<bool, E> := Push(result, FlatVariable(name, v.value, v.ty, false, 0), maxCount, path);
      ghost var middle := result.items;
      if first == Success(true) {
        CollectsThen(before, middle, middle, own, Below(fetch, v.reference, path, name, depth - 1), maxCount, first,
            first);
        return first;
      }
      r := FlattenRecursive(fetch, v.reference, name, depth - 1, result, maxCount, path);
      CollectsThen(before, middle, result.items, own, Below(fetch, v.reference, path, name, depth - 1), maxCount, first,
          r);
    } else {
      var hasChildren := v.reference > 0;
      r := Push(result, FlatVariable(name, v.value, v.ty, hasChildren, if hasChildren then v.named + v.indexed else 0),
          maxCount, path);
      assert Then(own, Walk([], None)) == own;
    }
  }

  /** Fetch the children of `reference`, put `prefix` and a dot before their names, and walk them. */
  method FlattenRecursive<E>(fetch: Fetch<E>, reference: int, prefix: string, depth: int, result: Collected,
                             maxCount: nat, ghost path: seq<nat>)
    returns (r: Result<bool, E>)
    requires |result.items| < Cap(maxCount)
    modifies result
    ensures Collects(old(result.items), result.items, Below(fetch, reference, path, prefix, depth), maxCount, r)
    decreases Levels(depth), 2
  {
    var vars := fetch(reference);
    if vars.Failure? {
      return Failure(vars.error);
    }
    r := FlattenEach(fetch, vars.value, prefix + ".", depth, _ => true, result, maxCount, path);
  }

  /** The loop over siblings that both levels of the walk run. */
  method FlattenEach<E>(fetch: Fetch<E>, vars: seq<Variable>, prefix: string, depth: int, keep: string -> bool,
                        result: Collected, maxCount: nat, ghost path: seq<nat>)
    returns (r: Result<bool, E>)
    requires |result.items| < Cap(maxCount)
    modifies result
    ensures Collects(old(result.items), result.items, Siblings(fetch, vars, 0, path, prefix, depth, keep), maxCount, r)
    decreases Levels(depth), 1
  {
    ghost var before := result.items;
    ghost var done: Walk<E> := Walk([], None);
    for i := 0 to |vars|
      invariant Collects(before, result.items, done, maxCount, Success(false))
      invariant |result.items| < Cap(maxCount)
      invariant Siblings(fetch, vars, 0, path, prefix, depth, keep) ==
          Then(done, Siblings(fetch, vars, i, path, prefix, depth, keep))
    {
      if !keep(vars[i].name) {
        continue;
      }
      ghost var middle := result.items;
      ghost var one := Subtree(fetch, vars[i], path + [i], prefix, depth);
      ghost var rest := Siblings(fetch, vars, i + 1, path, prefix, depth, keep);
      r := FlattenOne(fetch, vars[i], prefix + vars[i].name, depth, result, maxCount, path + [i], prefix);
      CollectsThen(before, middle, result.items, done, one, maxCount, Success(false), r);
      ThenAssociates(done, one, rest);
      if r != Success(false) {
        CollectsThen(before, result.items, result.items, Then(done, one), rest, maxCount, r, r);
        return;
      }
      done := Then(done, one);
    }
    r := Success(false);
  }

  lemma ThenAssociates<E>(a: Walk<E>, b: Walk<E>, c: Walk<E>)
    ensures Then(a, Then(b, c)) == Then(Then(a, b), c)
  {
  }

  /**
   * The capped walk refines the uncapped one: its first `Cap(maxCount)` nodes and `true` when there
   * are that many, otherwise the same error or the whole list and `false`.
   */
  method FlattenVariables<E>(fetch: Fetch<E>, reference: int, depth: int, maxCount: nat, keep: string -> bool)
    returns (r: Result<(seq<FlatVariable>, bool), E>)
    ensures r == Cut(Uncapped(fetch, reference, depth, keep), maxCount)
  {
    var vars := fetch(reference);
    if vars.Failure? {
      return Failure(vars.error);
    }
    var result := new Collected();
    var truncated := FlattenEach(fetch, vars.value, "", depth, keep, result, maxCount, []);
    match truncated
    case Failure(error) => r := Failure(error);
    case Success(hit) => r := Success((result.items, hit));
    ghost var w := Siblings(fetch, vars.value, 0, [], "", depth, keep);
    assert [] + Flat(w.entries) == Flat(w.entries);
    if |w.entries| >= Cap(maxCount) {
      assert Flat(w.entries)[..Cap(maxCount)] == Flat(w.entries[..Cap(maxCount)]);
    }
  }

  // --- what the walk promises ---

  /**
   * The cap holds, and `truncated` says whether it was met, for every positive `maxCount`. For zero
   * the documented bound fails as soon as one variable passes the filter.
   */
  lemma CapHolds<E>(w: Walk<E>, maxCount: nat)
    requires Cut(w, maxCount).Success?
    ensures var (flat, truncated) := Cut(w, maxCount).value;
            && (|flat| <= maxCount <==> maxCount > 0 || w.entries == [])
            && (truncated <==> |flat| == Cap(maxCount))
            && flat == Flat(w.entries)[..|flat|]
            && (!truncated ==> |flat| == |w.entries| && w.error.None?)
  {
    if |w.entries| >= Cap(maxCount) {
      assert Flat(w.entries)[..Cap(maxCount)] == Flat(w.entries[..Cap(maxCount)]);
    }
  }

  /** It does fail there: with a cap of zero one plain variable is returned all the same. */
  lemma ZeroCapIsExceeded<E>(v: Variable, reference: int, depth: int)
    requires v.reference <= 0
    ensures var fetch: Fetch<E> := _ => Success([v]);
            Cut(Uncapped(fetch, reference, depth, _ => true), 0) == Success(([NodeOf(v, v.name, depth)], true))
  {
    var fetch: Fetch<E> := _ => Success([v]);
    var keep: string -> bool := _ => true;
    var entry := Entry([0], NodeOf(v, v.name, depth));
    assert Siblings(fetch, [v], 1, [], "", depth, keep) == Walk([], None);
    assert [] + [0] == [0] && "" + v.name == v.name;
    assert Subtree(fetch, v, [0], "", depth) == Walk([entry], None);
    assert Uncapped(fetch, reference, depth, keep).entries == [entry];
    assert [entry][..1] == [entry];
    assert Flat([entry]) == [entry.flat];
  }

  /** Positions in the order of a preorder walk: a node before what is below it, and before its later siblings. */
  predicate Precedes(p: seq<nat>, q: seq<nat>) {
    q != [] && (p == [] || p[0] < q[0] || (p[0] == q[0] && Precedes(p[1..], q[1..])))
  }

  ghost predicate InPreorder(entries: seq<Entry>) {
    forall j, k | 0 <= j < k < |entries| :: Precedes(entries[j].path, entries[k].path)
  }

  /** The node at position `path`, expanded, with the names below it starting with its own and a dot. */
  predicate IsParent(parent: Entry, child: Entry) {
    && child.path != []
    && parent.path == child.path[..|child.path| - 1]
    && !parent.flat.hasChildren
    && parent.flat.name + "." <= child.flat.name
  }

  /** Entry `k` stands below `path`, at a position from `i`, within `levels`, and after its parent if nested. */
  ghost predicate Stands(entries: seq<Entry>, k: nat, path: seq<nat>, i: nat, levels: nat)
    requires k < |entries|
  {
    var p := entries[k].path;
    && |path| < |p| <= |path| + 1 + levels
    && path <= p
    && p[|path|] >= i
    && (|p| > |path| + 1 ==> exists j :: 0 <= j < k && IsParent(entries[j], entries[k]))
  }

  ghost predicate WellNested(entries: seq<Entry>, path: seq<nat>, i: nat, levels: nat) {
    InPreorder(entries) && forall k: nat | k < |entries| :: Stands(entries, k, path, i, levels)
  }

  lemma {:induction false} PrecedesWithin(path: seq<nat>, p: seq<nat>, q: seq<nat>)
    requires path <= p && path <= q && |p| > |path| && |q| > |path| && p[|path|] < q[|path|]
    ensures Precedes(p, q)
  {
    if path != [] {
      PrecedesWithin(path[1..], p[1..], q[1..]);
    }
  }

  lemma {:induction false} PrefixPrecedes(p: seq<nat>, q: seq<nat>)
    requires p < q
    ensures Precedes(p, q)
  {
    if p != [] {
      PrefixPrecedes(p[1..], q[1..]);
    }
  }

  lemma NestThen(one: seq<Entry>, rest: seq<Entry>, path: seq<nat>, i: nat, levels: nat)
    requires WellNested(one, path, i, levels) && WellNested(rest, path, i + 1, levels)
    requires forall k | 0 <= k < |one| :: |one[k].path| > |path| && one[k].path[|path|] == i
    ensures WellNested(one + rest, path, i, levels)
  {
    var entries := one + rest;
    forall j: nat, k: nat | j < |one| && k < |rest|
      ensures Precedes(one[j].path, rest[k].path)
    {
      assert Stands(one, j, path, i, levels) && Stands(rest, k, path, i + 1, levels);
      PrecedesWithin(path, one[j].path, rest[k].path);
    }
    forall k: nat | k < |entries|
      ensures Stands(entries, k, path, i, levels)
    {
      if k < |one| {
        assert Stands(one, k, path, i, levels);
        ParentMoves(one, k, entries, k);
      } else {
        assert Stands(rest, k - |one|, path, i + 1, levels);
        ParentMoves(rest, k - |one|, entries, k);
      }
    }
  }

  lemma ParentMoves(part: seq<Entry>, k: nat, entries: seq<Entry>, m: nat)
    requires k < |part| && k <= m < |entries| && entries[m - k..m + 1] == part[..k + 1]
    ensures (exists j :: 0 <= j < k && IsParent(part[j], part[k])) ==>
            exists j :: 0 <= j < m && IsParent(entries[j], entries[m])
  {
    assert entries[m] == entries[m - k..m + 1][k] == part[..k + 1][k];
    if j :| 0 <= j < k && IsParent(part[j], part[k]) {
      assert entries[m - k + j] == entries[m - k..m + 1][j] == part[..k + 1][j];
      assert IsParent(entries[m - k + j], entries[m]);
    }
  }

  /** An expanded node followed by everything below it. */
  lemma RootNests(root: Entry, below: seq<Entry>, path: seq<nat>, last: nat, levels: nat)
    requires |path| == last + 1 && root.path == path && !root.flat.hasChildren && levels > 0
    requires WellNested(below, path, 0, levels - 1)
    requires forall k | 0 <= k < |below| :: root.flat.name + "." <= below[k].flat.name
    ensures WellNested([root] + below, path[..last], path[last], levels)
    ensures forall k: nat | k < |[root] + below| ::
        |([root] + below)[k].path| > last && ([root] + below)[k].path[last] == path[last]
  {
    var entries := [root] + below;
    forall k: nat | k < |below|
      ensures path < below[k].path && Precedes(path, below[k].path)
    {
      assert Stands(below, k, path, 0, levels - 1);
      PrefixPrecedes(path, below[k].path);
    }
    forall k: nat | k < |entries|
      ensures Stands(entries, k, path[..last], path[last], levels)
    {
      if k > 0 {
        assert Stands(below, k - 1, path, 0, levels - 1);
        ParentMoves(below, k - 1, entries, k);
        assert |entries[k].path| == last + 2 ==> IsParent(entries[0], entries[k]);
      }
    }
  }

  lemma {:induction false} SiblingsNest<E>(fetch: Fetch<E>, vars: seq<Variable>, i: nat, path: seq<nat>, prefix: string,
                                           depth: int, keep: string -> bool)
    ensures var entries := Siblings(fetch, vars, i, path, prefix, depth, keep).entries;
            && WellNested(entries, path, i, Levels(depth))
            && forall k | 0 <= k < |entries| :: prefix <= entries[k].flat.name
    decreases Levels(depth), 0, |vars| - i
  {
    if i < |vars| {
      SiblingsNest(fetch, vars, i + 1, path, prefix, depth, keep);
      if keep(vars[i].name) {
        SubtreeNests(fetch, vars[i], path, i, prefix, depth);
        NestThen(Subtree(fetch, vars[i], path + [i], prefix, depth).entries,
                 Siblings(fetch, vars, i + 1, path, prefix, depth, keep).entries, path, i, Levels(depth));
      } else {
        var rest := Siblings(fetch, vars, i + 1, path, prefix, depth, keep).entries;
        NestThen([], rest, path, i, Levels(depth));
        assert [] + rest == rest;
      }
    }
  }

  lemma {:induction false} BelowNests<E>(fetch: Fetch<E>, reference: int, path: seq<nat>, prefix: string, depth: int)
    ensures var entries := Below(fetch, reference, path, prefix, depth).entries;
            && WellNested(entries, path, 0, Levels(depth))
            && forall k | 0 <= k < |entries| :: prefix + "." <= entries[k].flat.name
    decreases Levels(depth), 1, 0
  {
    match fetch(reference)
    case Failure(_) =>
    case Success(vars) => SiblingsNest(fetch, vars, 0, path, prefix + ".", depth, _ => true);
  }

  lemma {:induction false} SubtreeNests<E>(fetch: Fetch<E>, v: Variable, path: seq<nat>, i: nat, prefix: string,
      depth: int)
    ensures var entries := Subtree(fetch, v, path + [i], prefix, depth).entries;
            && WellNested(entries, path, i, Levels(depth))
            && forall k | 0 <= k < |entries| ::
                 |entries[k].path| > |path| && entries[k].path[|path|] == i && prefix <= entries[k].flat.name
    decreases Levels(depth), 0, 0
  {
    var p := path + [i];
    var root := Entry(p, NodeOf(v, prefix + v.name, depth));
    var entries := Subtree(fetch, v, p, prefix, depth).entries;
    if v.reference > 0 && depth > 0 {
      BelowNests(fetch, v.reference, p, prefix + v.name, depth - 1);
      var below := Below(fetch, v.reference, p, prefix + v.name, depth - 1).entries;
      RootNests(root, below, p, |path|, Levels(depth));
      assert entries == [root] + below && p[..|path|] == path;
      forall k | 0 <= k < |entries|
        ensures prefix <= entries[k].flat.name
      {
        assert k > 0 ==> prefix + v.name + "." <= below[k - 1].flat.name;
      }
    } else {
      assert entries == [root];
    }
  }

  /**
   * The uncapped walk is a preorder walk no deeper than asked: every nested node comes after its
   * parent, which is emitted bare and whose name and a dot start the nested node's name.
   */
  lemma NestedFollowsParent<E>(fetch: Fetch<E>, reference: int, depth: int, keep: string -> bool)
    ensures WellNested(Uncapped(fetch, reference, depth, keep).entries, [], 0, Levels(depth))
  {
    match fetch(reference)
    case Failure(_) =>
    case Success(vars) => SiblingsNest(fetch, vars, 0, [], "", depth, keep);
  }

  // --- which nodes, told position by position ---

  /** The variable at a position, when every container on the way there can be fetched. */
  function At<E>(fetch: Fetch<E>, vars: seq<Variable>, path: seq<nat>): Option<Variable>
    decreases |path|
  {
    if path == [] || path[0] >= |vars| then None
    else if |path| == 1 then Some(vars[path[0]])
    else if vars[path[0]].reference > 0 && fetch(vars[path[0]].reference).Success? then
      At(fetch, fetch(vars[path[0]].reference).value, path[1..])
    else None
  }

  /** The names on the way to a position, with dots between them. */
  function Dotted<E>(fetch: Fetch<E>, vars: seq<Variable>, path: seq<nat>): string
    requires At(fetch, vars, path).Some?
    decreases |path|
  {
    if |path| == 1 then vars[path[0]].name
    else vars[path[0]].name + "." + Dotted(fetch, fetch(vars[path[0]].reference).value, path[1..])
  }

  /** A position to show: a variable is there, no deeper than asked. */
  predicate Shown<E>(fetch: Fetch<E>, vars: seq<Variable>, path: seq<nat>, depth: int) {
    At(fetch, vars, path).Some? && (|path| == 1 || |path| - 1 <= depth)
  }

  /** What stands there: the variable, and its number of children exactly if it is a container at the last level. */
  ghost predicate Describes<E>(fetch: Fetch<E>, vars: seq<Variable>, path: seq<nat>, prefix: string, depth: int,
                               flat: FlatVariable) {
    Shown(fetch, vars, path, depth) &&
    var v := At(fetch, vars, path).value;
    && flat.name == prefix + Dotted(fetch, vars, path)
    && flat.value == v.value && flat.ty == v.ty
    && (flat.hasChildren <==> v.reference > 0 && depth < |path|)
    && flat.childrenCount == if v.reference > 0 && depth < |path| then v.named + v.indexed else 0
  }

  /** A walk below `base` over `vars` from position `i` on: nothing but what is to be shown there. */
  ghost predicate OnlyShows<E>(entries: seq<Entry>, fetch: Fetch<E>, vars: seq<Variable>, i: nat, base: seq<nat>,
                               prefix: string, depth: int, keep: string -> bool) {
    forall k | 0 <= k < |entries| ::
      var p := entries[k].path;
      && |p| > |base| && p[..|base|] == base
      && i <= p[|base|] < |vars| && keep(vars[p[|base|]].name)
      && Describes(fetch, vars, p[|base|..], prefix, depth, entries[k].flat)
  }

  ghost predicate HasPath(entries: seq<Entry>, path: seq<nat>) {
    exists k :: 0 <= k < |entries| && entries[k].path == path
  }

  /** And all of it. */
  ghost predicate ShowsAll<E>(entries: seq<Entry>, fetch: Fetch<E>, vars: seq<Variable>, i: nat, base: seq<nat>,
                              depth: int, keep: string -> bool) {
    forall path: seq<nat> | Shown(fetch, vars, path, depth) && path[0] >= i && keep(vars[path[0]].name) ::
      HasPath(entries, base + path)
  }

  lemma {:induction false} SiblingsShow<E>(fetch: Fetch<E>, vars: seq<Variable>, i: nat, base: seq<nat>, prefix: string,
                                           depth: int, keep: string -> bool)
    ensures var w := Siblings(fetch, vars, i, base, prefix, depth, keep);
            && OnlyShows(w.entries, fetch, vars, i, base, prefix, depth, keep)
            && (w.error.None? ==> ShowsAll(w.entries, fetch, vars, i, base, depth, keep))
    decreases Levels(depth), 0, |vars| - i
  {
    if i < |vars| {
      var rest := Siblings(fetch, vars, i + 1, base, prefix, depth, keep);
      SiblingsShow(fetch, vars, i + 1, base, prefix, depth, keep);
      if keep(vars[i].name) {
        SubtreeShows(fetch, vars, i, base, prefix, depth, keep);
        var one := Subtree(fetch, vars[i], base + [i], prefix, depth);
        forall path: seq<nat> | Shown(fetch, vars, path, depth) && path[0] >= i && keep(vars[path[0]].name)
          ensures one.error.None? && rest.error.None? ==> HasPath(one.entries + rest.entries, base + path)
        {
          HasPathInEither(one.entries, rest.entries, base + path);
        }
      }
    }
  }

  lemma HasPathInEither(a: seq<Entry>, b: seq<Entry>, path: seq<nat>)
    ensures HasPath(a, path) || HasPath(b, path) ==> HasPath(a + b, path)
  {
    if HasPath(a, path) {
      var k :| 0 <= k < |a| && a[k].path == path;
      assert (a + b)[k].path == path;
    } else if HasPath(b, path) {
      var k :| 0 <= k < |b| && b[k].path == path;
      assert (a + b)[|a| + k].path == path;
    }
  }

  /** The subtree at position `i` shows that position and, when it is expanded, all positions below it. */
  lemma {:induction false} SubtreeShows<E>(fetch: Fetch<E>, vars: seq<Variable>, i: nat, base: seq<nat>, prefix: string,
                                           depth: int, keep: string -> bool)
    requires i < |vars| && keep(vars[i].name)
    ensures var w := Subtree(fetch, vars[i], base + [i], prefix, depth);
            && OnlyShows(w.entries, fetch, vars, i, base, prefix, depth, keep)
            && (w.error.None? ==>
                  forall path: seq<nat> | Shown(fetch, vars, path, depth) && path[0] == i ::
                    HasPath(w.entries, base + path))
    decreases Levels(depth), 0, 0
  {
    var (v, w) := (vars[i], Subtree(fetch, vars[i], base + [i], prefix, depth));
    var root := Entry(base + [i], NodeOf(v, prefix + v.name, depth));
    RootShows(fetch, vars, i, base, prefix, depth);
    if v.reference > 0 && depth > 0 && fetch(v.reference).Success? {
      var children := fetch(v.reference).value;
      SiblingsShow(fetch, children, 0, base + [i], prefix + v.name + ".", depth - 1, _ => true);
      var below := Below(fetch, v.reference, base + [i], prefix + v.name, depth - 1);
      assert w.entries == [root] + below.entries;
      forall k | 0 <= k < |below.entries|
        ensures OnlyShows([below.entries[k]], fetch, vars, i, base, prefix, depth, keep)
      {
        ShowsDeeper(fetch, vars, i, base, prefix, depth, below.entries[k]);
      }
      assert forall k | 0 <= k < |below.entries| :: [below.entries[k]][0] == below.entries[k];
      forall path: seq<nat> | Shown(fetch, vars, path, depth) && path[0] == i
        ensures below.error.None? ==> HasPath(w.entries, base + path)
      {
        PathIsBelow(fetch, vars, i, base, depth, root, below.entries, path);
      }
    } else {
      assert v.reference > 0 && depth > 0 ==>
          Below(fetch, v.reference, base + [i], prefix + v.name, depth - 1).entries == [];
      assert w.entries == [root];
      forall path: seq<nat> | Shown(fetch, vars, path, depth) && path[0] == i
        ensures w.error.None? ==> HasPath(w.entries, base + path)
      {
        if |path| == 1 {
          assert path == [i] && w.entries[0].path == base + path;
        }
      }
    }
  }

  lemma RootShows<E>(fetch: Fetch<E>, vars: seq<Variable>, i: nat, base: seq<nat>, prefix: string, depth: int)
    requires i < |vars|
    ensures Describes(fetch, vars, (base + [i])[|base|..], prefix, depth, NodeOf(vars[i], prefix + vars[i].name, depth))
  {
    assert (base + [i])[|base|..] == [i];
  }

  /** What a walk over the children shows, the walk that expanded their parent shows one level deeper. */
  lemma ShowsDeeper<E>(fetch: Fetch<E>, vars: seq<Variable>, i: nat, base: seq<nat>, prefix: string, depth: int,
                       e: Entry)
    requires i < |vars| && vars[i].reference > 0 && depth > 0 && fetch(vars[i].reference).Success?
    requires |e.path| > |base| + 1 && e.path[..|base| + 1] == base + [i]
    requires Describes(fetch, fetch(vars[i].reference).value, e.path[|base| + 1..], prefix + vars[i].name + ".",
                       depth - 1, e.flat)
    ensures e.path[..|base|] == base && e.path[|base|] == i
    ensures Describes(fetch, vars, e.path[|base|..], prefix, depth, e.flat)
  {
    var (path, children, rest) := (e.path[|base|..], fetch(vars[i].reference).value, e.path[|base| + 1..]);
    assert e.path[..|base|] == e.path[..|base| + 1][..|base|];
    assert e.path[|base|] == e.path[..|base| + 1][|base|];
    assert path[1..] == rest;
    assert Dotted(fetch, vars, path) == vars[i].name + "." + Dotted(fetch, children, rest);
    assert prefix + (vars[i].name + "." + Dotted(fetch, children, rest)) ==
           (prefix + vars[i].name + ".") + Dotted(fetch, children, rest);
  }

  lemma PathIsBelow<E>(fetch: Fetch<E>, vars: seq<Variable>, i: nat, base: seq<nat>, depth: int, root: Entry,
                       below: seq<Entry>, path: seq<nat>)
    requires i < |vars| && vars[i].reference > 0 && depth > 0 && fetch(vars[i].reference).Success?
    requires root.path == base + [i] && Shown(fetch, vars, path, depth) && path[0] == i
    ensures ShowsAll(below, fetch, fetch(vars[i].reference).value, 0, base + [i], depth - 1, _ => true) ==>
            HasPath([root] + below, base + path)
  {
    if |path| == 1 {
      assert path == [i] && ([root] + below)[0].path == base + path;
    } else {
      assert Shown(fetch, fetch(vars[i].reference).value, path[1..], depth - 1);
      assert base + [i] + path[1..] == base + path;
      HasPathInEither([root], below, base + path);
    }
  }

  /**
   * The walk shows exactly the positions whose top-level name passes the filter and that lie no
   * deeper than asked, below containers all the way: never another one, and without a fetch error
   * every one. Each shows its own variable under the dotted names on the way to it, and the number
   * of its children exactly if it is a container that is not expanded.
   */
  lemma WalkIsExact<E>(fetch: Fetch<E>, reference: int, depth: int, keep: string -> bool)
    requires fetch(reference).Success?
    ensures var (vars, w) := (fetch(reference).value, Uncapped(fetch, reference, depth, keep));
            && (forall k | 0 <= k < |w.entries| ::
                  Describes(fetch, vars, w.entries[k].path, "", depth, w.entries[k].flat)
                  && keep(vars[w.entries[k].path[0]].name))
            && (w.error.None? ==>
                  forall path: seq<nat> | Shown(fetch, vars, path, depth) && keep(vars[path[0]].name) ::
                    HasPath(w.entries, path))
  {
    var (vars, w) := (fetch(reference).value, Uncapped(fetch, reference, depth, keep));
    SiblingsShow(fetch, vars, 0, [], "", depth, keep);
    forall k | 0 <= k < |w.entries|
      ensures w.entries[k].path[0..] == w.entries[k].path
    {
    }
    forall path: seq<nat>
      ensures [] + path == path
    {
    }
  }

  /** A position whose children the walk asks for. */
  predicate Expanded<E>(fetch: Fetch<E>, vars: seq<Variable>, path: seq<nat>, depth: int) {
    Shown(fetch, vars, path, depth) && |path| <= depth && At(fetch, vars, path).value.reference > 0
  }

  /** What fetching the children at a position yields. */
  function Fetched<E>(fetch: Fetch<E>, vars: seq<Variable>, path: seq<nat>): Result<seq<Variable>, E>
    requires At(fetch, vars, path).Some?
  {
    fetch(At(fetch, vars, path).value.reference)
  }

  /** The walk of positions `from <= path[0] < to` fails exactly if one of its fetches does, and as that one. */
  ghost predicate FailsAsFetched<E>(error: Option<E>, fetch: Fetch<E>, vars: seq<Variable>, from: nat, to: nat,
                                    depth: int, keep: string -> bool) {
    match error
    case None =>
      forall path: seq<nat> | Expanded(fetch, vars, path, depth) && from <= path[0] < to && keep(vars[path[0]].name) ::
        Fetched(fetch, vars, path).Success?
    case Some(e) =>
      exists path: seq<nat> :: Expanded(fetch, vars, path, depth) && from <= path[0] < to && keep(vars[path[0]].name)
                               && Fetched(fetch, vars, path) == Failure(e)
  }

  lemma {:induction false} SiblingsFail<E>(fetch: Fetch<E>, vars: seq<Variable>, i: nat, base: seq<nat>, prefix: string,
                                           depth: int, keep: string -> bool)
    ensures FailsAsFetched(Siblings(fetch, vars, i, base, prefix, depth, keep).error, fetch, vars, i, |vars|, depth,
                           keep)
    decreases Levels(depth), 0, |vars| - i
  {
    if i < |vars| {
      SiblingsFail(fetch, vars, i + 1, base, prefix, depth, keep);
      if keep(vars[i].name) {
        SubtreeFails(fetch, vars, i, base, prefix, depth, keep);
      }
    }
  }

  lemma {:induction false} SubtreeFails<E>(fetch: Fetch<E>, vars: seq<Variable>, i: nat, base: seq<nat>, prefix: string,
                                           depth: int, keep: string -> bool)
    requires i < |vars| && keep(vars[i].name)
    ensures FailsAsFetched(Subtree(fetch, vars[i], base + [i], prefix, depth).error, fetch, vars, i, i + 1, depth, keep)
    decreases Levels(depth), 0, 0
  {
    var v := vars[i];
    if v.reference > 0 && depth > 0 {
      assert Expanded(fetch, vars, [i], depth) && Fetched(fetch, vars, [i]) == fetch(v.reference);
      match fetch(v.reference)
      case Failure(e) =>
        assert Subtree(fetch, v, base + [i], prefix, depth).error == Some(e);
      case Success(children) =>
        SiblingsFail(fetch, children, 0, base + [i], prefix + v.name + ".", depth - 1, _ => true);
        var error := Below(fetch, v.reference, base + [i], prefix + v.name, depth - 1).error;
        ChildrenFail(fetch, vars, i, depth, keep, error);
        assert Subtree(fetch, v, base + [i], prefix, depth).error == error;
    }
  }

  /** An expanded node whose own fetch succeeds fails as the walk of its children does. */
  lemma ChildrenFail<E>(fetch: Fetch<E>, vars: seq<Variable>, i: nat, depth: int, keep: string -> bool,
                        error: Option<E>)
    requires i < |vars| && keep(vars[i].name) && vars[i].reference > 0 && depth > 0 && fetch(vars[i].reference).Success?
    requires var children := fetch(vars[i].reference).value;
             FailsAsFetched(error, fetch, children, 0, |children|, depth - 1, _ => true)
    ensures FailsAsFetched(error, fetch, vars, i, i + 1, depth, keep)
  {
    var children := fetch(vars[i].reference).value;
    forall path: seq<nat> | Expanded(fetch, vars, path, depth) && path[0] == i && |path| > 1
      ensures Expanded(fetch, children, path[1..], depth - 1)
      ensures Fetched(fetch, vars, path) == Fetched(fetch, children, path[1..])
    {
    }
    match error
    case None =>
      forall path: seq<nat> | Expanded(fetch, vars, path, depth) && path[0] == i
        ensures Fetched(fetch, vars, path).Success?
      {
        assert |path| == 1 ==> path == [i];
      }
    case Some(e) =>
      var below: seq<nat> :| Expanded(fetch, children, below, depth - 1)
                             && Fetched(fetch, children, below) == Failure(e);
      assert ([i] + below)[1..] == below;
      assert Expanded(fetch, vars, [i] + below, depth) && Fetched(fetch, vars, [i] + below) == Failure(e);
  }

  /** A walk fails exactly if it asks for children that cannot be fetched, and then with such a fetch's error. */
  lemma WalkFailsAsFetched<E>(fetch: Fetch<E>, reference: int, depth: int, keep: string -> bool)
    ensures var error := Uncapped(fetch, reference, depth, keep).error;
            match fetch(reference)
            case Failure(e) => error == Some(e)
            case Success(vars) => FailsAsFetched(error, fetch, vars, 0, |vars|, depth, keep)
  {
    if fetch(reference).Success? {
      SiblingsFail(fetch, fetch(reference).value, 0, [], "", depth, keep);
    }
  }
}
