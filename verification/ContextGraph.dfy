/**
 Value inheritance of permission contexts (packages/server/src/permissionContext.ts):
 the depth-first shape check that a config write runs, and the bounded breadth-first
 query that a permission check runs against the stored graph.
 */
module ContextGraph {
  import opened CaseFold
  import opened Common

  const MAX_CONTEXT_INHERIT_DEPTH: nat := 16
  const MAX_CONTEXT_INHERIT_VALUES: nat := 256
  const MAX_CONTEXT_INHERIT_PARENTS: nat := 8
  const MAX_CONTEXT_INHERIT_KEYS: nat := 32
  const PERMISSION_CONTEXT_VALUE_MAX_LENGTH: nat := 64

  type Value = string

  /** Each value mapped to its parents; a value without an entry has none. */
  type Graph = map<Value, seq<Value>>

  // ------------------------------------------------------------------
  // Graphs and walks
  // ------------------------------------------------------------------

  function Parents(g: Graph, v: Value): seq<Value> {
    if v in g then g[v] else []
  }

  function Nodes(g: Graph): set<Value> {
    g.Keys + set v, i | v in g && 0 <= i < |g[v]| :: g[v][i]
  }

  predicate Edge(g: Graph, v: Value, parent: Value) {
    parent in Parents(g, v)
  }

  /** A step of a walk goes to a declared parent, and to any of them. */
  lemma EdgesAreParents(g: Graph, v: Value, parent: Value)
    ensures Edge(g, v, parent) <==> v in g && parent in g[v]
    ensures v in Nodes(g) <==> v in g || exists u :: u in g && v in g[u]
  {
    if u :| u in g && v in g[u] {
      var i :| 0 <= i < |g[u]| && g[u][i] == v;
    }
  }

  ghost predicate IsWalk(g: Graph, p: seq<Value>) {
    && p != []
    && forall i :: 0 <= i < |p| - 1 ==> Edge(g, p[i], p[i + 1])
  }

  ghost predicate ClosedWalk(g: Graph, p: seq<Value>) {
    IsWalk(g, p) && 2 <= |p| && p[0] == p[|p| - 1]
  }

  ghost predicate Acyclic(g: Graph) {
    forall p :: !ClosedWalk(g, p)
  }

  /** No walk takes more than `depth` steps. */
  ghost predicate DepthBounded(g: Graph, depth: nat) {
    forall p :: IsWalk(g, p) ==> |p| - 1 <= depth
  }

  ghost predicate WalkBetween(g: Graph, v: Value, w: Value, p: seq<Value>) {
    IsWalk(g, p) && p[0] == v && p[|p| - 1] == w
  }

  ghost predicate ReachableIn(g: Graph, v: Value, w: Value, steps: nat) {
    exists p :: WalkBetween(g, v, w, p) && |p| - 1 <= steps
  }

  ghost predicate Reachable(g: Graph, v: Value, w: Value) {
    exists p :: WalkBetween(g, v, w, p)
  }

  // ------------------------------------------------------------------
  // The depth-first shape check
  // ------------------------------------------------------------------

  datatype Mark = Active | Done

  datatype Shape = Sound | Cycle(walk: seq<Value>) | TooDeep

  /** `longest` records, for every value in `done`, the length of its longest walk. */
  ghost predicate Heights(g: Graph, done: set<Value>, longest: map<Value, nat>) {
    && done <= longest.Keys
    && (forall v, p :: v in done && Edge(g, v, p) ==> p in done && longest[p] < longest[v])
    && (forall v {:trigger Attained(g, done, longest, v)} :: v in done ==> Attained(g, done, longest, v))
  }

  ghost predicate Attained(g: Graph, done: set<Value>, longest: map<Value, nat>, v: Value)
    requires v in done && done <= longest.Keys
  {
    longest[v] == 0 || exists p :: Edge(g, v, p) && p in done && longest[p] + 1 == longest[v]
  }

  lemma {:induction false} HeightBoundsWalks(g: Graph, done: set<Value>, longest: map<Value, nat>, p: seq<Value>)
    requires Heights(g, done, longest) && IsWalk(g, p) && p[0] in done
    ensures p[|p| - 1] in done && |p| - 1 + longest[p[|p| - 1]] <= longest[p[0]]
    decreases |p|
  {
    if 1 < |p| {
      assert Edge(g, p[0], p[1]);
      var tail := p[1..];
      assert IsWalk(g, tail) by {
        forall i | 0 <= i < |tail| - 1 ensures Edge(g, tail[i], tail[i + 1]) {
          assert Edge(g, p[i + 1], p[i + 2]);
        }
      }
      HeightBoundsWalks(g, done, longest, tail);
    }
  }

  lemma {:induction false} HeightIsAttained(g: Graph, done: set<Value>, longest: map<Value, nat>, v: Value)
    returns (p: seq<Value>)
    requires Heights(g, done, longest) && v in done
    ensures IsWalk(g, p) && p[0] == v && |p| - 1 == longest[v]
    decreases longest[v]
  {
    assert Attained(g, done, longest, v);
    if longest[v] == 0 {
      p := [v];
    } else {
      var next :| Edge(g, v, next) && next in done && longest[next] + 1 == longest[v];
      var tail := HeightIsAttained(g, done, longest, next);
      p := [v] + tail;
      PrependWalk(g, v, tail);
    }
  }

  lemma PrependWalk(g: Graph, v: Value, tail: seq<Value>)
    requires IsWalk(g, tail) && Edge(g, v, tail[0])
    ensures IsWalk(g, [v] + tail)
  {
    var p := [v] + tail;
    forall i | 0 <= i < |p| - 1 ensures Edge(g, p[i], p[i + 1]) {
      if 0 < i {
        assert p[i + 1] == tail[i] && p[i] == tail[i - 1];
        assert Edge(g, tail[i - 1], tail[(i - 1) + 1]);
      }
    }
  }

  lemma AppendWalk(g: Graph, p: seq<Value>, w: Value)
    requires IsWalk(g, p) && Edge(g, p[|p| - 1], w)
    ensures IsWalk(g, p + [w])
  {
    var q := p + [w];
    forall i | 0 <= i < |q| - 1 ensures Edge(g, q[i], q[i + 1]) {
      if i < |p| - 1 {
        assert Edge(g, p[i], p[i + 1]);
      }
    }
  }

  lemma WalkSuffix(g: Graph, p: seq<Value>, from: nat)
    requires IsWalk(g, p) && from < |p|
    ensures IsWalk(g, p[from..])
  {
    forall i | 0 <= i < |p[from..]| - 1 ensures Edge(g, p[from..][i], p[from..][i + 1]) {
      assert Edge(g, p[from + i], p[from + i + 1]);
    }
  }

  ghost function DoneIn(state: map<Value, Mark>): set<Value> {
    set v | v in state && state[v] == Done
  }

  /** The marks and heights are right for every value whose visit has ended. */
  ghost predicate Explored(g: Graph, state: map<Value, Mark>, longest: map<Value, nat>) {
    && state.Keys <= Nodes(g)
    && Heights(g, DoneIn(state), longest)
    && forall v :: v in DoneIn(state) ==> longest[v] <= MAX_CONTEXT_INHERIT_DEPTH
  }

  /** `path` is exactly the chain of values whose visits are still open. */
  ghost predicate OpenPath(state: map<Value, Mark>, path: seq<Value>) {
    forall v :: v in path <==> v in state && state[v] == Active
  }

  lemma EnterValue(g: Graph, state: map<Value, Mark>, longest: map<Value, nat>, value: Value, path: seq<Value>)
    requires Explored(g, state, longest) && OpenPath(state, path)
    requires value in Nodes(g) && value !in state
    ensures DoneIn(state[value := Active]) == DoneIn(state)
    ensures Explored(g, state[value := Active], longest)
    ensures OpenPath(state[value := Active], path + [value])
  {
    assert forall v :: v in DoneIn(state[value := Active]) <==> v in DoneIn(state);
    assert DoneIn(state[value := Active]) == DoneIn(state);
  }

  /** What a visit to `value` has learnt from the first `n` of its parents. */
  ghost predicate BestOf(parents: seq<Value>, n: nat, done: set<Value>, longest: map<Value, nat>, best: nat) {
    && n <= |parents|
    && (forall k :: 0 <= k < n ==> parents[k] in done && parents[k] in longest && longest[parents[k]] < best)
    && (best == 0 || exists k :: 0 <= k < n && parents[k] in longest && longest[parents[k]] + 1 == best)
  }

  lemma AddHeight(g: Graph, done: set<Value>, longest: map<Value, nat>, value: Value, best: nat)
    requires Heights(g, done, longest) && value !in done
    requires BestOf(Parents(g, value), |Parents(g, value)|, done, longest, best)
    ensures Heights(g, done + {value}, longest[value := best])
  {
    var parents, longest' := Parents(g, value), longest[value := best];
    forall v, p | v in done + {value} && Edge(g, v, p) ensures p in done && longest'[p] < longest'[v] {
      if v == value {
        var k :| 0 <= k < |parents| && parents[k] == p;
      }
    }
    forall v | v in done + {value} ensures Attained(g, done + {value}, longest', v) {
      if v != value {
        assert Attained(g, done, longest, v);
        if 0 < longest[v] {
          var p :| Edge(g, v, p) && p in done && longest[p] + 1 == longest[v];
          assert longest'[p] + 1 == longest'[v];
        }
      } else if 0 < best {
        var k :| 0 <= k < |parents| && parents[k] in longest && longest[parents[k]] + 1 == best;
        assert Edge(g, value, parents[k]) && longest'[parents[k]] + 1 == longest'[v];
      }
    }
  }

  lemma CloseMark(state: map<Value, Mark>, value: Value, path: seq<Value>)
    requires OpenPath(state, path + [value]) && value !in path
    ensures value !in DoneIn(state) && value in state
    ensures DoneIn(state[value := Done]) == DoneIn(state) + {value}
    ensures OpenPath(state[value := Done], path)
  {
    var state' := state[value := Done];
    assert forall v :: v in path + [value] <==> v in path || v == value;
    assert value in path + [value];
    assert forall v :: v in DoneIn(state') <==> v in DoneIn(state) || v == value;
  }

  lemma LeaveValue(g: Graph, state: map<Value, Mark>, longest: map<Value, nat>, value: Value, path: seq<Value>, best: nat)
    requires Explored(g, state, longest) && OpenPath(state, path + [value]) && value !in path
    requires BestOf(Parents(g, value), |Parents(g, value)|, DoneIn(state), longest, best)
    ensures var state', longest' := state[value := Done], longest[value := best];
            && DoneIn(state') == DoneIn(state) + {value}
            && OpenPath(state', path)
            && (best <= MAX_CONTEXT_INHERIT_DEPTH ==> Explored(g, state', longest'))
            && (MAX_CONTEXT_INHERIT_DEPTH < best ==> !DepthBounded(g, MAX_CONTEXT_INHERIT_DEPTH))
  {
    CloseMark(state, value, path);
    AddHeight(g, DoneIn(state), longest, value, best);
    if MAX_CONTEXT_INHERIT_DEPTH < best {
      var p := HeightIsAttained(g, DoneIn(state) + {value}, longest[value := best], value);
    }
  }

  lemma NextParent(g: Graph, parents: seq<Value>, i: nat, done: set<Value>, longest: map<Value, nat>,
                   done': set<Value>, longest': map<Value, nat>, best: nat)
    requires Heights(g, done, longest) && Heights(g, done', longest') && done <= done'
    requires BestOf(parents, i, done, longest, best)
    requires i < |parents| && parents[i] in done'
    ensures BestOf(parents, i + 1, done', longest', if longest'[parents[i]] + 1 <= best then best else longest'[parents[i]] + 1)
  {
    HeightsAreStable(g, done, longest, done', longest');
    if 0 < best {
      var k :| 0 <= k < i && parents[k] in longest && longest[parents[k]] + 1 == best;
      assert longest'[parents[k]] + 1 == best;
    }
  }

  class ShapeCheck {
    const inherit: Graph
    var state: map<Value, Mark>
    var longest: map<Value, nat>

    constructor (g: Graph)
      ensures inherit == g && state == map[] && longest == map[]
    {
      inherit := g;
      state, longest := map[], map[];
    }

    method Visit(value: Value, path: seq<Value>) returns (problem: Shape)
      requires Explored(inherit, state, longest) && OpenPath(state, path)
      requires value in Nodes(inherit) && IsWalk(inherit, path + [value])
      modifies this
      ensures problem.Sound? ==> Explored(inherit, state, longest) && OpenPath(state, path) && value in DoneIn(state)
      ensures problem.Sound? ==> old(state.Keys) <= state.Keys && DoneIn(old(state)) <= DoneIn(state)
      ensures problem.Cycle? ==> ClosedWalk(inherit, problem.walk)
      ensures problem.TooDeep? ==> !DepthBounded(inherit, MAX_CONTEXT_INHERIT_DEPTH)
      decreases Nodes(inherit) - state.Keys
    {
      hide Heights, IsWalk;
      if value in state {
        if state[value] == Done {
          return Sound;
        }
        var at := 0;
        while path[at] != value
          invariant at < |path| && value in path[at..]
          decreases |path| - at
        {
          at := at + 1;
        }
        WalkSuffix(inherit, path + [value], at);
        assert (path + [value])[at..] == path[at..] + [value];
        return Cycle(path[at..] + [value]);
      }
      EnterValue(inherit, state, longest, value, path);
      state := state[value := Active];
      var parents := Parents(inherit, value);
      var best := 0;
      for i := 0 to |parents|
        invariant Explored(inherit, state, longest) && OpenPath(state, path + [value])
        invariant old(state.Keys) + {value} <= state.Keys && DoneIn(old(state)) <= DoneIn(state)
        invariant BestOf(parents, i, DoneIn(state), longest, best)
      {
        assert parents[i] in Nodes(inherit);
        AppendWalk(inherit, path + [value], parents[i]);
        ghost var done, heights := DoneIn(state), longest;
        var problem := Visit(parents[i], path + [value]);
        if problem != Sound {
          return problem;
        }
        NextParent(inherit, parents, i, done, heights, DoneIn(state), longest, best);
        best := if longest[parents[i]] + 1 <= best then best else longest[parents[i]] + 1;
      }
      LeaveValue(inherit, state, longest, value, path, best);
      longest := longest[value := best];
      state := state[value := Done];
      return if MAX_CONTEXT_INHERIT_DEPTH < best then TooDeep else Sound;
    }
  }

  /** Recorded heights are the true ones, so a later, larger record agrees with an earlier one. */
  lemma HeightsAreStable(g: Graph, done: set<Value>, longest: map<Value, nat>, done': set<Value>, longest': map<Value, nat>)
    requires Heights(g, done, longest) && Heights(g, done', longest') && done <= done'
    ensures forall v :: v in done ==> longest[v] == longest'[v]
  {
    forall v | v in done ensures longest[v] == longest'[v] {
      var p := HeightIsAttained(g, done, longest, v);
      HeightBoundsWalks(g, done', longest', p);
      var q := HeightIsAttained(g, done', longest', v);
      HeightBoundsWalks(g, done, longest, q);
    }
  }

  method InheritanceShapeProblem(inherit: Graph, keys: seq<Value>) returns (problem: Shape)
    requires forall v :: v in keys <==> v in inherit
    ensures problem.Sound? <==> Acyclic(inherit) && DepthBounded(inherit, MAX_CONTEXT_INHERIT_DEPTH)
    ensures problem.Cycle? ==> ClosedWalk(inherit, problem.walk)
    ensures problem.TooDeep? ==> !DepthBounded(inherit, MAX_CONTEXT_INHERIT_DEPTH)
  {
    var check := new ShapeCheck(inherit);
    assert DoneIn(check.state) == {};
    for i := 0 to |keys|
      invariant Explored(inherit, check.state, check.longest) && OpenPath(check.state, [])
      invariant forall k :: 0 <= k < i ==> keys[k] in DoneIn(check.state)
    {
      assert keys[i] in Nodes(inherit);
      assert [] + [keys[i]] == [keys[i]];
      problem := check.Visit(keys[i], []);
      if problem != Sound {
        if problem.TooDeep? {
          assert !DepthBounded(inherit, MAX_CONTEXT_INHERIT_DEPTH);
        }
        return;
      }
    }
    assert inherit.Keys <= DoneIn(check.state);
    AllDoneIsSound(inherit, DoneIn(check.state), check.longest, MAX_CONTEXT_INHERIT_DEPTH);
    return Sound;
  }

  lemma AllDoneIsSound(g: Graph, done: set<Value>, longest: map<Value, nat>, depth: nat)
    requires Heights(g, done, longest) && g.Keys <= done
    requires forall v :: v in done ==> longest[v] <= depth
    ensures Acyclic(g) && DepthBounded(g, depth)
  {
    forall p | IsWalk(g, p) ensures |p| - 1 <= depth && !ClosedWalk(g, p) {
      if 1 < |p| {
        assert Edge(g, p[0], p[1]);
        HeightBoundsWalks(g, done, longest, p);
      }
    }
  }

  // ------------------------------------------------------------------
  // Folding
  // ------------------------------------------------------------------

  function Folds(values: seq<Value>): (folded: seq<Value>)
    ensures |folded| == |values|
    ensures forall i :: 0 <= i < |values| ==> folded[i] == FoldContextValue(values[i])
  {
    seq(|values|, i requires 0 <= i < |values| => FoldContextValue(values[i]))
  }

  /** The graph a query walks: every parent is folded as it is read. */
  function FoldedParents(g: Graph): Graph {
    map v | v in g :: Folds(g[v])
  }

  // ------------------------------------------------------------------
  // The breadth-first query
  // ------------------------------------------------------------------

  function Successors(g: Graph, values: set<Value>): set<Value> {
    set v, i | v in values && 0 <= i < |Parents(g, v)| :: Parents(g, v)[i]
  }

  /** Everything at most `steps` steps away from `value`. */
  function Within(g: Graph, value: Value, steps: nat): set<Value> {
    if steps == 0 then {value}
    else Within(g, value, steps - 1) + Successors(g, Within(g, value, steps - 1))
  }

  lemma {:induction false} WithinGrows(g: Graph, value: Value, few: nat, many: nat)
    requires few <= many
    ensures Within(g, value, few) <= Within(g, value, many)
  {
    if few < many {
      WithinGrows(g, value, few, many - 1);
    }
  }

  lemma {:induction false} WithinSaturates(g: Graph, value: Value, steps: nat, more: nat)
    requires Within(g, value, steps + 1) == Within(g, value, steps)
    requires steps <= more
    ensures Within(g, value, more) == Within(g, value, steps)
  {
    if steps < more {
      WithinSaturates(g, value, steps, more - 1);
    }
  }

  /** `Within` is exactly what walks of that length reach. */
  lemma {:induction false} WithinIsReachable(g: Graph, value: Value, steps: nat)
    ensures forall w :: w in Within(g, value, steps) <==> ReachableIn(g, value, w, steps)
  {
    forall w ensures w in Within(g, value, steps) <==> ReachableIn(g, value, w, steps) {
      if w in Within(g, value, steps) {
        var p := WalkTo(g, value, steps, w);
      }
      if ReachableIn(g, value, w, steps) {
        var p :| WalkBetween(g, value, w, p) && |p| - 1 <= steps;
        WalkEndsWithin(g, p);
        WithinGrows(g, value, |p| - 1, steps);
      }
    }
  }

  lemma {:induction false} WalkTo(g: Graph, value: Value, steps: nat, w: Value) returns (p: seq<Value>)
    requires w in Within(g, value, steps)
    ensures WalkBetween(g, value, w, p) && |p| - 1 <= steps
  {
    if steps == 0 {
      p := [value];
    } else if w in Within(g, value, steps - 1) {
      p := WalkTo(g, value, steps - 1, w);
    } else {
      var v, i :| v in Within(g, value, steps - 1) && 0 <= i < |Parents(g, v)| && Parents(g, v)[i] == w;
      assert Edge(g, v, w);
      p := WalkTo(g, value, steps - 1, v);
      AppendWalk(g, p, w);
      p := p + [w];
    }
  }

  lemma {:induction false} WalkEndsWithin(g: Graph, p: seq<Value>)
    requires IsWalk(g, p)
    ensures p[|p| - 1] in Within(g, p[0], |p| - 1)
  {
    if 1 < |p| {
      var init := p[..|p| - 1];
      forall i | 0 <= i < |init| - 1 ensures Edge(g, init[i], init[i + 1]) {
        assert Edge(g, p[i], p[i + 1]);
      }
      WalkEndsWithin(g, init);
      assert Edge(g, p[|p| - 2], p[|p| - 2 + 1]);
      var v := p[|p| - 2];
      var i :| 0 <= i < |Parents(g, v)| && Parents(g, v)[i] == p[|p| - 1];
    }
  }

  /** Every recorded distance is the length of a shortest walk. */
  ghost predicate ExactDistances(g: Graph, value: Value, chain: map<Value, nat>) {
    forall w :: w in chain ==> FirstReachedAt(g, value, w, chain[w])
  }

  ghost predicate FirstReachedAt(g: Graph, value: Value, w: Value, steps: nat) {
    w in Within(g, value, steps) && (steps == 0 || w !in Within(g, value, steps - 1))
  }

  /** The values first reached by the level before `distance`. */
  ghost predicate FrontierAt(g: Graph, value: Value, distance: nat, frontier: seq<Value>)
    requires 1 <= distance
  {
    && (distance == 1 ==> frontier == [value])
    && (1 < distance ==>
          forall w :: w in frontier <==> w in Within(g, value, distance - 1) && w !in Within(g, value, distance - 2))
  }

  /** The progress of one level: `reached` is the previous level's set, `seen` its part looked at. */
  ghost predicate LevelSoFar(g: Graph, value: Value, distance: nat, chain: map<Value, nat>, next: seq<Value>, seen: set<Value>)
    requires 1 <= distance
  {
    && chain.Keys == Within(g, value, distance - 1) + seen
    && seen <= Within(g, value, distance)
    && ExactDistances(g, value, chain)
    && (forall w :: w in next <==> w in seen && w !in Within(g, value, distance - 1))
  }

  function EffectiveGraph(inheritance: map<string, Graph>, key: string): Graph {
    if key in inheritance then FoldedParents(inheritance[key]) else map[]
  }

  lemma SeeParent(g: Graph, value: Value, distance: nat, chain: map<Value, nat>, next: seq<Value>, seen: set<Value>, w: Value)
    requires 1 <= distance && LevelSoFar(g, value, distance, chain, next, seen)
    requires w in Within(g, value, distance)
    ensures w in chain ==> LevelSoFar(g, value, distance, chain, next, seen + {w})
    ensures w !in chain ==> LevelSoFar(g, value, distance, chain[w := distance], next + [w], seen + {w})
  {
    hide Within, Successors;
    if w !in chain {
      assert FirstReachedAt(g, value, w, distance);
      hide FirstReachedAt;
      assert forall u :: u in next + [w] <==> u in next || u == w;
    } else {
      assert w in seen || w in Within(g, value, distance - 1);
    }
  }

  /** The folded parents before the `j`-th, and the successors of the frontier before the `i`-th. */
  function FoldedBefore(parents: seq<Value>, j: nat): set<Value>
    requires j <= |parents|
  {
    set k | 0 <= k < j :: FoldContextValue(parents[k])
  }

  function ReachedBefore(g: Graph, frontier: seq<Value>, i: nat): set<Value>
    requires i <= |frontier|
  {
    Successors(g, set k | 0 <= k < i :: frontier[k])
  }

  lemma FoldedNext(parents: seq<Value>, j: nat)
    requires j < |parents|
    ensures FoldedBefore(parents, j + 1) == FoldedBefore(parents, j) + {FoldContextValue(parents[j])}
  {
    hide FoldContextValue;
  }

  lemma LevelStart(g: Graph, value: Value, distance: nat, chain: map<Value, nat>, frontier: seq<Value>)
    requires 1 <= distance && chain.Keys == Within(g, value, distance - 1) && ExactDistances(g, value, chain)
    ensures LevelSoFar(g, value, distance, chain, [], {}) && ReachedBefore(g, frontier, 0) == {}
    ensures forall parents: seq<Value> :: FoldedBefore(parents, 0) == {}
  {
    hide Within, FirstReachedAt;
  }

  lemma LevelEnd(g: Graph, value: Value, distance: nat, chain: map<Value, nat>, next: seq<Value>, frontier: seq<Value>, seen: set<Value>)
    requires 1 <= distance && FrontierAt(g, value, distance, frontier) && seen == ReachedBefore(g, frontier, |frontier|)
    requires LevelSoFar(g, value, distance, chain, next, seen)
    ensures chain.Keys == Within(g, value, distance) && ExactDistances(g, value, chain) && FrontierAt(g, value, distance + 1, next)
  {
    hide Within, FirstReachedAt, Successors;
    LevelComplete(g, value, distance, frontier, seen);
  }

  /** One level of the search: records every unseen parent of the frontier at `distance`. */
  method ExpandFrontier(inherit: Graph, ghost value: Value, distance: nat, chain0: map<Value, nat>, frontier: seq<Value>)
    returns (chain: map<Value, nat>, next: seq<Value>)
    requires 1 <= distance
    requires chain0.Keys == Within(FoldedParents(inherit), value, distance - 1)
    requires ExactDistances(FoldedParents(inherit), value, chain0)
    requires FrontierAt(FoldedParents(inherit), value, distance, frontier)
    ensures chain.Keys == Within(FoldedParents(inherit), value, distance)
    ensures ExactDistances(FoldedParents(inherit), value, chain)
    ensures FrontierAt(FoldedParents(inherit), value, distance + 1, next)
  {
    hide Within, FoldedParents, LevelSoFar, ExactDistances, FrontierAt, ReachedBefore, FoldedBefore, FoldContextValue;
    ghost var g := FoldedParents(inherit);
    chain, next := chain0, [];
    ghost var seen: set<Value> := {};
    LevelStart(g, value, distance, chain, frontier);
    for i := 0 to |frontier|
      invariant LevelSoFar(g, value, distance, chain, next, seen)
      invariant seen == ReachedBefore(g, frontier, i)
    {
      var parents := Parents(inherit, frontier[i]);
      ghost var before := seen;
      for j := 0 to |parents|
        invariant LevelSoFar(g, value, distance, chain, next, seen)
        invariant seen == before + FoldedBefore(parents, j)
      {
        var folded := FoldContextValue(parents[j]);
        FoldedParentWithin(inherit, value, distance, frontier, i, j);
        SeeParent(g, value, distance, chain, next, seen, folded);
        FoldedNext(parents, j);
        seen := seen + {folded};
        if folded !in chain {
          chain := chain[folded := distance];
          next := next + [folded];
        }
      }
      SuccessorsOfOneMore(inherit, frontier, i);
    }
    LevelEnd(g, value, distance, chain, next, frontier, seen);
  }

  lemma FoldedParentWithin(inherit: Graph, value: Value, distance: nat, frontier: seq<Value>, i: nat, j: nat)
    requires 1 <= distance && FrontierAt(FoldedParents(inherit), value, distance, frontier)
    requires i < |frontier| && j < |Parents(inherit, frontier[i])|
    ensures FoldContextValue(Parents(inherit, frontier[i])[j]) in Within(FoldedParents(inherit), value, distance)
  {
    var g := FoldedParents(inherit);
    assert frontier[i] in frontier && frontier[i] in Within(g, value, distance - 1);
    assert Parents(g, frontier[i])[j] == FoldContextValue(Parents(inherit, frontier[i])[j]);
  }

  lemma SuccessorsOfOneMore(inherit: Graph, frontier: seq<Value>, i: nat)
    requires i < |frontier|
    ensures ReachedBefore(FoldedParents(inherit), frontier, i + 1)
         == ReachedBefore(FoldedParents(inherit), frontier, i) + FoldedBefore(Parents(inherit, frontier[i]), |Parents(inherit, frontier[i])|)
  {
    var g := FoldedParents(inherit);
    assert Parents(g, frontier[i]) == Folds(Parents(inherit, frontier[i]));
    assert (set k | 0 <= k < i + 1 :: frontier[k]) == (set k | 0 <= k < i :: frontier[k]) + {frontier[i]};
  }

  method ContextChain(inheritance: map<string, Graph>, key: string, value: Value) returns (chain: map<Value, nat>)
    ensures chain.Keys == Within(EffectiveGraph(inheritance, key), value, MAX_CONTEXT_INHERIT_DEPTH)
    ensures key in inheritance ==> chain.Keys == Within(FoldedParents(inheritance[key]), value, MAX_CONTEXT_INHERIT_DEPTH)
    ensures key !in inheritance ==> chain == map[value := 0]
    ensures ExactDistances(EffectiveGraph(inheritance, key), value, chain)
  {
    chain := map[value := 0];
    StartLevel(EffectiveGraph(inheritance, key), value);
    if key !in inheritance {
      NothingBeyond(map[], value, 1, []);
      return;
    }
    hide Within, ExactDistances, FrontierAt;
    var inherit := inheritance[key];
    ghost var g := FoldedParents(inherit);
    var frontier := [value];
    var distance := 1;
    while frontier != [] && distance <= MAX_CONTEXT_INHERIT_DEPTH
      invariant 1 <= distance <= MAX_CONTEXT_INHERIT_DEPTH + 1
      invariant chain.Keys == Within(g, value, distance - 1) && ExactDistances(g, value, chain)
      invariant FrontierAt(g, value, distance, frontier)
      decreases MAX_CONTEXT_INHERIT_DEPTH + 1 - distance
    {
      var next;
      chain, next := ExpandFrontier(inherit, value, distance, chain, frontier);
      frontier := next;
      distance := distance + 1;
    }
    if frontier == [] {
      NothingBeyond(g, value, distance, frontier);
    }
  }

  lemma StartLevel(g: Graph, value: Value)
    ensures map[value := 0].Keys == Within(g, value, 0)
    ensures ExactDistances(g, value, map[value := 0])
    ensures FrontierAt(g, value, 1, [value])
  {
  }

  /** Once a level adds nothing, the search has found everything. */
  lemma NothingBeyond(g: Graph, value: Value, distance: nat, frontier: seq<Value>)
    requires 1 <= distance <= MAX_CONTEXT_INHERIT_DEPTH + 1
    requires g == map[] || (frontier == [] && FrontierAt(g, value, distance, frontier))
    ensures Within(g, value, distance - 1) == Within(g, value, MAX_CONTEXT_INHERIT_DEPTH)
  {
    if g == map[] {
      assert Within(g, value, 1) == Within(g, value, 0);
      WithinSaturates(g, value, 0, distance - 1);
      WithinSaturates(g, value, 0, MAX_CONTEXT_INHERIT_DEPTH);
    } else {
      var steps: nat := distance - 2;
      WithinGrows(g, value, steps, steps + 1);
      var last, prior := Within(g, value, distance - 1), Within(g, value, steps);
      assert forall w :: w in last ==> w in prior by {
        hide Within;
        forall w | w in last ensures w in prior {
          assert w !in frontier;
        }
      }
      assert Within(g, value, steps + 1) == Within(g, value, steps);
      WithinSaturates(g, value, steps, MAX_CONTEXT_INHERIT_DEPTH);
    }
  }

  /** Only values new at the last level can lead to values new at the next one. */
  lemma LevelComplete(g: Graph, value: Value, distance: nat, frontier: seq<Value>, seen: set<Value>)
    requires 1 <= distance && FrontierAt(g, value, distance, frontier)
    requires seen == Successors(g, set k | 0 <= k < |frontier| :: frontier[k])
    ensures Within(g, value, distance) == Within(g, value, distance - 1) + seen
  {
    var reached := Within(g, value, distance - 1);
    var last := set k | 0 <= k < |frontier| :: frontier[k];
    forall w | w in Successors(g, reached) ensures w in reached + seen {
      var v, i :| v in reached && 0 <= i < |Parents(g, v)| && Parents(g, v)[i] == w;
      if 1 < distance && v in Within(g, value, distance - 2) {
        assert w in Successors(g, Within(g, value, distance - 2));
      } else {
        assert v in frontier;
        assert v in last;
      }
    }
    forall w | w in seen ensures w in Within(g, value, distance) {
      var v, i :| v in last && 0 <= i < |Parents(g, v)| && Parents(g, v)[i] == w;
      assert v in frontier && v in reached;
    }
  }

  // ------------------------------------------------------------------
  // Normalisation of a configuration
  // ------------------------------------------------------------------

  predicate ValidContextValue(value: Value) {
    && 1 <= |value| <= PERMISSION_CONTEXT_VALUE_MAX_LENGTH
    && forall i :: 0 <= i < |value| ==> !(value[i] as int < 0x20 || 0x7f <= value[i] as int <= 0x9f)
  }

  predicate KeyStart(c: char) {
    'a' <= c <= 'z'
  }

  predicate KeyRest(c: char) {
    'a' <= c <= 'z' || '0' <= c <= '9' || c == '_'
  }

  predicate ValidContextKey(key: string) {
    1 <= |key| <= 32 && KeyStart(key[0]) && forall i :: 1 <= i < |key| ==> KeyRest(key[i])
  }

  /** By character code: one to 32 lowercase letters, digits and underscores, the first of them a letter. */
  lemma ValidKeyMeans(key: string)
    ensures
      ValidContextKey(key) <==>
      && 0 < |key| < 33 && 97 <= key[0] as int <= 122
      && forall i :: 0 <= i < |key| ==>
           97 <= key[i] as int <= 122 || 48 <= key[i] as int <= 57 || key[i] as int == 95
  {
  }

  /** One to 64 characters, none of them below a space and none from delete up to the last C1 control. */
  lemma ValidValueMeans(value: Value)
    ensures ValidContextValue(value) <==> 0 < |value| < 65 && forall c :: c in value ==> ' ' <= c && (c <= '~' || 160 as char <= c)
  {
    if 0 < |value| < 65 && forall c :: c in value ==> ' ' <= c && (c <= '~' || 160 as char <= c) {
      assert forall i :: 0 <= i < |value| ==> value[i] in value;
    }
  }

  /** One key's `inherit` object: its entries in property order. */
  type Source = seq<(Value, seq<Value>)>

  function FoldSource(source: Source): Graph {
    if source == [] then map[]
    else
      var (value, parents) := source[|source| - 1];
      FoldSource(source[..|source| - 1])[FoldContextValue(value) := Dedup(Folds(parents))]
  }

  ghost predicate ValidEntry(entry: (Value, seq<Value>)) {
    && ValidContextValue(entry.0)
    && |entry.1| <= MAX_CONTEXT_INHERIT_PARENTS
    && forall p :: p in entry.1 ==> ValidContextValue(p)
  }

  ghost predicate ValidEntries(source: Source) {
    && (forall i :: 0 <= i < |source| ==> ValidEntry(source[i]))
    && (forall i, j :: 0 <= i < j < |source| ==> FoldContextValue(source[i].0) != FoldContextValue(source[j].0))
  }

  ghost predicate Acceptable(source: Source) {
    && |source| <= MAX_CONTEXT_INHERIT_VALUES
    && ValidEntries(source)
    && Acyclic(FoldSource(source))
    && DepthBounded(FoldSource(source), MAX_CONTEXT_INHERIT_DEPTH)
  }

  datatype Refusal =
    | TooManyKeys
    | BadKey(key: string)
    | TooManyValues
    | BadValue(value: Value)
    | ListedTwice(value: Value)
    | TooManyParents(value: Value)
    | BadShape(shape: Shape)

  lemma FoldSourceKeys(source: Source)
    ensures forall v :: v in FoldSource(source) <==> exists i :: 0 <= i < |source| && FoldContextValue(source[i].0) == v
  {
    if source != [] {
      FoldSourceKeys(source[..|source| - 1]);
      assert forall i :: 0 <= i < |source| - 1 ==> source[..|source| - 1][i] == source[i];
    }
  }

  /** Folding keeps every declared parent of every declared value, ignoring case. */
  lemma {:induction false} FoldSourceKeepsEdges(source: Source, i: nat)
    requires i < |source|
    requires forall a, b :: 0 <= a < b < |source| ==> FoldContextValue(source[a].0) != FoldContextValue(source[b].0)
    ensures FoldContextValue(source[i].0) in FoldSource(source)
    ensures FoldSource(source)[FoldContextValue(source[i].0)] == Dedup(Folds(source[i].1))
  {
    if i < |source| - 1 {
      FoldSourceKeepsEdges(source[..|source| - 1], i);
    }
  }

  method NormalizeParents(parents: seq<Value>) returns (r: Result<seq<Value>, Refusal>)
    ensures r.Ok? <==> forall p :: p in parents ==> ValidContextValue(p)
    ensures r.Ok? ==> r.value == Dedup(Folds(parents))
    ensures r.Err? ==> r.error.BadValue?
  {
    var folds: seq<Value> := [];
    for i := 0 to |parents|
      invariant folds == Dedup(Folds(parents)[..i])
      invariant forall k :: 0 <= k < i ==> ValidContextValue(parents[k])
    {
      if !ValidContextValue(parents[i]) {
        return Err(BadValue(parents[i]));
      }
      var f := FoldContextValue(parents[i]);
      assert Folds(parents)[..i + 1] == Folds(parents)[..i] + [f];
      if f !in folds {
        folds := folds + [f];
      }
    }
    assert Folds(parents)[..|parents|] == Folds(parents);
    return Ok(folds);
  }

  /** An entry more is valid when it is by itself and repeats no value, ignoring case. */
  lemma EntryAdded(source: Source, i: nat)
    requires i < |source|
    ensures
      ValidEntries(source[..i + 1]) <==>
      ValidEntries(source[..i]) && ValidEntry(source[i]) && FoldContextValue(source[i].0) !in FoldSource(source[..i])
    ensures ValidEntries(source) ==> ValidEntries(source[..i + 1])
    ensures FoldSource(source[..i + 1]) == FoldSource(source[..i])[FoldContextValue(source[i].0) := Dedup(Folds(source[i].1))]
  {
    hide ValidEntry, FoldContextValue;
    var before, more := source[..i], source[..i + 1];
    assert more[..i] == before;
    FoldSourceKeys(before);
    assert forall k :: 0 <= k < i ==> more[k] == before[k] == source[k];
    if ValidEntries(before) && ValidEntry(source[i]) && FoldContextValue(source[i].0) !in FoldSource(before) {
      forall a, b | 0 <= a < b < |more|
        ensures FoldContextValue(more[a].0) != FoldContextValue(more[b].0)
      {
        if b == i {
          assert FoldContextValue(before[a].0) in FoldSource(before);
        }
      }
    }
  }

  method NormalizeEntries(source: Source) returns (r: Result<(Graph, seq<Value>), Refusal>)
    ensures r.Ok? <==> ValidEntries(source)
    ensures r.Ok? ==> r.value.0 == FoldSource(source) && forall v :: v in r.value.1 <==> v in r.value.0
    ensures r.Err? ==> !r.error.BadShape?
  {
    hide ValidEntries, FoldSource, FoldContextValue, ValidContextValue, Folds;
    var inherit: Graph := map[];
    var keys: seq<Value> := [];
    NothingListed();
    assert source[..0] == [];
    for i := 0 to |source|
      invariant inherit == FoldSource(source[..i])
      invariant forall v :: v in keys <==> v in inherit
      invariant ValidEntries(source[..i])
    {
      EntryAdded(source, i);
      var (value, parents) := source[i];
      if !ValidContextValue(value) {
        return Err(BadValue(value));
      }
      var folded := FoldContextValue(value);
      if folded in inherit {
        return Err(ListedTwice(folded));
      }
      if MAX_CONTEXT_INHERIT_PARENTS < |parents| {
        return Err(TooManyParents(folded));
      }
      var folds := NormalizeParents(parents);
      if folds.Err? {
        return Err(folds.error);
      }
      inherit := inherit[folded := folds.value];
      keys := keys + [folded];
    }
    assert source[..|source|] == source;
    return Ok((inherit, keys));
  }

  lemma NothingListed()
    ensures ValidEntries([]) && FoldSource([]) == map[]
  {
  }

  method NormalizeInherit(source: Source) returns (r: Result<Graph, Refusal>)
    ensures r.Ok? <==> Acceptable(source)
    ensures r.Ok? ==> r.value == FoldSource(source)
    ensures r.Err? && r.error.BadShape? && r.error.shape.Cycle? ==> ClosedWalk(FoldSource(source), r.error.shape.walk)
  {
    if MAX_CONTEXT_INHERIT_VALUES < |source| {
      return Err(TooManyValues);
    }
    var entries := NormalizeEntries(source);
    if entries.Err? {
      return Err(entries.error);
    }
    var problem := InheritanceShapeProblem(entries.value.0, entries.value.1);
    if problem != Sound {
      return Err(BadShape(problem));
    }
    return Ok(entries.value.0);
  }

  /** `permissions.contexts` as an ordered list of keys with their `inherit` objects. */
  type RawConfig = seq<(string, Source)>

  ghost predicate AcceptableConfig(raw: RawConfig) {
    && |raw| <= MAX_CONTEXT_INHERIT_KEYS
    && forall i :: 0 <= i < |raw| ==> ValidContextKey(raw[i].0) && Acceptable(raw[i].1)
  }

  function NormalizedConfig(raw: RawConfig): map<string, Graph> {
    if raw == [] then map[]
    else NormalizedConfig(raw[..|raw| - 1])[raw[|raw| - 1].0 := FoldSource(raw[|raw| - 1].1)]
  }

  method NormalizeContextInheritance(raw: RawConfig) returns (r: Result<map<string, Graph>, Refusal>)
    ensures r.Ok? <==> AcceptableConfig(raw)
    ensures r.Ok? ==> r.value == NormalizedConfig(raw)
  {
    hide Acceptable;
    if MAX_CONTEXT_INHERIT_KEYS < |raw| {
      return Err(TooManyKeys);
    }
    var contexts: map<string, Graph> := map[];
    for i := 0 to |raw|
      invariant AcceptableConfig(raw[..i]) && contexts == NormalizedConfig(raw[..i])
    {
      var (key, source) := raw[i];
      assert raw[..i + 1] == raw[..i] + [raw[i]];
      if !ValidContextKey(key) {
        return Err(BadKey(key));
      }
      var inherit := NormalizeInherit(source);
      if inherit.Err? {
        return Err(inherit.error);
      }
      contexts := contexts[key := inherit.value];
    }
    assert raw[..|raw|] == raw;
    return Ok(contexts);
  }

  lemma {:induction false} NormalizedConfigLookup(raw: RawConfig, key: string) returns (i: nat)
    requires key in NormalizedConfig(raw)
    ensures i < |raw| && raw[i].0 == key && NormalizedConfig(raw)[key] == FoldSource(raw[i].1)
  {
    i := |raw| - 1;
    if raw[i].0 != key {
      i := NormalizedConfigLookup(raw[..i], key);
    }
  }

  /** Every key of the list is in the configuration, with the graph of its last object. */
  lemma {:induction false} NormalizedConfigKeeps(raw: RawConfig, i: nat)
    requires i < |raw|
    ensures raw[i].0 in NormalizedConfig(raw)
    ensures (forall j :: i < j < |raw| ==> raw[j].0 != raw[i].0) ==> NormalizedConfig(raw)[raw[i].0] == FoldSource(raw[i].1)
  {
    if i < |raw| - 1 {
      NormalizedConfigKeeps(raw[..|raw| - 1], i);
    }
  }

  // ------------------------------------------------------------------
  // What acceptance buys a query
  // ------------------------------------------------------------------

  lemma {:induction false} StoredGraphIsFolded(source: Source)
    ensures FoldedParents(FoldSource(source)) == FoldSource(source)
  {
    if source != [] {
      var init := source[..|source| - 1];
      StoredGraphIsFolded(init);
      var (value, parents) := source[|source| - 1];
      var kept := Dedup(Folds(parents));
      forall i | 0 <= i < |kept| ensures FoldContextValue(kept[i]) == kept[i] {
        assert kept[i] in Folds(parents);
        var j :| 0 <= j < |parents| && kept[i] == FoldContextValue(parents[j]);
        FoldIsIdempotent(parents[j]);
      }
      assert Folds(kept) == kept;
      var g := FoldSource(source);
      forall v | v in g ensures Folds(g[v]) == g[v] {
        if v != FoldContextValue(value) {
          assert FoldedParents(FoldSource(init))[v] == FoldSource(init)[v];
        }
      }
      assert FoldedParents(g).Keys == g.Keys;
    }
  }

  /**
   On every accepted configuration the depth bound truncates nothing: a query finds
   exactly the values any walk reaches, however long.
   */
  lemma AcceptedChainIsComplete(source: Source, value: Value)
    requires Acceptable(source)
    ensures var g := FoldSource(source);
            forall w :: w in Within(FoldedParents(g), value, MAX_CONTEXT_INHERIT_DEPTH) <==> Reachable(g, value, w)
  {
    var g := FoldSource(source);
    StoredGraphIsFolded(source);
    WithinIsReachable(g, value, MAX_CONTEXT_INHERIT_DEPTH);
    forall w ensures w in Within(g, value, MAX_CONTEXT_INHERIT_DEPTH) <==> Reachable(g, value, w) {
      if Reachable(g, value, w) {
        var p :| WalkBetween(g, value, w, p);
        assert |p| - 1 <= MAX_CONTEXT_INHERIT_DEPTH;
        assert ReachableIn(g, value, w, MAX_CONTEXT_INHERIT_DEPTH);
      }
    }
  }

  /** The same for every key of an accepted `permissions.contexts`, as `ContextChain` reads it. */
  lemma AcceptedConfigIsComplete(raw: RawConfig, key: string, value: Value)
    requires AcceptableConfig(raw) && key in NormalizedConfig(raw)
    ensures forall w :: w in Within(FoldedParents(NormalizedConfig(raw)[key]), value, MAX_CONTEXT_INHERIT_DEPTH)
                   <==> Reachable(NormalizedConfig(raw)[key], value, w)
  {
    var i := NormalizedConfigLookup(raw, key);
    assert Acceptable(raw[i].1);
    hide *;
    AcceptedChainIsComplete(raw[i].1, value);
  }

  /**
   For any graph, stored or corrupt: the recorded distance of `w` is the least number of
   steps of a walk to it, and a value is missing exactly when every walk to it is too long.
   */
  lemma ChainDistancesAreShortest(g: Graph, value: Value, chain: map<Value, nat>, w: Value)
    requires chain.Keys == Within(g, value, MAX_CONTEXT_INHERIT_DEPTH) && ExactDistances(g, value, chain)
    ensures w in chain <==> ReachableIn(g, value, w, MAX_CONTEXT_INHERIT_DEPTH)
    ensures w in chain ==> ReachableIn(g, value, w, chain[w])
    ensures w in chain ==> forall steps: nat :: steps < chain[w] ==> !ReachableIn(g, value, w, steps)
  {
    hide Within, ReachableIn;
    WithinIsReachable(g, value, MAX_CONTEXT_INHERIT_DEPTH);
    assert w in chain <==> w in Within(g, value, MAX_CONTEXT_INHERIT_DEPTH);
    if w in chain {
      assert FirstReachedAt(g, value, w, chain[w]);
      WithinIsReachable(g, value, chain[w]);
      forall steps: nat | steps < chain[w] ensures !ReachableIn(g, value, w, steps) {
        NotWithinSooner(g, value, w, chain[w], steps);
      }
    }
  }

  lemma NotWithinSooner(g: Graph, value: Value, w: Value, distance: nat, steps: nat)
    requires steps < distance && w !in Within(g, value, distance - 1)
    ensures !ReachableIn(g, value, w, steps)
  {
    WithinIsReachable(g, value, steps);
    WithinGrows(g, value, steps, distance - 1);
  }
}
