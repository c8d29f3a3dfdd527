/** Layers for a chain of claims, and a column of assumption cards that do not overlap: `materializeChain` of
    src/graphNativeMaterialize.ts. */
module GraphMaterialize {

  type Id = string

  datatype Edge = Edge(src: Id, dst: Id)

  // ---------- which steps feed a step ----------

  function StepEdges(edges: seq<Edge>, steps: set<Id>): seq<Edge> {
    if edges == [] then []
    else
      var before, e := StepEdges(edges[..|edges| - 1], steps), edges[|edges| - 1];
      if e.src in steps && e.dst in steps then before + [e] else before
  }

  function Sources(edges: seq<Edge>, id: Id): seq<Id> {
    if edges == [] then []
    else
      var before, e := Sources(edges[..|edges| - 1], id), edges[|edges| - 1];
      if e.dst == id then before + [e.src] else before
  }

  lemma {:induction false} SourcesMeaning(edges: seq<Edge>, id: Id)
    ensures forall p :: p in Sources(edges, id) <==> Edge(p, id) in edges
  {
    if edges != [] {
      SourcesMeaning(edges[..|edges| - 1], id);
      assert edges == edges[..|edges| - 1] + [edges[|edges| - 1]];
    }
  }

  lemma {:induction false} StepEdgesMeaning(edges: seq<Edge>, steps: set<Id>)
    ensures forall e :: e in StepEdges(edges, steps) <==> e in edges && e.src in steps && e.dst in steps
  {
    if edges != [] {
      StepEdgesMeaning(edges[..|edges| - 1], steps);
      assert edges == edges[..|edges| - 1] + [edges[|edges| - 1]];
    }
  }

  function Incoming(incoming: map<Id, seq<Id>>, id: Id): seq<Id> {
    if id in incoming then incoming[id] else []
  }

  method StepIncoming(edges: seq<Edge>, steps: set<Id>) returns (incoming: map<Id, seq<Id>>)
    ensures forall id :: Incoming(incoming, id) == Sources(StepEdges(edges, steps), id)
    ensures forall p, id :: p in (if id in incoming then incoming[id] else []) <==> Edge(p, id) in edges && p in steps && id in steps
  {
    incoming := map[];
    for i := 0 to |edges|
      invariant forall id :: Incoming(incoming, id) == Sources(StepEdges(edges[..i], steps), id)
    {
      var e := edges[i];
      assert edges[..i + 1][..i] == edges[..i];
      if e.src in steps && e.dst in steps {
        var before := StepEdges(edges[..i], steps);
        assert (before + [e])[..|before|] == before;
        incoming := incoming[e.dst := Incoming(incoming, e.dst) + [e.src]];
      }
    }
    assert edges[..|edges|] == edges;
    StepEdgesMeaning(edges, steps);
    forall p, id ensures p in Incoming(incoming, id) <==> Edge(p, id) in edges && p in steps && id in steps {
      SourcesMeaning(StepEdges(edges, steps), id);
    }
  }

  // ---------- depth ----------

  /** One more than the deepest of these, or zero if there are none. */
  function DepthOver(memo: map<Id, nat>, ps: seq<Id>): nat
    requires forall k | 0 <= k < |ps| :: ps[k] in memo
  {
    if ps == [] then 0
    else
      var before, last := DepthOver(memo, ps[..|ps| - 1]), memo[ps[|ps| - 1]] + 1;
      if before < last then last else before
  }

  ghost predicate SettledAt(incoming: map<Id, seq<Id>>, memo: map<Id, nat>, id: Id)
    requires id in memo
  {
    var ps := Incoming(incoming, id);
    (forall k | 0 <= k < |ps| :: ps[k] in memo) && memo[id] == DepthOver(memo, ps)
  }

  ghost predicate Settled(incoming: map<Id, seq<Id>>, memo: map<Id, nat>) {
    forall id | id in memo :: SettledAt(incoming, memo, id)
  }

  /** No cycles: some numbering goes up along every edge. */
  ghost predicate Ranked(incoming: map<Id, seq<Id>>, rank: Id -> nat) {
    forall id, k | 0 <= k < |Incoming(incoming, id)| :: rank(Incoming(incoming, id)[k]) < rank(id)
  }

  ghost predicate Acyclic(incoming: map<Id, seq<Id>>) {
    exists rank :: Ranked(incoming, rank)
  }

  ghost predicate Extends(later: map<Id, nat>, memo: map<Id, nat>) {
    forall id | id in memo :: id in later && later[id] == memo[id]
  }

  lemma {:induction false} DepthOverExtends(memo: map<Id, nat>, later: map<Id, nat>, ps: seq<Id>)
    requires Extends(later, memo) && forall k | 0 <= k < |ps| :: ps[k] in memo
    ensures (forall k | 0 <= k < |ps| :: ps[k] in later) && DepthOver(later, ps) == DepthOver(memo, ps)
  {
    if ps != [] {
      DepthOverExtends(memo, later, ps[..|ps| - 1]);
    }
  }

  lemma SettleOne(incoming: map<Id, seq<Id>>, memo: map<Id, nat>, id: Id, d: nat)
    requires Settled(incoming, memo) && id !in memo
    requires forall k | 0 <= k < |Incoming(incoming, id)| :: Incoming(incoming, id)[k] in memo
    requires d == DepthOver(memo, Incoming(incoming, id))
    ensures Settled(incoming, memo[id := d])
  {
    var later := memo[id := d];
    assert Extends(later, memo);
    forall x | x in later ensures SettledAt(incoming, later, x) {
      if x != id {
        assert SettledAt(incoming, memo, x);
      }
      DepthOverExtends(memo, later, Incoming(incoming, x));
    }
  }

  /** Nodes met before this one in the same top-level call are finished, or above it on the call stack. */
  ghost predicate Ready(incoming: map<Id, seq<Id>>, memo: map<Id, nat>, seen: set<Id>, id: Id, rank: Id -> nat) {
    && Ranked(incoming, rank) && Settled(incoming, memo)
    && forall x | x in seen :: x in memo || rank(id) < rank(x)
  }

  /** Part way through the steps that feed `id`, when `id` was ready. */
  ghost predicate PartWay(incoming: map<Id, seq<Id>>, memo: map<Id, nat>, seen: set<Id>, met: set<Id>, id: Id, i: nat, d: nat) {
    var ps := Incoming(incoming, id);
    && Settled(incoming, memo) && met <= seen + {id} + memo.Keys
    && i <= |ps| && (forall k | 0 <= k < i :: ps[k] in memo) && d == DepthOver(memo, ps[..i])
  }

  lemma EnterReady(incoming: map<Id, seq<Id>>, start: map<Id, nat>, memo: map<Id, nat>, seen: set<Id>, met: set<Id>, id: Id, i: nat, d: nat, rank: Id -> nat)
    requires Ready(incoming, start, seen, id, rank) && Grown(start, memo, seen + {id}) && PartWay(incoming, memo, seen, met, id, i, d)
    requires i < |Incoming(incoming, id)|
    ensures Ready(incoming, memo, met, Incoming(incoming, id)[i], rank)
  {
    assert rank(Incoming(incoming, id)[i]) < rank(id);
  }

  lemma OneFurther(incoming: map<Id, seq<Id>>, memo: map<Id, nat>, later: map<Id, nat>, seen: set<Id>, met: set<Id>, met': set<Id>, id: Id, i: nat, d: nat)
    requires PartWay(incoming, memo, seen, met, id, i, d) && Grown(memo, later, met) && Settled(incoming, later)
    requires i < |Incoming(incoming, id)| && Incoming(incoming, id)[i] in later && met' <= met + later.Keys
    ensures PartWay(incoming, later, seen, met', id, i + 1, var e := later[Incoming(incoming, id)[i]]; if d < e + 1 then e + 1 else d)
  {
    var ps := Incoming(incoming, id);
    DepthOverExtends(memo, later, ps[..i]);
    assert ps[..i + 1][..i] == ps[..i];
  }

  lemma AllTheWay(incoming: map<Id, seq<Id>>, memo: map<Id, nat>, seen: set<Id>, met: set<Id>, id: Id, d: nat)
    requires PartWay(incoming, memo, seen, met, id, |Incoming(incoming, id)|, d) && id !in memo
    ensures Settled(incoming, memo[id := d]) && met <= seen + memo[id := d].Keys
  {
    var ps := Incoming(incoming, id);
    assert ps[..|ps|] == ps;
    SettleOne(incoming, memo, id, d);
  }

  /** A walk along edges that ends here. */
  ghost predicate Path(incoming: map<Id, seq<Id>>, path: seq<Id>, id: Id) {
    && path != [] && path[|path| - 1] == id
    && forall k | 0 < k < |path| :: path[k - 1] in Incoming(incoming, path[k])
  }

  lemma PathGrows(incoming: map<Id, seq<Id>>, path: seq<Id>, p: Id, id: Id)
    requires Path(incoming, path, p) && p in Incoming(incoming, id)
    ensures Path(incoming, path + [id], id)
  {
    var more := path + [id];
    forall j | 0 < j < |more| ensures more[j - 1] in Incoming(incoming, more[j]) {
      if j < |path| {
        assert more[j - 1] == path[j - 1] && more[j] == path[j];
      }
    }
  }

  /** Some walk of this length ends here. */
  ghost predicate HasWalk(incoming: map<Id, seq<Id>>, id: Id, length: nat) {
    exists path :: Path(incoming, path, id) && |path| == length + 1
  }

  lemma NoStep(incoming: map<Id, seq<Id>>, id: Id)
    ensures HasWalk(incoming, id, 0)
  {
    assert Path(incoming, [id], id);
  }

  lemma OneStep(incoming: map<Id, seq<Id>>, p: Id, id: Id, length: nat)
    requires HasWalk(incoming, p, length) && p in Incoming(incoming, id)
    ensures HasWalk(incoming, id, length + 1)
  {
    var path :| Path(incoming, path, p) && |path| == length + 1;
    PathGrows(incoming, path, p, id);
  }

  /** Depths known stay as they are, and nodes met without one stay without. */
  ghost predicate Grown(was: map<Id, nat>, memo: map<Id, nat>, seen: set<Id>) {
    Extends(memo, was) && forall x | x in seen && x !in was :: x !in memo
  }

  lemma GrownOne(was: map<Id, nat>, memo: map<Id, nat>, seen: set<Id>, id: Id, d: nat)
    requires Grown(was, memo, seen + {id}) && id !in was && id !in seen
    ensures Grown(was, memo[id := d], seen) && id !in memo
  {
  }

  lemma GrownExtends(was: map<Id, nat>, memo: map<Id, nat>, seen: set<Id>)
    requires Grown(was, memo, seen)
    ensures Extends(memo, was)
  {
  }

  lemma GrownOn(was: map<Id, nat>, memo: map<Id, nat>, later: map<Id, nat>, seen: set<Id>, met: set<Id>)
    requires Grown(was, memo, seen) && Grown(memo, later, met) && seen <= met
    ensures Grown(was, later, seen)
  {
  }

  /** Whatever feeds a node is a node. */
  ghost predicate Closed(incoming: map<Id, seq<Id>>, nodes: set<Id>) {
    forall id, k | 0 <= k < |Incoming(incoming, id)| :: Incoming(incoming, id)[k] in nodes
  }

  lemma SourceIn(incoming: map<Id, seq<Id>>, nodes: set<Id>, id: Id, k: nat)
    requires Closed(incoming, nodes) && k < |Incoming(incoming, id)|
    ensures Incoming(incoming, id)[k] in nodes
  {
  }

  /** A depth above one is one more than the depth of some source. */
  ghost predicate OneAbove(incoming: map<Id, seq<Id>>, memo: map<Id, nat>, id: Id, d: nat) {
    d > 1 ==> exists p :: p in Incoming(incoming, id) && p in memo && memo[p] + 1 == d
  }

  /** Every depth known is the length of some walk, zero exactly for a node that nothing feeds, and one more than
      some source's when it is above one. */
  ghost predicate Realised(incoming: map<Id, seq<Id>>, memo: map<Id, nat>) {
    forall id | id in memo ::
      HasWalk(incoming, id, memo[id]) && (memo[id] == 0 <==> |Incoming(incoming, id)| == 0) && OneAbove(incoming, memo, id, memo[id])
  }

  lemma RealiseOne(incoming: map<Id, seq<Id>>, memo: map<Id, nat>, id: Id, d: nat)
    requires Realised(incoming, memo) && id !in memo
    requires HasWalk(incoming, id, d) && (d == 0 <==> |Incoming(incoming, id)| == 0) && OneAbove(incoming, memo, id, d)
    ensures Realised(incoming, memo[id := d])
  {
    hide HasWalk;
    assert Extends(memo[id := d], memo);
    forall x | x in memo ensures OneAbove(incoming, memo[id := d], x, memo[x]) {
      OneAboveExtends(incoming, memo, memo[id := d], x, memo[x]);
    }
    OneAboveExtends(incoming, memo, memo[id := d], id, d);
  }

  lemma OneAboveExtends(incoming: map<Id, seq<Id>>, memo: map<Id, nat>, later: map<Id, nat>, id: Id, d: nat)
    requires OneAbove(incoming, memo, id, d) && Extends(later, memo)
    ensures OneAbove(incoming, later, id, d)
  {
  }

  /** One more source: the deepest so far, or this one, whose depth counts only if it is finished. */
  lemma OneAboveOne(incoming: map<Id, seq<Id>>, memo: map<Id, nat>, later: map<Id, nat>, id: Id, p: Id, d: nat, e: nat)
    requires OneAbove(incoming, memo, id, d) && Extends(later, memo) && p in Incoming(incoming, id)
    requires e > 0 ==> p in later && later[p] == e
    ensures OneAbove(incoming, later, id, if d < e + 1 then e + 1 else d)
  {
    OneAboveExtends(incoming, memo, later, id, d);
  }

  lemma KnownWalk(incoming: map<Id, seq<Id>>, memo: map<Id, nat>, id: Id)
    requires Realised(incoming, memo)
    ensures id in memo ==> HasWalk(incoming, id, memo[id])
  {
  }

  class StepDepths {
    const incoming: map<Id, seq<Id>>
    const nodes: set<Id>
    var depthMemo: map<Id, nat>

    ghost predicate Valid()
      reads this
    {
      && Closed(incoming, nodes)
      && depthMemo.Keys <= nodes
      && Realised(incoming, depthMemo)
    }

    constructor (incoming: map<Id, seq<Id>>, nodes: set<Id>)
      requires Closed(incoming, nodes)
      ensures Valid() && this.incoming == incoming && this.nodes == nodes && depthMemo == map[]
    {
      this.incoming, this.nodes, depthMemo := incoming, nodes, map[];
    }

    /** Cycles or not, this ends: a node already met in this top-level call is not entered again. The depth is
        the length of some walk into the node, and zero exactly for one that nothing feeds. Without
        cycles, such a node is never asked for before its depth is known, so sharing `seen` loses nothing. */
    method Depth(id: Id, seen: set<Id>, ghost rank: Id -> nat) returns (d: nat, seen': set<Id>)
      requires Valid() && id in nodes && seen <= nodes
      modifies this`depthMemo
      ensures Valid() && seen <= seen' <= nodes && Grown(old(depthMemo), depthMemo, seen)
      ensures HasWalk(incoming, id, d)
      ensures id !in seen || id in old(depthMemo) ==> id in depthMemo
      ensures if id in depthMemo then d == depthMemo[id] else d == 0
      ensures Ready(incoming, old(depthMemo), seen, id, rank) ==>
        id in depthMemo && d == depthMemo[id] && Settled(incoming, depthMemo) && seen' <= seen + depthMemo.Keys
      decreases nodes - seen, 1
    {
      seen' := seen;
      KnownWalk(incoming, depthMemo, id);
      NoStep(incoming, id);
      if id in depthMemo {
        return depthMemo[id], seen;
      }
      if id in seen {
        return 0, seen;
      }
      d, seen' := Enter(id, seen, rank);
    }

    /** A node met for the first time: its sources, and then its own depth. */
    method Enter(id: Id, seen: set<Id>, ghost rank: Id -> nat) returns (d: nat, seen': set<Id>)
      requires Valid() && id in nodes && seen <= nodes && id !in depthMemo && id !in seen
      modifies this`depthMemo
      ensures Valid() && seen <= seen' <= nodes && Grown(old(depthMemo), depthMemo, seen)
      ensures HasWalk(incoming, id, d) && id in depthMemo && d == depthMemo[id]
      ensures Ready(incoming, old(depthMemo), seen, id, rank) ==> Settled(incoming, depthMemo) && seen' <= seen + depthMemo.Keys
      decreases nodes - seen, 0
    {
      ghost var start := depthMemo;
      hide HasWalk, Realised, Closed, PartWay, Settled, Ready, OneAbove, Incoming, Grown;
      d, seen' := OverSources(id, seen, rank);
      GrownOne(start, depthMemo, seen, id, d);
      RealiseOne(incoming, depthMemo, id, d);
      if Ready(incoming, start, seen, id, rank) {
        AllTheWay(incoming, depthMemo, seen, seen', id, d);
      }
      depthMemo := depthMemo[id := d];
    }

    /** The steps that feed a node, one after another: `seen` grows from call to call. */
    method OverSources(id: Id, seen: set<Id>, ghost rank: Id -> nat) returns (d: nat, met: set<Id>)
      requires Valid() && id in nodes && seen <= nodes && id !in depthMemo
      modifies this`depthMemo
      ensures Valid() && seen + {id} <= met <= nodes && Grown(old(depthMemo), depthMemo, seen + {id})
      ensures HasWalk(incoming, id, d) && (d == 0 <==> |Incoming(incoming, id)| == 0) && OneAbove(incoming, depthMemo, id, d)
      ensures Ready(incoming, old(depthMemo), seen, id, rank) ==>
        PartWay(incoming, depthMemo, seen, met, id, |Incoming(incoming, id)|, d)
      decreases nodes - (seen + {id}), 3
    {
      met := seen + {id};
      ghost var start, ready := depthMemo, Ready(incoming, depthMemo, seen, id, rank);
      assert ready ==> PartWay(incoming, depthMemo, seen, met, id, 0, 0);
      NoStep(incoming, id);
      assert Grown(depthMemo, depthMemo, seen + {id}) && OneAbove(incoming, depthMemo, id, 0);
      var n := |Incoming(incoming, id)|;
      hide *;
      d := 0;
      for i := 0 to n
        invariant Valid() && seen + {id} <= met <= nodes && Grown(start, depthMemo, seen + {id})
        invariant ready ==> PartWay(incoming, depthMemo, seen, met, id, i, d)
        invariant HasWalk(incoming, id, d) && (i == 0 ==> d == 0) && (i > 0 ==> d > 0) && OneAbove(incoming, depthMemo, id, d)
      {
        d, met := OverOne(id, seen, start, i, d, met, ready, rank);
      }
    }

    /** One of them: its depth counts if it is the deepest so far. */
    method OverOne(id: Id, ghost seen: set<Id>, ghost start: map<Id, nat>, i: nat, d0: nat, met0: set<Id>, ghost ready: bool, ghost rank: Id -> nat)
      returns (d: nat, met: set<Id>)
      requires Valid() && i < |Incoming(incoming, id)| && seen + {id} <= met0 <= nodes && Grown(start, depthMemo, seen + {id})
      requires ready ==> Ready(incoming, start, seen, id, rank) && PartWay(incoming, depthMemo, seen, met0, id, i, d0)
      requires HasWalk(incoming, id, d0) && OneAbove(incoming, depthMemo, id, d0)
      modifies this`depthMemo
      ensures Valid() && met0 <= met <= nodes && Grown(start, depthMemo, seen + {id})
      ensures ready ==> PartWay(incoming, depthMemo, seen, met, id, i + 1, d)
      ensures HasWalk(incoming, id, d) && d > 0 && OneAbove(incoming, depthMemo, id, d)
      decreases nodes - met0, 2
    {
      hide Ready, PartWay, Settled, HasWalk, Realised, Closed, OneAbove;
      ghost var memo := depthMemo;
      var p := Incoming(incoming, id)[i];
      SourceIn(incoming, nodes, id, i);
      hide Incoming;
      var e;
      e, met := Depth(p, met0, rank);
      if ready {
        EnterReady(incoming, start, memo, seen, met0, id, i, d0, rank);
        OneFurther(incoming, memo, depthMemo, seen, met0, met, id, i, d0);
      }
      GrownOn(start, memo, depthMemo, seen + {id}, met0);
      OneStep(incoming, p, id, e);
      GrownExtends(memo, depthMemo, met0);
      OneAboveOne(incoming, memo, depthMemo, id, p, d0, e);
      d := if d0 < e + 1 then e + 1 else d0;
    }

    /** One top-level call, with nothing met yet. */
    method OneDepth(steps: seq<Id>, i: nat, ghost rank: Id -> nat)
      requires Valid() && i < |steps| && steps[i] in nodes && forall k | 0 <= k < i :: steps[k] in depthMemo
      requires Acyclic(incoming) ==> Ranked(incoming, rank) && Settled(incoming, depthMemo)
      modifies this`depthMemo
      ensures Valid() && forall k | 0 <= k <= i :: steps[k] in depthMemo
      ensures Acyclic(incoming) ==> Settled(incoming, depthMemo)
    {
      hide HasWalk, Realised, Settled, Closed, Acyclic, Ranked;
      assert Ranked(incoming, rank) && Settled(incoming, depthMemo) ==> Ready(incoming, depthMemo, {}, steps[i], rank);
      var d, seen := Depth(steps[i], {}, rank);
    }

    /** Every step gets a depth; without cycles each is one more than the deepest step that feeds it. */
    method AllDepths(steps: seq<Id>)
      requires Valid() && depthMemo == map[] && forall k | 0 <= k < |steps| :: steps[k] in nodes
      modifies this`depthMemo
      ensures Valid() && forall k | 0 <= k < |steps| :: steps[k] in depthMemo
      ensures Acyclic(incoming) ==> Settled(incoming, depthMemo)
    {
      ghost var rank: Id -> nat := if Acyclic(incoming) then var r :| Ranked(incoming, r); r else x => 0;
      assert Acyclic(incoming) ==> Ranked(incoming, rank) && Settled(incoming, depthMemo);
      assert forall k | 0 <= k < |steps| :: steps[k] in nodes;
      hide *;
      for i := 0 to |steps|
        invariant Valid() && forall k | 0 <= k < i :: steps[k] in depthMemo
        invariant Acyclic(incoming) ==> Settled(incoming, depthMemo)
      {
        OneDepth(steps, i, rank);
      }
    }
  }

  // ---------- what a depth is ----------

  lemma {:induction false} DepthOverBounds(memo: map<Id, nat>, ps: seq<Id>)
    requires forall k | 0 <= k < |ps| :: ps[k] in memo
    ensures forall k | 0 <= k < |ps| :: memo[ps[k]] < DepthOver(memo, ps)
    ensures ps != [] ==> exists k | 0 <= k < |ps| :: memo[ps[k]] + 1 == DepthOver(memo, ps)
  {
    if ps != [] {
      DepthOverBounds(memo, ps[..|ps| - 1]);
      if |ps| > 1 && memo[ps[|ps| - 1]] + 1 < DepthOver(memo, ps) {
        var k :| 0 <= k < |ps| - 1 && memo[ps[..|ps| - 1][k]] + 1 == DepthOver(memo, ps[..|ps| - 1]);
        assert memo[ps[k]] + 1 == DepthOver(memo, ps);
      } else {
        assert memo[ps[|ps| - 1]] + 1 == DepthOver(memo, ps);
      }
    }
  }

  /** No path into a step is longer than its depth. */
  lemma {:induction false} NoLongerPath(incoming: map<Id, seq<Id>>, memo: map<Id, nat>, path: seq<Id>, id: Id)
    requires Settled(incoming, memo) && id in memo && Path(incoming, path, id)
    ensures |path| - 1 <= memo[id]
  {
    if |path| > 1 {
      var p, before := path[|path| - 2], path[..|path| - 1];
      assert path[|path| - 1 - 1] in Incoming(incoming, path[|path| - 1]);
      SourceShallower(incoming, memo, p, id);
      hide Settled, Incoming;
      assert Path(incoming, before, p);
      NoLongerPath(incoming, memo, before, p);
    }
  }

  lemma SourceShallower(incoming: map<Id, seq<Id>>, memo: map<Id, nat>, p: Id, id: Id)
    requires Settled(incoming, memo) && id in memo && p in Incoming(incoming, id)
    ensures p in memo && memo[p] < memo[id]
  {
    assert SettledAt(incoming, memo, id);
    DepthOverBounds(memo, Incoming(incoming, id));
  }

  /** And one is as long. */
  lemma {:induction false} PathThatLong(incoming: map<Id, seq<Id>>, memo: map<Id, nat>, id: Id) returns (path: seq<Id>)
    requires Settled(incoming, memo) && id in memo
    ensures Path(incoming, path, id) && |path| - 1 == memo[id]
    decreases memo[id]
  {
    if Incoming(incoming, id) == [] {
      assert SettledAt(incoming, memo, id);
      path := [id];
    } else {
      var p := DeepestSource(incoming, memo, id);
      var before := PathThatLong(incoming, memo, p);
      path := before + [id];
      PathGrows(incoming, before, p, id);
    }
  }

  lemma DeepestSource(incoming: map<Id, seq<Id>>, memo: map<Id, nat>, id: Id) returns (p: Id)
    requires Settled(incoming, memo) && id in memo && Incoming(incoming, id) != []
    ensures p in Incoming(incoming, id) && p in memo && memo[p] + 1 == memo[id]
  {
    assert SettledAt(incoming, memo, id);
    var ps := Incoming(incoming, id);
    DepthOverBounds(memo, ps);
    var k :| 0 <= k < |ps| && memo[ps[k]] + 1 == DepthOver(memo, ps);
    p := ps[k];
  }

  /** The depth of a step is the length of the longest path into it. */
  lemma DepthIsLongestPath(incoming: map<Id, seq<Id>>, memo: map<Id, nat>, id: Id)
    requires Settled(incoming, memo) && id in memo
    ensures forall path | Path(incoming, path, id) :: |path| - 1 <= memo[id]
    ensures exists path :: Path(incoming, path, id) && |path| - 1 == memo[id]
  {
    forall path | Path(incoming, path, id) ensures |path| - 1 <= memo[id] {
      NoLongerPath(incoming, memo, path, id);
    }
    var path := PathThatLong(incoming, memo, id);
  }

  /** Every edge between steps goes to a strictly deeper one. */
  lemma EdgesGoDeeper(edges: seq<Edge>, steps: set<Id>, incoming: map<Id, seq<Id>>, memo: map<Id, nat>, e: Edge)
    requires forall id :: Incoming(incoming, id) == Sources(StepEdges(edges, steps), id)
    requires Settled(incoming, memo) && e in edges && e.src in steps && e.dst in steps && e.dst in memo
    ensures e.src in memo && memo[e.src] < memo[e.dst]
  {
    StepEdgesMeaning(edges, steps);
    SourcesMeaning(StepEdges(edges, steps), e.dst);
    assert e == Edge(e.src, e.dst);
    assert SettledAt(incoming, memo, e.dst);
    DepthOverBounds(memo, Incoming(incoming, e.dst));
  }

  // ---------- bands ----------

  function OfDepth(steps: seq<Id>, memo: map<Id, nat>, d: nat): seq<Id>
    requires forall k | 0 <= k < |steps| :: steps[k] in memo
  {
    if steps == [] then []
    else
      var before, last := OfDepth(steps[..|steps| - 1], memo, d), steps[|steps| - 1];
      if memo[last] == d then before + [last] else before
  }

  lemma {:induction false} OfDepthMeaning(steps: seq<Id>, memo: map<Id, nat>, d: nat)
    requires forall k | 0 <= k < |steps| :: steps[k] in memo
    ensures forall id :: id in OfDepth(steps, memo, d) <==> id in steps && memo[id] == d
  {
    if steps != [] {
      OfDepthMeaning(steps[..|steps| - 1], memo, d);
      assert steps == steps[..|steps| - 1] + [steps[|steps| - 1]];
    }
  }

  function Padded(bands: seq<seq<Id>>, length: nat): (padded: seq<seq<Id>>)
    ensures |padded| == if |bands| >= length then |bands| else length
    ensures forall d | 0 <= d < |padded| :: padded[d] == if d < |bands| then bands[d] else []
    decreases length - |bands|
  {
    if |bands| >= length then bands else Padded(bands + [[]], length)
  }

  /** Seeds the bands in authored order. A band nobody was put in is a hole in the original's array. */
  method Bands(steps: seq<Id>, memo: map<Id, nat>) returns (bands: seq<seq<Id>>)
    requires forall k | 0 <= k < |steps| :: steps[k] in memo
    ensures AreBands(bands, steps, memo)
  {
    bands := [];
    for i := 0 to |steps|
      invariant forall d | 0 <= d < |bands| :: bands[d] == OfDepth(steps[..i], memo, d)
      invariant forall k | 0 <= k < i :: memo[steps[k]] < |bands|
      invariant bands != [] ==> bands[|bands| - 1] != []
    {
      var d := memo[steps[i]];
      ghost var before := bands;
      assert steps[..i + 1][..i] == steps[..i];
      forall e | |before| <= e ensures OfDepth(steps[..i], memo, e) == [] {
        NoneThatDeep(steps[..i], memo, e);
      }
      bands := Padded(bands, d + 1);
      bands := bands[d := bands[d] + [steps[i]]];
    }
    assert steps[..|steps|] == steps;
  }

  lemma {:induction false} NoneThatDeep(steps: seq<Id>, memo: map<Id, nat>, d: nat)
    requires forall k | 0 <= k < |steps| :: steps[k] in memo && memo[steps[k]] < d
    ensures OfDepth(steps, memo, d) == []
  {
    if steps != [] {
      NoneThatDeep(steps[..|steps| - 1], memo, d);
    }
  }

  /** Without cycles no band is empty. */
  lemma {:induction false} NoEmptyBand(incoming: map<Id, seq<Id>>, steps: seq<Id>, memo: map<Id, nat>, id: Id, d: nat)
    requires Settled(incoming, memo) && (forall k | 0 <= k < |steps| :: steps[k] in memo)
    requires forall x, k | 0 <= k < |Incoming(incoming, x)| :: Incoming(incoming, x)[k] in steps
    requires id in steps && d <= memo[id]
    ensures OfDepth(steps, memo, d) != []
    decreases memo[id]
  {
    OfDepthMeaning(steps, memo, d);
    if d < memo[id] {
      var p := DeepestSource(incoming, memo, id);
      NoEmptyBand(incoming, steps, memo, p, d);
    }
  }

  /** Cycles or not, the bands between the first and a step's own are filled. */
  lemma {:induction false} NoHoleAbove(incoming: map<Id, seq<Id>>, steps: seq<Id>, memo: map<Id, nat>, id: Id, d: nat)
    requires Realised(incoming, memo) && forall k | 0 <= k < |steps| :: steps[k] in memo
    requires forall x, k | 0 <= k < |Incoming(incoming, x)| :: Incoming(incoming, x)[k] in steps
    requires id in steps && 0 < d <= memo[id]
    ensures OfDepth(steps, memo, d) != []
    decreases memo[id]
  {
    OfDepthMeaning(steps, memo, d);
    if d < memo[id] {
      assert OneAbove(incoming, memo, id, memo[id]);
      var p :| p in Incoming(incoming, id) && p in memo && memo[p] + 1 == memo[id];
      NoHoleAbove(incoming, steps, memo, p, d);
    }
  }

  /** The first band is empty exactly when every step is fed by some step. */
  lemma FirstBandEmptyIff(incoming: map<Id, seq<Id>>, steps: seq<Id>, memo: map<Id, nat>)
    requires Realised(incoming, memo) && forall k | 0 <= k < |steps| :: steps[k] in memo
    ensures OfDepth(steps, memo, 0) == [] <==> forall k | 0 <= k < |steps| :: |Incoming(incoming, steps[k])| > 0
  {
    hide HasWalk, OneAbove;
    var band := OfDepth(steps, memo, 0);
    OfDepthMeaning(steps, memo, 0);
    if band != [] {
      assert band[0] in band;
      var k :| 0 <= k < |steps| && steps[k] == band[0];
      assert |Incoming(incoming, steps[k])| == 0;
    }
    forall k | 0 <= k < |steps| && |Incoming(incoming, steps[k])| == 0 ensures band != [] {
      assert steps[k] in band;
    }
  }

  /** What `Bands` promises. */
  ghost predicate AreBands(bands: seq<seq<Id>>, steps: seq<Id>, memo: map<Id, nat>)
    requires forall k | 0 <= k < |steps| :: steps[k] in memo
  {
    && (forall d | 0 <= d < |bands| :: bands[d] == OfDepth(steps, memo, d))
    && (forall k | 0 <= k < |steps| :: memo[steps[k]] < |bands|)
    && (bands != [] ==> bands[|bands| - 1] != [])
  }

  lemma DeepestStep(bands: seq<seq<Id>>, steps: seq<Id>, memo: map<Id, nat>) returns (id: Id)
    requires (forall k | 0 <= k < |steps| :: steps[k] in memo) && AreBands(bands, steps, memo) && bands != []
    ensures id in steps && id in memo && memo[id] == |bands| - 1
  {
    var deepest := |bands| - 1;
    OfDepthMeaning(steps, memo, deepest);
    id := bands[deepest][0];
    assert id in bands[deepest];
  }

  lemma NoBandsNoSteps(bands: seq<seq<Id>>, steps: seq<Id>, memo: map<Id, nat>)
    requires (forall k | 0 <= k < |steps| :: steps[k] in memo) && AreBands(bands, steps, memo)
    ensures steps != [] ==> bands != []
    ensures bands != [] ==> bands[0] == OfDepth(steps, memo, 0)
  {
    if steps != [] {
      assert memo[steps[0]] < |bands|;
    }
  }

  lemma NoHoles(incoming: map<Id, seq<Id>>, steps: seq<Id>, memo: map<Id, nat>, bands: seq<seq<Id>>)
    requires Realised(incoming, memo) && forall k | 0 <= k < |steps| :: steps[k] in memo
    requires forall x, k | 0 <= k < |Incoming(incoming, x)| :: Incoming(incoming, x)[k] in steps
    requires AreBands(bands, steps, memo)
    ensures forall d | 0 < d < |bands| :: bands[d] != []
  {
    if bands != [] {
      hide Realised;
      var id := DeepestStep(bands, steps, memo);
      forall d | 0 < d < |bands| ensures bands[d] != [] {
        NoHoleAbove(incoming, steps, memo, id, d);
      }
    }
  }

  /** On every graph no band is empty exactly when there are no steps or some step is fed by none. */
  lemma NoBandEmptyIff(incoming: map<Id, seq<Id>>, steps: seq<Id>, memo: map<Id, nat>, bands: seq<seq<Id>>)
    requires Realised(incoming, memo) && forall k | 0 <= k < |steps| :: steps[k] in memo
    requires forall x, k | 0 <= k < |Incoming(incoming, x)| :: Incoming(incoming, x)[k] in steps
    requires AreBands(bands, steps, memo)
    ensures (forall d | 0 <= d < |bands| :: bands[d] != []) <==> steps == [] || exists k | 0 <= k < |steps| :: |Incoming(incoming, steps[k])| == 0
  {
    FirstBandEmptyIff(incoming, steps, memo);
    NoHoles(incoming, steps, memo, bands);
    NoBandsNoSteps(bands, steps, memo);
    hide *;
    assert (forall d | 0 <= d < |bands| :: bands[d] != []) <==> (bands == [] || bands[0] != []);
    if steps == [] {
      EmptyBands(bands, steps, memo);
    }
  }

  lemma EmptyBands(bands: seq<seq<Id>>, steps: seq<Id>, memo: map<Id, nat>)
    requires steps == [] && AreBands(bands, steps, memo)
    ensures bands == []
  {
    assert forall d: nat :: OfDepth(steps, memo, d) == [];
  }

  lemma DeepEnough(bands: seq<seq<Id>>, steps: seq<Id>, memo: map<Id, nat>, d: nat)
    requires (forall k | 0 <= k < |steps| :: steps[k] in memo) && AreBands(bands, steps, memo) && OfDepth(steps, memo, d) != []
    ensures d < |bands|
  {
    OfDepthMeaning(steps, memo, d);
    assert OfDepth(steps, memo, d)[0] in OfDepth(steps, memo, d);
  }

  /** Two steps that feed each other leave the first band empty, whichever of them is looked at first. */
  lemma TwoStepCycleLeavesAHole(a: Id, b: Id, memo: map<Id, nat>)
    requires a != b && Realised(map[a := [b], b := [a]], memo) && a in memo && b in memo
    ensures OfDepth([a, b], memo, 0) == []
    ensures OfDepth([a, b], memo, 1) != []
  {
    var incoming, steps := map[a := [b], b := [a]], [a, b];
    assert Incoming(incoming, a) == [b] && Incoming(incoming, b) == [a];
    FirstBandEmptyIff(incoming, steps, memo);
    assert steps[0] in steps && memo[a] > 0;
    NoHoleAbove(incoming, steps, memo, a, 1);
  }

  /** The walk itself, on such a graph: the first band is empty and the step looked at first ends a band below the other. */
  method LayTwoStepCycle(a: Id, b: Id) returns (bands: seq<seq<Id>>)
    requires a != b
    ensures |bands| > 1 && bands[0] == [] && bands[1] != []
  {
    var incoming := map[a := [b], b := [a]];
    assert forall x, k | 0 <= k < |Incoming(incoming, x)| :: Incoming(incoming, x)[k] in {a, b};
    var layout := new StepDepths(incoming, {a, b});
    layout.AllDepths([a, b]);
    assert [a, b][0] in layout.depthMemo && [a, b][1] in layout.depthMemo;
    TwoStepCycleLeavesAHole(a, b, layout.depthMemo);
    bands := Bands([a, b], layout.depthMemo);
    DeepEnough(bands, [a, b], layout.depthMemo, 1);
    hide OfDepth;
  }

  /** Each step is in the band of its depth, as often as it is listed, and in no other. */
  lemma {:induction false} OneBandEach(steps: seq<Id>, memo: map<Id, nat>, d: nat, id: Id)
    requires (forall k | 0 <= k < |steps| :: steps[k] in memo) && id in memo
    ensures multiset(OfDepth(steps, memo, d))[id] == if memo[id] == d then multiset(steps)[id] else 0
  {
    if steps != [] {
      OneBandEach(steps[..|steps| - 1], memo, d, id);
      assert steps == steps[..|steps| - 1] + [steps[|steps| - 1]];
    }
  }

  // ---------- assumption cards ----------

  datatype Pos = Pos(x: real, y: real, w: real, h: real)

  const GAP := 22.0

  function Under(prev: Pos): real {
    prev.y + prev.h + GAP
  }

  /** The column with every card pushed just far enough down to clear the one above. */
  function Spread(cards: seq<Pos>): (spread: seq<Pos>)
    ensures |spread| == |cards|
  {
    if |cards| <= 1 then cards
    else
      var above, card := Spread(cards[..|cards| - 1]), cards[|cards| - 1];
      var minY := Under(above[|above| - 1]);
      above + [if card.y < minY then card.(y := minY) else card]
  }

  method DeOverlap(cards: array<Pos>)
    modifies cards
    ensures cards[..] == Spread(old(cards[..]))
  {
    var i := 1;
    ghost var was := cards[..];
    while i < cards.Length
      invariant 1 <= i && (i <= cards.Length || cards.Length == 0)
      invariant cards.Length > 0 ==> cards[..i] == Spread(was[..i]) && cards[i..] == was[i..]
    {
      var minY := Under(cards[i - 1]);
      assert was[..i + 1][..i] == was[..i] && was[..i + 1][i] == was[i] == cards[i];
      assert cards[i - 1] == cards[..i][i - 1];
      if cards[i].y < minY {
        cards[i] := cards[i].(y := minY);
      }
      i := i + 1;
    }
    if cards.Length > 0 {
      assert was[..i] == was && cards[..i] == cards[..];
    }
  }

  /** Cards only move down, and end clear of every card above them. */
  lemma {:induction false} SpreadClears(cards: seq<Pos>)
    requires forall k | 0 <= k < |cards| :: cards[k].h >= 0.0
    ensures forall k | 0 <= k < |cards| ::
      && Spread(cards)[k] == cards[k].(y := Spread(cards)[k].y) && Spread(cards)[k].y >= cards[k].y
    ensures forall j, k | 0 <= j < k < |cards| :: Spread(cards)[k].y >= Spread(cards)[j].y + Spread(cards)[j].h + 22.0
  {
    if |cards| > 1 {
      SpreadClears(cards[..|cards| - 1]);
    }
  }

  /** And no further down than they must: any column that only moves cards down and clears each card of the one
      above has every card at least as low. */
  lemma {:induction false} SpreadIsLeast(cards: seq<Pos>, other: seq<real>)
    requires |other| == |cards|
    requires forall k | 0 <= k < |cards| :: cards[k].y <= other[k]
    requires forall k | 0 < k < |cards| :: other[k - 1] + cards[k - 1].h + 22.0 <= other[k]
    requires forall k | 0 <= k < |cards| :: cards[k].h >= 0.0
    ensures forall k | 0 <= k < |cards| :: Spread(cards)[k].y <= other[k]
  {
    if |cards| > 1 {
      SpreadIsLeast(cards[..|cards| - 1], other[..|cards| - 1]);
      SpreadClears(cards[..|cards| - 1]);
      var above := Spread(cards[..|cards| - 1]);
      var j := |cards| - 2;
      assert above[j] == cards[..|cards| - 1][j].(y := above[j].y);
      assert other[j + 1 - 1] + cards[j + 1 - 1].h + 22.0 <= other[j + 1];
    }
  }
}
