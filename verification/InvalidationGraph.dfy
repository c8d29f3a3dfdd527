/** Structural invalidation: which proofs go stale when some source lines change.

    `src/invalidationGraph.ts` walks the reversed dependency graph breadth first.  The reference here
    is paths: the distance of a label is the length of a shortest path to it from a changed label. */
module InvalidationGraph {
  import opened Lists
  import opened Text
  import opened Wrappers

  type Label = string

  datatype ProofPair = ProofPair(
    id: Label,
    kind: Option<string>,
    title: Option<string>,
    statementLines: Option<seq<int>>,
    dependencies: seq<Option<Label>>)

  datatype LineRange = LineRange(lo: int, hi: int)

  datatype DirectNode = DirectNode(id: Label, kind: Option<string>, title: Option<string>, statementLines: Option<seq<int>>)

  datatype CascadeNode = CascadeNode(
    id: Label,
    kind: Option<string>,
    title: Option<string>,
    statementLines: Option<seq<int>>,
    depth: nat,
    via: Label)

  /** label -> the pairs that depend on it. */
  type Reverse = map<Label, seq<Label>>

  // ---------- the graph ----------

  ghost predicate DependsOn(pairs: seq<ProofPair>, id: Label, key: Label) {
    key != "" && exists i | 0 <= i < |pairs| :: pairs[i].id == id && Some(key) in pairs[i].dependencies
  }

  predicate Edge(reverse: Reverse, from: Label, to: Label) {
    from in reverse && to in reverse[from]
  }

  method BuildReverseGraph(pairs: seq<ProofPair>) returns (reverse: Reverse)
    ensures forall x, l :: Edge(reverse, l, x) <==> DependsOn(pairs, x, l)
    ensures forall l | l in reverse :: reverse[l] != [] && NoRepeats(reverse[l])
  {
    reverse := map[];
    for i := 0 to |pairs|
      invariant forall x, l :: Edge(reverse, l, x) <==> DependsOn(pairs[..i], x, l)
      invariant forall l | l in reverse :: reverse[l] != [] && NoRepeats(reverse[l])
    {
      ghost var before := reverse;
      reverse := AddDependencies(reverse, pairs[i]);
      forall x, l ensures Edge(reverse, l, x) <==> DependsOn(pairs[..i + 1], x, l) {
        OneMorePair(pairs, i, x, l);
      }
    }
    assert pairs[..|pairs|] == pairs;
  }

  lemma OneMorePair(pairs: seq<ProofPair>, i: nat, x: Label, l: Label)
    requires i < |pairs|
    ensures DependsOn(pairs[..i + 1], x, l) <==>
      DependsOn(pairs[..i], x, l) || (l != "" && x == pairs[i].id && Some(l) in pairs[i].dependencies)
  {
    var longer, shorter := pairs[..i + 1], pairs[..i];
    if DependsOn(shorter, x, l) {
      var k :| 0 <= k < i && shorter[k].id == x && Some(l) in shorter[k].dependencies;
      assert longer[k] == shorter[k];
    }
    if l != "" && x == pairs[i].id && Some(l) in pairs[i].dependencies {
      assert longer[i] == pairs[i];
    }
    if DependsOn(longer, x, l) {
      var k :| 0 <= k <= i && longer[k].id == x && Some(l) in longer[k].dependencies;
      assert k < i ==> shorter[k] == longer[k];
    }
  }

  /** The inner loop of `buildReverseGraph`: one pair's dependencies. */
  method AddDependencies(given: Reverse, p: ProofPair) returns (reverse: Reverse)
    requires forall l | l in given :: given[l] != [] && NoRepeats(given[l])
    ensures forall x, l :: Edge(reverse, l, x) <==> Edge(given, l, x) || (l != "" && x == p.id && Some(l) in p.dependencies)
    ensures forall l | l in reverse :: reverse[l] != [] && NoRepeats(reverse[l])
  {
    reverse := given;
    for k := 0 to |p.dependencies|
      invariant forall x, l :: Edge(reverse, l, x) <==> Edge(given, l, x) || (l != "" && x == p.id && Some(l) in p.dependencies[..k])
      invariant forall l | l in reverse :: reverse[l] != [] && NoRepeats(reverse[l])
    {
      var d := p.dependencies[k];
      assert forall l :: Some(l) in p.dependencies[..k + 1] <==> Some(l) in p.dependencies[..k] || Some(l) == d;
      if !Truthy(d) {
        continue;
      }
      reverse := AddEdge(reverse, d.value, p.id);
    }
    assert p.dependencies[..|p.dependencies|] == p.dependencies;
  }

  method AddEdge(given: Reverse, key: Label, id: Label) returns (reverse: Reverse)
    requires forall l | l in given :: given[l] != [] && NoRepeats(given[l])
    ensures forall x, l :: Edge(reverse, l, x) <==> Edge(given, l, x) || (l == key && x == id)
    ensures forall l | l in reverse :: reverse[l] != [] && NoRepeats(reverse[l])
  {
    var dependents := if key in given then given[key] else [];
    if id !in dependents {
      dependents := dependents + [id];
    }
    reverse := given[key := dependents];
  }

  // ---------- the entry nodes ----------

  /** Inclusive interval overlap. */
  predicate Overlaps(aLo: int, aHi: int, bLo: int, bHi: int) {
    aLo <= bHi && aHi >= bLo
  }

  function NormRange(range: Option<seq<int>>): Option<(int, int)> {
    if range.None? || |range.value| < 2 then None
    else
      var a, b := range.value[0], range.value[1];
      Some(if a <= b then (a, b) else (b, a))
  }

  /** The statement's range, whichever way round it is written, meets an edited range: of its first two numbers
      one is not after the range's end, and one not before its start. */
  ghost predicate Edited(p: ProofPair, ranges: seq<LineRange>) {
    p.statementLines.Some? && |p.statementLines.value| >= 2 &&
    var a, b := p.statementLines.value[0], p.statementLines.value[1];
    exists e | e in ranges :: (a <= e.hi || b <= e.hi) && (a >= e.lo || b >= e.lo)
  }

  /** A pair is edited exactly when some line of its statement was. */
  lemma EditedIsALine(p: ProofPair, ranges: seq<LineRange>)
    requires forall e | e in ranges :: e.lo <= e.hi
    ensures Edited(p, ranges) <==>
      && p.statementLines.Some? && |p.statementLines.value| >= 2
      && var a, b := p.statementLines.value[0], p.statementLines.value[1];
         exists e, line | e in ranges :: Covers(e.lo, e.hi, line) && (Covers(a, b, line) || Covers(b, a, line))
  {
    if p.statementLines.Some? && |p.statementLines.value| >= 2 {
      var a, b := p.statementLines.value[0], p.statementLines.value[1];
      var lo, hi := if a <= b then a else b, if a <= b then b else a;
      forall e | e in ranges
        ensures (a <= e.hi || b <= e.hi) && (a >= e.lo || b >= e.lo)
           <==> exists line :: Covers(e.lo, e.hi, line) && (Covers(a, b, line) || Covers(b, a, line))
      {
        OverlapIsACommonLine(lo, hi, e.lo, e.hi);
        if line :| Covers(lo, hi, line) && Covers(e.lo, e.hi, line) {
          assert Covers(a, b, line) || Covers(b, a, line);
        }
        if line :| Covers(e.lo, e.hi, line) && (Covers(a, b, line) || Covers(b, a, line)) {
          assert Covers(lo, hi, line);
        }
      }
    }
  }

  predicate Covers(lo: int, hi: int, line: int) {
    lo <= line <= hi
  }

  lemma OverlapIsACommonLine(aLo: int, aHi: int, bLo: int, bHi: int)
    requires aLo <= aHi && bLo <= bHi
    ensures Overlaps(aLo, aHi, bLo, bHi) <==> exists line :: Covers(aLo, aHi, line) && Covers(bLo, bHi, line)
  {
    var line := if aLo <= bLo then bLo else aLo;
    assert Overlaps(aLo, aHi, bLo, bHi) ==> Covers(aLo, aHi, line) && Covers(bLo, bHi, line);
  }

  /** One entry for every pair that was edited, in the pairs' order. */
  ghost function EntryIds(pairs: seq<ProofPair>, ranges: seq<LineRange>): seq<Label> {
    if pairs == [] then []
    else
      var before, p := EntryIds(pairs[..|pairs| - 1], ranges), pairs[|pairs| - 1];
      if Edited(p, ranges) then before + [p.id] else before
  }

  /** The entries of a list of pairs are those of its parts in turn. */
  lemma {:induction false} EntryIdsSplit(a: seq<ProofPair>, b: seq<ProofPair>, ranges: seq<LineRange>)
    ensures EntryIds(a + b, ranges) == EntryIds(a, ranges) + EntryIds(b, ranges)
  {
    hide Edited;
    if b == [] {
      assert a + b == a;
    } else {
      var n := |b| - 1;
      assert (a + b)[..|a + b| - 1] == a + b[..n] && (a + b)[|a + b| - 1] == b[n];
      EntryIdsSplit(a, b[..n], ranges);
      EntryIdsOneMore(a + b, ranges);
      EntryIdsOneMore(b, ranges);
      hide EntryIds;
    }
  }

  lemma EntryIdsOneMore(pairs: seq<ProofPair>, ranges: seq<LineRange>)
    requires pairs != []
    ensures var p := pairs[|pairs| - 1];
      EntryIds(pairs, ranges) == EntryIds(pairs[..|pairs| - 1], ranges) + if Edited(p, ranges) then [p.id] else []
  {
    hide Edited;
  }

  method EntryLabelsForRanges(pairs: seq<ProofPair>, ranges: seq<LineRange>) returns (out: seq<Label>)
    ensures out == EntryIds(pairs, ranges)
    ensures forall x :: x in out <==> exists p :: p in pairs && p.id == x && Edited(p, ranges)
  {
    out := [];
    for i := 0 to |pairs|
      invariant out == EntryIds(pairs[..i], ranges)
      invariant forall x :: x in out <==> exists p :: p in pairs[..i] && p.id == x && Edited(p, ranges)
    {
      var p := pairs[i];
      assert pairs[..i + 1][..i] == pairs[..i];
      assert forall q :: q in pairs[..i + 1] <==> q in pairs[..i] || q == p;
      var r := NormRange(p.statementLines);
      if r.Some? {
        var hit := SomeOverlap(ranges, r.value.0, r.value.1);
        if hit {
          out := out + [p.id];
        }
      }
    }
    assert pairs[..|pairs|] == pairs;
  }

  method SomeOverlap(ranges: seq<LineRange>, lo: int, hi: int) returns (hit: bool)
    ensures hit <==> exists e | e in ranges :: Overlaps(lo, hi, e.lo, e.hi)
  {
    for i := 0 to |ranges|
      invariant forall k | 0 <= k < i :: !Overlaps(lo, hi, ranges[k].lo, ranges[k].hi)
    {
      if Overlaps(lo, hi, ranges[i].lo, ranges[i].hi) {
        return true;
      }
    }
    return false;
  }

  // ---------- paths ----------

  /** A walk along the reverse edges from one of the seeds. */
  ghost predicate IsPath(reverse: Reverse, seeds: seq<Label>, path: seq<Label>) {
    path != [] && path[0] in seeds && forall i | 0 <= i < |path| - 1 :: Edge(reverse, path[i], path[i + 1])
  }

  ghost predicate PathTo(reverse: Reverse, seeds: seq<Label>, path: seq<Label>, x: Label, steps: nat) {
    IsPath(reverse, seeds, path) && path[|path| - 1] == x && |path| == steps + 1
  }

  ghost predicate Reachable(reverse: Reverse, seeds: seq<Label>, x: Label) {
    exists path, steps :: PathTo(reverse, seeds, path, x, steps)
  }

  ghost predicate IsDistance(reverse: Reverse, seeds: seq<Label>, x: Label, d: nat) {
    && (exists path :: PathTo(reverse, seeds, path, x, d))
    && (forall path, steps :: PathTo(reverse, seeds, path, x, steps) ==> d <= steps)
  }

  /** The labels at most `n` steps from a seed. */
  ghost function Within(reverse: Reverse, seeds: seq<Label>, n: nat): set<Label> {
    if n == 0 then set x | x in seeds
    else Within(reverse, seeds, n - 1) + Dependents(reverse, Within(reverse, seeds, n - 1))
  }

  ghost function Dependents(reverse: Reverse, from: set<Label>): set<Label> {
    set x, y | x in from && x in reverse && y in reverse[x] :: y
  }

  lemma {:induction false} WithinMonotone(reverse: Reverse, seeds: seq<Label>, m: nat, n: nat)
    requires m <= n
    ensures Within(reverse, seeds, m) <= Within(reverse, seeds, n)
    decreases n - m
  {
    if m < n {
      WithinMonotone(reverse, seeds, m, n - 1);
    }
  }

  lemma {:induction false} PathStaysWithin(reverse: Reverse, seeds: seq<Label>, path: seq<Label>, x: Label, steps: nat)
    requires PathTo(reverse, seeds, path, x, steps)
    ensures x in Within(reverse, seeds, steps)
  {
    if steps > 0 {
      var before := path[..steps];
      assert PathTo(reverse, seeds, before, path[steps - 1], steps - 1);
      PathStaysWithin(reverse, seeds, before, path[steps - 1], steps - 1);
      assert Edge(reverse, path[steps - 1], path[steps - 1 + 1]);
    }
  }

  lemma {:induction false} WithinHasPath(reverse: Reverse, seeds: seq<Label>, n: nat, x: Label) returns (path: seq<Label>, steps: nat)
    requires x in Within(reverse, seeds, n)
    ensures steps <= n && PathTo(reverse, seeds, path, x, steps)
  {
    if n == 0 {
      path, steps := [x], 0;
    } else if x in Within(reverse, seeds, n - 1) {
      path, steps := WithinHasPath(reverse, seeds, n - 1, x);
    } else {
      assert x in Dependents(reverse, Within(reverse, seeds, n - 1));
      var w :| w in Within(reverse, seeds, n - 1) && w in reverse && x in reverse[w];
      path, steps := WithinHasPath(reverse, seeds, n - 1, w);
      var longer := path + [x];
      assert forall i | 0 <= i < |path| :: longer[i] == path[i];
      path, steps := longer, steps + 1;
    }
  }

  /** The set at most `d` steps away but no nearer is the labels at distance `d`. */
  lemma WithinIsDistance(reverse: Reverse, seeds: seq<Label>, x: Label, d: nat)
    ensures IsDistance(reverse, seeds, x, d) <==>
      x in Within(reverse, seeds, d) && (d > 0 ==> x !in Within(reverse, seeds, d - 1))
  {
    if IsDistance(reverse, seeds, x, d) {
      var path :| PathTo(reverse, seeds, path, x, d);
      PathStaysWithin(reverse, seeds, path, x, d);
      if d > 0 && x in Within(reverse, seeds, d - 1) {
        var shorter, steps := WithinHasPath(reverse, seeds, d - 1, x);
      }
    }
    if x in Within(reverse, seeds, d) && (d > 0 ==> x !in Within(reverse, seeds, d - 1)) {
      var path, steps := WithinHasPath(reverse, seeds, d, x);
      forall p, n: nat | PathTo(reverse, seeds, p, x, n) ensures d <= n {
        PathStaysWithin(reverse, seeds, p, x, n);
        if n < d {
          WithinMonotone(reverse, seeds, n, d - 1);
        }
      }
      assert PathTo(reverse, seeds, path, x, d);
    }
  }

  // ---------- the breadth-first cascade ----------

  /** What the loop knows of one label it has reached. */
  datatype Mark = Mark(id: Label, depth: nat, via: Label)

  ghost predicate Nearest(reverse: Reverse, seeds: seq<Label>, m: Mark) {
    && m.depth > 0
    && m.id in Within(reverse, seeds, m.depth) && m.id !in Within(reverse, seeds, m.depth - 1)
    && m.via in Within(reverse, seeds, m.depth - 1) && Edge(reverse, m.via, m.id)
  }

  ghost predicate DepthSorted(marks: seq<Mark>) {
    forall i, j | 0 <= i < j < |marks| :: marks[i].depth <= marks[j].depth
  }

  ghost predicate DistinctMarks(marks: seq<Mark>) {
    forall i, j | 0 <= i < j < |marks| :: marks[i].id != marks[j].id
  }

  ghost function Ids(marks: seq<Mark>): set<Label> {
    set i | 0 <= i < |marks| :: marks[i].id
  }

  /** A frontier entry of the loop. */
  datatype Visit = Visit(key: Label, depth: nat)

  /** Between rounds: `seen` is everything at most `depth` away, all of it but the seeds is marked, and
      the frontier is what lies at `depth` exactly. */
  ghost predicate RoundDone(reverse: Reverse, seeds: seq<Label>, depth: nat, marks: seq<Mark>, seen: set<Label>, frontier: seq<Visit>) {
    && seen == Within(reverse, seeds, depth)
    && Ids(marks) == seen - Within(reverse, seeds, 0)
    && Marked(reverse, seeds, marks, depth)
    && (forall v | v in frontier :: v.depth == depth)
    && (forall x :: Visit(x, depth) in frontier <==> x in seen && (depth > 0 ==> x !in Within(reverse, seeds, depth - 1)))
  }

  ghost predicate Marked(reverse: Reverse, seeds: seq<Label>, marks: seq<Mark>, depth: nat) {
    && (forall m | m in marks :: Nearest(reverse, seeds, m) && m.depth <= depth)
    && DepthSorted(marks) && DistinctMarks(marks)
  }

  /** Inside a round: `next` is what it has found so far, all one step further out. */
  ghost predicate InRound(reverse: Reverse, seeds: seq<Label>, depth: nat, marks: seq<Mark>, seen: set<Label>, next: seq<Visit>) {
    && (forall x :: x in seen <==> x in Within(reverse, seeds, depth) || Visit(x, depth + 1) in next)
    && (forall v | v in next :: v.depth == depth + 1 && v.key in Within(reverse, seeds, depth + 1) && v.key !in Within(reverse, seeds, depth))
    && Ids(marks) == seen - Within(reverse, seeds, 0)
    && Marked(reverse, seeds, marks, depth + 1)
  }

  lemma AppendMark(marks: seq<Mark>, m: Mark)
    requires DepthSorted(marks) && DistinctMarks(marks) && m.id !in Ids(marks)
    requires forall n | n in marks :: n.depth <= m.depth
    ensures DepthSorted(marks + [m]) && DistinctMarks(marks + [m]) && Ids(marks + [m]) == Ids(marks) + {m.id}
  {
    var longer := marks + [m];
    forall x ensures x in Ids(longer) <==> x in Ids(marks) + {m.id} {
      if x in Ids(marks) {
        var i :| 0 <= i < |marks| && marks[i].id == x;
        assert longer[i].id == x;
      }
      assert longer[|marks|].id == m.id;
    }
    forall i | 0 <= i < |marks| ensures marks[i].depth <= m.depth && marks[i].id != m.id {
      assert marks[i] in marks;
    }
  }

  /** The innermost loop: the dependents of one frontier label. */
  method VisitDependents(seeds: seq<Label>, reverse: Reverse, marks0: seq<Mark>, seen0: set<Label>, next0: seq<Visit>, at: Visit)
    returns (marks: seq<Mark>, seen: set<Label>, next: seq<Visit>)
    requires InRound(reverse, seeds, at.depth, marks0, seen0, next0) && at.key in Within(reverse, seeds, at.depth)
    ensures InRound(reverse, seeds, at.depth, marks, seen, next) && seen0 <= seen
    ensures forall y | Edge(reverse, at.key, y) :: y in seen
    ensures next0 <= next && (next == next0 ==> seen == seen0)
  {
    marks, seen, next := marks0, seen0, next0;
    if at.key !in reverse {
      return;
    }
    var dependents := reverse[at.key];
    for j := 0 to |dependents|
      invariant InRound(reverse, seeds, at.depth, marks, seen, next) && seen0 <= seen
      invariant forall k | 0 <= k < j :: dependents[k] in seen
      invariant next0 <= next && (next == next0 ==> seen == seen0)
    {
      var depId := dependents[j];
      if depId in seen {
        continue;
      }
      marks, seen, next := Reach(seeds, reverse, marks, seen, next, at, depId);
    }
  }

  /** A label seen for the first time. */
  method Reach(seeds: seq<Label>, reverse: Reverse, marks0: seq<Mark>, seen0: set<Label>, next0: seq<Visit>, at: Visit, depId: Label)
    returns (marks: seq<Mark>, seen: set<Label>, next: seq<Visit>)
    requires InRound(reverse, seeds, at.depth, marks0, seen0, next0) && at.key in Within(reverse, seeds, at.depth)
    requires Edge(reverse, at.key, depId) && depId !in seen0
    ensures InRound(reverse, seeds, at.depth, marks, seen, next)
    ensures seen == seen0 + {depId} && next == next0 + [Visit(depId, at.depth + 1)]
  {
    seen := seen0 + {depId};
    marks := marks0 + [Mark(depId, at.depth + 1, at.key)];
    next := next0 + [Visit(depId, at.depth + 1)];
    AppendMark(marks0, Mark(depId, at.depth + 1, at.key));
    WithinMonotone(reverse, seeds, 0, at.depth);
  }

  /** Every dependent of the first `i` frontier labels has been seen. */
  ghost predicate Covered(reverse: Reverse, frontier: seq<Visit>, i: nat, seen: set<Label>)
    requires i <= |frontier|
  {
    forall k, y | 0 <= k < i && Edge(reverse, frontier[k].key, y) :: y in seen
  }

  lemma RoundStarts(reverse: Reverse, seeds: seq<Label>, depth: nat, marks: seq<Mark>, seen: set<Label>, frontier: seq<Visit>)
    requires RoundDone(reverse, seeds, depth, marks, seen, frontier)
    ensures InRound(reverse, seeds, depth, marks, seen, []) && Covered(reverse, frontier, 0, seen)
    ensures forall i | 0 <= i < |frontier| :: frontier[i].depth == depth && frontier[i].key in Within(reverse, seeds, depth)
  {
    forall i | 0 <= i < |frontier| ensures frontier[i].depth == depth && frontier[i].key in Within(reverse, seeds, depth) {
      assert frontier[i] in frontier && Visit(frontier[i].key, depth) == frontier[i];
    }
    hide Within;
  }

  lemma RoundEnds(reverse: Reverse, seeds: seq<Label>, depth: nat, marks0: seq<Mark>, seen0: set<Label>, frontier: seq<Visit>,
                  marks: seq<Mark>, seen: set<Label>, next: seq<Visit>)
    requires RoundDone(reverse, seeds, depth, marks0, seen0, frontier) && InRound(reverse, seeds, depth, marks, seen, next)
    requires Covered(reverse, frontier, |frontier|, seen)
    ensures RoundDone(reverse, seeds, depth + 1, marks, seen, next)
    ensures forall v | v in next :: v.key in seen && v.key !in seen0
  {
    RoundCovers(reverse, seeds, depth, seen, frontier);
    WithinMonotone(reverse, seeds, depth, depth + 1);
    hide Within, Covered, Marked;
    forall v | v in next ensures v.key in seen && v.key !in seen0 {
      assert v == Visit(v.key, depth + 1);
    }
    forall x ensures x in seen <==> x in Within(reverse, seeds, depth + 1) {
      assert x in seen ==> x in Within(reverse, seeds, depth) || Visit(x, depth + 1) in next;
    }
  }

  method OneRound(seeds: seq<Label>, reverse: Reverse, marks0: seq<Mark>, seen0: set<Label>, frontier: seq<Visit>, ghost depth: nat)
    returns (marks: seq<Mark>, seen: set<Label>, next: seq<Visit>)
    requires RoundDone(reverse, seeds, depth, marks0, seen0, frontier)
    ensures RoundDone(reverse, seeds, depth + 1, marks, seen, next)
    ensures seen0 <= seen && (next == [] ==> seen == seen0)
    ensures forall v | v in next :: v.key in seen && v.key !in seen0
  {
    hide RoundDone, InRound, Within;
    marks, seen, next := marks0, seen0, [];
    RoundStarts(reverse, seeds, depth, marks, seen, frontier);
    for i := 0 to |frontier|
      invariant InRound(reverse, seeds, depth, marks, seen, next) && seen0 <= seen
      invariant Covered(reverse, frontier, i, seen)
      invariant next == [] ==> seen == seen0
    {
      marks, seen, next := VisitDependents(seeds, reverse, marks, seen, next, frontier[i]);
    }
    RoundEnds(reverse, seeds, depth, marks0, seen0, frontier, marks, seen, next);
  }

  /** A round over the whole frontier misses nothing one step further out. */
  lemma RoundCovers(reverse: Reverse, seeds: seq<Label>, depth: nat, seen: set<Label>, frontier: seq<Visit>)
    requires Within(reverse, seeds, depth) <= seen
    requires forall x | x in Within(reverse, seeds, depth) && (depth > 0 ==> x !in Within(reverse, seeds, depth - 1)) :: Visit(x, depth) in frontier
    requires forall k, y | 0 <= k < |frontier| && Edge(reverse, frontier[k].key, y) :: y in seen
    ensures Within(reverse, seeds, depth + 1) <= seen
  {
    forall y | y in Dependents(reverse, Within(reverse, seeds, depth)) ensures y in seen {
      var x :| x in Within(reverse, seeds, depth) && x in reverse && y in reverse[x];
      if depth > 0 && x in Within(reverse, seeds, depth - 1) {
        assert y in Dependents(reverse, Within(reverse, seeds, depth - 1));
      } else {
        var k :| 0 <= k < |frontier| && frontier[k] == Visit(x, depth);
        assert Edge(reverse, frontier[k].key, y);
      }
    }
  }

  lemma {:induction false} Fixpoint(reverse: Reverse, seeds: seq<Label>, d: nat, n: nat)
    requires Dependents(reverse, Within(reverse, seeds, d)) <= Within(reverse, seeds, d)
    ensures Within(reverse, seeds, n) <= Within(reverse, seeds, d)
  {
    if n <= d {
      WithinMonotone(reverse, seeds, n, d);
    } else {
      Fixpoint(reverse, seeds, d, n - 1);
      forall y | y in Dependents(reverse, Within(reverse, seeds, n - 1)) ensures y in Within(reverse, seeds, d) {
        var x :| x in Within(reverse, seeds, n - 1) && x in reverse && y in reverse[x];
        assert y in Dependents(reverse, Within(reverse, seeds, d));
      }
    }
  }

  lemma Exhausted(reverse: Reverse, seeds: seq<Label>, depth: nat, n: nat)
    requires forall x | x in Within(reverse, seeds, depth) :: depth > 0 && x in Within(reverse, seeds, depth - 1)
    ensures Within(reverse, seeds, n) <= Within(reverse, seeds, depth)
  {
    if depth > 0 {
      assert Within(reverse, seeds, depth) == Within(reverse, seeds, depth - 1);
    }
    Fixpoint(reverse, seeds, depth, n);
  }

  lemma Smaller(a: set<Label>, b: set<Label>, x: Label)
    requires a <= b && x in b && x !in a
    ensures |a| < |b|
  {
    assert a <= b - {x};
    SubsetCard(a, b - {x});
  }

  lemma {:induction false} SubsetCard(a: set<Label>, b: set<Label>)
    requires a <= b
    ensures |a| <= |b|
  {
    if a != {} {
      var x :| x in a;
      SubsetCard(a - {x}, b - {x});
    }
  }

  lemma BfsStarts(reverse: Reverse, changed: seq<Label>, seen: set<Label>, frontier: seq<Visit>)
    requires seen == (set x | x in changed) && frontier == seq(|changed|, i requires 0 <= i < |changed| => Visit(changed[i], 0))
    ensures RoundDone(reverse, changed, 0, [], seen, frontier)
  {
    forall x | x in seen ensures Visit(x, 0) in frontier {
      var i :| 0 <= i < |changed| && changed[i] == x;
      assert frontier[i] == Visit(x, 0);
    }
  }

  /** A round stays inside the universe, and takes something out of it unless it finds nothing. */
  lemma RoundShrinks(reverse: Reverse, seeds: seq<Label>, depth: nat, marks0: seq<Mark>, seen0: set<Label>, frontier: seq<Visit>,
                     marks: seq<Mark>, seen: set<Label>, next: seq<Visit>, universe: set<Label>)
    requires RoundDone(reverse, seeds, depth, marks0, seen0, frontier) && RoundDone(reverse, seeds, depth + 1, marks, seen, next)
    requires seen0 <= universe && Dependents(reverse, reverse.Keys) <= universe
    requires seen0 <= seen && forall v | v in next :: v.key in seen && v.key !in seen0
    ensures seen <= universe && (next != [] ==> |universe - seen| < |universe - seen0|)
  {
    Inside(reverse, seeds, depth, universe);
    if next != [] {
      assert next[0] in next;
      Smaller(universe - seen, universe - seen0, next[0].key);
    }
  }

  lemma BfsEnds(reverse: Reverse, seeds: seq<Label>, depth: nat, marks: seq<Mark>, seen: set<Label>, n: nat)
    requires RoundDone(reverse, seeds, depth, marks, seen, [])
    ensures Within(reverse, seeds, n) - Within(reverse, seeds, 0) <= Ids(marks)
  {
    assert forall x | x in Within(reverse, seeds, depth) :: Visit(x, depth) !in [];
    Exhausted(reverse, seeds, depth, n);
  }

  method Bfs(changed: seq<Label>, reverse: Reverse) returns (marks: seq<Mark>)
    ensures forall m | m in marks :: Nearest(reverse, changed, m)
    ensures DepthSorted(marks) && DistinctMarks(marks)
    ensures forall n: nat :: Within(reverse, changed, n) - Within(reverse, changed, 0) <= Ids(marks)
  {
    hide Within, Dependents, Nearest, Ids, DepthSorted, DistinctMarks;
    marks := [];
    var seen := set x | x in changed;
    var frontier := seq(|changed|, i requires 0 <= i < |changed| => Visit(changed[i], 0));
    ghost var depth, universe := 0, seen + Dependents(reverse, reverse.Keys);
    BfsStarts(reverse, changed, seen, frontier);
    while frontier != []
      invariant RoundDone(reverse, changed, depth, marks, seen, frontier)
      invariant seen <= universe
      decreases |universe - seen|, |frontier|
    {
      ghost var marks0, seen0 := marks, seen;
      var next: seq<Visit>;
      marks, seen, next := OneRound(changed, reverse, marks, seen, frontier, depth);
      RoundShrinks(reverse, changed, depth, marks0, seen0, frontier, marks, seen, next, universe);
      frontier, depth := next, depth + 1;
    }
    forall n: nat ensures Within(reverse, changed, n) - Within(reverse, changed, 0) <= Ids(marks) {
      BfsEnds(reverse, changed, depth, marks, seen, n);
    }
  }

  lemma Inside(reverse: Reverse, seeds: seq<Label>, depth: nat, universe: set<Label>)
    requires Within(reverse, seeds, depth) <= universe && Dependents(reverse, reverse.Keys) <= universe
    ensures Within(reverse, seeds, depth + 1) <= universe
  {
    forall y | y in Dependents(reverse, Within(reverse, seeds, depth)) ensures y in universe {
      var x :| x in Within(reverse, seeds, depth) && x in reverse && y in reverse[x];
      assert y in Dependents(reverse, reverse.Keys);
    }
  }

  // ---------- cascade ----------

  function PairOf(pairsById: map<Label, ProofPair>, id: Label): Option<ProofPair> {
    if id in pairsById then Some(pairsById[id]) else None
  }

  function NodeOf(pairsById: map<Label, ProofPair>, m: Mark): CascadeNode {
    match PairOf(pairsById, m.id)
    case Some(p) => CascadeNode(m.id, p.kind, p.title, p.statementLines, m.depth, m.via)
    case None => CascadeNode(m.id, None, None, None, m.depth, m.via)
  }

  /** `n` is reported at its shortest distance, by way of a label one step nearer that it depends on. */
  ghost predicate TrueNode(reverse: Reverse, seeds: seq<Label>, n: CascadeNode) {
    && n.id !in seeds && n.depth > 0
    && IsDistance(reverse, seeds, n.id, n.depth)
    && Edge(reverse, n.via, n.id) && IsDistance(reverse, seeds, n.via, n.depth - 1)
  }

  /** The changed labels aside, the cascade is the reachable labels, each once, nearest first. */
  method Cascade(changed: seq<Label>, reverse: Reverse, pairsById: map<Label, ProofPair>) returns (out: seq<CascadeNode>)
    ensures forall n | n in out :: TrueNode(reverse, changed, n)
    ensures forall x :: (exists n :: n in out && n.id == x) <==> Reachable(reverse, changed, x) && x !in changed
    ensures forall i, j | 0 <= i < j < |out| :: out[i].id != out[j].id && out[i].depth <= out[j].depth
    ensures forall n | n in out :: n == NodeOf(pairsById, Mark(n.id, n.depth, n.via))
  {
    hide IsDistance, Within, Ids, PairOf;
    var marks := Bfs(changed, reverse);
    out := seq(|marks|, i requires 0 <= i < |marks| => NodeOf(pairsById, marks[i]));
    forall n | n in out ensures TrueNode(reverse, changed, n) && n == NodeOf(pairsById, Mark(n.id, n.depth, n.via)) {
      var i :| 0 <= i < |out| && out[i] == n;
      NearestIsTrue(reverse, changed, marks[i]);
    }
    forall n | n in out ensures Reachable(reverse, changed, n.id) && n.id !in changed {
      var i :| 0 <= i < |out| && out[i] == n;
      NearestIsTrue(reverse, changed, marks[i]);
    }
    forall x | Reachable(reverse, changed, x) && x !in changed ensures exists n :: n in out && n.id == x {
      var i := ReachableIsMarked(reverse, changed, marks, x);
      assert out[i] in out && out[i].id == x;
    }
  }

  lemma ReachableIsMarked(reverse: Reverse, seeds: seq<Label>, marks: seq<Mark>, x: Label) returns (i: nat)
    requires forall n: nat :: Within(reverse, seeds, n) - Within(reverse, seeds, 0) <= Ids(marks)
    requires Reachable(reverse, seeds, x) && x !in seeds
    ensures i < |marks| && marks[i].id == x
  {
    var path, steps :| PathTo(reverse, seeds, path, x, steps);
    PathStaysWithin(reverse, seeds, path, x, steps);
    assert x in Within(reverse, seeds, steps) - Within(reverse, seeds, 0);
    assert x in Ids(marks);
    i :| 0 <= i < |marks| && marks[i].id == x;
  }

  lemma NearestIsTrue(reverse: Reverse, seeds: seq<Label>, m: Mark)
    requires Nearest(reverse, seeds, m)
    ensures m.id !in seeds && Edge(reverse, m.via, m.id)
    ensures IsDistance(reverse, seeds, m.id, m.depth) && IsDistance(reverse, seeds, m.via, m.depth - 1)
    ensures Reachable(reverse, seeds, m.id)
  {
    WithinIsDistance(reverse, seeds, m.id, m.depth);
    WithinMonotone(reverse, seeds, 0, m.depth - 1);
    if m.depth > 1 {
      NoNearerWay(reverse, seeds, m.depth - 2, m.via, m.id);
    }
    WithinIsDistance(reverse, seeds, m.via, m.depth - 1);
  }

  /** Whatever leads to a label in one step is at most one step nearer. */
  lemma NoNearerWay(reverse: Reverse, seeds: seq<Label>, n: nat, x: Label, y: Label)
    requires Edge(reverse, x, y) && y !in Within(reverse, seeds, n + 1)
    ensures x !in Within(reverse, seeds, n)
  {
    assert x in Within(reverse, seeds, n) ==> y in Dependents(reverse, Within(reverse, seeds, n));
  }

  // ---------- end to end ----------

  /** `sort((a, b) => a.depth - b.depth)`: stable. */
  function SortByDepth(nodes: seq<CascadeNode>): seq<CascadeNode> {
    if nodes == [] then []
    else InsertByDepth(SortByDepth(nodes[..|nodes| - 1]), nodes[|nodes| - 1])
  }

  function InsertByDepth(sorted: seq<CascadeNode>, n: CascadeNode): seq<CascadeNode> {
    if sorted == [] then [n]
    else if n.depth < sorted[0].depth then [n] + sorted
    else [sorted[0]] + InsertByDepth(sorted[1..], n)
  }

  ghost predicate NearestFirst(nodes: seq<CascadeNode>) {
    forall i, j | 0 <= i < j < |nodes| :: nodes[i].depth <= nodes[j].depth
  }

  /** What comes breadth first is sorted already. */
  lemma {:induction false} SortChangesNothing(nodes: seq<CascadeNode>)
    requires NearestFirst(nodes)
    ensures SortByDepth(nodes) == nodes
  {
    if nodes != [] {
      var n := |nodes| - 1;
      assert nodes == nodes[..n] + [nodes[n]];
      SortChangesNothing(nodes[..n]);
      InsertLast(nodes[..n], nodes[n]);
    }
  }

  lemma {:induction false} InsertLast(sorted: seq<CascadeNode>, n: CascadeNode)
    requires forall i | 0 <= i < |sorted| :: sorted[i].depth <= n.depth
    ensures InsertByDepth(sorted, n) == sorted + [n]
  {
    if sorted != [] {
      InsertLast(sorted[1..], n);
    }
  }

  /** The pairs an edit touches directly. */
  ghost predicate Entry(pairs: seq<ProofPair>, ranges: seq<LineRange>, x: Label) {
    exists p :: p in pairs && p.id == x && Edited(p, ranges)
  }

  /** A label is an entry exactly when some line lies in an edited range and between the first two numbers of a
      pair with this id, whichever way round. */
  lemma EntriesHaveAnEditedLine(pairs: seq<ProofPair>, ranges: seq<LineRange>, x: Label)
    requires forall e | e in ranges :: e.lo <= e.hi
    ensures Entry(pairs, ranges, x) <==>
      exists p, e, line | p in pairs && e in ranges && p.id == x ::
        && Covers(e.lo, e.hi, line) && p.statementLines.Some? && |p.statementLines.value| >= 2
        && (Covers(p.statementLines.value[0], p.statementLines.value[1], line) || Covers(p.statementLines.value[1], p.statementLines.value[0], line))
    ensures x in EntryIds(pairs, ranges) <==> Entry(pairs, ranges, x)
  {
    forall p | p in pairs {
      EditedIsALine(p, ranges);
    }
    EntryIdsAreEntries(pairs, ranges, x);
    hide Edited, EntryIds, Covers;
  }

  lemma {:induction false} EntryIdsAreEntries(pairs: seq<ProofPair>, ranges: seq<LineRange>, x: Label)
    ensures x in EntryIds(pairs, ranges) <==> Entry(pairs, ranges, x)
  {
    hide Edited;
    if pairs != [] {
      var before := pairs[..|pairs| - 1];
      EntryIdsAreEntries(before, ranges, x);
      assert pairs == before + [pairs[|pairs| - 1]];
      assert forall p :: p in pairs <==> p in before || p == pairs[|pairs| - 1];
    }
  }

  /** The set holds what was edited, and whatever depends on something in it. */
  ghost predicate ClosedUnderDependents(pairs: seq<ProofPair>, ranges: seq<LineRange>, s: iset<Label>) {
    && (forall x | Entry(pairs, ranges, x) :: x in s)
    && (forall x, l | l in s && DependsOn(pairs, x, l) :: x in s)
  }

  ghost predicate Reported(direct: seq<DirectNode>, out: seq<CascadeNode>, x: Label) {
    (exists d :: d in direct && d.id == x) || (exists n :: n in out && n.id == x)
  }

  ghost function Stale(direct: seq<DirectNode>, out: seq<CascadeNode>): iset<Label> {
    iset x | Reported(direct, out, x)
  }

  /** The node carries the kind, title and lines of the last pair with its id. */
  ghost predicate Describes(pairs: seq<ProofPair>, d: DirectNode) {
    exists p :: LastPair(pairs, p) && d == DirectNode(p.id, p.kind, p.title, p.statementLines)
  }

  ghost predicate LastPair(pairs: seq<ProofPair>, p: ProofPair) {
    exists k | 0 <= k < |pairs| :: pairs[k] == p && forall j | k < j < |pairs| :: pairs[j].id != p.id
  }

  /** The node is at its shortest distance from the edited pairs, reached by way of one a step nearer that it
      depends on, and described by a pair with its id. */
  ghost predicate StaleNode(pairs: seq<ProofPair>, ranges: seq<LineRange>, n: CascadeNode) {
    && Describes(pairs, DirectNode(n.id, n.kind, n.title, n.statementLines))
    && exists reverse :: Reverses(reverse, pairs) && TrueNode(reverse, EntryIds(pairs, ranges), n)
  }

  ghost predicate Reverses(reverse: Reverse, pairs: seq<ProofPair>) {
    forall x, l :: Edge(reverse, l, x) <==> DependsOn(pairs, x, l)
  }

  /** Distances depend on the pairs only, not on how the reversed graph lists its edges. */
  lemma ReversesAgree(a: Reverse, b: Reverse, pairs: seq<ProofPair>, seeds: seq<Label>, x: Label, d: nat)
    requires Reverses(a, pairs) && Reverses(b, pairs)
    ensures IsDistance(a, seeds, x, d) <==> IsDistance(b, seeds, x, d)
  {
    forall path, steps: nat ensures PathTo(a, seeds, path, x, steps) <==> PathTo(b, seeds, path, x, steps) {
      assert forall i | 0 <= i < |path| - 1 :: Edge(a, path[i], path[i + 1]) <==> Edge(b, path[i], path[i + 1]);
    }
  }

  /** A reported node depends on something, so it is a pair. */
  lemma NodesAreDescribed(pairs: seq<ProofPair>, ranges: seq<LineRange>, reverse: Reverse, pairsById: map<Label, ProofPair>, n: CascadeNode)
    requires Reverses(reverse, pairs) && TrueNode(reverse, EntryIds(pairs, ranges), n)
    requires n == NodeOf(pairsById, Mark(n.id, n.depth, n.via))
    requires forall p | p in pairs :: p.id in pairsById
    requires forall x | x in pairsById :: LastPair(pairs, pairsById[x]) && pairsById[x].id == x
    ensures StaleNode(pairs, ranges, n)
  {
    var i :| 0 <= i < |pairs| && pairs[i].id == n.id && Some(n.via) in pairs[i].dependencies;
    assert pairs[i] in pairs;
    var p := pairsById[n.id];
    assert DirectNode(n.id, n.kind, n.title, n.statementLines) == DirectNode(p.id, p.kind, p.title, p.statementLines);
  }

  method InvalidationFromRanges(pairs: seq<ProofPair>, ranges: seq<LineRange>)
    returns (directlyStale: seq<DirectNode>, cascadeStale: seq<CascadeNode>)
    ensures forall x :: (exists d :: d in directlyStale && d.id == x) <==> Entry(pairs, ranges, x)
    ensures forall d, n | d in directlyStale && n in cascadeStale :: d.id != n.id
    ensures forall i, j | 0 <= i < j < |cascadeStale| :: cascadeStale[i].id != cascadeStale[j].id
    ensures NearestFirst(cascadeStale)
    ensures |directlyStale| == |EntryIds(pairs, ranges)|
    ensures forall i | 0 <= i < |directlyStale| :: directlyStale[i].id == EntryIds(pairs, ranges)[i] && Describes(pairs, directlyStale[i])
    ensures forall n | n in cascadeStale :: StaleNode(pairs, ranges, n)
    ensures ClosedUnderDependents(pairs, ranges, Stale(directlyStale, cascadeStale))
    ensures forall s | ClosedUnderDependents(pairs, ranges, s) :: Stale(directlyStale, cascadeStale) <= s
  {
    if |pairs| == 0 || |ranges| == 0 {
      NothingEdited(pairs, ranges);
      return [], [];
    }
    var pairsById := IndexById(pairs);
    var reverse := BuildReverseGraph(pairs);
    var entry := EntryLabelsForRanges(pairs, ranges);
    directlyStale := DirectNodes(entry, pairsById, pairs);
    cascadeStale := Cascade(entry, reverse, pairsById);
    assert Reverses(reverse, pairs);
    forall n | n in cascadeStale ensures StaleNode(pairs, ranges, n) {
      NodesAreDescribed(pairs, ranges, reverse, pairsById, n);
    }
    SortChangesNothing(cascadeStale);
    LeastClosure(pairs, ranges, reverse, entry, directlyStale, cascadeStale);
    cascadeStale := SortByDepth(cascadeStale);
  }

  method IndexById(pairs: seq<ProofPair>) returns (pairsById: map<Label, ProofPair>)
    ensures forall p | p in pairs :: p.id in pairsById
    ensures forall x | x in pairsById :: LastPair(pairs, pairsById[x]) && pairsById[x].id == x
  {
    pairsById := map[];
    for i := 0 to |pairs|
      invariant forall k | 0 <= k < i :: pairs[k].id in pairsById
      invariant forall x | x in pairsById :: LastPair(pairs[..i], pairsById[x]) && pairsById[x].id == x
    {
      assert pairs[..i + 1] == pairs[..i] + [pairs[i]];
      forall x | x in pairsById && x != pairs[i].id ensures LastPair(pairs[..i + 1], pairsById[x]) {
        LastPairStays(pairs[..i], pairs[i], pairsById[x]);
      }
      assert pairs[..i + 1][i] == pairs[i];
      pairsById := pairsById[pairs[i].id := pairs[i]];
    }
    assert pairs[..|pairs|] == pairs;
  }

  lemma LastPairStays(pairs: seq<ProofPair>, next: ProofPair, p: ProofPair)
    requires LastPair(pairs, p) && p.id != next.id
    ensures LastPair(pairs + [next], p)
  {
    var k :| 0 <= k < |pairs| && pairs[k] == p && forall j | k < j < |pairs| :: pairs[j].id != p.id;
    assert (pairs + [next])[k] == p && forall j | k < j < |pairs + [next]| :: (pairs + [next])[j].id != p.id;
  }

  lemma {:induction false} NothingEdited(pairs: seq<ProofPair>, ranges: seq<LineRange>)
    requires pairs == [] || ranges == []
    ensures EntryIds(pairs, ranges) == []
  {
    if pairs != [] {
      NothingEdited(pairs[..|pairs| - 1], ranges);
    }
  }

  method DirectNodes(entry: seq<Label>, pairsById: map<Label, ProofPair>, ghost pairs: seq<ProofPair>) returns (out: seq<DirectNode>)
    requires forall x | x in entry :: x in pairsById
    requires forall x | x in pairsById :: LastPair(pairs, pairsById[x]) && pairsById[x].id == x
    ensures |out| == |entry| && forall i | 0 <= i < |out| :: out[i].id == entry[i] && Describes(pairs, out[i])
    ensures forall x :: (exists d :: d in out && d.id == x) <==> x in entry
  {
    out := [];
    for i := 0 to |entry|
      invariant |out| == i && forall k | 0 <= k < i :: out[k].id == entry[k] && Describes(pairs, out[k])
    {
      var p := pairsById[entry[i]];
      assert entry[i] in entry;
      assert Describes(pairs, DirectNode(entry[i], p.kind, p.title, p.statementLines));
      out := out + [DirectNode(entry[i], p.kind, p.title, p.statementLines)];
    }
    forall x ensures (exists d :: d in out && d.id == x) <==> x in entry {
      if x in entry {
        var i :| 0 <= i < |entry| && entry[i] == x;
        assert out[i] in out && out[i].id == x;
      }
    }
  }

  lemma LeastClosure(pairs: seq<ProofPair>, ranges: seq<LineRange>, reverse: Reverse, entry: seq<Label>, direct: seq<DirectNode>, out: seq<CascadeNode>)
    requires forall x, l :: Edge(reverse, l, x) <==> DependsOn(pairs, x, l)
    requires forall x :: x in entry <==> Entry(pairs, ranges, x)
    requires forall x :: (exists d :: d in direct && d.id == x) <==> x in entry
    requires forall x :: (exists n :: n in out && n.id == x) <==> Reachable(reverse, entry, x) && x !in entry
    ensures ClosedUnderDependents(pairs, ranges, Stale(direct, out))
    ensures forall s | ClosedUnderDependents(pairs, ranges, s) :: Stale(direct, out) <= s
  {
    forall x ensures x in Stale(direct, out) <==> Reachable(reverse, entry, x) {
      if x in entry {
        assert PathTo(reverse, entry, [x], x, 0);
      }
    }
    forall x, l | l in Stale(direct, out) && DependsOn(pairs, x, l) ensures x in Stale(direct, out) {
      var path, steps :| PathTo(reverse, entry, path, l, steps);
      ExtendPath(reverse, entry, path, l, steps, x);
    }
    forall s, x | ClosedUnderDependents(pairs, ranges, s) && x in Stale(direct, out) ensures x in s {
      var path, steps :| PathTo(reverse, entry, path, x, steps);
      PathStaysIn(pairs, ranges, reverse, entry, s, path, x, steps);
    }
  }

  lemma ExtendPath(reverse: Reverse, seeds: seq<Label>, path: seq<Label>, l: Label, steps: nat, x: Label)
    requires PathTo(reverse, seeds, path, l, steps) && Edge(reverse, l, x)
    ensures PathTo(reverse, seeds, path + [x], x, steps + 1)
  {
    var longer := path + [x];
    assert forall i | 0 <= i < |path| :: longer[i] == path[i];
  }

  lemma {:induction false} PathStaysIn(pairs: seq<ProofPair>, ranges: seq<LineRange>, reverse: Reverse, entry: seq<Label>, s: iset<Label>,
                                       path: seq<Label>, x: Label, steps: nat)
    requires forall y, l :: Edge(reverse, l, y) <==> DependsOn(pairs, y, l)
    requires forall y | y in entry :: y in s
    requires forall y, l | l in s && DependsOn(pairs, y, l) :: y in s
    requires PathTo(reverse, entry, path, x, steps)
    ensures x in s
  {
    if steps > 0 {
      var before := path[..steps];
      assert PathTo(reverse, entry, before, path[steps - 1], steps - 1);
      PathStaysIn(pairs, ranges, reverse, entry, s, before, path[steps - 1], steps - 1);
      assert Edge(reverse, path[steps - 1], path[steps - 1 + 1]);
    }
  }

  /** More edits never invalidate less: any two least closed sets compare as their edits do. */
  lemma GrowsWithRanges(pairs: seq<ProofPair>, fewer: seq<LineRange>, more: seq<LineRange>, small: iset<Label>, large: iset<Label>)
    requires forall e | e in fewer :: e in more
    requires ClosedUnderDependents(pairs, more, large)
    requires forall s | ClosedUnderDependents(pairs, fewer, s) :: small <= s
    ensures small <= large
  {
    forall x | Entry(pairs, fewer, x) ensures x in large {
      var p :| p in pairs && p.id == x && Edited(p, fewer);
      assert Edited(p, more);
    }
    assert ClosedUnderDependents(pairs, fewer, large);
  }
}
