/** Annotations that follow the text they were drawn on: `remapAnnotations` of src/editorSetup.ts moves them
    after a rebuild.

    A remap first takes a snapshot of the page and later applies what it worked out from it. AnchorRuns has
    what happens in between. */
module AnchorRemap {
  import opened Wrappers

  type ShapeId = string

  /** Printed as `cluster-<number>-<time>`. */
  datatype ClusterId = ClusterId(number: nat, at: int)

  datatype SourceAnchor = Anchored(file: string, line: int) | Unanchored(reason: string)

  datatype Meta = Meta(
    sourceAnchor: Option<SourceAnchor>,
    clusterId: Option<ClusterId>,
    anchorCanvasX: Option<real>,
    anchorCanvasY: Option<real>)

  datatype Shape = Shape(id: ShapeId, kind: string, x: real, y: real, meta: Meta)

  /** A partial update: a new place, if it has one, and metadata laid over the old. */
  datatype Update = Update(id: ShapeId, place: Option<(real, real)>, meta: Option<Meta>)

  /** What resolving an anchor in the rebuilt document can give. */
  datatype Resolution = Threw | Nothing | Lost(reason: string) | Found(canvasY: real)

  type SoloResolver = ShapeId -> Resolution
  type ClusterResolver = ClusterId -> Resolution

  // ---------- updates ----------

  function Over<T>(old': Option<T>, new': Option<T>): Option<T> {
    if new'.Some? then new' else old'
  }

  function Merge(a: Meta, b: Meta): Meta {
    Meta(Over(a.sourceAnchor, b.sourceAnchor), Over(a.clusterId, b.clusterId),
         Over(a.anchorCanvasX, b.anchorCanvasX), Over(a.anchorCanvasY, b.anchorCanvasY))
  }

  function Patched(s: Shape, u: Update): Shape {
    var placed := match u.place case None => s case Some((x, y)) => s.(x := x, y := y);
    match u.meta case None => placed case Some(m) => placed.(meta := Merge(placed.meta, m))
  }

  function Applied(shapes: map<ShapeId, Shape>, updates: seq<Update>): map<ShapeId, Shape> {
    if updates == [] then shapes
    else
      var before, u := Applied(shapes, updates[..|updates| - 1]), updates[|updates| - 1];
      if u.id in before then before[u.id := Patched(before[u.id], u)] else before
  }

  // ---------- what a remap works out for one shape ----------

  predicate IsAnchored(s: Shape) {
    s.kind != "understanding-line" && s.meta.sourceAnchor.Some? && s.meta.sourceAnchor.value.Anchored?
  }

  predicate Clustered(s: Shape) {
    s.meta.clusterId.Some?
  }

  predicate InCluster(s: Shape, c: ClusterId) {
    IsAnchored(s) && Clustered(s) && s.meta.clusterId.value == c
  }

  function Abs(x: real): real {
    if x < 0.0 then -x else x
  }

  function SoloUpdate(s: Shape, found: Resolution): Option<Update> {
    match found
    case Threw => None
    case Nothing => None
    case Lost(reason) => Some(Update(s.id, None, Some(s.meta.(sourceAnchor := Some(Unanchored(reason))))))
    case Found(canvasY) =>
      var newY := canvasY - 100.0;
      if Abs(s.y - newY) > 1.0 then Some(Update(s.id, Some((s.x, newY)), None)) else None
  }

  /** The cluster's first shape on the page speaks for its anchor. */
  function ClusterUpdate(first: Shape, s: Shape, found: Resolution): Option<Update> {
    if first.meta.anchorCanvasX.None? || first.meta.anchorCanvasY.None? then None
    else
      match found
      case Threw => None
      case Nothing => None
      case Lost(reason) => Some(Update(s.id, None, Some(s.meta.(sourceAnchor := Some(Unanchored(reason))))))
      case Found(canvasY) =>
        var deltaY := canvasY - first.meta.anchorCanvasY.value;
        if Abs(deltaY) < 1.0 then None
        else Some(Update(s.id, Some((s.x, s.y + deltaY)),
                         Some(s.meta.(anchorCanvasX := first.meta.anchorCanvasX, anchorCanvasY := Some(canvasY)))))
  }

  /** The shapes of a cluster, in page order. */
  function MembersOf(page: seq<Shape>, c: ClusterId): seq<Shape> {
    if page == [] then []
    else
      var before, last := MembersOf(page[..|page| - 1], c), page[|page| - 1];
      if InCluster(last, c) then before + [last] else before
  }

  lemma {:induction false} MembersMeaning(page: seq<Shape>, c: ClusterId)
    ensures forall s :: s in MembersOf(page, c) <==> s in page && InCluster(s, c)
  {
    if page != [] {
      MembersMeaning(page[..|page| - 1], c);
      assert page == page[..|page| - 1] + [page[|page| - 1]];
    }
  }

  /** What a remap of this page does to one of its shapes. */
  function Expected(page: seq<Shape>, s: Shape, solo: SoloResolver, cluster: ClusterResolver): Option<Update> {
    if !IsAnchored(s) then None
    else if !Clustered(s) then SoloUpdate(s, solo(s.id))
    else
      var members := MembersOf(page, s.meta.clusterId.value);
      if members == [] then None else ClusterUpdate(members[0], s, cluster(s.meta.clusterId.value))
  }

  // ---------- the remap ----------

  /** The snapshot half of `remapAnnotations`: group the anchored shapes, then work out the updates. */
  method ComputeUpdates(page: seq<Shape>, solo: SoloResolver, cluster: ClusterResolver) returns (updates: seq<Update>)
    ensures forall u :: u in updates <==> exists s :: s in page && Expected(page, s, solo, cluster) == Some(u)
  {
    var clusters, soloShapes := Group(page);
    updates := [];
    for i := 0 to |soloShapes|
      invariant forall u :: u in updates <==> exists s :: s in soloShapes[..i] && SoloUpdate(s, solo(s.id)) == Some(u)
    {
      var s := soloShapes[i];
      assert forall x :: x in soloShapes[..i + 1] <==> x in soloShapes[..i] || x == s;
      var u := SoloUpdate(s, solo(s.id));
      if u.Some? {
        updates := updates + [u.value];
      }
    }
    assert soloShapes[..|soloShapes|] == soloShapes;
    ghost var soloUpdates := updates;
    var todo := clusters.Keys;
    while todo != {}
      invariant todo <= clusters.Keys
      invariant forall u :: u in updates <==>
        u in soloUpdates || exists c, s :: c in clusters.Keys - todo && s in clusters[c] && ClusterUpdate(clusters[c][0], s, cluster(c)) == Some(u)
    {
      var c :| c in todo;
      var more := ClusterUpdates(clusters[c], cluster(c));
      updates := updates + more;
      todo := todo - {c};
    }
    forall u ensures u in updates <==> exists s :: s in page && Expected(page, s, solo, cluster) == Some(u) {
      if u in soloUpdates {
        var s :| s in soloShapes && SoloUpdate(s, solo(s.id)) == Some(u);
        assert Expected(page, s, solo, cluster) == Some(u);
      } else if u in updates {
        var c, s :| c in clusters && s in clusters[c] && ClusterUpdate(clusters[c][0], s, cluster(c)) == Some(u);
        MembersMeaning(page, c);
        assert Expected(page, s, solo, cluster) == Some(u);
      }
      if s :| s in page && Expected(page, s, solo, cluster) == Some(u) {
        if Clustered(s) {
          var c := s.meta.clusterId.value;
          MembersMeaning(page, c);
          assert c in clusters && s in clusters[c];
        }
      }
    }
  }

  method Group(page: seq<Shape>) returns (clusters: map<ClusterId, seq<Shape>>, soloShapes: seq<Shape>)
    ensures forall s :: s in soloShapes <==> s in page && IsAnchored(s) && !Clustered(s)
    ensures forall c :: c in clusters <==> MembersOf(page, c) != []
    ensures forall c | c in clusters :: clusters[c] == MembersOf(page, c)
  {
    clusters, soloShapes := map[], [];
    for i := 0 to |page|
      invariant forall s :: s in soloShapes <==> s in page[..i] && IsAnchored(s) && !Clustered(s)
      invariant forall c :: c in clusters <==> MembersOf(page[..i], c) != []
      invariant forall c | c in clusters :: clusters[c] == MembersOf(page[..i], c)
    {
      var s := page[i];
      assert page[..i + 1][..i] == page[..i];
      assert forall x :: x in page[..i + 1] <==> x in page[..i] || x == s;
      if !IsAnchored(s) {
        continue;
      }
      if Clustered(s) {
        var c := s.meta.clusterId.value;
        var before := if c in clusters then clusters[c] else [];
        clusters := clusters[c := before + [s]];
      } else {
        soloShapes := soloShapes + [s];
      }
    }
    assert page[..|page|] == page;
  }

  method ClusterUpdates(shapes: seq<Shape>, found: Resolution) returns (updates: seq<Update>)
    requires shapes != []
    ensures forall u :: u in updates <==> exists s :: s in shapes && ClusterUpdate(shapes[0], s, found) == Some(u)
  {
    updates := [];
    for i := 0 to |shapes|
      invariant forall u :: u in updates <==> exists s :: s in shapes[..i] && ClusterUpdate(shapes[0], s, found) == Some(u)
    {
      var s := shapes[i];
      assert forall x :: x in shapes[..i + 1] <==> x in shapes[..i] || x == s;
      var u := ClusterUpdate(shapes[0], s, found);
      if u.Some? {
        updates := updates + [u.value];
      }
    }
    assert shapes[..|shapes|] == shapes;
  }

  // ---------- what a cluster is ----------

  /** The shape is recorded with this cluster, and can be remapped while its anchor holds. */
  predicate Member(s: Shape, c: ClusterId) {
    s.kind != "understanding-line" && s.meta.clusterId == Some(c) && s.meta.sourceAnchor.Some?
  }

  /** Both are anchored, with one anchor place between them, or neither is. */
  ghost predicate Together(a: Shape, b: Shape) {
    && IsAnchored(a) == IsAnchored(b)
    && (IsAnchored(a) ==>
          && a.meta.anchorCanvasX.Some? && a.meta.anchorCanvasY.Some?
          && a.meta.anchorCanvasY == b.meta.anchorCanvasY)
  }

  /** All members still on the canvas are anchored at the same place, or none is anchored. */
  ghost predicate Uniform(shapes: map<ShapeId, Shape>, c: ClusterId) {
    forall a, b | a in shapes && b in shapes && Member(shapes[a], c) && Member(shapes[b], c) :: Together(shapes[a], shapes[b])
  }

  /** The cluster's first member is its first shape on the page. */
  lemma {:induction false} FirstMember(page: seq<Shape>, c: ClusterId, i: nat)
    requires i < |page| && InCluster(page[i], c) && forall j | 0 <= j < i :: !InCluster(page[j], c)
    ensures MembersOf(page, c) != [] && MembersOf(page, c)[0] == page[i]
  {
    var n := |page| - 1;
    if i < n {
      FirstMember(page[..n], c, i);
    } else {
      NoMembers(page[..n], c);
    }
  }

  lemma {:induction false} NoMembers(page: seq<Shape>, c: ClusterId)
    requires forall j | 0 <= j < |page| :: !InCluster(page[j], c)
    ensures MembersOf(page, c) == []
  {
    if page != [] {
      NoMembers(page[..|page| - 1], c);
    }
  }

  /** What a remap makes of a shape, if it is applied at once. */
  function Remapped(page: seq<Shape>, s: Shape, solo: SoloResolver, cluster: ClusterResolver): Shape {
    match Expected(page, s, solo, cluster) case None => s case Some(u) => Patched(s, u)
  }

  lemma UnanchoredStays(page: seq<Shape>, s: Shape, solo: SoloResolver, cluster: ClusterResolver)
    requires s.kind == "understanding-line" || s.meta.sourceAnchor.None? || s.meta.sourceAnchor.value.Unanchored?
    ensures Remapped(page, s, solo, cluster) == s
  {
  }

  /** A shape of its own goes to 100 above its anchor, when it is more than 1 away from there, and keeps the reason when
      the anchor is lost. */
  lemma SoloRemapMeans(page: seq<Shape>, s: Shape, solo: SoloResolver, cluster: ClusterResolver)
    requires s.kind != "understanding-line" && s.meta.sourceAnchor.Some? && s.meta.sourceAnchor.value.Anchored? && s.meta.clusterId.None?
    ensures Remapped(page, s, solo, cluster) ==
      match solo(s.id)
      case Found(y) => if -1.0 <= s.y - (y - 100.0) <= 1.0 then s else s.(y := y - 100.0)
      case Lost(reason) => s.(meta := s.meta.(sourceAnchor := Some(Unanchored(reason))))
      case _ => s
  {
  }

  /** A shape of a cluster follows the first of them on the page, by what the anchor has moved from the place recorded
      there, when that is at least 1, and takes over what is recorded there. */
  lemma ClusterRemapMeans(page: seq<Shape>, i: nat, s: Shape, c: ClusterId, solo: SoloResolver, cluster: ClusterResolver)
    requires s.kind != "understanding-line" && s.meta.sourceAnchor.Some? && s.meta.sourceAnchor.value.Anchored? && s.meta.clusterId == Some(c)
    requires i < |page| && InCluster(page[i], c) && forall j | 0 <= j < i :: !InCluster(page[j], c)
    ensures Remapped(page, s, solo, cluster) ==
      var first := page[i].meta;
      if first.anchorCanvasX.None? || first.anchorCanvasY.None? then s
      else
        match cluster(c)
        case Found(y) =>
          var moved := y - first.anchorCanvasY.value;
          if -1.0 < moved < 1.0 then s
          else s.(y := s.y + moved, meta := s.meta.(anchorCanvasX := first.anchorCanvasX, anchorCanvasY := Some(y)))
        case Lost(reason) => s.(meta := s.meta.(sourceAnchor := Some(Unanchored(reason))))
        case _ => s
  {
    FirstMember(page, c, i);
    hide MembersOf;
  }

  predicate InUse(shapes: map<ShapeId, Shape>, c: ClusterId) {
    exists i | i in shapes :: shapes[i].meta.clusterId == Some(c)
  }

  // ---------- applying updates to the page ----------

  /** The editor's store of shapes. */
  class Editor {
    var shapes: map<ShapeId, Shape>

    constructor (shapes: map<ShapeId, Shape>)
      ensures this.shapes == shapes
    {
      this.shapes := shapes;
    }

    method UpdateShapes(updates: seq<Update>)
      modifies this
      ensures shapes == Applied(old(shapes), updates)
    {
      var i := 0;
      while i < |updates|
        invariant 0 <= i <= |updates|
        invariant shapes == Applied(old(shapes), updates[..i])
      {
        var u := updates[i];
        assert updates[..i + 1][..i] == updates[..i];
        if u.id in shapes {
          shapes := shapes[u.id := Patched(shapes[u.id], u)];
        }
        i := i + 1;
      }
      assert updates[..|updates|] == updates;
    }

    /** The second half of a remap. */
    method ApplyRemap(updates: seq<Update>)
      modifies this
      ensures shapes == Applied(old(shapes), updates)
    {
      if |updates| > 0 {
        UpdateShapes(updates);
      }
    }
  }
}
