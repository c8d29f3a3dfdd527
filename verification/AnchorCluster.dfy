/** Shapes drawn in quick succession share one anchor: `anchorShape` of src/anchorCluster.ts.

    A shape either joins the open cluster at once, or asks for a source anchor of its own; the answer
    arrives later and opens a new cluster. */
module AnchorCluster {
  import opened Wrappers
  import opened AnchorRemap

  const CLUSTER_GAP := 5000
  const ANCHORABLE_TYPES := {"draw", "highlight", "arrow", "geo", "text", "line"}
  const SYSTEM_PREFIXES := ["diff-", "proof-", "hist-"]

  datatype Bounds = Bounds(x: real, y: real, width: real, height: real)

  datatype ActiveCluster = ActiveCluster(
    anchor: SourceAnchor, anchorCanvasX: real, anchorCanvasY: real, clusterId: ClusterId, lastShapeTime: int, page: nat)

  /** A shape waiting for the anchor of its own place. */
  datatype Asked = Asked(shape: Shape, now: int, page: nat)

  predicate IsSystemShape(shapeId: ShapeId) {
    var id := if "shape:" <= shapeId then shapeId[6..] else shapeId;
    exists k | 0 <= k < |SYSTEM_PREFIXES| :: SYSTEM_PREFIXES[k] <= id
  }

  /** Overlay shapes: an id, with or without the editor's own prefix, that starts as overlays' ids do. */
  lemma SystemShapesAre(id: ShapeId)
    ensures IsSystemShape(id) <==>
      || "diff-" <= id || "proof-" <= id || "hist-" <= id
      || "shape:diff-" <= id || "shape:proof-" <= id || "shape:hist-" <= id
  {
    Spelled();
    SystemStarts(id);
    if "shape:" <= id {
      var bare := id[6..];
      assert id == "shape:" + bare;
      UnderThePrefix("diff-", bare);
      UnderThePrefix("proof-", bare);
      UnderThePrefix("hist-", bare);
    } else {
      PrefixOfPrefix("diff-", id);
      PrefixOfPrefix("proof-", id);
      PrefixOfPrefix("hist-", id);
    }
    hide IsSystemShape;
  }

  lemma Spelled()
    ensures "shape:" + "diff-" == "shape:diff-" && "shape:" + "proof-" == "shape:proof-" && "shape:" + "hist-" == "shape:hist-"
  {
  }

  lemma SystemStarts(id: ShapeId)
    ensures var bare := if "shape:" <= id then id[6..] else id;
      IsSystemShape(id) <==> "diff-" <= bare || "proof-" <= bare || "hist-" <= bare
  {
    assert SYSTEM_PREFIXES[0] == "diff-" && SYSTEM_PREFIXES[1] == "proof-" && SYSTEM_PREFIXES[2] == "hist-";
  }

  lemma UnderThePrefix(start: string, bare: string)
    requires start != "" && start[0] != 's'
    ensures "shape:" + start <= "shape:" + bare <==> start <= bare
    ensures !(start <= "shape:" + bare)
  {
    assert ("shape:" + bare)[0] == 's';
    assert ("shape:" + bare)[6..] == bare && ("shape:" + start)[6..] == start;
  }

  lemma PrefixOfPrefix(start: string, id: string)
    ensures "shape:" + start <= id ==> "shape:" <= id
  {
    if "shape:" + start <= id {
      assert id[..6] == ("shape:" + start)[..6] == "shape:";
    }
  }

  /** The first page the shape's y falls on, counted from one. */
  method GetShapePage(shapeY: real, pages: seq<Bounds>) returns (page: Option<nat>)
    ensures page.Some? ==>
      && 1 <= page.value <= |pages|
      && pages[page.value - 1].y <= shapeY < pages[page.value - 1].y + pages[page.value - 1].height
      && forall k | 0 <= k < page.value - 1 :: !(pages[k].y <= shapeY < pages[k].y + pages[k].height)
    ensures page.None? ==> forall k | 0 <= k < |pages| :: !(pages[k].y <= shapeY < pages[k].y + pages[k].height)
  {
    for i := 0 to |pages|
      invariant forall k | 0 <= k < i :: !(pages[k].y <= shapeY < pages[k].y + pages[k].height)
    {
      var b := pages[i];
      if b.y <= shapeY < b.y + b.height {
        return Some(i + 1);
      }
    }
    return None;
  }

  function AnchoredMeta(s: Shape, anchor: SourceAnchor, clusterId: ClusterId, x: real, y: real): Meta {
    s.meta.(sourceAnchor := Some(anchor), clusterId := Some(clusterId), anchorCanvasX := Some(x), anchorCanvasY := Some(y))
  }

  function Joining(s: Shape, a: ActiveCluster): Update {
    Update(s.id, None, Some(AnchoredMeta(s, a.anchor, a.clusterId, a.anchorCanvasX, a.anchorCanvasY)))
  }

  function Opening(asked: Asked, anchor: SourceAnchor, clusterId: ClusterId): Update {
    var s := asked.shape;
    Update(s.id, None, Some(AnchoredMeta(s, anchor, clusterId, s.x, s.y)))
  }

  function Opened(asked: Asked, anchor: SourceAnchor, clusterId: ClusterId): ActiveCluster {
    ActiveCluster(anchor, asked.shape.x, asked.shape.y, clusterId, asked.now, asked.page)
  }

  predicate CanJoin(active: Option<ActiveCluster>, now: int, page: nat) {
    active.Some? && now - active.value.lastShapeTime < CLUSTER_GAP && active.value.page == page
  }

  /** The open cluster records the place this member is recorded at. */
  predicate RecordsPlaceOf(a: ActiveCluster, member: Shape) {
    IsAnchored(member) == a.anchor.Anchored? && (IsAnchored(member) ==> member.meta.anchorCanvasY == Some(a.anchorCanvasY))
  }

  ghost predicate RecordsPlace(a: ActiveCluster, shapes: map<ShapeId, Shape>) {
    forall i | i in shapes && Member(shapes[i], a.clusterId) :: RecordsPlaceOf(a, shapes[i])
  }

  lemma OneUpdate(shapes: map<ShapeId, Shape>, u: Update)
    ensures Applied(shapes, [u]) == if u.id in shapes then shapes[u.id := Patched(shapes[u.id], u)] else shapes
  {
    assert [u][..0] == [];
  }

  lemma JoiningRecords(shapes: map<ShapeId, Shape>, s: Shape, a: ActiveCluster)
    ensures Applied(shapes, [Joining(s, a)]) ==
      if s.id !in shapes then shapes
      else shapes[s.id := shapes[s.id].(meta := Meta(Some(a.anchor), Some(a.clusterId), Some(a.anchorCanvasX), Some(a.anchorCanvasY)))]
  {
    OneUpdate(shapes, Joining(s, a));
  }

  lemma OpeningRecords(shapes: map<ShapeId, Shape>, asked: Asked, anchor: SourceAnchor, clusterId: ClusterId)
    ensures Applied(shapes, [Opening(asked, anchor, clusterId)]) ==
      if asked.shape.id !in shapes then shapes
      else shapes[asked.shape.id := shapes[asked.shape.id].(meta := Meta(Some(anchor), Some(clusterId), Some(asked.shape.x), Some(asked.shape.y)))]
  {
    OneUpdate(shapes, Opening(asked, anchor, clusterId));
  }

  class ClusterAnchors {
    const editor: Editor
    var active: Option<ActiveCluster>
    var counter: nat
    /** The clusters opened here. */
    ghost var opened': set<ClusterId>

    /** Cluster numbers only grow, and the open cluster was opened here. What its shapes are recorded with is
        not said here: remaps change it. */
    ghost predicate Valid()
      reads this
    {
      && (forall c | c in opened' :: c.number <= counter)
      && (active.Some? ==> active.value.clusterId in opened')
    }

    constructor (editor: Editor)
      ensures Valid() && this.editor == editor && active.None? && counter == 0 && opened' == {}
    {
      this.editor, active, counter, opened' := editor, None, 0, {};
    }

    /** A shape was just created: join the open cluster, or ask for an anchor, or leave it. */
    method AnchorShape(shape: Shape, anchorLocked: bool, pages: Option<seq<Bounds>>, now: int) returns (asked: Option<Asked>)
      requires Valid()
      modifies this`active, editor
      ensures Valid()
      ensures (|| shape.kind !in {"draw", "highlight", "arrow", "geo", "text", "line"} || IsSystemShape(shape.id) || anchorLocked || pages.None?
               || forall k | 0 <= k < |pages.value| :: !(pages.value[k].y <= shape.y < pages.value[k].y + pages.value[k].height))
        ==> asked.None? && active == old(active) && editor.shapes == old(editor.shapes)
      ensures shape.kind in {"draw", "highlight", "arrow", "geo", "text", "line"} && !IsSystemShape(shape.id) && !anchorLocked && pages.Some? ==>
        forall i | 0 <= i < |pages.value| && pages.value[i].y <= shape.y < pages.value[i].y + pages.value[i].height
                   && (forall k | 0 <= k < i :: !(pages.value[k].y <= shape.y < pages.value[k].y + pages.value[k].height)) ::
          if old(active).Some? && now - old(active).value.lastShapeTime < 5000 && old(active).value.page == i + 1 then
            var a := old(active).value;
            && asked.None? && active == Some(a.(lastShapeTime := now))
            && editor.shapes == (
                 if shape.id !in old(editor.shapes) then old(editor.shapes)
                 else old(editor.shapes)[shape.id := old(editor.shapes)[shape.id].(
                   meta := Meta(Some(a.anchor), Some(a.clusterId), Some(a.anchorCanvasX), Some(a.anchorCanvasY)))])
          else asked == Some(Asked(shape, now, i + 1)) && active == old(active) && editor.shapes == old(editor.shapes)
      ensures forall c | Uniform(old(editor.shapes), c) && (active.Some? && active.value.clusterId == c ==> RecordsPlace(active.value, old(editor.shapes))) ::
        Uniform(editor.shapes, c)
    {
      asked := None;
      if shape.kind !in ANCHORABLE_TYPES || IsSystemShape(shape.id) || anchorLocked || pages.None? {
        return;
      }
      var shapePage := GetShapePage(shape.y, pages.value);
      if shapePage.None? {
        return;
      }
      if CanJoin(active, now, shapePage.value) {
        active := Some(active.value.(lastShapeTime := now));
        ghost var was := editor.shapes;
        JoiningRecords(was, shape, active.value);
        editor.UpdateShapes([Joining(shape, active.value)]);
        forall c | Uniform(was, c) && (active.value.clusterId == c ==> RecordsPlace(active.value, was)) ensures Uniform(editor.shapes, c) {
          JoinKeeps(was, c, shape, active.value);
        }
        return;
      }
      asked := Some(Asked(shape, now, shapePage.value));
    }

    /** The anchor asked for arrived, or there is none. The shape may be gone by now. */
    method AnchorFound(asked: Asked, anchor: Option<SourceAnchor>)
      requires Valid()
      modifies this, editor
      ensures Valid()
      ensures anchor.None? ==>
        active == old(active) && counter == old(counter) && editor.shapes == old(editor.shapes) && opened' == old(opened')
      ensures anchor.Some? ==>
        var c := ClusterId(old(counter) + 1, asked.now);
        && counter == old(counter) + 1
        && c !in old(opened') && opened' == old(opened') + {c}
        && active == Some(ActiveCluster(anchor.value, asked.shape.x, asked.shape.y, c, asked.now, asked.page))
        && editor.shapes == (
             if asked.shape.id !in old(editor.shapes) then old(editor.shapes)
             else old(editor.shapes)[asked.shape.id := old(editor.shapes)[asked.shape.id].(
               meta := Meta(Some(anchor.value), Some(c), Some(asked.shape.x), Some(asked.shape.y)))])
      ensures forall c | Uniform(old(editor.shapes), c) && (c == ClusterId(old(counter) + 1, asked.now) ==> !InUse(old(editor.shapes), c)) ::
        Uniform(editor.shapes, c)
    {
      if anchor.None? {
        return;
      }
      ghost var was := editor.shapes;
      counter := counter + 1;
      var clusterId := ClusterId(counter, asked.now);
      opened' := opened' + {clusterId};
      active := Some(Opened(asked, anchor.value, clusterId));
      OneUpdate(was, Opening(asked, anchor.value, clusterId));
      OpeningRecords(was, asked, anchor.value, clusterId);
      if asked.shape.id !in editor.shapes {
        return;
      }
      editor.UpdateShapes([Opening(asked, anchor.value, clusterId)]);
      forall c | Uniform(was, c) && (c == clusterId ==> !InUse(was, c)) ensures Uniform(editor.shapes, c) {
        OpenKeeps(was, c, asked, anchor.value, clusterId);
      }
    }
  }

  /** A join keeps a cluster uniform if it is another's, or the open cluster records its members' place. */
  lemma JoinKeeps(shapes: map<ShapeId, Shape>, c: ClusterId, s: Shape, a: ActiveCluster)
    requires Uniform(shapes, c) && (a.clusterId == c ==> RecordsPlace(a, shapes))
    ensures Uniform(Applied(shapes, [Joining(s, a)]), c)
  {
    OneUpdate(shapes, Joining(s, a));
    var joined := Applied(shapes, [Joining(s, a)]);
    forall i, j | i in joined && j in joined && Member(joined[i], c) && Member(joined[j], c)
      ensures Together(joined[i], joined[j])
    {
      assert i != s.id ==> Together(shapes[i], shapes[i]);
      assert j != s.id ==> Together(shapes[j], shapes[j]);
      assert i != s.id && j != s.id ==> Together(shapes[i], shapes[j]);
    }
  }

  /** Opening a cluster under an unused id makes it uniform, and takes its shape out of any other. */
  lemma OpenKeeps(shapes: map<ShapeId, Shape>, c: ClusterId, asked: Asked, anchor: SourceAnchor, clusterId: ClusterId)
    requires Uniform(shapes, c) && (c == clusterId ==> !InUse(shapes, c))
    ensures Uniform(Applied(shapes, [Opening(asked, anchor, clusterId)]), c)
  {
    OneUpdate(shapes, Opening(asked, anchor, clusterId));
    var later := Applied(shapes, [Opening(asked, anchor, clusterId)]);
    forall i, j | i in later && j in later && Member(later[i], c) && Member(later[j], c)
      ensures Together(later[i], later[j])
    {
      if c == clusterId {
        assert i == j == asked.shape.id;
      } else {
        assert Together(shapes[i], shapes[j]);
      }
    }
  }

  /** Why the place matters. A shape is drawn at 10 and a rebuild moves it and its anchor to 30. A second shape joins
      the cluster, which is still open with its anchor at 10, and comes first on the page. The next rebuild finds
      the anchor at 60, and the first shape, drawn on its anchor, ends 20 below it. */
  lemma LateJoinDrifts(c: ClusterId, source: SourceAnchor)
    requires source.Anchored?
    ensures
      var drawn := Shape("a", "draw", 0.0, 10.0, Meta(Some(source), Some(c), Some(0.0), Some(10.0)));
      var open := ActiveCluster(source, 0.0, 10.0, c, 0, 1);
      var once := ClusterUpdate(drawn, drawn, Found(30.0));
      var late := Shape("b", "draw", 0.0, 50.0, Meta(None, None, None, None));
      var joined := Patched(late, Joining(late, open));
      && once.Some? && Patched(drawn, once.value).y == 30.0
      && var twice := ClusterUpdate(joined, Patched(drawn, once.value), Found(60.0));
         && twice.Some?
         && Patched(Patched(drawn, once.value), twice.value).y == 80.0
         && Patched(Patched(drawn, once.value), twice.value).meta.anchorCanvasY == Some(60.0)
  {
    var drawn := Shape("a", "draw", 0.0, 10.0, Meta(Some(source), Some(c), Some(0.0), Some(10.0)));
    assert Patched(drawn, ClusterUpdate(drawn, drawn, Found(30.0)).value).y == 30.0;
  }
}
