/** Anchored annotations over whole runs: clusters open and fill up, remaps of src/editorSetup.ts take their
    snapshots and are applied later, and shapes are drawn, dragged and deleted in between. */
module AnchorRuns {
  import opened AnchorCluster
  import opened AnchorRemap
  import opened Wrappers

  /** `used` are the ids ever given out, and `asks` the shapes whose anchor is being looked up. */
  datatype Canvas = Canvas(
    shapes: map<ShapeId, Shape>,
    used: set<ShapeId>,
    inFlight: map<nat, seq<Update>>,
    asks: map<ShapeId, Asked>,
    active: Option<ActiveCluster>,
    counter: nat)

  const EMPTY := Canvas(map[], {}, map[], map[], None, 0)

  /** A shape is created as it is, or joins the open cluster, or asks for an anchor of its own. */
  datatype Event =
    | Snapshot(k: nat, page: seq<Shape>, solo: SoloResolver, cluster: ClusterResolver, updates: seq<Update>)
    | Apply(k: nat)
    | Drag(id: ShapeId, x: real, y: real)
    | Delete(id: ShapeId)
    | Create(shape: Shape)
    | Join(shape: Shape, now: int, onPage: nat)
    | Ask(shape: Shape, now: int, onPage: nat)
    | Open(id: ShapeId, anchor: Option<SourceAnchor>)

  /** The page lists the canvas. */
  ghost predicate Lists(page: seq<Shape>, shapes: map<ShapeId, Shape>) {
    && (forall s | s in page :: s.id in shapes && shapes[s.id] == s)
    && (forall id | id in shapes :: shapes[id] in page && shapes[id].id == id)
  }

  /** What `ComputeUpdates` promises. */
  ghost predicate Computed(page: seq<Shape>, solo: SoloResolver, cluster: ClusterResolver, updates: seq<Update>) {
    forall u :: u in updates <==> exists s :: s in page && Expected(page, s, solo, cluster) == Some(u)
  }

  ghost predicate Enabled(v: Canvas, e: Event) {
    match e
    case Snapshot(k, page, solo, cluster, updates) => k !in v.inFlight && Lists(page, v.shapes) && Computed(page, solo, cluster, updates)
    case Apply(k) => k in v.inFlight
    case Drag(id, _, _) => id in v.shapes
    case Delete(_) => true
    case Create(shape) => shape.id !in v.used
    case Join(shape, now, page) => shape.id !in v.used && shape.kind in ANCHORABLE_TYPES && CanJoin(v.active, now, page)
    case Ask(shape, now, page) => shape.id !in v.used && shape.kind in ANCHORABLE_TYPES && !CanJoin(v.active, now, page)
    case Open(id, _) => id in v.asks
  }

  function NewCluster(v: Canvas, id: ShapeId): ClusterId
    requires id in v.asks
  {
    ClusterId(v.counter + 1, v.asks[id].now)
  }

  function Joined(v: Canvas, s: Shape): Shape
    requires v.active.Some?
  {
    Patched(s, Joining(s, v.active.value))
  }

  function Next(v: Canvas, e: Event): Canvas
    requires e.Apply? ==> e.k in v.inFlight
    requires e.Drag? ==> e.id in v.shapes
    requires e.Join? ==> v.active.Some?
    requires e.Open? ==> e.id in v.asks
  {
    match e
    case Snapshot(k, _, _, _, updates) => v.(inFlight := v.inFlight[k := updates])
    case Apply(k) => v.(shapes := Applied(v.shapes, v.inFlight[k]), inFlight := v.inFlight - {k})
    case Drag(id, x, y) => v.(shapes := v.shapes[id := v.shapes[id].(x := x, y := y)])
    case Delete(id) => v.(shapes := v.shapes - {id})
    case Create(shape) => v.(shapes := v.shapes[shape.id := shape], used := v.used + {shape.id})
    case Join(shape, now, _) =>
      v.(shapes := v.shapes[shape.id := Joined(v, shape)], used := v.used + {shape.id},
         active := Some(v.active.value.(lastShapeTime := now)))
    case Ask(shape, now, page) =>
      v.(shapes := v.shapes[shape.id := shape], used := v.used + {shape.id}, asks := v.asks[shape.id := Asked(shape, now, page)])
    case Open(id, None) => v.(asks := v.asks - {id})
    case Open(id, Some(anchor)) =>
      v.(shapes := Applied(v.shapes, [Opening(v.asks[id], anchor, NewCluster(v, id))]), asks := v.asks - {id},
         active := Some(Opened(v.asks[id], anchor, NewCluster(v, id))), counter := v.counter + 1)
  }

  /** The canvas after a run of events, if each was possible when it came. */
  ghost function After(v: Canvas, events: seq<Event>): Option<Canvas> {
    if events == [] then Some(v)
    else
      match After(v, events[..|events| - 1])
      case None => None
      case Some(m) => if Enabled(m, events[|events| - 1]) then Some(Next(m, events[|events| - 1])) else None
  }

  /** Shapes of the canvas may be dragged and any deleted, new ones created, and a remap worked out and later applied, at
      any time: working out moves nothing, and applying moves what was worked out. */
  lemma WhoMayMove(v: Canvas, id: ShapeId, x: real, y: real, shape: Shape, k: nat, e: Event)
    ensures Enabled(v, Drag(id, x, y)) <==> id in v.shapes
    ensures id in v.shapes ==> Next(v, Drag(id, x, y)) == v.(shapes := v.shapes[id := v.shapes[id].(x := x, y := y)])
    ensures Enabled(v, Delete(id)) && Next(v, Delete(id)) == v.(shapes := v.shapes - {id})
    ensures Enabled(v, Create(shape)) <==> shape.id !in v.used
    ensures Next(v, Create(shape)) == v.(shapes := v.shapes[shape.id := shape], used := v.used + {shape.id})
    ensures Enabled(v, Apply(k)) <==> k in v.inFlight
    ensures k in v.inFlight ==> Next(v, Apply(k)) == v.(shapes := Applied(v.shapes, v.inFlight[k]), inFlight := v.inFlight - {k})
    ensures e.Snapshot? ==>
      && (Enabled(v, e) <==>
            && e.k !in v.inFlight && (forall s | s in e.page :: s.id in v.shapes && v.shapes[s.id] == s)
            && (forall i | i in v.shapes :: v.shapes[i] in e.page && v.shapes[i].id == i)
            && forall u :: u in e.updates <==> exists s :: s in e.page && Expected(e.page, s, e.solo, e.cluster) == Some(u))
      && Next(v, e) == v.(inFlight := v.inFlight[e.k := e.updates])
    ensures Enabled(v, Open(id, None)) <==> id in v.asks
    ensures id in v.asks ==> Next(v, Open(id, None)) == v.(asks := v.asks - {id})
  {
  }

  /** A shape of an anchorable kind joins exactly in time and on the page of the open cluster, and asks otherwise. */
  lemma JoinOrAsk(v: Canvas, shape: Shape, now: int, page: nat)
    requires shape.id !in v.used && shape.kind in {"draw", "highlight", "arrow", "geo", "text", "line"}
    ensures Enabled(v, Join(shape, now, page)) <==>
      v.active.Some? && now - v.active.value.lastShapeTime < 5000 && v.active.value.page == page
    ensures Enabled(v, Ask(shape, now, page)) <==> !Enabled(v, Join(shape, now, page))
  {
  }

  /** A join is a creation and the update `AnchorShape` makes: the shape takes the open cluster's record. */
  lemma JoinRecords(v: Canvas, e: Event)
    requires e.Join? && Enabled(v, e)
    ensures var t, a := Next(v, e), v.active.value;
      && t.shapes == v.shapes[e.shape.id := e.shape.(meta := Meta(Some(a.anchor), Some(a.clusterId), Some(a.anchorCanvasX), Some(a.anchorCanvasY)))]
      && t.active == Some(a.(lastShapeTime := e.now)) && t.inFlight == v.inFlight && t.asks == v.asks && t.counter == v.counter
    ensures Next(v, e).shapes == Applied(v.shapes[e.shape.id := e.shape], [Joining(e.shape, v.active.value)])
  {
    OneUpdate(v.shapes[e.shape.id := e.shape], Joining(e.shape, v.active.value));
  }

  /** An opening is the update `AnchorFound` makes: the shape and the open cluster record the place asked for. */
  lemma OpenRecords(v: Canvas, id: ShapeId, anchor: SourceAnchor)
    requires Enabled(v, Open(id, Some(anchor)))
    ensures var t, asked := Next(v, Open(id, Some(anchor))), v.asks[id]; var c := ClusterId(v.counter + 1, asked.now);
      && t.active == Some(ActiveCluster(anchor, asked.shape.x, asked.shape.y, c, asked.now, asked.page))
      && t.counter == v.counter + 1 && t.asks == v.asks - {id} && t.inFlight == v.inFlight && t.used == v.used
      && t.shapes == (
           if asked.shape.id !in v.shapes then v.shapes
           else v.shapes[asked.shape.id := v.shapes[asked.shape.id].(
             meta := Meta(Some(anchor), Some(c), Some(asked.shape.x), Some(asked.shape.y)))])
  {
    OpeningRecords(v.shapes, v.asks[id], anchor, NewCluster(v, id));
  }

  // ---------- which events leave a cluster in one piece ----------

  ghost predicate Touches(updates: seq<Update>, id: ShapeId) {
    exists u :: u in updates && u.id == id
  }

  /** Some remap in flight has an update for the shape. */
  ghost predicate Held(v: Canvas, id: ShapeId) {
    exists k | k in v.inFlight :: Touches(v.inFlight[k], id)
  }

  /** A shape fits a cluster that it is not recorded with, or whose members are recorded at its place and are
      not held by a remap in flight. */
  ghost predicate Fits(v: Canvas, c: ClusterId, s: Shape) {
    Member(s, c) ==>
      && Together(s, s)
      && forall m | m in v.shapes && Member(v.shapes[m], c) :: Together(s, v.shapes[m]) && !Held(v, m)
  }

  /** What comes into the cluster fits it; it is opened under an id nothing carries; and no shape goes in or out
      of it by an opening while a remap in flight holds the shape. */
  ghost predicate GoodFor(v: Canvas, e: Event, c: ClusterId)
    requires Enabled(v, e)
  {
    match e
    case Create(shape) => Fits(v, c, shape)
    case Ask(shape, _, _) => Fits(v, c, shape)
    case Join(shape, _, _) => Fits(v, c, Joined(v, shape))
    case Open(id, Some(_)) =>
      id in v.shapes ==>
        && (NewCluster(v, id) == c ==> !InUse(v.shapes, c))
        && (NewCluster(v, id) == c || v.shapes[id].meta.clusterId == Some(c) ==> !Held(v, id))
    case _ => true
  }

  ghost predicate AllGood(v: Canvas, events: seq<Event>, c: ClusterId)
    requires After(v, events).Some?
  {
    events == [] ||
      (AllGood(v, events[..|events| - 1], c) && GoodFor(After(v, events[..|events| - 1]).value, events[|events| - 1], c))
  }

  // ---------- what a cluster keeps ----------

  /** Shapes watched: the x they have, and how far below the anchor they are. */
  type Marks = map<ShapeId, (real, real)>

  ghost predicate InPlace(s: Shape, mark: (real, real)) {
    s.x == mark.0 && (IsAnchored(s) ==> s.meta.anchorCanvasY.Some? && s.y == s.meta.anchorCanvasY.value + mark.1)
  }

  /** An update takes no shape into the cluster and none out of it. */
  ghost predicate Kin(u: Update, s: Shape, c: ClusterId) {
    u.meta.Some? ==>
      && u.meta.value.sourceAnchor.Some? && s.meta.sourceAnchor.Some?
      && (u.meta.value.clusterId == Some(c) <==> s.meta.clusterId == Some(c))
  }

  ghost predicate AllKin(updates: seq<Update>, shapes: map<ShapeId, Shape>, c: ClusterId) {
    forall u | u in updates && u.id in shapes :: Kin(u, shapes[u.id], c)
  }

  ghost predicate Moves(u: Update, level: real) {
    && u.place.Some? && u.meta.Some? && u.meta.value.anchorCanvasX.Some? && u.meta.value.anchorCanvasY == Some(level)
    && u.meta.value.sourceAnchor.Some? && u.meta.value.sourceAnchor.value.Anchored?
  }

  ghost predicate Loses(u: Update) {
    u.place.None? && u.meta.Some? && u.meta.value.sourceAnchor.Some? && u.meta.value.sourceAnchor.value.Unanchored?
  }

  ghost predicate MovesMarked(u: Update, level: real, marks: Marks) {
    Moves(u, level) && (u.id in marks ==> u.place == Some((marks[u.id].0, level + marks[u.id].1)))
  }

  ghost predicate NoneMoves(updates: seq<Update>, shapes: map<ShapeId, Shape>, c: ClusterId) {
    forall id | id in shapes && Member(shapes[id], c) :: !Touches(updates, id)
  }

  ghost predicate AllTouched(updates: seq<Update>, shapes: map<ShapeId, Shape>, c: ClusterId) {
    forall id | id in shapes && Member(shapes[id], c) :: Touches(updates, id)
  }

  ghost predicate AllMove(updates: seq<Update>, shapes: map<ShapeId, Shape>, c: ClusterId, marks: Marks, level: real) {
    AllTouched(updates, shapes, c) && forall u | u in updates && u.id in shapes && Member(shapes[u.id], c) :: MovesMarked(u, level, marks)
  }

  ghost predicate AllLose(updates: seq<Update>, shapes: map<ShapeId, Shape>, c: ClusterId) {
    AllTouched(updates, shapes, c) && forall u | u in updates && u.id in shapes && Member(shapes[u.id], c) :: Loses(u)
  }

  /** A remap in flight will move the cluster as one, take its anchor as one, or leave it alone. */
  ghost predicate BatchOk(updates: seq<Update>, shapes: map<ShapeId, Shape>, c: ClusterId, marks: Marks) {
    && AllKin(updates, shapes, c)
    && (NoneMoves(updates, shapes, c) || AllLose(updates, shapes, c) || exists level :: AllMove(updates, shapes, c, marks, level))
  }

  /** Ids are what they say, and whatever is in flight or asked for is about shapes there have been. */
  ghost predicate Sane(v: Canvas) {
    && (forall i | i in v.shapes :: i in v.used && v.shapes[i].id == i)
    && (forall k, u | k in v.inFlight && u in v.inFlight[k] :: u.id in v.used)
    && (forall i | i in v.asks :: i in v.used && v.asks[i].shape.id == i)
  }

  /** A marked shape is in its place, or has left the cluster for good. */
  ghost predicate Marked(v: Canvas, c: ClusterId, marks: Marks) {
    forall i | i in marks && i in v.shapes ::
      || (Member(v.shapes[i], c) && InPlace(v.shapes[i], marks[i]))
      || (v.shapes[i].meta.clusterId != Some(c) && i !in v.asks)
  }

  ghost predicate Inv(v: Canvas, c: ClusterId, marks: Marks) {
    && Sane(v) && Uniform(v.shapes, c) && Marked(v, c, marks) && marks.Keys <= v.used
    && (forall k | k in v.inFlight :: BatchOk(v.inFlight[k], v.shapes, c, marks))
  }

  // ---------- applying a batch ----------

  ghost predicate Akin(a: Shape, b: Shape, c: ClusterId) {
    && b.id == a.id && b.kind == a.kind && b.meta.sourceAnchor.Some? == a.meta.sourceAnchor.Some?
    && (b.meta.clusterId == Some(c) <==> a.meta.clusterId == Some(c))
  }

  lemma {:induction false} AppliedDomain(shapes: map<ShapeId, Shape>, updates: seq<Update>)
    ensures Applied(shapes, updates).Keys == shapes.Keys
  {
    if updates != [] {
      AppliedDomain(shapes, updates[..|updates| - 1]);
    }
  }

  lemma {:induction false} AppliedUntouched(shapes: map<ShapeId, Shape>, updates: seq<Update>, i: ShapeId)
    requires i in shapes && !Touches(updates, i)
    ensures i in Applied(shapes, updates) && Applied(shapes, updates)[i] == shapes[i]
  {
    if updates != [] {
      var before, u := updates[..|updates| - 1], updates[|updates| - 1];
      assert updates == before + [u] && u in updates;
      AppliedDomain(shapes, before);
      assert forall w | w in before :: w in updates;
      AppliedUntouched(shapes, before, i);
    }
  }

  lemma PatchedKin(s: Shape, t: Shape, u: Update, c: ClusterId)
    requires Kin(u, s, c) && Akin(s, t, c)
    ensures Akin(s, Patched(t, u), c)
  {
  }

  lemma {:induction false} AppliedKin(shapes: map<ShapeId, Shape>, updates: seq<Update>, c: ClusterId, i: ShapeId)
    requires i in shapes && forall u | u in updates && u.id == i :: Kin(u, shapes[i], c)
    ensures i in Applied(shapes, updates) && Akin(shapes[i], Applied(shapes, updates)[i], c)
  {
    hide Kin, Akin, Patched;
    if updates != [] {
      var before, u := updates[..|updates| - 1], updates[|updates| - 1];
      assert updates == before + [u] && u in updates;
      AppliedDomain(shapes, before);
      AppliedKin(shapes, before, c, i);
      if u.id == i {
        PatchedKin(shapes[i], Applied(shapes, before)[i], u, c);
      }
    } else {
      AkinSelf(shapes[i], c);
    }
  }

  lemma AkinSelf(s: Shape, c: ClusterId)
    ensures Akin(s, s, c)
  {
  }

  /** A moving update puts a shape at its level, whatever was done to it before. */
  ghost predicate Placed(s: Shape, updates: seq<Update>, i: ShapeId, level: real) {
    && s.meta.sourceAnchor.Some? && s.meta.sourceAnchor.value.Anchored?
    && s.meta.anchorCanvasX.Some? && s.meta.anchorCanvasY == Some(level)
    && exists u :: u in updates && u.id == i && u.place == Some((s.x, s.y))
  }

  lemma PatchedPlaced(s: Shape, updates: seq<Update>, u: Update, level: real)
    requires u in updates && Moves(u, level)
    ensures Placed(Patched(s, u), updates, u.id, level)
  {
  }

  lemma PlacedLater(s: Shape, before: seq<Update>, updates: seq<Update>, i: ShapeId, level: real)
    requires Placed(s, before, i, level) && forall u | u in before :: u in updates
    ensures Placed(s, updates, i, level)
  {
  }

  /** A shape all of whose updates move it to one level ends anchored there, where the last of them put it. */
  lemma {:induction false} AppliedMoves(shapes: map<ShapeId, Shape>, updates: seq<Update>, i: ShapeId, level: real)
    requires i in shapes && Touches(updates, i)
    requires forall u | u in updates && u.id == i :: Moves(u, level)
    ensures i in Applied(shapes, updates) && Placed(Applied(shapes, updates)[i], updates, i, level)
  {
    hide Moves, Placed, Patched;
    var before, u := updates[..|updates| - 1], updates[|updates| - 1];
    assert updates == before + [u] && u in updates;
    AppliedDomain(shapes, before);
    if u.id == i {
      PatchedPlaced(Applied(shapes, before)[i], updates, u, level);
    } else {
      var w :| w in updates && w.id == i;
      assert w in before;
      AppliedMoves(shapes, before, i, level);
      PlacedLater(Applied(shapes, before)[i], before, updates, i, level);
    }
  }

  /** A shape all of whose updates take its anchor loses it and stays where it is. */
  lemma {:induction false} AppliedLoses(shapes: map<ShapeId, Shape>, updates: seq<Update>, i: ShapeId)
    requires i in shapes
    requires forall u | u in updates && u.id == i :: Loses(u)
    ensures i in Applied(shapes, updates)
    ensures var s := Applied(shapes, updates)[i];
            && s.x == shapes[i].x && s.y == shapes[i].y
            && (Touches(updates, i) ==> s.meta.sourceAnchor.Some? && s.meta.sourceAnchor.value.Unanchored?)
  {
    if updates != [] {
      var before, u := updates[..|updates| - 1], updates[|updates| - 1];
      assert updates == before + [u];
      AppliedDomain(shapes, before);
      AppliedLoses(shapes, before, i);
      assert u in updates;
      if Touches(updates, i) && u.id != i {
        var w :| w in updates && w.id == i;
        assert w in before;
      }
    }
  }

  /** A batch takes no shape into the cluster and none out of it. */
  lemma AppliedMembers(shapes: map<ShapeId, Shape>, updates: seq<Update>, c: ClusterId)
    requires AllKin(updates, shapes, c)
    ensures Applied(shapes, updates).Keys == shapes.Keys
    ensures forall i | i in shapes :: Akin(shapes[i], Applied(shapes, updates)[i], c)
    ensures forall i | i in shapes :: Member(Applied(shapes, updates)[i], c) <==> Member(shapes[i], c)
  {
    AppliedDomain(shapes, updates);
    forall i | i in shapes ensures Akin(shapes[i], Applied(shapes, updates)[i], c) {
      AppliedKin(shapes, updates, c, i);
    }
  }

  /** Applying such a batch, however late, keeps the cluster at one place and its marked shapes in theirs. */
  lemma ApplyUniform(v: Canvas, updates: seq<Update>, c: ClusterId, marks: Marks)
    requires Uniform(v.shapes, c) && BatchOk(updates, v.shapes, c, marks) && Marked(v, c, marks)
    ensures Uniform(Applied(v.shapes, updates), c)
    ensures Marked(v.(shapes := Applied(v.shapes, updates)), c, marks)
  {
    var after := Applied(v.shapes, updates);
    AppliedMembers(v.shapes, updates, c);
    if NoneMoves(updates, v.shapes, c) {
      forall i | i in v.shapes && Member(v.shapes[i], c) ensures after[i] == v.shapes[i] {
        AppliedUntouched(v.shapes, updates, i);
      }
    } else if AllLose(updates, v.shapes, c) {
      forall i | i in v.shapes && Member(v.shapes[i], c) ensures !IsAnchored(after[i]) && after[i].x == v.shapes[i].x {
        AppliedLoses(v.shapes, updates, i);
      }
    } else {
      var level :| AllMove(updates, v.shapes, c, marks, level);
      forall i | i in v.shapes && Member(v.shapes[i], c)
        ensures IsAnchored(after[i]) && after[i].meta.anchorCanvasX.Some? && after[i].meta.anchorCanvasY == Some(level)
        ensures i in marks ==> InPlace(after[i], marks[i])
      {
        AppliedMoves(v.shapes, updates, i, level);
      }
    }
  }

  // ---------- a batch over the changes that come before it is applied ----------

  /** A batch stays what it is while members only go. */
  lemma BatchStays(updates: seq<Update>, shapes: map<ShapeId, Shape>, later: map<ShapeId, Shape>, c: ClusterId, marks: Marks)
    requires BatchOk(updates, shapes, c, marks) && AllKin(updates, later, c)
    requires forall i | i in later && Member(later[i], c) :: i in shapes && Member(shapes[i], c)
    ensures BatchOk(updates, later, c, marks)
  {
    hide Member, Kin, Touches, MovesMarked, Loses;
    if NoneMoves(updates, shapes, c) {
      assert NoneMoves(updates, later, c);
    } else if AllLose(updates, shapes, c) {
      assert AllLose(updates, later, c);
    } else {
      var level :| AllMove(updates, shapes, c, marks, level);
      assert AllMove(updates, later, c, marks, level);
    }
  }

  /** A batch that holds no member leaves the cluster alone. */
  lemma BatchQuiet(updates: seq<Update>, later: map<ShapeId, Shape>, c: ClusterId, marks: Marks)
    requires AllKin(updates, later, c) && NoneMoves(updates, later, c)
    ensures BatchOk(updates, later, c, marks)
  {
  }

  /** The shape goes on being one of the cluster, or not, and does not lose its anchor record. */
  ghost predicate KeepsKin(a: Shape, b: Shape, c: ClusterId) {
    (a.meta.sourceAnchor.Some? ==> b.meta.sourceAnchor.Some?) && (b.meta.clusterId == Some(c) <==> a.meta.clusterId == Some(c))
  }

  lemma KinStays(updates: seq<Update>, shapes: map<ShapeId, Shape>, later: map<ShapeId, Shape>, c: ClusterId)
    requires AllKin(updates, shapes, c)
    requires forall i | i in later :: !Touches(updates, i) || (i in shapes && KeepsKin(shapes[i], later[i], c))
    ensures AllKin(updates, later, c)
  {
    forall u | u in updates && u.id in later ensures Kin(u, later[u.id], c) {
      assert Touches(updates, u.id);
    }
  }

  lemma ApplyKept(v: Canvas, k: nat, c: ClusterId, marks: Marks)
    requires Inv(v, c, marks) && k in v.inFlight
    ensures Inv(Next(v, Apply(k)), c, marks)
  {
    var w := Next(v, Apply(k));
    ApplyUniform(v, v.inFlight[k], c, marks);
    AppliedMembers(v.shapes, v.inFlight[k], c);
    hide Member, Uniform, InPlace;
    forall j | j in w.inFlight ensures BatchOk(w.inFlight[j], w.shapes, c, marks) {
      KinStays(v.inFlight[j], v.shapes, w.shapes, c);
      BatchStays(v.inFlight[j], v.shapes, w.shapes, c, marks);
    }
  }

  lemma SameUniform(shapes: map<ShapeId, Shape>, later: map<ShapeId, Shape>, c: ClusterId)
    requires Uniform(shapes, c)
    requires forall i | i in later :: i in shapes && later[i].meta == shapes[i].meta && later[i].kind == shapes[i].kind
    ensures Uniform(later, c)
  {
    forall i, j | i in later && j in later && Member(later[i], c) && Member(later[j], c) ensures Together(later[i], later[j]) {
      assert Together(shapes[i], shapes[j]);
    }
  }

  lemma DragKept(v: Canvas, e: Event, c: ClusterId, marks: Marks)
    requires Inv(v, c, marks) && e.Drag? && e.id in v.shapes && e.id !in marks
    ensures Inv(Next(v, e), c, marks)
  {
    var w := Next(v, e);
    hide BatchOk, InPlace, Uniform;
    SameUniform(v.shapes, w.shapes, c);
    forall j | j in w.inFlight ensures BatchOk(w.inFlight[j], w.shapes, c, marks) {
      SameKinds(v.inFlight[j], v.shapes, w.shapes, c, marks);
    }
  }

  /** Changes that leave every shape's kind and record as they are, or take shapes away. */
  lemma SameKinds(updates: seq<Update>, shapes: map<ShapeId, Shape>, later: map<ShapeId, Shape>, c: ClusterId, marks: Marks)
    requires BatchOk(updates, shapes, c, marks)
    requires forall i | i in later :: i in shapes && later[i].meta == shapes[i].meta && later[i].kind == shapes[i].kind && later[i].id == shapes[i].id
    ensures BatchOk(updates, later, c, marks)
  {
    KinStays(updates, shapes, later, c);
    BatchStays(updates, shapes, later, c, marks);
  }

  lemma DeleteKept(v: Canvas, i: ShapeId, c: ClusterId, marks: Marks)
    requires Inv(v, c, marks)
    ensures Inv(Next(v, Delete(i)), c, marks)
  {
    var w := Next(v, Delete(i));
    SameUniform(v.shapes, w.shapes, c);
    hide BatchOk, InPlace, Uniform;
    forall j | j in w.inFlight ensures BatchOk(w.inFlight[j], w.shapes, c, marks) {
      SameKinds(v.inFlight[j], v.shapes, w.shapes, c, marks);
    }
  }

  /** The canvas with one more shape. */
  function With(v: Canvas, s: Shape): Canvas {
    v.(shapes := v.shapes[s.id := s], used := v.used + {s.id})
  }

  lemma AddUniform(v: Canvas, s: Shape, c: ClusterId)
    requires Uniform(v.shapes, c) && Fits(v, c, s) && s.id !in v.shapes
    ensures Uniform(v.shapes[s.id := s], c)
  {
    var later := v.shapes[s.id := s];
    forall i, j | i in later && j in later && Member(later[i], c) && Member(later[j], c)
      ensures Together(later[i], later[j])
    {
      if j == s.id && i != s.id {
        assert Together(s, v.shapes[i]) && Together(v.shapes[i], v.shapes[i]);
      }
    }
  }

  lemma AddBatch(v: Canvas, k: nat, s: Shape, c: ClusterId, marks: Marks)
    requires Sane(v) && k in v.inFlight && BatchOk(v.inFlight[k], v.shapes, c, marks) && Fits(v, c, s) && s.id !in v.used
    ensures BatchOk(v.inFlight[k], v.shapes[s.id := s], c, marks)
  {
    var updates, later := v.inFlight[k], v.shapes[s.id := s];
    assert !Touches(updates, s.id);
    KinStays(updates, v.shapes, later, c);
    if Member(s, c) {
      forall i | i in later && Member(later[i], c) ensures !Touches(updates, i) {
        assert i in v.shapes ==> !Held(v, i);
      }
      BatchQuiet(updates, later, c, marks);
    } else {
      BatchStays(updates, v.shapes, later, c, marks);
    }
  }

  lemma AddKept(v: Canvas, s: Shape, c: ClusterId, marks: Marks)
    requires Inv(v, c, marks) && Fits(v, c, s) && s.id !in v.used
    ensures Inv(With(v, s), c, marks)
  {
    AddUniform(v, s, c);
    hide BatchOk, InPlace, Uniform, Fits, Member;
    var w := With(v, s);
    forall k | k in w.inFlight ensures BatchOk(w.inFlight[k], w.shapes, c, marks) {
      AddBatch(v, k, s, c, marks);
    }
  }

  /** What an opening does to the shapes: one of them changes its record, if it is still there. */
  lemma OpenShapes(v: Canvas, id: ShapeId, anchor: SourceAnchor)
    requires id in v.asks && v.asks[id].shape.id == id
    ensures var w, c := Next(v, Open(id, Some(anchor))), NewCluster(v, id);
            && w.shapes.Keys == v.shapes.Keys && (forall i | i in v.shapes && i != id :: w.shapes[i] == v.shapes[i])
            && (id in v.shapes ==>
                  && w.shapes[id].id == v.shapes[id].id && w.shapes[id].kind == v.shapes[id].kind
                  && w.shapes[id].x == v.shapes[id].x && w.shapes[id].y == v.shapes[id].y
                  && w.shapes[id].meta.clusterId == Some(c) && w.shapes[id].meta.sourceAnchor == Some(anchor)
                  && w.shapes[id].meta.anchorCanvasX.Some? && w.shapes[id].meta.anchorCanvasY.Some?)
  {
    OneUpdate(v.shapes, Opening(v.asks[id], anchor, NewCluster(v, id)));
  }

  lemma OpenBatch(v: Canvas, e: Event, k: nat, c: ClusterId, marks: Marks)
    requires Sane(v) && e.Open? && e.anchor.Some? && Enabled(v, e) && GoodFor(v, e, c)
    requires k in v.inFlight && BatchOk(v.inFlight[k], v.shapes, c, marks)
    ensures BatchOk(v.inFlight[k], Next(v, e).shapes, c, marks)
  {
    var updates, w, id := v.inFlight[k], Next(v, e), e.id;
    OpenShapes(v, id, e.anchor.value);
    assert Touches(updates, id) ==> Held(v, id);
    KinStays(updates, v.shapes, w.shapes, c);
    if id in v.shapes && NewCluster(v, id) == c {
      forall i | i in w.shapes && Member(w.shapes[i], c) ensures !Touches(updates, i) {
        assert i != id ==> v.shapes[i].meta.clusterId != Some(c);
      }
      BatchQuiet(updates, w.shapes, c, marks);
    } else {
      BatchStays(updates, v.shapes, w.shapes, c, marks);
    }
  }

  lemma OpenUniform(v: Canvas, e: Event, c: ClusterId, marks: Marks)
    requires Inv(v, c, marks) && e.Open? && e.anchor.Some? && Enabled(v, e) && GoodFor(v, e, c)
    ensures Uniform(Next(v, e).shapes, c) && Marked(Next(v, e), c, marks)
  {
    var id, w := e.id, Next(v, e);
    OpenShapes(v, id, e.anchor.value);
    OneUpdate(v.shapes, Opening(v.asks[id], e.anchor.value, NewCluster(v, id)));
    if id in v.shapes {
      OpenKeeps(v.shapes, c, v.asks[id], e.anchor.value, NewCluster(v, id));
    }
    hide Uniform;
    forall i | i in marks && i in w.shapes
      ensures (Member(w.shapes[i], c) && InPlace(w.shapes[i], marks[i])) || (w.shapes[i].meta.clusterId != Some(c) && i !in w.asks)
    {
    }
  }

  lemma OpenKept(v: Canvas, e: Event, c: ClusterId, marks: Marks)
    requires Inv(v, c, marks) && e.Open? && Enabled(v, e) && GoodFor(v, e, c)
    ensures Inv(Next(v, e), c, marks)
  {
    var w := Next(v, e);
    if e.anchor.Some? {
      OpenShapes(v, e.id, e.anchor.value);
      OpenUniform(v, e, c, marks);
      hide BatchOk, InPlace, Uniform, Member, GoodFor;
      forall k | k in w.inFlight ensures BatchOk(w.inFlight[k], w.shapes, c, marks) {
        OpenBatch(v, e, k, c, marks);
      }
    }
  }

  // ---------- what a snapshot works out ----------

  /** An update in a snapshot is what was expected of its shape. */
  lemma ExpectedId(page: seq<Shape>, s: Shape, solo: SoloResolver, cluster: ClusterResolver, u: Update)
    requires Expected(page, s, solo, cluster) == Some(u)
    ensures u.id == s.id
  {
  }

  lemma UpdateExpected(v: Canvas, e: Event, u: Update)
    requires e.Snapshot? && Enabled(v, e) && u in e.updates
    ensures u.id in v.shapes && Expected(e.page, v.shapes[u.id], e.solo, e.cluster) == Some(u)
  {
    hide Expected;
    var s :| s in e.page && Expected(e.page, s, e.solo, e.cluster) == Some(u);
    ExpectedId(e.page, s, e.solo, e.cluster, u);
    assert v.shapes[s.id] == s;
  }

  lemma ExpectedKin(page: seq<Shape>, s: Shape, solo: SoloResolver, cluster: ClusterResolver, c: ClusterId)
    ensures var u := Expected(page, s, solo, cluster); u.Some? ==> u.value.id == s.id && Kin(u.value, s, c)
  {
  }

  lemma SnapshotKin(v: Canvas, e: Event, c: ClusterId)
    requires e.Snapshot? && Enabled(v, e)
    ensures AllKin(e.updates, v.shapes, c)
    ensures forall u | u in e.updates :: u.id in v.shapes
  {
    hide Expected, Kin, Enabled;
    forall u | u in e.updates ensures u.id in v.shapes && Kin(u, v.shapes[u.id], c) {
      UpdateExpected(v, e, u);
      ExpectedKin(e.page, v.shapes[u.id], e.solo, e.cluster, c);
    }
  }

  /** Updates of a member come from its cluster. */
  lemma MemberExpected(v: Canvas, e: Event, c: ClusterId, members: seq<Shape>, i: ShapeId)
    requires e.Snapshot? && Enabled(v, e) && members == MembersOf(e.page, c) && Uniform(v.shapes, c)
    requires i in v.shapes && Member(v.shapes[i], c)
    ensures Expected(e.page, v.shapes[i], e.solo, e.cluster)
         == if members == [] then None else ClusterUpdate(members[0], v.shapes[i], e.cluster(c))
    ensures Touches(e.updates, i) <==> Expected(e.page, v.shapes[i], e.solo, e.cluster).Some?
    ensures members != [] ==>
      && IsAnchored(v.shapes[i]) && InCluster(members[0], c) && Together(v.shapes[i], members[0]) && Together(members[0], v.shapes[i])
  {
    MembersMeaning(e.page, c);
    if members != [] {
      assert members[0] in members && members[0].id in v.shapes && v.shapes[members[0].id] == members[0];
      assert Together(v.shapes[i], v.shapes[members[0].id]) && Together(v.shapes[members[0].id], v.shapes[i]);
    } else {
      assert !IsAnchored(v.shapes[i]);
    }
    var expected := Expected(e.page, v.shapes[i], e.solo, e.cluster);
    if expected.Some? {
      assert expected.value in e.updates && expected.value.id == i;
    }
  }

  /** A found anchor moves an anchored shape of the cluster onto it, unless the anchor is less than a unit away. */
  lemma ClusterMoved(first: Shape, s: Shape, found: Resolution)
    requires found.Found? && IsAnchored(s)
    requires first.meta.anchorCanvasX.Some? && first.meta.anchorCanvasY.Some? && s.meta.anchorCanvasY == first.meta.anchorCanvasY
    ensures var u := ClusterUpdate(first, s, found);
            && (u.Some? <==> Abs(found.canvasY - first.meta.anchorCanvasY.value) >= 1.0)
            && (u.Some? ==> u.value.id == s.id && Moves(u.value, found.canvasY)
                            && u.value.place == Some((s.x, found.canvasY + (s.y - s.meta.anchorCanvasY.value))))
  {
  }

  /** What an update of this member is, once the cluster's anchor is found. */
  lemma MemberMoves(v: Canvas, e: Event, c: ClusterId, members: seq<Shape>, i: ShapeId)
    requires e.Snapshot? && Enabled(v, e) && members == MembersOf(e.page, c) && members != [] && Uniform(v.shapes, c)
    requires e.cluster(c).Found?
    requires i in v.shapes && Member(v.shapes[i], c)
    ensures IsAnchored(v.shapes[i]) && v.shapes[i].meta.anchorCanvasY.Some? && members[0].meta.anchorCanvasY.Some?
    ensures Touches(e.updates, i) <==> Abs(e.cluster(c).canvasY - members[0].meta.anchorCanvasY.value) >= 1.0
    ensures v.shapes[i].meta.anchorCanvasY == members[0].meta.anchorCanvasY
    ensures var moved := Expected(e.page, v.shapes[i], e.solo, e.cluster);
            moved.Some? ==> Moves(moved.value, e.cluster(c).canvasY)
                            && moved.value.place == Some((v.shapes[i].x, e.cluster(c).canvasY + (v.shapes[i].y - v.shapes[i].meta.anchorCanvasY.value)))
  {
    hide Enabled, MembersOf, Uniform, Expected, ClusterUpdate, Moves, Touches;
    MemberExpected(v, e, c, members, i);
    ClusterMoved(members[0], v.shapes[i], e.cluster(c));
  }

  lemma NobodyMoves(v: Canvas, e: Event, c: ClusterId, members: seq<Shape>)
    requires e.Snapshot? && Enabled(v, e) && members == MembersOf(e.page, c) && Uniform(v.shapes, c)
    requires members == [] || e.cluster(c).Threw? || e.cluster(c).Nothing?
    ensures NoneMoves(e.updates, v.shapes, c)
  {
    forall i | i in v.shapes && Member(v.shapes[i], c) ensures !Touches(e.updates, i) {
      MemberExpected(v, e, c, members, i);
    }
  }

  lemma EverybodyLoses(v: Canvas, e: Event, c: ClusterId, members: seq<Shape>)
    requires e.Snapshot? && Enabled(v, e) && members == MembersOf(e.page, c) && Uniform(v.shapes, c) && members != []
    requires e.cluster(c).Lost?
    ensures AllLose(e.updates, v.shapes, c)
  {
    forall i | i in v.shapes && Member(v.shapes[i], c)
      ensures Touches(e.updates, i) && forall u | u in e.updates && u.id == i :: Loses(u)
    {
      MemberExpected(v, e, c, members, i);
      forall u | u in e.updates && u.id == i ensures Loses(u) {
        UpdateExpected(v, e, u);
      }
    }
  }

  lemma EverybodyMoves(v: Canvas, e: Event, c: ClusterId, marks: Marks, members: seq<Shape>)
    requires e.Snapshot? && Enabled(v, e) && members == MembersOf(e.page, c) && members != [] && Uniform(v.shapes, c)
    requires Marked(v, c, marks) && e.cluster(c).Found?
    ensures NoneMoves(e.updates, v.shapes, c) || AllMove(e.updates, v.shapes, c, marks, e.cluster(c).canvasY)
  {
    hide Enabled, Expected, MembersOf, Uniform, Moves, Touches, IsAnchored;
    var level := e.cluster(c).canvasY;
    var first := members[0].meta.anchorCanvasY;
    forall i | i in v.shapes && Member(v.shapes[i], c)
      ensures first.Some? && (Touches(e.updates, i) <==> Abs(level - first.value) >= 1.0)
    {
      MemberMoves(v, e, c, members, i);
    }
    forall u | u in e.updates && u.id in v.shapes && Member(v.shapes[u.id], c) ensures MovesMarked(u, level, marks) {
      UpdateExpected(v, e, u);
      MemberMoves(v, e, c, members, u.id);
    }
  }

  /** What a snapshot works out for a uniform cluster: all of it moves to one level, loses its anchor,
      or is left alone. */
  lemma SnapshotBatch(v: Canvas, e: Event, c: ClusterId, marks: Marks)
    requires Uniform(v.shapes, c) && Marked(v, c, marks) && e.Snapshot? && Enabled(v, e)
    ensures BatchOk(e.updates, v.shapes, c, marks)
    ensures forall u | u in e.updates :: u.id in v.shapes
  {
    hide Enabled, Uniform, Marked, NoneMoves, AllLose, AllMove, AllKin, MembersOf;
    var members := MembersOf(e.page, c);
    SnapshotKin(v, e, c);
    if members == [] || e.cluster(c).Threw? || e.cluster(c).Nothing? {
      NobodyMoves(v, e, c, members);
    } else if e.cluster(c).Lost? {
      EverybodyLoses(v, e, c, members);
    } else {
      EverybodyMoves(v, e, c, marks, members);
    }
  }

  lemma SnapshotKept(v: Canvas, e: Event, c: ClusterId, marks: Marks)
    requires Inv(v, c, marks) && e.Snapshot? && Enabled(v, e)
    ensures Inv(Next(v, e), c, marks)
  {
    SnapshotBatch(v, e, c, marks);
    hide Enabled, Uniform, BatchOk;
  }

  // ---------- every run ----------

  lemma StepKept(v: Canvas, e: Event, c: ClusterId, marks: Marks)
    requires Inv(v, c, marks) && Enabled(v, e) && GoodFor(v, e, c) && (e.Drag? ==> e.id !in marks)
    ensures Inv(Next(v, e), c, marks)
  {
    hide Inv;
    match e
    case Snapshot(_, _, _, _, _) => SnapshotKept(v, e, c, marks);
    case Apply(k) => ApplyKept(v, k, c, marks);
    case Drag(_, _, _) => DragKept(v, e, c, marks);
    case Delete(i) => DeleteKept(v, i, c, marks);
    case Create(s) => AddKept(v, s, c, marks);
    case Join(s, now, _) => JoinKept(v, e, c, marks);
    case Ask(s, now, _) => AskKept(v, e, c, marks);
    case Open(_, _) => OpenKept(v, e, c, marks);
  }

  lemma JoinKept(v: Canvas, e: Event, c: ClusterId, marks: Marks)
    requires Inv(v, c, marks) && e.Join? && Enabled(v, e) && GoodFor(v, e, c)
    ensures Inv(Next(v, e), c, marks)
  {
    var s := Joined(v, e.shape);
    assert s.id == e.shape.id;
    AddKept(v, s, c, marks);
    hide Uniform, BatchOk, InPlace, Member, Joined;
  }

  lemma AskKept(v: Canvas, e: Event, c: ClusterId, marks: Marks)
    requires Inv(v, c, marks) && e.Ask? && Enabled(v, e) && GoodFor(v, e, c)
    ensures Inv(Next(v, e), c, marks)
  {
    AddKept(v, e.shape, c, marks);
    assert e.shape.id !in marks;
    hide Uniform, BatchOk, InPlace, Member;
  }

  lemma {:induction false} RunKept(v: Canvas, events: seq<Event>, c: ClusterId, marks: Marks)
    requires Inv(v, c, marks) && After(v, events).Some? && AllGood(v, events, c)
    requires forall i | 0 <= i < |events| && events[i].Drag? :: events[i].id !in marks
    ensures Inv(After(v, events).value, c, marks)
  {
    hide Inv, GoodFor, Enabled, Next;
    if events != [] {
      RunKept(v, events[..|events| - 1], c, marks);
      StepKept(After(v, events[..|events| - 1]).value, events[|events| - 1], c, marks);
    }
  }

  lemma EmptyInv(c: ClusterId)
    ensures Inv(EMPTY, c, map[])
  {
  }

  /** From an empty canvas, whatever is drawn, dragged, deleted, opened and remapped, in whatever overlap: a cluster
      into which nothing came that did not fit is in one piece in every state. */
  lemma ReachableUniform(events: seq<Event>, c: ClusterId)
    requires After(EMPTY, events).Some? && AllGood(EMPTY, events, c)
    ensures Uniform(After(EMPTY, events).value.shapes, c)
  {
    EmptyInv(c);
    RunKept(EMPTY, events, c, map[]);
  }

  /** Rigid motion, with nothing taken for granted: from an empty canvas, in a cluster into which nothing came that did
      not fit, a shape that no remap in flight holds (as when it just came in) and nobody drags from then on
      keeps its x, and while it is of the cluster and anchored its distance below the anchor. */
  lemma Rigid(before: seq<Event>, events: seq<Event>, c: ClusterId, id: ShapeId)
    requires After(EMPTY, before).Some? && AllGood(EMPTY, before, c)
    requires var v := After(EMPTY, before).value;
             && id in v.shapes && InCluster(v.shapes[id], c) && !Held(v, id)
             && After(v, events).Some? && AllGood(v, events, c) && id in After(v, events).value.shapes
    requires forall i | 0 <= i < |events| && events[i].Drag? :: events[i].id != id
    ensures var was, now := After(EMPTY, before).value.shapes[id], After(After(EMPTY, before).value, events).value.shapes[id];
            && was.meta.anchorCanvasY.Some?
            && (Member(now, c) ==> now.x == was.x)
            && (InCluster(now, c) ==>
                  && now.meta.anchorCanvasY.Some?
                  && now.y - now.meta.anchorCanvasY.value == was.y - was.meta.anchorCanvasY.value)
  {
    var v := After(EMPTY, before).value;
    EmptyInv(c);
    RunKept(EMPTY, before, c, map[]);
    assert Together(v.shapes[id], v.shapes[id]);
    var marks: Marks := map[id := (v.shapes[id].x, v.shapes[id].y - v.shapes[id].meta.anchorCanvasY.value)];
    MarkOne(v, c, id, marks);
    hide Inv, AllGood, Enabled, Next;
    RunKept(v, events, c, marks);
    InvMark(After(v, events).value, c, marks, id);
  }

  lemma InvMark(v: Canvas, c: ClusterId, marks: Marks, id: ShapeId)
    requires Inv(v, c, marks) && id in v.shapes && id in marks
    ensures Member(v.shapes[id], c) ==> InPlace(v.shapes[id], marks[id])
  {
  }

  /** A shape that no remap in flight holds can be watched from now on. */
  lemma MarkOne(v: Canvas, c: ClusterId, id: ShapeId, marks: Marks)
    requires Inv(v, c, map[]) && id in v.shapes && Member(v.shapes[id], c) && !Held(v, id)
    requires marks.Keys == {id} && InPlace(v.shapes[id], marks[id])
    ensures Inv(v, c, marks)
  {
    forall k | k in v.inFlight ensures BatchOk(v.inFlight[k], v.shapes, c, marks) {
      assert BatchOk(v.inFlight[k], v.shapes, c, map[]);
      assert !Touches(v.inFlight[k], id);
      BatchQuiet(v.inFlight[k], v.shapes, c, marks);
    }
  }

  lemma MemberIsListed(v: Canvas, e: Event, c: ClusterId, i: ShapeId)
    requires e.Snapshot? && Enabled(v, e) && i in v.shapes && InCluster(v.shapes[i], c)
    ensures v.shapes[i] in MembersOf(e.page, c) && MembersOf(e.page, c) != [] && Member(v.shapes[i], c)
  {
    MembersMeaning(e.page, c);
  }

  lemma UpdatePlaces(v: Canvas, e: Event, c: ClusterId, members: seq<Shape>, i: ShapeId, u: Update)
    requires e.Snapshot? && Enabled(v, e) && members == MembersOf(e.page, c) && members != [] && Uniform(v.shapes, c)
    requires e.cluster(c).Found? && i in v.shapes && Member(v.shapes[i], c) && u in e.updates && u.id == i
    ensures v.shapes[i].meta.anchorCanvasY.Some? && Moves(u, e.cluster(c).canvasY)
    ensures u.place == Some((v.shapes[i].x, e.cluster(c).canvasY + (v.shapes[i].y - v.shapes[i].meta.anchorCanvasY.value)))
  {
    hide Enabled, Uniform, MembersOf, Expected, Moves, Touches;
    MemberMoves(v, e, c, members, i);
    UpdateExpected(v, e, u);
  }

  lemma SnapshotPlaces(v: Canvas, e: Event, c: ClusterId, i: ShapeId)
    requires e.Snapshot? && Enabled(v, e) && e.cluster(c).Found? && Uniform(v.shapes, c) && i in v.shapes && InCluster(v.shapes[i], c)
    ensures v.shapes[i].meta.anchorCanvasY.Some?
    ensures var s, level, was := v.shapes[i], e.cluster(c).canvasY, v.shapes[i].meta.anchorCanvasY.value;
      && (Touches(e.updates, i) <==> Abs(level - was) >= 1.0)
      && forall u | u in e.updates && u.id == i :: Moves(u, level) && u.place == Some((s.x, level + (s.y - was)))
  {
    var members := MembersOf(e.page, c);
    hide Enabled, Uniform, MembersOf, Member, Moves, Touches;
    MemberIsListed(v, e, c, i);
    MemberMoves(v, e, c, members, i);
    forall u | u in e.updates && u.id == i
      ensures Moves(u, e.cluster(c).canvasY)
      ensures u.place == Some((v.shapes[i].x, e.cluster(c).canvasY + (v.shapes[i].y - v.shapes[i].meta.anchorCanvasY.value)))
    {
      UpdatePlaces(v, e, c, members, i, u);
    }
  }

  lemma LandsAt(shapes: map<ShapeId, Shape>, updates: seq<Update>, i: ShapeId, level: real, x: real, y: real)
    requires i in shapes && Touches(updates, i)
    requires forall u | u in updates && u.id == i :: Moves(u, level) && u.place == Some((x, y))
    ensures i in Applied(shapes, updates) && Applied(shapes, updates)[i].x == x && Applied(shapes, updates)[i].y == y
  {
    hide Applied, Moves, Touches, Placed;
    AppliedMoves(shapes, updates, i, level);
    PlacedWhere(Applied(shapes, updates)[i], updates, i, level);
  }

  lemma AppliedNext(v: Canvas, k: nat)
    requires k in v.inFlight
    ensures Next(v, Apply(k)).shapes == Applied(v.shapes, v.inFlight[k])
  {
    hide Applied;
  }

  lemma EndsWithinAUnit(shapes: map<ShapeId, Shape>, updates: seq<Update>, i: ShapeId, level: real, was: real)
    requires i in shapes && (Touches(updates, i) <==> Abs(level - was) >= 1.0)
    requires forall u | u in updates && u.id == i :: Moves(u, level) && u.place == Some((shapes[i].x, level + (shapes[i].y - was)))
    ensures i in Applied(shapes, updates)
    ensures var s := Applied(shapes, updates)[i]; s.x == shapes[i].x && Abs(s.y - (level + (shapes[i].y - was))) < 1.0
  {
    if Touches(updates, i) {
      LandsAt(shapes, updates, i, level, shapes[i].x, level + (shapes[i].y - was));
    } else {
      AppliedUntouched(shapes, updates, i);
    }
  }

  /** No drift: when a remap of the cluster finds its anchor and nothing else touched the shape while the
      anchor was being resolved, the shape ends less than a unit from its exact place. */
  lemma WithinAUnit(v: Canvas, e: Event, w: Canvas, c: ClusterId, id: ShapeId)
    requires e.Snapshot? && Enabled(v, e) && e.cluster(c).Found? && Uniform(v.shapes, c)
    requires id in v.shapes && InCluster(v.shapes[id], c)
    requires e.k in w.inFlight && w.inFlight[e.k] == e.updates && id in w.shapes && w.shapes[id] == v.shapes[id]
    ensures id in Next(w, Apply(e.k)).shapes && v.shapes[id].meta.anchorCanvasY.Some?
    ensures var s, below := Next(w, Apply(e.k)).shapes[id], v.shapes[id].y - v.shapes[id].meta.anchorCanvasY.value;
            s.x == v.shapes[id].x && Abs(s.y - (e.cluster(c).canvasY + below)) < 1.0
  {
    hide Enabled, Uniform, MembersOf, Applied, Member, Next, InCluster, Moves, Touches;
    SnapshotPlaces(v, e, c, id);
    AppliedNext(w, e.k);
    EndsWithinAUnit(w.shapes, e.updates, id, e.cluster(c).canvasY, v.shapes[id].meta.anchorCanvasY.value);
  }

  // ---------- from the stroke to its anchor ----------

  /** A stroke that waits for its anchor: it has none yet, it is where it was drawn, and no remap holds it. */
  ghost predicate Awaits(v: Canvas, shape: Shape, now: int, page: nat) {
    && shape.id in v.asks && v.asks[shape.id] == Asked(shape, now, page) && shape.id in v.used && !Held(v, shape.id)
    && (shape.id in v.shapes ==>
          var s := v.shapes[shape.id];
          s.x == shape.x && s.y == shape.y && s.kind == shape.kind && s.id == shape.id && s.meta.sourceAnchor.None?)
  }

  lemma AwaitsStill(v: Canvas, e: Event, shape: Shape, now: int, page: nat)
    requires Sane(v) && Awaits(v, shape, now, page) && Enabled(v, e)
    requires !(e.Drag? && e.id == shape.id) && !(e.Open? && e.id == shape.id)
    ensures Awaits(Next(v, e), shape, now, page)
  {
    match e {
      case Snapshot(k, _, _, _, updates) =>
        forall u | u in updates ensures u.id != shape.id {
          UpdateExpected(v, e, u);
        }
      case Apply(k) =>
        AppliedDomain(v.shapes, v.inFlight[k]);
        if shape.id in v.shapes {
          AppliedUntouched(v.shapes, v.inFlight[k], shape.id);
        }
      case Open(id, Some(anchor)) => OpenRecords(v, id, anchor);
      case _ =>
    }
  }

  lemma {:induction false} RunAwaits(v: Canvas, events: seq<Event>, shape: Shape, now: int, page: nat, c: ClusterId)
    requires Inv(v, c, map[]) && Awaits(v, shape, now, page) && After(v, events).Some? && AllGood(v, events, c)
    requires forall e | e in events :: !(e.Drag? && e.id == shape.id) && !(e.Open? && e.id == shape.id)
    ensures Awaits(After(v, events).value, shape, now, page)
  {
    if events != [] {
      var before, e := events[..|events| - 1], events[|events| - 1];
      assert e in events && forall x | x in before :: x in events;
      RunAwaits(v, before, shape, now, page, c);
      RunKept(v, before, c, map[]);
      AwaitsStill(After(v, before).value, e, shape, now, page);
    }
  }

  /** Where a stroke's run starts, and where its cluster opens.  `before` leads to the canvas it is drawn on and
      `mid` to the one its anchor arrives at. */
  ghost predicate DrawnAndOpened(before: seq<Event>, e: Event, mid: seq<Event>, anchor: SourceAnchor, c: ClusterId) {
    && After(EMPTY, before).Some? && AllGood(EMPTY, before, c)
    && var v := After(EMPTY, before).value;
    && e.Ask? && e.shape.meta.sourceAnchor.None? && Enabled(v, e) && GoodFor(v, e, c)
    && After(Next(v, e), mid).Some? && AllGood(Next(v, e), mid, c)
    && (forall x | x in mid :: !(x.Drag? && x.id == e.shape.id) && !(x.Open? && x.id == e.shape.id))
    && var w, open := After(Next(v, e), mid).value, Open(e.shape.id, Some(anchor));
    && e.shape.id in w.shapes && e.shape.id in w.asks && anchor.Anchored? && c == NewCluster(w, e.shape.id) && GoodFor(w, open, c)
  }

  ghost function OpenedAt(before: seq<Event>, e: Event, mid: seq<Event>, anchor: SourceAnchor, c: ClusterId): Canvas
    requires DrawnAndOpened(before, e, mid, anchor, c)
  {
    Next(After(Next(After(EMPTY, before).value, e), mid).value, Open(e.shape.id, Some(anchor)))
  }

  lemma OpenedAtItsPlace(before: seq<Event>, e: Event, mid: seq<Event>, anchor: SourceAnchor, c: ClusterId)
    requires DrawnAndOpened(before, e, mid, anchor, c)
    ensures var v := OpenedAt(before, e, mid, anchor, c);
      && Inv(v, c, map[]) && e.shape.id in v.shapes && !Held(v, e.shape.id)
      && var s := v.shapes[e.shape.id];
      && InCluster(s, c) && s.x == e.shape.x && s.y == e.shape.y && s.meta.anchorCanvasY == Some(e.shape.y)
  {
    hide Inv, AllGood, GoodFor, Next, After, Awaits, InCluster, Held;
    var u := After(EMPTY, before).value;
    EmptyInv(c);
    RunKept(EMPTY, before, c, map[]);
    assert e.shape.kind in ANCHORABLE_TYPES;
    StepKept(u, e, c, map[]);
    AskAwaits(u, e, c);
    hide Enabled;
    var v := Next(u, e);
    RunAwaits(v, mid, e.shape, e.now, e.onPage, c);
    RunKept(v, mid, c, map[]);
    var w := After(v, mid).value;
    StepKept(w, Open(e.shape.id, Some(anchor)), c, map[]);
    OpensWhereDrawn(w, e.shape, e.now, e.onPage, anchor);
  }

  lemma OpensWhereDrawn(v: Canvas, shape: Shape, now: int, page: nat, anchor: SourceAnchor)
    requires Awaits(v, shape, now, page) && shape.id in v.shapes && shape.kind in ANCHORABLE_TYPES && anchor.Anchored?
    ensures var w, c := Next(v, Open(shape.id, Some(anchor))), NewCluster(v, shape.id);
      && shape.id in w.shapes && !Held(w, shape.id)
      && var s := w.shapes[shape.id];
      && InCluster(s, c) && s.x == shape.x && s.y == shape.y && s.meta.anchorCanvasY == Some(shape.y)
  {
    OpenRecords(v, shape.id, anchor);
  }

  lemma AskAwaits(v: Canvas, e: Event, c: ClusterId)
    requires Inv(v, c, map[]) && e.Ask? && Enabled(v, e) && e.shape.meta.sourceAnchor.None?
    ensures Awaits(Next(v, e), e.shape, e.now, e.onPage)
  {
  }

  /** A stroke drawn, anchored where it was drawn and never dragged stays on its anchor: as long as it is anchored its
      y is its anchor's canvas y, whatever remaps, overlapping or not, have moved it. */
  lemma StaysOnItsAnchor(before: seq<Event>, e: Event, mid: seq<Event>, anchor: SourceAnchor, c: ClusterId, events: seq<Event>)
    requires DrawnAndOpened(before, e, mid, anchor, c)
    requires var v := OpenedAt(before, e, mid, anchor, c);
      After(v, events).Some? && AllGood(v, events, c) && e.shape.id in After(v, events).value.shapes
    requires forall x | x in events :: !(x.Drag? && x.id == e.shape.id)
    ensures var z := After(OpenedAt(before, e, mid, anchor, c), events).value; var s := z.shapes[e.shape.id];
      && Uniform(z.shapes, c) && (Member(s, c) ==> s.x == e.shape.x)
      && (InCluster(s, c) ==> s.meta.anchorCanvasY == Some(s.y))
  {
    var v, id := OpenedAt(before, e, mid, anchor, c), e.shape.id;
    OpenedAtItsPlace(before, e, mid, anchor, c);
    var marks: Marks := map[id := (e.shape.x, 0.0)];
    MarkOne(v, c, id, marks);
    hide DrawnAndOpened, OpenedAt, AllGood, Enabled, Next, After;
    RunKept(v, events, c, marks);
    InvMark(After(v, events).value, c, marks, id);
  }

  /** So when a remap finds its anchor, and nothing else touches it while the anchor is being resolved, it ends within a
      unit of where the anchor was found. */
  lemma EndsOnItsAnchor(before: seq<Event>, e: Event, mid: seq<Event>, anchor: SourceAnchor, c: ClusterId, events: seq<Event>,
                        remap: Event, w: Canvas)
    requires DrawnAndOpened(before, e, mid, anchor, c)
    requires var v := OpenedAt(before, e, mid, anchor, c);
      After(v, events).Some? && AllGood(v, events, c) && e.shape.id in After(v, events).value.shapes
    requires forall x | x in events :: !(x.Drag? && x.id == e.shape.id)
    requires var z := After(OpenedAt(before, e, mid, anchor, c), events).value;
      && InCluster(z.shapes[e.shape.id], c) && remap.Snapshot? && Enabled(z, remap) && remap.cluster(c).Found?
      && remap.k in w.inFlight && w.inFlight[remap.k] == remap.updates
      && e.shape.id in w.shapes && w.shapes[e.shape.id] == z.shapes[e.shape.id]
    ensures e.shape.id in Next(w, Apply(remap.k)).shapes
    ensures var s := Next(w, Apply(remap.k)).shapes[e.shape.id];
      s.x == e.shape.x && Abs(s.y - remap.cluster(c).canvasY) < 1.0
  {
    var z := After(OpenedAt(before, e, mid, anchor, c), events).value;
    StaysOnItsAnchor(before, e, mid, anchor, c, events);
    hide DrawnAndOpened, OpenedAt, AllGood, Enabled, Next, After, Uniform;
    WithinAUnit(z, remap, w, c, e.shape.id);
  }

  lemma PlacedWhere(s: Shape, updates: seq<Update>, i: ShapeId, level: real)
    requires Placed(s, updates, i, level)
    ensures exists u :: u in updates && u.id == i && u.place == Some((s.x, s.y))
  {
  }

  /** One cluster update keeps a shape's distance below the anchor exactly when the shape was recorded
      against the same anchor place as the first shape of the cluster. */
  lemma MoveConservesIff(first: Shape, s: Shape, found: Resolution)
    requires found.Found? && s.meta.anchorCanvasY.Some? && ClusterUpdate(first, s, found).Some?
    ensures var moved := Patched(s, ClusterUpdate(first, s, found).value);
            moved.meta.anchorCanvasY.Some?
            && (moved.y - moved.meta.anchorCanvasY.value == s.y - s.meta.anchorCanvasY.value
                <==> s.meta.anchorCanvasY == first.meta.anchorCanvasY)
  {
    var moved := Patched(s, ClusterUpdate(first, s, found).value);
    assert moved.y == s.y + (found.canvasY - first.meta.anchorCanvasY.value);
    assert moved.meta.anchorCanvasY == Some(found.canvasY);
  }

  /** A note on its own goes straight to its anchor, keeping its x. */
  lemma SoloWithinAUnit(v: Canvas, e: Event, w: Canvas, id: ShapeId)
    requires e.Snapshot? && Enabled(v, e) && id in v.shapes
    requires IsAnchored(v.shapes[id]) && !Clustered(v.shapes[id]) && e.solo(id).Found?
    requires e.k in w.inFlight && w.inFlight[e.k] == e.updates && id in w.shapes && w.shapes[id] == v.shapes[id]
    ensures id in Next(w, Apply(e.k)).shapes
    ensures var s := Next(w, Apply(e.k)).shapes[id];
            s.x == v.shapes[id].x && s.meta == v.shapes[id].meta && Abs(s.y - (e.solo(id).canvasY - 100.0)) <= 1.0
  {
    var expected := SoloUpdate(v.shapes[id], e.solo(id));
    forall u | u in e.updates && u.id == id ensures expected == Some(u) {
      UpdateExpected(v, e, u);
    }
    assert Expected(e.page, v.shapes[id], e.solo, e.cluster) == expected;
    if expected.Some? {
      assert expected.value in e.updates;
      AppliedOnce(w.shapes, e.updates, id, expected.value);
    } else {
      AppliedUntouched(w.shapes, e.updates, id);
    }
  }

  lemma {:induction false} AppliedOnce(shapes: map<ShapeId, Shape>, updates: seq<Update>, i: ShapeId, u: Update)
    requires i in shapes && u.id == i && u in updates && u.place.Some? && u.meta.None?
    requires forall w | w in updates && w.id == i :: w == u
    ensures i in Applied(shapes, updates) && Applied(shapes, updates)[i] == Patched(shapes[i], u)
  {
    var before, last := updates[..|updates| - 1], updates[|updates| - 1];
    assert updates == before + [last];
    AppliedDomain(shapes, before);
    assert last in updates;
    if u in before {
      AppliedOnce(shapes, before, i, u);
    } else {
      assert forall w | w in before :: w in updates;
      AppliedUntouched(shapes, before, i);
    }
  }

  // ---------- exactly when a shape may come in ----------

  /** Applied to a member recorded like this one, the update leaves it recorded like it. */
  ghost predicate LeavesAsIs(u: Update, m: Shape) {
    if IsAnchored(m) then m.meta.anchorCanvasY.Some? && Moves(u, m.meta.anchorCanvasY.value) else Loses(u)
  }

  /** Now, and after any one remap that is in flight. */
  ghost predicate WholeNowAndApplied(v: Canvas, c: ClusterId) {
    Uniform(v.shapes, c) && forall k | k in v.inFlight :: Uniform(Applied(v.shapes, v.inFlight[k]), c)
  }

  /** No remap in flight takes the members' anchor or moves them to another place than this member's. */
  ghost predicate PendingLeaveAsIs(v: Canvas, c: ClusterId, m: Shape) {
    forall k | k in v.inFlight :: PendingLeaves(v.inFlight[k], v.shapes, c, m)
  }

  ghost predicate PendingLeaves(updates: seq<Update>, shapes: map<ShapeId, Shape>, c: ClusterId, m: Shape) {
    forall u | u in updates && u.id in shapes && Member(shapes[u.id], c) :: LeavesAsIs(u, m)
  }

  lemma AddIsUniformIff(v: Canvas, c: ClusterId, m: ShapeId, s: Shape)
    requires Uniform(v.shapes, c) && m in v.shapes && Member(v.shapes[m], c)
    requires s.id !in v.shapes && Member(s, c) && Together(s, s)
    ensures Uniform(v.shapes[s.id := s], c) <==> Together(s, v.shapes[m])
  {
    var later := v.shapes[s.id := s];
    if Uniform(later, c) {
      assert Together(later[s.id], later[m]);
    }
    if Together(s, v.shapes[m]) {
      forall i, j | i in later && j in later && Member(later[i], c) && Member(later[j], c) ensures Together(later[i], later[j]) {
        assert i != s.id ==> Together(v.shapes[i], v.shapes[m]) && Together(v.shapes[m], v.shapes[i]);
        assert j != s.id ==> Together(v.shapes[j], v.shapes[m]) && Together(v.shapes[m], v.shapes[j]);
        assert Together(v.shapes[m], v.shapes[m]);
      }
    }
  }

  /** What one remap in flight does to the members, and to a shape that came in since. */
  lemma PendingOnMember(v: Canvas, k: nat, c: ClusterId, m: ShapeId, s: Shape)
    requires Inv(v, c, map[]) && k in v.inFlight && m in v.shapes && Member(v.shapes[m], c)
    requires s.id !in v.used && Member(s, c)
    ensures var later := Applied(v.shapes[s.id := s], v.inFlight[k]);
            && s.id in later && later[s.id] == s && m in later && Member(later[m], c)
            && (NoneMoves(v.inFlight[k], v.shapes, c) ==> later[m] == v.shapes[m])
            && (AllLose(v.inFlight[k], v.shapes, c) ==> !IsAnchored(later[m]))
            && (forall level | AllMove(v.inFlight[k], v.shapes, c, map[], level) ::
                  IsAnchored(later[m]) && later[m].meta.anchorCanvasY == Some(level) && later[m].meta.anchorCanvasX.Some?)
  {
    var updates, with := v.inFlight[k], v.shapes[s.id := s];
    assert !Touches(updates, s.id);
    AppliedUntouched(with, updates, s.id);
    AppliedKin(with, updates, c, m);
    if NoneMoves(updates, v.shapes, c) {
      AppliedUntouched(with, updates, m);
    }
    if AllLose(updates, v.shapes, c) {
      AppliedLoses(with, updates, m);
    }
    forall level | AllMove(updates, v.shapes, c, map[], level)
      ensures var later := Applied(with, updates);
              m in later && IsAnchored(later[m]) && later[m].meta.anchorCanvasY == Some(level) && later[m].meta.anchorCanvasX.Some?
    {
      AppliedMoves(with, updates, m, level);
    }
  }

  /** One remap in flight leaves the cluster whole with the new shape exactly when it leaves the members as they are. */
  lemma PendingWholeIff(v: Canvas, k: nat, c: ClusterId, m: ShapeId, s: Shape)
    requires Inv(v, c, map[]) && k in v.inFlight && m in v.shapes && Member(v.shapes[m], c)
    requires s.id !in v.used && Member(s, c) && Together(s, s) && Together(s, v.shapes[m])
    ensures Uniform(Applied(v.shapes[s.id := s], v.inFlight[k]), c) <==> PendingLeaves(v.inFlight[k], v.shapes, c, v.shapes[m])
  {
    var updates, with := v.inFlight[k], v.shapes[s.id := s];
    var later := Applied(with, updates);
    PendingOnMember(v, k, c, m, s);
    assert BatchOk(updates, v.shapes, c, map[]);
    if Uniform(later, c) {
      assert Together(later[s.id], later[m]) && Together(later[m], later[s.id]);
      PendingThen(v, updates, c, m, later[m]);
    }
    if PendingLeaves(updates, v.shapes, c, v.shapes[m]) {
      AddBatchKin(v, k, s, c);
      AppliedMembers(with, updates, c);
      forall i | i in later && i != s.id && Member(later[i], c) ensures Together(s, later[i]) && Together(later[i], s) {
        PendingOnMember(v, k, c, i, s);
        LeftAsIs(v, updates, c, m, i, later[i], s);
      }
      WholeByOne(later, c, s.id);
    }
  }

  lemma WholeByOne(shapes: map<ShapeId, Shape>, c: ClusterId, one: ShapeId)
    requires one in shapes && Together(shapes[one], shapes[one])
    requires forall i | i in shapes && i != one && Member(shapes[i], c) :: Together(shapes[one], shapes[i]) && Together(shapes[i], shapes[one])
    ensures Uniform(shapes, c)
  {
  }

  lemma AddBatchKin(v: Canvas, k: nat, s: Shape, c: ClusterId)
    requires Sane(v) && k in v.inFlight && AllKin(v.inFlight[k], v.shapes, c) && s.id !in v.used
    ensures AllKin(v.inFlight[k], v.shapes[s.id := s], c)
  {
  }

  /** If the member ends recorded as before, the remap left all members as they were. */
  lemma PendingThen(v: Canvas, updates: seq<Update>, c: ClusterId, m: ShapeId, after: Shape)
    requires m in v.shapes && Member(v.shapes[m], c) && Uniform(v.shapes, c) && BatchOk(updates, v.shapes, c, map[])
    requires IsAnchored(after) == IsAnchored(v.shapes[m]) && (IsAnchored(after) ==> after.meta.anchorCanvasY == v.shapes[m].meta.anchorCanvasY)
    requires AllLose(updates, v.shapes, c) ==> !IsAnchored(after)
    requires forall level | AllMove(updates, v.shapes, c, map[], level) :: IsAnchored(after) && after.meta.anchorCanvasY == Some(level)
    ensures PendingLeaves(updates, v.shapes, c, v.shapes[m])
  {
    assert Together(v.shapes[m], v.shapes[m]);
    if NoneMoves(updates, v.shapes, c) {
      assert forall u | u in updates :: Touches(updates, u.id);
    } else if !AllLose(updates, v.shapes, c) {
      var level :| AllMove(updates, v.shapes, c, map[], level);
    }
  }

  /** If it does, each member ends recorded like the new shape. */
  lemma LeftAsIs(v: Canvas, updates: seq<Update>, c: ClusterId, m: ShapeId, i: ShapeId, after: Shape, s: Shape)
    requires m in v.shapes && Member(v.shapes[m], c) && i in v.shapes && Member(v.shapes[i], c) && Uniform(v.shapes, c)
    requires BatchOk(updates, v.shapes, c, map[]) && PendingLeaves(updates, v.shapes, c, v.shapes[m])
    requires Together(s, s) && Together(s, v.shapes[m]) && Member(after, c)
    requires NoneMoves(updates, v.shapes, c) ==> after == v.shapes[i]
    requires AllLose(updates, v.shapes, c) ==> !IsAnchored(after)
    requires forall level | AllMove(updates, v.shapes, c, map[], level) :: IsAnchored(after) && after.meta.anchorCanvasY == Some(level) && after.meta.anchorCanvasX.Some?
    ensures Together(s, after) && Together(after, s)
  {
    assert Together(v.shapes[m], v.shapes[i]) && Together(v.shapes[i], v.shapes[m]);
    if !NoneMoves(updates, v.shapes, c) {
      var j :| j in v.shapes && Member(v.shapes[j], c) && Touches(updates, j);
      var u :| u in updates && u.id == j;
      assert LeavesAsIs(u, v.shapes[m]);
      if !AllLose(updates, v.shapes, c) {
        var level :| AllMove(updates, v.shapes, c, map[], level);
        assert MovesMarked(u, level, map[]);
      }
    }
  }

  /** A shape that comes in keeps the cluster in one piece now and after each remap in flight exactly when it is
      recorded at the members' place, and no remap in flight takes their anchor or moves them to another place. */
  lemma AddWholeIff(v: Canvas, c: ClusterId, m: ShapeId, s: Shape)
    requires Inv(v, c, map[]) && m in v.shapes && Member(v.shapes[m], c)
    requires s.id !in v.used && Member(s, c) && Together(s, s)
    ensures WholeNowAndApplied(With(v, s), c) <==> Together(s, v.shapes[m]) && PendingLeaveAsIs(v, c, v.shapes[m])
  {
    AddIsUniformIff(v, c, m, s);
    hide Inv, Uniform, PendingLeaves, Member;
    if Together(s, v.shapes[m]) {
      forall k | k in v.inFlight
        ensures Uniform(Applied(v.shapes[s.id := s], v.inFlight[k]), c) <==> PendingLeaves(v.inFlight[k], v.shapes, c, v.shapes[m])
      {
        PendingWholeIff(v, k, c, m, s);
      }
    }
  }

  /** For a join: now and after each remap in flight, exactly when the open cluster records the members' place and no
      remap in flight takes their anchor or moves them to another place. */
  lemma JoinWholeIff(v: Canvas, e: Event, c: ClusterId, m: ShapeId)
    requires Inv(v, c, map[]) && m in v.shapes && Member(v.shapes[m], c)
    requires e.Join? && Enabled(v, e) && v.active.value.clusterId == c
    ensures WholeNowAndApplied(Next(v, e), c) <==> RecordsPlaceOf(v.active.value, v.shapes[m]) && PendingLeaveAsIs(v, c, v.shapes[m])
  {
    var s, w := Joined(v, e.shape), Next(v, e);
    assert Together(v.shapes[m], v.shapes[m]);
    AddWholeIff(v, c, m, s);
    assert Together(s, v.shapes[m]) <==> RecordsPlaceOf(v.active.value, v.shapes[m]);
    assert w.shapes == With(v, s).shapes && w.inFlight == With(v, s).inFlight;
  }

  /** The place alone is not enough. A shape is anchored at 10 and a remap has found its anchor at 30 but not been
      applied; a second shape joins at 10. Both are at one place, until the remap is applied. */
  lemma JoinDuringRemapDrifts(c: ClusterId, source: SourceAnchor)
    requires source.Anchored?
    ensures
      var drawn := Shape("a", "draw", 0.0, 10.0, Meta(Some(source), Some(c), Some(0.0), Some(10.0)));
      var open := ActiveCluster(source, 0.0, 10.0, c, 0, 1);
      var pending := [ClusterUpdate(drawn, drawn, Found(30.0)).value];
      var v := Canvas(map["a" := drawn], {"a"}, map[0 := pending], map[], Some(open), 1);
      var e := Join(Shape("b", "draw", 0.0, 50.0, Meta(None, None, None, None)), 1, 1);
      && Enabled(v, e) && RecordsPlaceOf(open, drawn)
      && Uniform(Next(v, e).shapes, c)
      && !Uniform(Next(Next(v, e), Apply(0)).shapes, c)
  {
    var drawn := Shape("a", "draw", 0.0, 10.0, Meta(Some(source), Some(c), Some(0.0), Some(10.0)));
    var open := ActiveCluster(source, 0.0, 10.0, c, 0, 1);
    var u := ClusterUpdate(drawn, drawn, Found(30.0)).value;
    var v := Canvas(map["a" := drawn], {"a"}, map[0 := [u]], map[], Some(open), 1);
    var e := Join(Shape("b", "draw", 0.0, 50.0, Meta(None, None, None, None)), 1, 1);
    var w := Next(v, e);
    assert w.shapes.Keys == {"a", "b"} && w.shapes["a"] == drawn;
    assert Together(w.shapes["a"], w.shapes["b"]) && Together(w.shapes["b"], w.shapes["a"]);
    OneUpdate(w.shapes, u);
    var t := Next(w, Apply(0));
    assert t.shapes["a"].meta.anchorCanvasY == Some(30.0) && t.shapes["b"].meta.anchorCanvasY == Some(10.0);
    assert Member(t.shapes["a"], c) && Member(t.shapes["b"], c) && !Together(t.shapes["a"], t.shapes["b"]);
  }

  // ---------- for ever ----------

  predicate RemapsOnly(events: seq<Event>) {
    forall i | 0 <= i < |events| :: events[i].Snapshot? || events[i].Apply?
  }

  /** Now, and along every run of remaps: those in flight applied in any order, and new ones begun in between. */
  ghost predicate WholeForEver(v: Canvas, c: ClusterId) {
    forall events | After(v, events).Some? && RemapsOnly(events) :: Uniform(After(v, events).value.shapes, c)
  }

  /** No remap in flight holds an anchored member, and on members that lost their anchor remaps in flight can only
      lose it again. */
  ghost predicate Undisturbed(v: Canvas, c: ClusterId) {
    forall k, u | k in v.inFlight && u in v.inFlight[k] && u.id in v.shapes && Member(v.shapes[u.id], c) ::
      !IsAnchored(v.shapes[u.id]) && Loses(u)
  }

  lemma AfterOneMore(v: Canvas, events: seq<Event>, e: Event)
    requires After(v, events).Some? && Enabled(After(v, events).value, e)
    ensures After(v, events + [e]) == Some(Next(After(v, events).value, e))
  {
    assert (events + [e])[..|events|] == events;
  }

  lemma {:induction false} RemapsAreGood(v: Canvas, events: seq<Event>, c: ClusterId)
    requires After(v, events).Some? && RemapsOnly(events)
    ensures AllGood(v, events, c)
  {
    if events != [] {
      RemapsAreGood(v, events[..|events| - 1], c);
    }
  }

  /** A cluster that has lost its anchor for good. */
  ghost predicate Sunk(v: Canvas, c: ClusterId) {
    && (forall i | i in v.shapes && Member(v.shapes[i], c) :: !IsAnchored(v.shapes[i]))
    && (forall k | k in v.inFlight :: AllKin(v.inFlight[k], v.shapes, c))
    && Undisturbed(v, c)
  }

  lemma SunkUniform(v: Canvas, c: ClusterId)
    requires Sunk(v, c)
    ensures Uniform(v.shapes, c)
  {
  }

  lemma SunkSnapshot(v: Canvas, e: Event, c: ClusterId)
    requires Sunk(v, c) && e.Snapshot? && Enabled(v, e)
    ensures Sunk(Next(v, e), c)
  {
    SnapshotKin(v, e, c);
    var w := Next(v, e);
    forall u | u in e.updates && u.id in v.shapes ensures !Member(v.shapes[u.id], c) {
      UpdateExpected(v, e, u);
      assert IsAnchored(v.shapes[u.id]);
    }
  }

  lemma SunkApply(v: Canvas, k: nat, c: ClusterId)
    requires Sunk(v, c) && k in v.inFlight
    ensures Sunk(Next(v, Apply(k)), c)
  {
    var w := Next(v, Apply(k));
    AppliedMembers(v.shapes, v.inFlight[k], c);
    forall i | i in w.shapes && Member(w.shapes[i], c) ensures !IsAnchored(w.shapes[i]) {
      AppliedLoses(v.shapes, v.inFlight[k], i);
      if !Touches(v.inFlight[k], i) {
        AppliedUntouched(v.shapes, v.inFlight[k], i);
      }
    }
    forall j | j in w.inFlight ensures AllKin(w.inFlight[j], w.shapes, c) {
      KinStays(v.inFlight[j], v.shapes, w.shapes, c);
    }
  }

  lemma {:induction false} SunkStays(v: Canvas, events: seq<Event>, c: ClusterId)
    requires Sunk(v, c) && After(v, events).Some? && RemapsOnly(events)
    ensures Sunk(After(v, events).value, c)
  {
    hide Sunk, Enabled, Next;
    if events != [] {
      var before, e := events[..|events| - 1], events[|events| - 1];
      SunkStays(v, before, c);
      if e.Snapshot? {
        SunkSnapshot(After(v, before).value, e, c);
      } else {
        EnabledApply(After(v, before).value, e);
        SunkApply(After(v, before).value, e.k, c);
      }
    }
  }

  lemma EnabledApply(v: Canvas, e: Event)
    requires e.Apply? && Enabled(v, e)
    ensures e.k in v.inFlight && e == Apply(e.k)
  {
  }

  lemma {:induction false} ListShapes(shapes: map<ShapeId, Shape>) returns (page: seq<Shape>)
    requires forall i | i in shapes :: shapes[i].id == i
    ensures Lists(page, shapes)
    decreases |shapes|
  {
    if shapes == map[] {
      page := [];
    } else {
      var i :| i in shapes;
      var rest := shapes - {i};
      assert shapes.Keys == rest.Keys + {i};
      var before := ListShapes(rest);
      page := before + [shapes[i]];
    }
  }

  lemma {:induction false} WorkOut(page: seq<Shape>, n: nat, solo: SoloResolver, cluster: ClusterResolver) returns (updates: seq<Update>)
    requires n <= |page|
    ensures forall u :: u in updates <==> exists s :: s in page[..n] && Expected(page, s, solo, cluster) == Some(u)
  {
    if n == 0 {
      updates := [];
    } else {
      var before := WorkOut(page, n - 1, solo, cluster);
      var u := Expected(page, page[n - 1], solo, cluster);
      updates := if u.Some? then before + [u.value] else before;
      assert forall s :: s in page[..n] <==> s in page[..n - 1] || s == page[n - 1];
    }
  }

  lemma {:induction false} FreshKey(m: map<nat, seq<Update>>) returns (k: nat)
    ensures forall j | j in m :: j < k
    decreases |m|
  {
    if m == map[] {
      k := 0;
    } else {
      var j :| j in m;
      var rest := m - {j};
      assert m.Keys == rest.Keys + {j};
      k := FreshKey(rest);
      k := if k <= j then j + 1 else k;
    }
  }

  /** A remap that finds the cluster's anchor at this level, and nothing else. */
  lemma RemapTo(v: Canvas, c: ClusterId, level: real) returns (e: Event)
    requires Sane(v)
    ensures e.Snapshot? && Enabled(v, e) && e.cluster(c) == Found(level)
  {
    var page := ListShapes(v.shapes);
    var k := FreshKey(v.inFlight);
    var solo: SoloResolver, cluster: ClusterResolver := (i: ShapeId) => Threw, (d: ClusterId) => if d == c then Found(level) else Threw;
    var updates := WorkOut(page, |page|, solo, cluster);
    assert page[..|page|] == page;
    e := Snapshot(k, page, solo, cluster, updates);
  }

  /** After a remap to this level the new shape is recorded there. */
  lemma RemappedTo(w: Canvas, e: Event, c: ClusterId, i: ShapeId, level: real)
    requires Sane(w) && Uniform(w.shapes, c) && i in w.shapes && InCluster(w.shapes[i], c)
    requires e.Snapshot? && Enabled(w, e) && e.cluster(c) == Found(level)
    requires w.shapes[i].meta.anchorCanvasY.Some? && Abs(level - w.shapes[i].meta.anchorCanvasY.value) >= 1.0
    ensures var later := Applied(w.shapes, e.updates);
            i in later && InCluster(later[i], c) && later[i].meta.anchorCanvasY == Some(level)
  {
    var members := MembersOf(e.page, c);
    hide Enabled, Uniform, MembersOf, Expected, Moves, Touches, Placed, Applied, Member;
    MemberIsListed(w, e, c, i);
    SnapshotKin(w, e, c);
    AppliedMembers(w.shapes, e.updates, c);
    MemberMoves(w, e, c, members, i);
    forall u | u in e.updates && u.id == i ensures Moves(u, level) {
      UpdateExpected(w, e, u);
    }
    AppliedMoves(w.shapes, e.updates, i, level);
    PlacedAnchored(Applied(w.shapes, e.updates)[i], e.updates, i, level);
  }

  lemma PlacedAnchored(s: Shape, updates: seq<Update>, i: ShapeId, level: real)
    requires Placed(s, updates, i, level)
    ensures s.meta.sourceAnchor.Some? && s.meta.sourceAnchor.value.Anchored? && s.meta.anchorCanvasY == Some(level)
  {
  }

  /** A remap still in flight brings the members back and leaves the new shape where the newer remap put it. */
  lemma BroughtBack(v: Canvas, k: nat, c: ClusterId, m: ShapeId, s: ShapeId, level: real, now: map<ShapeId, Shape>)
    requires Inv(v, c, map[]) && k in v.inFlight && m in v.shapes && Member(v.shapes[m], c)
    requires AllMove(v.inFlight[k], v.shapes, c, map[], level) && s !in v.used
    requires m in now && Akin(v.shapes[m], now[m], c) && s in now && InCluster(now[s], c) && now[s].meta.anchorCanvasY != Some(level)
    ensures !Uniform(Applied(now, v.inFlight[k]), c)
  {
    var updates := v.inFlight[k];
    assert !Touches(updates, s);
    AppliedUntouched(now, updates, s);
    forall u | u in updates && u.id == m ensures Kin(u, now[m], c) {
      assert Kin(u, v.shapes[m], c);
    }
    AppliedKin(now, updates, c, m);
    forall u | u in updates && u.id == m ensures Moves(u, level) {
      assert MovesMarked(u, level, map[]);
    }
    AppliedMoves(now, updates, m, level);
    var later := Applied(now, updates);
    PlacedAnchored(later[m], updates, m, level);
    assert Member(later[m], c) && Member(later[s], c) && !Together(later[m], later[s]);
  }

  lemma JoinedAtLevel(v: Canvas, c: ClusterId, m: ShapeId, s: Shape, level: real)
    requires Inv(v, c, map[]) && m in v.shapes && InCluster(v.shapes[m], c) && v.shapes[m].meta.anchorCanvasY == Some(level)
    requires s.id !in v.used && Member(s, c) && Together(s, s) && Together(s, v.shapes[m])
    ensures var w := With(v, s); Sane(w) && Uniform(w.shapes, c) && m in w.shapes && w.shapes[m] == v.shapes[m]
    ensures InCluster(s, c) && s.meta.anchorCanvasY == Some(level)
  {
    AddIsUniformIff(v, c, m, s);
    hide Uniform;
  }

  /** A shape that joins at the members' level takes part in the next remap of the cluster, and the members stay members. */
  lemma JoinedThenRemapped(v: Canvas, c: ClusterId, m: ShapeId, s: Shape, level: real) returns (e: Event)
    requires Inv(v, c, map[]) && m in v.shapes && InCluster(v.shapes[m], c) && v.shapes[m].meta.anchorCanvasY == Some(level)
    requires s.id !in v.used && Member(s, c) && Together(s, s) && Together(s, v.shapes[m])
    ensures e.Snapshot? && Enabled(With(v, s), e)
    ensures var now := Applied(With(v, s).shapes, e.updates);
      && m in now && Akin(v.shapes[m], now[m], c)
      && s.id in now && InCluster(now[s.id], c) && now[s.id].meta.anchorCanvasY == Some(level + 2.0)
  {
    var w := With(v, s);
    JoinedAtLevel(v, c, m, s, level);
    hide Inv, Uniform, Enabled, Together, Akin, Sane, Member, InCluster, Applied;
    e := RemapTo(w, c, level + 2.0);
    SnapshotKin(w, e, c);
    AppliedMembers(w.shapes, e.updates, c);
    RemappedTo(w, e, c, s.id, level + 2.0);
  }

  /** A remap that holds the members, even one that finds them where they are, breaks the cluster if a newer remap
      is applied before it. */
  lemma HeldBreaks(v: Canvas, k: nat, c: ClusterId, m: ShapeId, s: Shape)
    requires Inv(v, c, map[]) && k in v.inFlight && m in v.shapes && InCluster(v.shapes[m], c)
    requires s.id !in v.used && Member(s, c) && Together(s, s) && Together(s, v.shapes[m])
    requires v.shapes[m].meta.anchorCanvasY.Some? && AllMove(v.inFlight[k], v.shapes, c, map[], v.shapes[m].meta.anchorCanvasY.value)
    ensures !WholeForEver(With(v, s), c)
  {
    var w, level := With(v, s), v.shapes[m].meta.anchorCanvasY.value;
    var e := JoinedThenRemapped(v, c, m, s, level);
    assert s.id !in v.used && k in w.inFlight && w.inFlight[k] == v.inFlight[k];
    hide Uniform, Member, AllMove, Enabled, Together, Akin, Sane, Inv, With;
    BroughtBack(v, k, c, m, s.id, level, Applied(w.shapes, e.updates));
    ThenBroken(w, e, k, c);
  }

  lemma ThenBroken(w: Canvas, e: Event, k: nat, c: ClusterId)
    requires e.Snapshot? && Enabled(w, e) && k in w.inFlight
    requires !Uniform(Applied(Applied(w.shapes, e.updates), w.inFlight[k]), c)
    ensures !WholeForEver(w, c)
  {
    hide Uniform, Enabled, After;
    ThreeSteps(w, e, k);
    var events := [e, Apply(e.k), Apply(k)];
    assert RemapsOnly(events);
  }

  lemma ThreeSteps(w: Canvas, e: Event, k: nat)
    requires e.Snapshot? && Enabled(w, e) && k in w.inFlight
    ensures After(w, [e, Apply(e.k), Apply(k)]).Some?
    ensures After(w, [e, Apply(e.k), Apply(k)]).value.shapes == Applied(Applied(w.shapes, e.updates), w.inFlight[k])
  {
    AfterNothing(w);
    AfterOneMore(w, [], e);
    AfterOneMore(w, [e], Apply(e.k));
    AfterOneMore(w, [e, Apply(e.k)], Apply(k));
    assert [] + [e] == [e] && [e] + [Apply(e.k)] == [e, Apply(e.k)] && [e, Apply(e.k)] + [Apply(k)] == [e, Apply(e.k), Apply(k)];
  }

  lemma AfterNothing(v: Canvas)
    ensures After(v, []) == Some(v)
  {
  }

  lemma ForEverNow(w: Canvas, c: ClusterId)
    requires WholeForEver(w, c)
    ensures Uniform(w.shapes, c)
    ensures forall k | k in w.inFlight :: Uniform(Applied(w.shapes, w.inFlight[k]), c)
  {
    hide Uniform;
    AfterNothing(w);
    assert RemapsOnly([]);
    forall k | k in w.inFlight ensures Uniform(Applied(w.shapes, w.inFlight[k]), c) {
      AfterOneMore(w, [], Apply(k));
      assert [] + [Apply(k)] == [Apply(k)] && RemapsOnly([Apply(k)]);
    }
  }

  lemma UndisturbedStays(v: Canvas, c: ClusterId, m: ShapeId, s: Shape)
    requires Inv(v, c, map[]) && m in v.shapes && Member(v.shapes[m], c)
    requires s.id !in v.used && Member(s, c) && Together(s, s) && Together(s, v.shapes[m]) && Undisturbed(v, c)
    ensures WholeForEver(With(v, s), c)
  {
    var w := With(v, s);
    if IsAnchored(v.shapes[m]) {
      forall i | i in v.shapes && Member(v.shapes[i], c) ensures Together(s, v.shapes[i]) && !Held(v, i) {
        assert Together(v.shapes[m], v.shapes[i]) && Together(v.shapes[i], v.shapes[m]);
      }
      AddKept(v, s, c, map[]);
      forall events | After(w, events).Some? && RemapsOnly(events) ensures Uniform(After(w, events).value.shapes, c) {
        RemapsAreGood(w, events, c);
        RunKept(w, events, c, map[]);
      }
    } else {
      SunkWith(v, c, m, s);
      forall events | After(w, events).Some? && RemapsOnly(events) ensures Uniform(After(w, events).value.shapes, c) {
        SunkStays(w, events, c);
        SunkUniform(After(w, events).value, c);
      }
    }
  }

  lemma SunkWith(v: Canvas, c: ClusterId, m: ShapeId, s: Shape)
    requires Inv(v, c, map[]) && m in v.shapes && Member(v.shapes[m], c) && !IsAnchored(v.shapes[m])
    requires s.id !in v.used && Together(s, v.shapes[m]) && Undisturbed(v, c)
    ensures Sunk(With(v, s), c)
  {
    forall i | i in v.shapes && Member(v.shapes[i], c) ensures !IsAnchored(v.shapes[i]) {
      assert Together(v.shapes[i], v.shapes[m]);
    }
    forall k | k in v.inFlight ensures AllKin(v.inFlight[k], v.shapes[s.id := s], c) {
      assert BatchOk(v.inFlight[k], v.shapes, c, map[]);
      AddBatchKin(v, k, s, c);
    }
  }

  lemma StaysUndisturbed(v: Canvas, c: ClusterId, m: ShapeId, s: Shape)
    requires Inv(v, c, map[]) && m in v.shapes && Member(v.shapes[m], c)
    requires s.id !in v.used && Member(s, c) && Together(s, s) && Together(s, v.shapes[m]) && WholeForEver(With(v, s), c)
    ensures Undisturbed(v, c)
  {
    ForEverNow(With(v, s), c);
    forall k, u | k in v.inFlight && u in v.inFlight[k] && u.id in v.shapes && Member(v.shapes[u.id], c)
      ensures !IsAnchored(v.shapes[u.id]) && Loses(u)
    {
      PendingWholeIff(v, k, c, m, s);
      OnlyLoses(v, k, u, c, m, s);
    }
  }

  lemma OnlyLoses(v: Canvas, k: nat, u: Update, c: ClusterId, m: ShapeId, s: Shape)
    requires Inv(v, c, map[]) && m in v.shapes && Member(v.shapes[m], c)
    requires s.id !in v.used && Member(s, c) && Together(s, s) && Together(s, v.shapes[m]) && WholeForEver(With(v, s), c)
    requires k in v.inFlight && u in v.inFlight[k] && u.id in v.shapes && Member(v.shapes[u.id], c)
    requires PendingLeaves(v.inFlight[k], v.shapes, c, v.shapes[m])
    ensures !IsAnchored(v.shapes[u.id]) && Loses(u)
  {
    assert LeavesAsIs(u, v.shapes[m]) && Together(v.shapes[m], v.shapes[u.id]) && Together(v.shapes[m], v.shapes[m]);
    if IsAnchored(v.shapes[m]) {
      assert Touches(v.inFlight[k], u.id) && Moves(u, v.shapes[m].meta.anchorCanvasY.value);
      assert BatchOk(v.inFlight[k], v.shapes, c, map[]);
      var level :| AllMove(v.inFlight[k], v.shapes, c, map[], level);
      assert MovesMarked(u, level, map[]);
      HeldBreaks(v, k, c, m, s);
      assert false;
    }
  }

  /** A shape that comes in keeps the cluster in one piece for ever, through remaps in flight in any order and new ones
      in between, exactly when it is recorded at the members' place and no remap in flight holds them (a remap
      that takes an anchor already lost does no harm). */
  lemma AddForEverIff(v: Canvas, c: ClusterId, m: ShapeId, s: Shape)
    requires Inv(v, c, map[]) && m in v.shapes && Member(v.shapes[m], c)
    requires s.id !in v.used && Member(s, c) && Together(s, s)
    ensures WholeForEver(With(v, s), c) <==> Together(s, v.shapes[m]) && Undisturbed(v, c)
  {
    AddIsUniformIff(v, c, m, s);
    hide Inv, Uniform, Undisturbed;
    if WholeForEver(With(v, s), c) {
      ForEverNow(With(v, s), c);
      StaysUndisturbed(v, c, m, s);
    }
    if Together(s, v.shapes[m]) && Undisturbed(v, c) {
      UndisturbedStays(v, c, m, s);
    }
  }

  /** Remaps do not look at the open cluster. */
  lemma {:induction false} OpenClusterIsIdle(v: Canvas, active: Option<ActiveCluster>, events: seq<Event>)
    requires RemapsOnly(events)
    ensures After(v, events).Some? <==> After(v.(active := active), events).Some?
    ensures After(v, events).Some? ==> After(v.(active := active), events).value == After(v, events).value.(active := active)
  {
    if events != [] {
      OpenClusterIsIdle(v, active, events[..|events| - 1]);
    }
  }

  lemma ForEverIgnoresOpenCluster(v: Canvas, active: Option<ActiveCluster>, c: ClusterId)
    ensures WholeForEver(v, c) <==> WholeForEver(v.(active := active), c)
  {
    hide Uniform, After;
    forall events | RemapsOnly(events)
      ensures After(v, events).Some? <==> After(v.(active := active), events).Some?
      ensures After(v, events).Some? ==> After(v.(active := active), events).value.shapes == After(v, events).value.shapes
    {
      OpenClusterIsIdle(v, active, events);
    }
  }

  /** For a join: for ever, exactly when the open cluster records the members' place and no remap in flight holds
      them. */
  lemma JoinForEverIff(v: Canvas, e: Event, c: ClusterId, m: ShapeId)
    requires Inv(v, c, map[]) && m in v.shapes && Member(v.shapes[m], c)
    requires e.Join? && Enabled(v, e) && v.active.value.clusterId == c
    ensures WholeForEver(Next(v, e), c) <==> RecordsPlaceOf(v.active.value, v.shapes[m]) && Undisturbed(v, c)
  {
    var s := Joined(v, e.shape);
    assert Together(v.shapes[m], v.shapes[m]);
    assert Together(s, v.shapes[m]) <==> RecordsPlaceOf(v.active.value, v.shapes[m]);
    assert Next(v, e) == With(v, s).(active := Next(v, e).active);
    AddForEverIff(v, c, m, s);
    hide Inv, Undisturbed, WholeForEver, Together;
    ForEverIgnoresOpenCluster(With(v, s), Next(v, e).active, c);
  }
}
