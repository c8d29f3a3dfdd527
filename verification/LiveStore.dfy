/** The live store: one list of records, and indexes and views kept in step with it.

    In this module callbacks are passive: being called is an entry in `calls`.  LiveStoreDelivery
    lets callbacks write to the store while they are being called. */
module LiveStore {
  import opened Lists
  import opened Text
  import opened Wrappers
  import opened LiveStoreLists
  import opened LiveStoreSorted
  import opened LiveStoreParts

  datatype StoreError = StoreDisposed

  datatype Call =
    | ListenerCall(cb: Callback, delta: Delta)
    | ViewCall(view: MaintainedView, cb: Callback, list: seq<Rec>, delta: Delta)

  /** A JavaScript `Map` from views to deltas: setting a key again keeps its place. */
  datatype ChangedViews = ChangedViews(order: seq<MaintainedView>, deltas: map<MaintainedView, Delta>) {
    ghost predicate Valid() {
      && NoRepeats(order)
      && (forall v | v in order :: v in deltas)
      && (forall v | v in deltas :: v in order)
    }

    function Set(view: MaintainedView, d: Delta): ChangedViews {
      ChangedViews(if view in deltas then order else order + [view], deltas[view := d])
    }
  }

  const NO_VIEWS := ChangedViews([], map[])

  /** The queue of changed views once every view has taken a write. */
  ghost function Marked(q: ChangedViews, views: seq<MaintainedView>, d: Delta): (r: ChangedViews)
    requires q.Valid()
    ensures r.Valid()
    ensures forall v | v in r.order :: v in q.order || v in views
  {
    if views == [] then q
    else
      var before := Marked(q, views[..|views| - 1], d);
      var v := views[|views| - 1];
      if Touches(d, v.filter) then before.Set(v, d) else before
  }

  lemma MarkedOrder(q: ChangedViews, views: seq<MaintainedView>, d: Delta)
    requires q.Valid()
    ensures Marked(q, views, d).Valid()
    ensures forall v | v in Marked(q, views, d).order :: v in q.order || v in views
  {
  }

  lemma MarkedNone(q: ChangedViews, views: seq<MaintainedView>, d: Delta)
    requires q.Valid()
    ensures Marked(q, views[..0], d) == q
  {
    assert views[..0] == [];
  }

  lemma MarkedStep(q: ChangedViews, views: seq<MaintainedView>, i: nat, d: Delta)
    requires q.Valid() && i < |views|
    ensures Marked(q, views[..i + 1], d)
         == if Touches(d, views[i].filter) then Marked(q, views[..i], d).Set(views[i], d) else Marked(q, views[..i], d)
  {
    assert views[..i + 1][..i] == views[..i];
  }

  ghost function MarkedAll(q: ChangedViews, views: seq<MaintainedView>, ds: seq<Delta>): (r: ChangedViews)
    requires q.Valid()
    ensures r.Valid()
    ensures forall v | v in r.order :: v in q.order || v in views
  {
    if ds == [] then q else Marked(MarkedAll(q, views, ds[..|ds| - 1]), views, ds[|ds| - 1])
  }

  // ---------- what one delivery round calls ----------

  function ListenerCalls(listeners: seq<Callback>, d: Delta): seq<Call> {
    seq(|listeners|, i requires 0 <= i < |listeners| => ListenerCall(listeners[i], d))
  }

  ghost function NotifyCalls(view: MaintainedView, d: Delta): seq<Call>
    reads view
  {
    if view.disposed then []
    else
      var subscribers, list := view.subscribers, view.current;
      seq(|subscribers|, i requires 0 <= i < |subscribers| => ViewCall(view, subscribers[i], list, d))
  }

  ghost function ViewCalls(order: seq<MaintainedView>, deltas: map<MaintainedView, Delta>): seq<Call>
    requires forall v | v in order :: v in deltas
    reads order
  {
    if order == [] then []
    else
      var last := order[|order| - 1];
      ViewCalls(order[..|order| - 1], deltas) + NotifyCalls(last, deltas[last])
  }

  /** A store's listeners hear the last queued delta; each changed live view's subscribers hear the
      view's list and the last delta that touched it. */
  ghost function Round(listeners: seq<Callback>, pending: seq<Delta>, changed: ChangedViews): seq<Call>
    requires pending != [] && forall v | v in changed.order :: v in changed.deltas
    reads changed.order
  {
    ListenerCalls(listeners, pending[|pending| - 1]) + ViewCalls(changed.order, changed.deltas)
  }

  /** `Array.from(new Map(initial by id).values())`: first place, last value. */
  function Loaded(initial: seq<Rec>): seq<Rec> {
    if initial == [] then []
    else
      var before, rec := Loaded(initial[..|initial| - 1]), initial[|initial| - 1];
      if FindIndex(before, (r: Rec) => r.id == rec.id) == -1 then before + [rec] else ReplaceById(before, rec)
  }

  ghost predicate LastOfItsId(list: seq<Rec>, r: Rec) {
    exists k | 0 <= k < |list| :: list[k] == r && forall j | k < j < |list| :: list[j].id != r.id
  }

  function FirstAt(list: seq<Rec>, id: Id): int {
    FindIndex(list, (r: Rec) => r.id == id)
  }

  /** The list stands in the order in which its ids first come. */
  ghost predicate ByFirst(initial: seq<Rec>, list: seq<Rec>) {
    && (forall i | 0 <= i < |list| :: 0 <= FirstAt(initial, list[i].id))
    && (forall i, j | 0 <= i < j < |list| :: FirstAt(initial, list[i].id) < FirstAt(initial, list[j].id))
  }

  /** Each id once, with its last record, in the order in which the ids first come. */
  lemma {:induction false} LoadedMeaning(initial: seq<Rec>)
    ensures DistinctIds(Loaded(initial)) && ByFirst(initial, Loaded(initial))
    ensures forall r :: r in Loaded(initial) <==> LastOfItsId(initial, r)
  {
    hide LastOfItsId, ByFirst, FirstAt, DistinctIds;
    if initial == [] {
      NothingLoaded();
    } else {
      var earlier, rec := initial[..|initial| - 1], initial[|initial| - 1];
      assert initial == earlier + [rec];
      LoadedMeaning(earlier);
      LoadedStep(Loaded(earlier), rec);
      hide Loaded, ReplaceById;
      forall r {
        OneLater(earlier, rec, r);
      }
      OneLaterInOrder(earlier, rec, Loaded(earlier), Loaded(initial));
    }
  }

  lemma NothingLoaded()
    ensures DistinctIds([]) && ByFirst([], []) && forall r :: !LastOfItsId([], r)
  {
  }

  lemma OneLaterInOrder(earlier: seq<Rec>, rec: Rec, before: seq<Rec>, now: seq<Rec>)
    requires ByFirst(earlier, before) && forall r :: r in before <==> LastOfItsId(earlier, r)
    requires |now| >= |before| && forall i | 0 <= i < |before| :: now[i].id == before[i].id
    requires |now| > |before| ==> now == before + [rec] && forall r | r in before :: r.id != rec.id
    ensures ByFirst(earlier + [rec], now)
  {
    forall i | 0 <= i < |before| ensures FirstAt(earlier + [rec], now[i].id) == FirstAt(earlier, before[i].id) {
      FirstStays(earlier, rec, before[i].id);
    }
    if |now| > |before| {
      UnheldIsNew(earlier, before, rec);
    }
  }

  lemma LoadedStep(before: seq<Rec>, rec: Rec)
    requires DistinctIds(before)
    ensures var now := if FindIndex(before, (r: Rec) => r.id == rec.id) == -1 then before + [rec] else ReplaceById(before, rec);
      && DistinctIds(now) && (forall r :: r in now <==> r == rec || (r in before && r.id != rec.id))
      && |now| >= |before| && (forall i | 0 <= i < |before| :: now[i].id == before[i].id)
      && (|now| > |before| ==> now == before + [rec] && forall r | r in before :: r.id != rec.id)
  {
    var i := FindIndex(before, (r: Rec) => r.id == rec.id);
    if i != -1 {
      var a, b := CutAtId(before, before[i]);
      ReplaceCut(a, before[i], b, rec);
      ReplacedMembers(before, a, before[i], b, rec);
      assert |a| == i;
    }
  }

  lemma OneLater(earlier: seq<Rec>, rec: Rec, r: Rec)
    ensures LastOfItsId(earlier + [rec], r) <==> r == rec || (LastOfItsId(earlier, r) && r.id != rec.id)
  {
    var list := earlier + [rec];
    assert list[|earlier|] == rec;
    if r == rec {
      assert list[|earlier|] == r;
    } else if LastOfItsId(list, r) {
      var k :| 0 <= k < |list| && list[k] == r && forall j | k < j < |list| :: list[j].id != r.id;
      assert earlier[k] == r && forall j | k < j < |earlier| :: earlier[j] == list[j];
    }
    if LastOfItsId(earlier, r) && r.id != rec.id {
      var k :| 0 <= k < |earlier| && earlier[k] == r && forall j | k < j < |earlier| :: earlier[j].id != r.id;
      assert list[k] == r && forall j | k < j < |list| :: list[j] == if j < |earlier| then earlier[j] else rec;
    }
  }

  lemma FirstStays(earlier: seq<Rec>, rec: Rec, id: Id)
    requires FirstAt(earlier, id) >= 0
    ensures FirstAt(earlier + [rec], id) == FirstAt(earlier, id)
  {
    var i := FirstAt(earlier, id);
    assert (earlier + [rec])[i] == earlier[i] && forall j | 0 <= j < i :: (earlier + [rec])[j] == earlier[j];
  }

  lemma UnheldIsNew(earlier: seq<Rec>, before: seq<Rec>, rec: Rec)
    requires (forall r :: r in before <==> LastOfItsId(earlier, r)) && forall r | r in before :: r.id != rec.id
    ensures FirstAt(earlier + [rec], rec.id) == |earlier|
  {
    forall j | 0 <= j < |earlier| ensures earlier[j].id != rec.id {
      if earlier[j].id == rec.id {
        var k := LastWith(earlier, rec.id, j);
        assert LastOfItsId(earlier, earlier[k]);
      }
    }
    var list := earlier + [rec];
    assert list[|earlier|] == rec && forall j | 0 <= j < |earlier| :: list[j] == earlier[j];
  }

  lemma LastWith(list: seq<Rec>, id: Id, from: nat) returns (k: nat)
    requires from < |list| && list[from].id == id
    ensures k < |list| && list[k].id == id && forall j | k < j < |list| :: list[j].id != id
    decreases |list| - from
  {
    k := from;
    if j :| from < j < |list| && list[j].id == id {
      k := LastWith(list, id, j);
    }
  }

  /** The records by id after a write. */
  function HeldAfter(byId: map<Id, Rec>, d: Delta): map<Id, Rec> {
    match d
    case Add(rec) => byId[rec.id := rec]
    case Update(_, rec, _) => byId[rec.id := rec]
    case Remove(_, prev) => byId - {prev.id}
  }

  lemma RemovedFrom(byId: map<Id, Rec>, order: map<Id, nat>, next: nat, d: Delta)
    requires d.Remove? && d.prev.id == d.id
    ensures HeldAfter(byId, d) == byId - {d.id} && OrderAfter(order, next, d) == order - {d.id}
  {
  }

  /** The list, the map and the insertion numbers describe the same records. */
  ghost predicate ListMatches(all: seq<Rec>, byId: map<Id, Rec>, order: map<Id, nat>, next: nat) {
    && DistinctIds(all) && Ordered(all, order)
    && (forall id | id in order :: order[id] < next && id in byId)
    && (forall id | id in byId :: byId[id] in all && byId[id].id == id)
    && (forall r | r in all :: r.id in byId && byId[r.id] == r)
  }

  lemma AppendMatches(all: seq<Rec>, byId: map<Id, Rec>, order: map<Id, nat>, next: nat, rec: Rec)
    requires ListMatches(all, byId, order, next) && forall r | r in all :: r.id != rec.id
    ensures ListMatches(all + [rec], byId[rec.id := rec], order[rec.id := next], next + 1)
  {
    AppendKeepsShape(all, rec, order, next);
    hide DistinctIds, Ordered;
  }

  lemma ReplaceMatches(all: seq<Rec>, byId: map<Id, Rec>, order: map<Id, nat>, next: nat, prev: Rec, rec: Rec)
    requires ListMatches(all, byId, order, next) && prev in all && prev.id == rec.id
    ensures ListMatches(ReplaceById(all, rec), byId[rec.id := rec], order, next)
  {
    hide DistinctIds, Ordered, ReplaceById;
    ReplaceKeepsShape(all, prev, rec, order);
  }

  lemma DropMatches(all: seq<Rec>, byId: map<Id, Rec>, order: map<Id, nat>, next: nat, prev: Rec)
    requires ListMatches(all, byId, order, next) && prev in all
    ensures ListMatches(RemoveById(all, prev.id), byId - {prev.id}, order - {prev.id}, next)
  {
    hide DistinctIds, Ordered, RemoveById;
    RemoveMembers(all, prev);
    RemoveKeepsOrder(all, prev, order);
  }

  /** The list names every live view once. */
  ghost predicate Listed(views: seq<MaintainedView>, live: set<MaintainedView>) {
    && NoRepeats(views)
    && (forall i | 0 <= i < |views| :: views[i] in live)
    && (forall v | v in live :: v in views)
  }

  lemma ListedOnce(views: seq<MaintainedView>, live: set<MaintainedView>, i: nat)
    requires Listed(views, live) && i < |views|
    ensures views[i] in live && forall j | 0 <= j < |views| && j != i :: views[j] != views[i]
  {
  }

  lemma WithoutListed(views: seq<MaintainedView>, live: set<MaintainedView>, view: MaintainedView)
    requires Listed(views, live)
    ensures Listed(Without(views, view), live - {view})
  {
    WithoutNoRepeats(views, view);
    var rest := Without(views, view);
    forall i | 0 <= i < |rest| ensures rest[i] in live - {view} {
      assert rest[i] in rest && rest[i] in views;
      var k :| 0 <= k < |views| && views[k] == rest[i];
    }
  }

  /** The keyed registry holds exactly the live views with a key, each under its own. */
  ghost predicate Keyed(keyed: map<string, MaintainedView>, live: set<MaintainedView>) {
    && (forall k | k in keyed :: keyed[k] in live && Truthy(keyed[k].key) && keyed[k].key.value == k)
    && (forall v | v in live && Truthy(v.key) :: v.key.value in keyed && keyed[v.key.value] == v)
  }

  lemma KeyedMore(keyed: map<string, MaintainedView>, live: set<MaintainedView>, view: MaintainedView)
    requires Keyed(keyed, live) && view !in live && !(Truthy(view.key) && view.key.value in keyed)
    ensures Keyed(if Truthy(view.key) then keyed[view.key.value := view] else keyed, live + {view})
  {
  }

  lemma KeyedLess(keyed: map<string, MaintainedView>, live: set<MaintainedView>, view: MaintainedView)
    requires Keyed(keyed, live) && view in live
    ensures Keyed(if Truthy(view.key) then keyed - {view.key.value} else keyed, live - {view})
  {
  }

  lemma ListedMore(views: seq<MaintainedView>, live: set<MaintainedView>, view: MaintainedView)
    requires Listed(views, live) && view !in live
    ensures Listed(views + [view], live + {view})
  {
  }

  class LiveStoreImpl {
    var byId: map<Id, Rec>
    var insertionOrder: map<Id, nat>
    var all: seq<Rec>
    var nextOrder: nat
    var indexes: map<string, MaintainedIndex>
    var views: seq<MaintainedView>
    ghost var live: set<MaintainedView>
    var keyedViews: map<string, MaintainedView>
    var listeners: seq<Callback>
    var pendingDeltas: seq<Delta>
    var changedViews: ChangedViews
    var notifyDepth: nat
    var bulkDepth: nat
    var disposed: bool
    ghost var calls: seq<Call>

    // ---------- the invariant ----------

    ghost predicate ListValid()
      reads this`byId, this`insertionOrder, this`all, this`nextOrder
    {
      ListMatches(all, byId, insertionOrder, nextOrder)
    }

    ghost predicate IndexesAgree(list: seq<Rec>)
      reads this`indexes, indexes.Values
    {
      && (forall m, n | m in indexes && n in indexes && m != n :: indexes[m] != indexes[n])
      && (forall n | n in indexes :: indexes[n].Agrees(list))
    }

    ghost predicate ViewsAgree(list: seq<Rec>)
      reads this`live, live`current, live`past
    {
      forall v | v in live :: v.Agrees(list)
    }

    /** The registries hold exactly the live views, and a keyed live view under its own key. */
    ghost predicate RegistriesValid()
      reads this`views, this`live, this`keyedViews, live`disposed, live`refCount, live`acquired, live`released, live`subscribers
    {
      Listed(views, live) && AllHeld() && Keyed(keyedViews, live)
    }

    ghost predicate AllHeld()
      reads this`live, live`disposed, live`refCount, live`acquired, live`released, live`subscribers
    {
      forall v | v in live :: v.Held()
    }

    /** What is queued is alive, or died since. */
    ghost predicate OrderValid()
      reads this`live, this`changedViews, changedViews.order`disposed
    {
      changedViews.Valid() && forall v | v in changedViews.order :: v in live || v.disposed
    }

    ghost predicate QueueValid()
      reads this`live, this`changedViews, this`pendingDeltas, this`notifyDepth, this`bulkDepth, changedViews.order`disposed
    {
      && OrderValid()
      && (pendingDeltas == [] ==> changedViews == NO_VIEWS)
      && notifyDepth == 0
      && (bulkDepth == 0 ==> pendingDeltas == [])
    }

    ghost predicate Valid()
      reads this, indexes.Values, live, changedViews.order
    {
      && QueueValid() && RegistriesValid() && NoRepeats(listeners)
      && IndexesAgree(all) && ViewsAgree(all)
      && (!disposed ==> ListValid())
      && (disposed ==> Emptied() && pendingDeltas == [])
    }

    ghost predicate Emptied()
      reads this`all, this`byId, this`indexes, this`views, this`live, this`listeners
    {
      all == [] && byId == map[] && indexes == map[] && views == [] && live == {} && listeners == []
    }

    lemma Parts()
      requires Valid()
      ensures QueueValid() && RegistriesValid() && NoRepeats(listeners) && IndexesAgree(all) && ViewsAgree(all)
      ensures if disposed then Emptied() && pendingDeltas == [] else ListValid()
    {
      hide LiveStoreImpl.Emptied, LiveStoreImpl.ListValid, LiveStoreImpl.QueueValid, LiveStoreImpl.RegistriesValid;
      hide LiveStoreImpl.IndexesAgree, LiveStoreImpl.ViewsAgree;
    }

    lemma Whole()
      requires QueueValid() && RegistriesValid() && NoRepeats(listeners) && IndexesAgree(all) && ViewsAgree(all)
      requires if disposed then Emptied() && pendingDeltas == [] else ListValid()
      ensures Valid()
    {
      hide LiveStoreImpl.Emptied, LiveStoreImpl.ListValid, LiveStoreImpl.QueueValid, LiveStoreImpl.RegistriesValid;
      hide LiveStoreImpl.IndexesAgree, LiveStoreImpl.ViewsAgree;
    }

    lemma QueueParts()
      requires QueueValid()
      ensures OrderValid() && changedViews.Valid() && notifyDepth == 0 && (pendingDeltas == [] ==> changedViews == NO_VIEWS) && (bulkDepth == 0 ==> pendingDeltas == [])
    {
    }

    lemma NothingQueued()
      requires pendingDeltas == [] && changedViews == NO_VIEWS && notifyDepth == 0
      ensures QueueValid()
    {
    }

    lemma StillQueued()
      requires OrderValid() && (pendingDeltas == [] ==> changedViews == NO_VIEWS) && notifyDepth == 0 && bulkDepth > 0
      ensures QueueValid()
    {
    }

    constructor (initial: seq<Rec>)
      ensures Valid() && !disposed && all == Loaded(initial)
      ensures indexes == map[] && views == [] && listeners == [] && calls == [] && bulkDepth == 0
    {
      hide *;
      byId, insertionOrder, all, nextOrder := map[], map[], [], 0;
      indexes, views, live, keyedViews, listeners := map[], [], {}, map[], [];
      pendingDeltas, changedViews := [], NO_VIEWS;
      notifyDepth, bulkDepth, disposed, calls := 0, 0, false, [];
      new;
      Start(initial);
    }

    method Start(initial: seq<Rec>)
      requires byId == map[] && insertionOrder == map[] && all == [] && views == [] && live == {} && keyedViews == map[]
      requires pendingDeltas == [] && changedViews == NO_VIEWS && notifyDepth == 0 && listeners == [] && !disposed && indexes == map[]
      modifies this`byId, this`insertionOrder, this`nextOrder, this`all
      ensures Valid() && all == Loaded(initial)
    {
      hide *;
      StartsEmpty();
      Load(initial);
      StartsValid();
    }

    lemma StartsEmpty()
      requires byId == map[] && insertionOrder == map[] && all == [] && views == [] && live == {} && keyedViews == map[]
      requires pendingDeltas == [] && changedViews == NO_VIEWS && notifyDepth == 0
      ensures ListValid() && QueueValid() && RegistriesValid()
    {
    }

    lemma StartsValid()
      requires ListValid() && QueueValid() && RegistriesValid() && listeners == [] && !disposed && indexes == map[] && live == {}
      ensures Valid()
    {
      hide LiveStoreImpl.ListValid, LiveStoreImpl.QueueValid, LiveStoreImpl.RegistriesValid;
    }

    method Load(initial: seq<Rec>)
      requires ListValid() && all == []
      modifies this`byId, this`insertionOrder, this`nextOrder, this`all
      ensures ListValid() && all == Loaded(initial)
    {
      hide ListMatches;
      for i := 0 to |initial|
        invariant ListValid() && all == Loaded(initial[..i])
      {
        assert initial[..i + 1][..i] == initial[..i];
        LoadOne(initial[i]);
      }
      assert initial[..|initial|] == initial;
    }

    method LoadOne(rec: Rec)
      requires ListValid()
      modifies this`byId, this`insertionOrder, this`nextOrder, this`all
      ensures ListValid()
      ensures all == if FindIndex(old(all), (r: Rec) => r.id == rec.id) == -1 then old(all) + [rec] else ReplaceById(old(all), rec)
    {
      if rec.id in byId {
        ReplaceRecord(byId[rec.id], rec);
      } else {
        AppendRecord(rec);
      }
    }

    method AppendRecord(rec: Rec)
      requires ListValid() && forall r | r in all :: r.id != rec.id
      modifies this`byId, this`insertionOrder, this`nextOrder, this`all
      ensures ListValid() && all == old(all) + [rec]
      ensures byId == old(byId)[rec.id := rec] && insertionOrder == old(insertionOrder)[rec.id := old(nextOrder)] && nextOrder == old(nextOrder) + 1
    {
      hide ListMatches, RemoveById, ReplaceById;
      AppendMatches(all, byId, insertionOrder, nextOrder, rec);
      byId, insertionOrder := byId[rec.id := rec], insertionOrder[rec.id := nextOrder];
      nextOrder, all := nextOrder + 1, all + [rec];
    }

    method ReplaceRecord(prev: Rec, rec: Rec)
      requires ListValid() && prev in all && prev.id == rec.id
      modifies this`byId, this`all
      ensures ListValid() && all == ReplaceById(old(all), rec) && byId == old(byId)[rec.id := rec]
    {
      hide ListMatches, RemoveById, ReplaceById;
      ReplaceMatches(all, byId, insertionOrder, nextOrder, prev, rec);
      byId, all := byId[rec.id := rec], ReplaceById(all, rec);
    }

    method DropRecord(prev: Rec)
      requires ListValid() && prev in all
      modifies this`byId, this`insertionOrder, this`all
      ensures ListValid() && all == RemoveById(old(all), prev.id)
      ensures byId == old(byId) - {prev.id} && insertionOrder == old(insertionOrder) - {prev.id}
    {
      hide ListMatches, RemoveById, ReplaceById;
      DropMatches(all, byId, insertionOrder, nextOrder, prev);
      byId, insertionOrder := byId - {prev.id}, insertionOrder - {prev.id};
      all := RemoveById(all, prev.id);
    }

    // ---------- a write, without its notifications ----------

    method UpdateIndexes(d: Delta, ghost list: seq<Rec>)
      requires IndexesAgree(list) && ValidStep(list, d) && DistinctIds(list)
      requires d.Update? ==> Ordered(list, insertionOrder)
      modifies indexes.Values
      ensures IndexesAgree(StoreStep(list, d))
    {
      hide DistinctIds, Ordered, MaintainedIndex.Agrees, ReplaceById, RemoveById;
      var todo := indexes.Keys;
      while todo != {}
        invariant todo <= indexes.Keys
        invariant forall n | n in todo :: indexes[n].Agrees(list)
        invariant forall n | n in indexes.Keys - todo :: indexes[n].Agrees(StoreStep(list, d))
      {
        var name :| name in todo;
        match d {
          case Add(rec) => indexes[name].Add(rec, list);
          case Update(_, rec, prev) => indexes[name].Update(prev, rec, insertionOrder, list);
          case Remove(_, prev) => indexes[name].Remove(prev, list);
        }
        todo := todo - {name};
      }
    }

    method ApplyToView(view: MaintainedView, d: Delta, ghost list: seq<Rec>) returns (changed: bool)
      requires view.Agrees(list) && ValidStep(list, d) && DistinctIds(list)
      requires d.Update? ==> Ordered(list, insertionOrder)
      modifies view`current, view`past
      ensures view.Agrees(StoreStep(list, d)) && view.past == Longer(old(view.past), [d])
      ensures changed == Touches(d, view.filter)
    {
      match d {
        case Add(rec) => changed := view.ApplyAdd(rec, list);
        case Update(_, rec, prev) => changed := view.ApplyUpdate(prev, rec, insertionOrder, list);
        case Remove(_, prev) => changed := view.ApplyRemove(prev, list);
      }
    }

    method UpdateViews(d: Delta, ghost list: seq<Rec>)
      requires RegistriesValid() && ViewsAgree(list) && ValidStep(list, d) && DistinctIds(list)
      requires d.Update? ==> Ordered(list, insertionOrder)
      requires OrderValid()
      modifies this`changedViews, live`current, live`past
      ensures RegistriesValid() && ViewsAgree(StoreStep(list, d)) && OrderValid()
      ensures forall v | v in live :: v.past == Longer(old(v.past), [d])
      ensures changedViews == Marked(old(changedViews), views, d)
    {
      hide StoreStep, ValidStep, DistinctIds, Ordered, MaintainedView.Agrees, Marked, ChangedViews.Valid;
      hide LiveStoreImpl.AllHeld, Keyed;
      MarkedOrder(changedViews, views, d);
      ApplyToEach(d, list);
    }

    /** The first `i` views have taken the write, the others have not. */
    ghost predicate AppliedTo(i: nat, d: Delta, list: seq<Rec>, was: map<MaintainedView, (seq<Rec>, seq<Delta>)>)
      requires ValidStep(list, d)
      reads this`views, this`live, live`current, live`past
    {
      && Listed(views, live) && live == was.Keys && i <= |views|
      && (forall j | 0 <= j < i :: views[j].Agrees(StoreStep(list, d)) && views[j].past == Longer(was[views[j]], [d]))
      && (forall j | i <= j < |views| :: views[j].Agrees(list) && views[j].past == was[views[j]])
    }

    method ApplyToEach(d: Delta, ghost list: seq<Rec>)
      requires Listed(views, live) && ValidStep(list, d) && DistinctIds(list)
      requires d.Update? ==> Ordered(list, insertionOrder)
      requires changedViews.Valid() && forall j | 0 <= j < |views| :: views[j].Agrees(list)
      modifies this`changedViews, live`current, live`past
      ensures forall j | 0 <= j < |views| :: views[j].Agrees(StoreStep(list, d)) && views[j].past == Longer(old(views[j].past), [d])
      ensures changedViews == Marked(old(changedViews), views, d)
    {
      hide StoreStep, ValidStep, DistinctIds, Ordered, MaintainedView.Agrees, Marked, ChangedViews.Valid, Longer;
      ghost var was := map v | v in live :: v.past;
      MarkedNone(changedViews, views, d);
      assert forall j | 0 <= j < |views| :: views[j] in live;
      ApplyFrom(d, list, was);
    }

    method ApplyFrom(d: Delta, ghost list: seq<Rec>, ghost was: map<MaintainedView, (seq<Rec>, seq<Delta>)>)
      requires ValidStep(list, d) && DistinctIds(list) && (d.Update? ==> Ordered(list, insertionOrder))
      requires AppliedTo(0, d, list, was) && changedViews.Valid() && changedViews == Marked(changedViews, views[..0], d)
      modifies this`changedViews, live`current, live`past
      ensures AppliedTo(|views|, d, list, was) && changedViews == Marked(old(changedViews), views, d)
    {
      hide *;
      for i := 0 to |views|
        invariant AppliedTo(i, d, list, was) && changedViews == Marked(old(changedViews), views[..i], d)
      {
        ApplyToOne(i, d, list, was);
        MarkedStep(old(changedViews), views, i, d);
      }
      assert views[..|views|] == views;
    }

    method ApplyToOne(i: nat, d: Delta, ghost list: seq<Rec>, ghost was: map<MaintainedView, (seq<Rec>, seq<Delta>)>)
      requires ValidStep(list, d) && DistinctIds(list) && (d.Update? ==> Ordered(list, insertionOrder))
      requires AppliedTo(i, d, list, was) && i < |views|
      modifies this`changedViews, live`current, live`past
      ensures AppliedTo(i + 1, d, list, was)
      ensures changedViews == if Touches(d, views[i].filter) then old(changedViews).Set(views[i], d) else old(changedViews)
    {
      hide StoreStep, ValidStep, DistinctIds, Ordered, MaintainedView.Agrees, Touches, Longer, Listed, ChangedViews.Set;
      ListedOnce(views, live, i);
      var changed := ApplyToView(views[i], d, list);
      if changed {
        changedViews := changedViews.Set(views[i], d);
      }
    }

    method UpdateRecords(d: Delta)
      requires ListValid() && ValidStep(all, d)
      modifies this`byId, this`insertionOrder, this`nextOrder, this`all
      ensures ListValid() && all == StoreStep(old(all), d)
      ensures byId == HeldAfter(old(byId), d) && insertionOrder == OrderAfter(old(insertionOrder), old(nextOrder), d)
      ensures DistinctIds(old(all)) && (d.Update? ==> Ordered(old(all), insertionOrder))
    {
      hide DistinctIds, Ordered, ReplaceById, RemoveById;
      match d {
        case Add(rec) => AppendRecord(rec);
        case Update(_, rec, prev) => ReplaceRecord(prev, rec);
        case Remove(_, prev) => DropRecord(prev);
      }
    }

    // ---------- notifications ----------

    /** `flushNotifications` with callbacks that only listen. */
    method Flush()
      requires changedViews.Valid() && (pendingDeltas == [] ==> changedViews == NO_VIEWS)
      requires notifyDepth == 0 && bulkDepth == 0 && (disposed ==> pendingDeltas == [])
      modifies this`pendingDeltas, this`changedViews, this`notifyDepth, this`calls
      ensures pendingDeltas == [] && changedViews == NO_VIEWS && notifyDepth == 0
      ensures old(pendingDeltas) == [] ==> calls == old(calls)
      ensures old(pendingDeltas) != [] ==> calls == old(calls) + Round(listeners, old(pendingDeltas), old(changedViews))
    {
      hide Round;
      if notifyDepth > 0 {
        return;
      }
      notifyDepth := notifyDepth + 1;
      ghost var owed := if pendingDeltas == [] then [] else Round(listeners, pendingDeltas, changedViews);
      while pendingDeltas != [] && !disposed
        invariant notifyDepth == 1
        invariant pendingDeltas != [] ==> pendingDeltas == old(pendingDeltas) && changedViews == old(changedViews)
        invariant pendingDeltas == [] ==> changedViews == NO_VIEWS
        invariant calls == old(calls) + (if pendingDeltas == [] then owed else [])
        decreases |pendingDeltas|
      {
        var deltas, changed := pendingDeltas, changedViews;
        pendingDeltas, changedViews := [], NO_VIEWS;
        DeliverRound(deltas, changed);
      }
      notifyDepth := notifyDepth - 1;
    }

    /** One round: every listener, then every changed view. */
    method DeliverRound(deltas: seq<Delta>, changed: ChangedViews)
      requires deltas != [] && changed.Valid()
      modifies this`calls
      ensures calls == old(calls) + Round(listeners, deltas, changed)
    {
      var heard := CallListeners(deltas[|deltas| - 1]);
      var shown := NotifyViews(changed);
      calls := calls + (heard + shown);
    }

    method CallListeners(d: Delta) returns (made: seq<Call>)
      ensures made == ListenerCalls(listeners, d)
    {
      made := [];
      for i := 0 to |listeners|
        invariant made == ListenerCalls(listeners[..i], d)
      {
        made := made + [ListenerCall(listeners[i], d)];
      }
      assert listeners[..|listeners|] == listeners;
    }

    method NotifyViews(changed: ChangedViews) returns (made: seq<Call>)
      requires changed.Valid()
      ensures made == ViewCalls(changed.order, changed.deltas)
    {
      hide NotifyCalls;
      made := [];
      var order := changed.order;
      for i := 0 to |order|
        invariant made == ViewCalls(order[..i], changed.deltas)
      {
        assert order[..i + 1][..i] == order[..i];
        var shown := Notify(order[i], changed.deltas[order[i]]);
        made := made + shown;
      }
      assert order[..|order|] == order;
    }

    /** `MaintainedView.notify`: nothing on a dead view, and one list for all its subscribers. */
    method Notify(view: MaintainedView, d: Delta) returns (made: seq<Call>)
      ensures made == NotifyCalls(view, d)
    {
      made := [];
      if view.disposed {
        return;
      }
      var list, subscribers := view.current, view.subscribers;
      for i := 0 to |subscribers|
        invariant made == NotifyCalls(view, d)[..i]
      {
        made := made + [ViewCall(view, subscribers[i], list, d)];
      }
    }

    /** The store, every index and every view take the write; views it touches are marked. */
    method ApplyDelta(d: Delta)
      requires ListValid() && ValidStep(all, d) && IndexesAgree(all) && ViewsAgree(all)
      requires RegistriesValid() && OrderValid()
      modifies this`byId, this`insertionOrder, this`nextOrder, this`all, this`changedViews
      modifies indexes.Values, live`current, live`past
      ensures byId == HeldAfter(old(byId), d) && insertionOrder == OrderAfter(old(insertionOrder), old(nextOrder), d)
      ensures ListValid() && all == StoreStep(old(all), d) && IndexesAgree(all) && ViewsAgree(all) && RegistriesValid() && OrderValid()
      ensures forall v | v in live :: v.past == Longer(old(v.past), [d])
      ensures changedViews == Marked(old(changedViews), views, d)
    {
      hide LiveStoreImpl.IndexesAgree, LiveStoreImpl.ViewsAgree, LiveStoreImpl.ListValid, LiveStoreImpl.RegistriesValid;
      hide StoreStep, ValidStep, Marked, ChangedViews.Valid, DistinctIds, Ordered;
      ghost var list := all;
      UpdateRecords(d);
      UpdateIndexes(d, list);
      UpdateViews(d, list);
    }

    method QueueNotifications(d: Delta)
      requires OrderValid() && notifyDepth == 0 && !disposed
      modifies this`pendingDeltas, this`changedViews, this`notifyDepth, this`calls
      ensures QueueValid()
      ensures bulkDepth > 0 ==> pendingDeltas == old(pendingDeltas) + [d] && changedViews == old(changedViews) && calls == old(calls)
      ensures bulkDepth == 0 ==> pendingDeltas == [] && changedViews == NO_VIEWS
      ensures bulkDepth == 0 ==> calls == old(calls) + Round(listeners, old(pendingDeltas) + [d], old(changedViews))
    {
      pendingDeltas := pendingDeltas + [d];
      if bulkDepth == 0 {
        Flush();
      }
    }

    /** `applyDelta` and `queueNotifications`. */
    method Write(d: Delta)
      requires Valid() && !disposed && ValidStep(all, d)
      modifies this`byId, this`insertionOrder, this`nextOrder, this`all
      modifies this`pendingDeltas, this`changedViews, this`notifyDepth, this`calls
      modifies indexes.Values, live`current, live`past
      ensures Valid() && all == StoreStep(old(all), d)
      ensures byId == HeldAfter(old(byId), d) && insertionOrder == OrderAfter(old(insertionOrder), old(nextOrder), d)
      ensures forall v | v in live :: v.past == Longer(old(v.past), [d])
      ensures bulkDepth > 0 ==>
        pendingDeltas == old(pendingDeltas) + [d] && changedViews == Marked(old(changedViews), views, d) && calls == old(calls)
      ensures bulkDepth == 0 ==> calls == old(calls) + Round(listeners, [d], Marked(NO_VIEWS, views, d))
    {
      hide *;
      Parts();
      QueueParts();
      assert pendingDeltas == [] ==> pendingDeltas + [d] == [d];
      ApplyDelta(d);
      QueueNotifications(d);
      Whole();
    }

    // ---------- the store's own operations ----------

    method Upsert(rec: Rec) returns (r: Result<Delta, StoreError>)
      requires Valid()
      modifies this`byId, this`insertionOrder, this`nextOrder, this`all
      modifies this`pendingDeltas, this`changedViews, this`notifyDepth, this`calls
      modifies indexes.Values, live`current, live`past
      ensures Valid()
      ensures disposed ==> r == Failure(StoreDisposed) && unchanged(this)
      ensures !disposed ==> r == Success(if rec.id in old(byId) then Update(rec.id, rec, old(byId)[rec.id]) else Add(rec))
      ensures !disposed ==> byId == old(byId)[rec.id := rec]
      ensures !disposed ==> insertionOrder == if rec.id in old(byId) then old(insertionOrder) else old(insertionOrder)[rec.id := old(nextOrder)]
      ensures !disposed ==> r.value == PutDelta(old(all), rec) && all == StoreStep(old(all), r.value)
      ensures !disposed ==> forall v | v in live :: v.past == Longer(old(v.past), [r.value])
      ensures !disposed && bulkDepth > 0 ==>
        pendingDeltas == old(pendingDeltas) + [r.value] && changedViews == Marked(old(changedViews), views, r.value) && calls == old(calls)
      ensures !disposed && bulkDepth == 0 ==> calls == old(calls) + Round(listeners, [r.value], Marked(NO_VIEWS, views, r.value))
    {
      if disposed {
        return Failure(StoreDisposed);
      }
      var delta := if rec.id in byId then Update(rec.id, rec, byId[rec.id]) else Add(rec);
      PutDeltaFound(rec);
      Write(delta);
      r := Success(delta);
    }

    lemma PutDeltaFound(rec: Rec)
      requires ListValid()
      ensures PutDelta(all, rec) == if rec.id in byId then Update(rec.id, rec, byId[rec.id]) else Add(rec)
      ensures ValidStep(all, PutDelta(all, rec))
    {
      if rec.id in byId {
        UniqueById(all, byId[rec.id]);
      }
    }

    method RemoveId(id: Id) returns (r: Result<Option<Delta>, StoreError>)
      requires Valid()
      modifies this`byId, this`insertionOrder, this`nextOrder, this`all
      modifies this`pendingDeltas, this`changedViews, this`notifyDepth, this`calls
      modifies indexes.Values, live`current, live`past
      ensures Valid()
      ensures disposed ==> r == Failure(StoreDisposed) && unchanged(this)
      ensures !disposed ==> r == Success(if id in old(byId) then Some(Remove(id, old(byId)[id])) else None)
      ensures !disposed ==> byId == old(byId) - {id} && insertionOrder == old(insertionOrder) - {id}
      ensures !disposed ==> id !in byId && forall x | x in all :: x.id != id
      ensures !disposed ==> r.value == DropDelta(old(all), id)
      ensures !disposed && r.value.None? ==> unchanged(this) && forall v | v in live :: unchanged(v)
      ensures !disposed && r.value.Some? ==> all == StoreStep(old(all), r.value.value)
      ensures !disposed && r.value.Some? ==> forall v | v in live :: v.past == Longer(old(v.past), [r.value.value])
      ensures !disposed && r.value.Some? && bulkDepth > 0 ==>
        pendingDeltas == old(pendingDeltas) + [r.value.value] && changedViews == Marked(old(changedViews), views, r.value.value) && calls == old(calls)
      ensures !disposed && r.value.Some? && bulkDepth == 0 ==>
        calls == old(calls) + Round(listeners, [r.value.value], Marked(NO_VIEWS, views, r.value.value))
    {
      hide *;
      if disposed {
        return Failure(StoreDisposed);
      }
      if id !in byId {
        NotHeld(id);
        return Success(None);
      }
      var delta := RemoveHeld(id);
      NotHeld(id);
      r := Success(Some(delta));
    }

    method RemoveHeld(id: Id) returns (delta: Delta)
      requires Valid() && !disposed && id in byId
      modifies this`byId, this`insertionOrder, this`nextOrder, this`all
      modifies this`pendingDeltas, this`changedViews, this`notifyDepth, this`calls
      modifies indexes.Values, live`current, live`past
      ensures Valid() && delta == Remove(id, old(byId)[id]) && DropDelta(old(all), id) == Some(delta)
      ensures byId == old(byId) - {id} && insertionOrder == old(insertionOrder) - {id} && all == StoreStep(old(all), delta)
      ensures forall v | v in live :: v.past == Longer(old(v.past), [delta])
      ensures bulkDepth > 0 ==>
        pendingDeltas == old(pendingDeltas) + [delta] && changedViews == Marked(old(changedViews), views, delta) && calls == old(calls)
      ensures bulkDepth == 0 ==> calls == old(calls) + Round(listeners, [delta], Marked(NO_VIEWS, views, delta))
    {
      Parts();
      DropDeltaFound(id);
      hide *;
      delta := Remove(id, byId[id]);
      RemovedFrom(byId, insertionOrder, nextOrder, delta);
      Write(delta);
    }

    lemma NotHeld(id: Id)
      requires Valid() && id !in byId
      ensures byId == byId - {id} && forall x | x in all :: x.id != id
      ensures !disposed ==> insertionOrder == insertionOrder - {id} && DropDelta(all, id) == None
    {
      HoldsItsMap();
      if !disposed {
        DropDeltaFound(id);
      }
    }

    lemma DropDeltaFound(id: Id)
      requires ListValid()
      ensures DropDelta(all, id) == if id in byId then Some(Remove(id, byId[id])) else None
      ensures id in byId ==> ValidStep(all, Remove(id, byId[id]))
      ensures id in insertionOrder ==> id in byId
    {
      if id in byId {
        UniqueById(all, byId[id]);
      }
    }

    /** The list is the map's records, each once, by insertion number. */
    lemma HoldsItsMap()
      requires Valid()
      ensures forall r :: r in all <==> r.id in byId && byId[r.id] == r
      ensures !disposed ==> forall i, j | 0 <= i < j < |all| ::
        all[i].id in insertionOrder && all[j].id in insertionOrder && insertionOrder[all[i].id] < insertionOrder[all[j].id]
      ensures !disposed ==> forall id | id in insertionOrder :: id in byId && insertionOrder[id] < nextOrder
    {
      if !disposed {
        assert ListMatches(all, byId, insertionOrder, nextOrder);
        forall i, j | 0 <= i < j < |all| ensures OrderOf(insertionOrder, all[i].id) < OrderOf(insertionOrder, all[j].id) {
        }
      }
    }

    method Index(name: string, keyOf: KeyOf) returns (r: Result<MaintainedIndex, StoreError>)
      requires Valid()
      modifies this`indexes
      ensures Valid()
      ensures disposed ==> r == Failure(StoreDisposed) && indexes == old(indexes)
      ensures !disposed ==> r.Success? && name in indexes && indexes[name] == r.value && r.value.Agrees(all)
      ensures !disposed && name in old(indexes) ==> indexes == old(indexes)
      ensures !disposed && name !in old(indexes) ==>
        fresh(r.value) && r.value.keyOf == keyOf && indexes == old(indexes)[name := r.value]
    {
      hide MaintainedIndex.Agrees, LiveStoreImpl.Valid, LiveStoreImpl.ViewsAgree, LiveStoreImpl.RegistriesValid;
      hide LiveStoreImpl.ListValid;
      hide ChangedViews.Valid;
      Parts();
      if disposed {
        return Failure(StoreDisposed);
      }
      if name in indexes {
        return Success(indexes[name]);
      }
      var index := FilledIndex(keyOf);
      indexes := indexes[name := index];
      Whole();
      r := Success(index);
    }

    method FilledIndex(keyOf: KeyOf) returns (index: MaintainedIndex)
      ensures fresh(index) && index.keyOf == keyOf && index.Agrees(all)
    {
      hide MaintainedIndex.Agrees;
      index := new MaintainedIndex(keyOf);
      for i := 0 to |all|
        invariant index.Agrees(all[..i])
        modifies index
      {
        index.Add(all[i], all[..i]);
        assert all[..i + 1] == all[..i] + [all[i]];
      }
      assert all[..|all|] == all;
    }

    /** A key takes the view registered under it, whatever the filter; only a miss makes a view. */
    method View(filter: Filter, key: Option<string>, compare: Option<Compare>) returns (r: Result<MaintainedView, StoreError>)
      requires Valid()
      modifies this`views, this`live, this`keyedViews, live`refCount, live`acquired
      ensures Valid()
      ensures disposed ==> r == Failure(StoreDisposed) && unchanged(this) && unchanged(old(live))
      ensures !disposed ==> r.Success? && r.value in live && !r.value.disposed && r.value.Agrees(all)
      ensures !disposed && key.Some? && key.value != "" && key.value in old(keyedViews) ==>
        && r.value == old(keyedViews)[key.value] && unchanged(this)
        && r.value.refCount == old(r.value.refCount) + 1 && r.value.acquired == old(r.value.acquired) + 1
      ensures !disposed && !(key.Some? && key.value != "" && key.value in old(keyedViews)) ==>
        && fresh(r.value) && views == old(views) + [r.value] && r.value.refCount == 1 && r.value.past == (all, [])
        && r.value.filter == filter && r.value.compare == compare && r.value.key == key
        && keyedViews == if key.Some? && key.value != "" then old(keyedViews)[key.value := r.value] else old(keyedViews)
      ensures forall v | v in old(live) && r.Success? && v != r.value :: unchanged(v)
    {
      if disposed {
        return Failure(StoreDisposed);
      }
      hide LiveStoreImpl.Valid, LiveStoreImpl.RegistriesValid, LiveStoreImpl.ViewsAgree, LiveStoreImpl.IndexesAgree;
      hide LiveStoreImpl.QueueValid;
      hide MaintainedView.Agrees, MaintainedView.Held;
      if Truthy(key) && key.value in keyedViews {
        var existing := KeyedView(key.value);
        return Success(existing);
      }
      var view := MakeView(filter, key, compare);
      r := Success(view);
    }

    method MakeView(filter: Filter, key: Option<string>, compare: Option<Compare>) returns (view: MaintainedView)
      requires Valid() && !disposed && !(Truthy(key) && key.value in keyedViews)
      modifies this`views, this`live, this`keyedViews
      ensures Valid() && fresh(view) && view in live && view.Agrees(all)
      ensures views == old(views) + [view] && view.Held() && view.refCount == 1 && view.past == (all, [])
      ensures view.filter == filter && view.compare == compare && view.key == key
      ensures keyedViews == if Truthy(key) then old(keyedViews)[key.value := view] else old(keyedViews)
    {
      assert DistinctIds(all);
      hide *;
      view := new MaintainedView(filter, all, key, compare);
      Register(view);
    }

    method KeyedView(key: string) returns (view: MaintainedView)
      requires Valid() && key in keyedViews
      modifies live`refCount, live`acquired
      ensures Valid() && view == keyedViews[key] && view in live && view.Held() && view.Agrees(all)
      ensures view.refCount == old(view.refCount) + 1 && view.acquired == old(view.acquired) + 1
      ensures forall v | v in live && v != view :: unchanged(v)
    {
      hide LiveStoreImpl.Valid, LiveStoreImpl.RegistriesValid, LiveStoreImpl.ViewsAgree, LiveStoreImpl.IndexesAgree;
      hide LiveStoreImpl.ListValid;
      hide LiveStoreImpl.Emptied, MaintainedView.Agrees, MaintainedView.Held, ChangedViews.Valid;
      Parts();
      view := RetainKeyed(key);
      LiveAgrees(view, all);
      Whole();
    }

    lemma LiveAgrees(view: MaintainedView, list: seq<Rec>)
      requires ViewsAgree(list) && view in live
      ensures view.Agrees(list)
    {
    }

    method RetainKeyed(key: string) returns (view: MaintainedView)
      requires RegistriesValid() && key in keyedViews
      modifies live`refCount, live`acquired
      ensures RegistriesValid() && view == keyedViews[key] && view in live && view.Held()
      ensures view.refCount == old(view.refCount) + 1 && view.acquired == old(view.acquired) + 1
      ensures forall v | v in live && v != view :: unchanged(v)
    {
      hide Listed;
      view := keyedViews[key];
      view.Retain();
    }

    method Register(view: MaintainedView)
      requires Valid() && !disposed && view !in live && view.Held() && view.Agrees(all)
      requires !(Truthy(view.key) && view.key.value in keyedViews)
      modifies this`views, this`live, this`keyedViews
      ensures Valid() && views == old(views) + [view] && live == old(live) + {view}
      ensures keyedViews == if Truthy(view.key) then old(keyedViews)[view.key.value := view] else old(keyedViews)
    {
      hide ListMatches, MaintainedView.Agrees, MaintainedView.Held, ChangedViews.Valid, LiveStoreImpl.IndexesAgree;
      hide LiveStoreImpl.Valid, Keyed, Listed, LiveStoreImpl.ListValid;
      Parts();
      KeyedMore(keyedViews, live, view);
      ListedMore(views, live, view);
      views, live := views + [view], live + {view};
      if Truthy(view.key) {
        keyedViews := keyedViews[view.key.value := view];
      }
      Whole();
    }

    /** `onZeroRefs`: the callback a dying view runs. */
    method Unregister(view: MaintainedView)
      requires view in live && Listed(views, live) && Keyed(keyedViews, live) && forall v | v in live - {view} :: v.Held()
      modifies this`views, this`live, this`keyedViews
      ensures RegistriesValid() && views == Without(old(views), view) && live == old(live) - {view}
      ensures keyedViews == if Truthy(view.key) then old(keyedViews) - {view.key.value} else old(keyedViews)
    {
      WithoutListed(views, live, view);
      KeyedLess(keyedViews, live, view);
      hide Listed, Keyed, Without;
      views, live := Without(views, view), live - {view};
      if Truthy(view.key) {
        keyedViews := keyedViews - {view.key.value};
      }
    }

    /** `view.dispose()`: only the last holder takes the view out of the registries. */
    method Release(view: MaintainedView)
      requires Valid() && (view in live || (view.disposed && view.Counted()))
      modifies this`views, this`live, this`keyedViews, view
      ensures Valid()
      ensures old(view.disposed) ==> unchanged(this) && unchanged(view)
      ensures !old(view.disposed) ==> view.released == old(view.released) + 1 && view.acquired == old(view.acquired)
      ensures !old(view.disposed) && view.acquired > view.released ==> unchanged(this) && view.Held()
      ensures !old(view.disposed) && view.acquired == view.released ==>
        && view.disposed && live == old(live) - {view} && views == Without(old(views), view)
        && keyedViews == if view.key.Some? && view.key.value != "" then old(keyedViews) - {view.key.value} else old(keyedViews)
    {
      hide ListMatches, MaintainedView.Agrees, MaintainedIndex.Agrees, Without, ChangedViews.Valid, Listed, Keyed;
      hide LiveStoreImpl.ListValid, LiveStoreImpl.IndexesAgree, LiveStoreImpl.Valid;
      Parts();
      ghost var dead := view.disposed;
      if !dead {
        LiveMeansActive(view);
      }
      var zero := view.Dispose();
      if zero {
        Unregister(view);
      }
      if !dead {
        Whole();
      }
    }

    lemma LiveMeansActive(view: MaintainedView)
      requires Valid() && view in live
      ensures !disposed
    {
      hide LiveStoreImpl.ListValid, LiveStoreImpl.QueueValid, LiveStoreImpl.RegistriesValid, LiveStoreImpl.IndexesAgree;
      hide LiveStoreImpl.ViewsAgree;
    }

    /** `view.subscribe(cb)` keeps the store valid, whether or not the view is alive. */
    method Subscribe(view: MaintainedView, cb: Callback) returns (taken: bool)
      requires Valid() && (view in live || (view.disposed && view.Counted()))
      modifies view`subscribers
      ensures Valid() && taken == (view in live)
      ensures view.subscribers == if taken && cb !in old(view.subscribers) then old(view.subscribers) + [cb] else old(view.subscribers)
    {
      hide ListMatches, ChangedViews.Valid, LiveStoreImpl.IndexesAgree, LiveStoreImpl.ViewsAgree;
      assert view in live ==> view.Held();
      taken := view.Subscribe(cb);
    }

    /** The disposer of a subscription. */
    method Unsubscribe(view: MaintainedView, cb: Callback)
      requires Valid() && (view in live || (view.disposed && view.Counted()))
      modifies view`subscribers
      ensures Valid() && view.subscribers == Without(old(view.subscribers), cb)
    {
      hide ListMatches, ChangedViews.Valid, LiveStoreImpl.IndexesAgree, LiveStoreImpl.ViewsAgree;
      assert view in live ==> view.Held();
      view.Unsubscribe(cb);
    }

    method Listen(cb: Callback) returns (r: Result<(), StoreError>)
      requires Valid()
      modifies this`listeners
      ensures Valid()
      ensures disposed ==> r == Failure(StoreDisposed) && listeners == old(listeners)
      ensures !disposed ==> r == Success(()) && listeners == if cb in old(listeners) then old(listeners) else old(listeners) + [cb]
    {
      hide ListMatches, ChangedViews.Valid, LiveStoreImpl.IndexesAgree, LiveStoreImpl.ViewsAgree, LiveStoreImpl.RegistriesValid;
      if disposed {
        return Failure(StoreDisposed);
      }
      if cb !in listeners {
        listeners := listeners + [cb];
      }
      r := Success(());
    }

    method Unlisten(cb: Callback)
      requires Valid()
      modifies this`listeners
      ensures Valid() && listeners == Without(old(listeners), cb)
    {
      hide ListMatches, ChangedViews.Valid, LiveStoreImpl.IndexesAgree, LiveStoreImpl.ViewsAgree, LiveStoreImpl.RegistriesValid;
      WithoutNoRepeats(listeners, cb);
      listeners := Without(listeners, cb);
    }

    // ---------- bulk ----------

    method BeginBulk() returns (r: Result<(), StoreError>)
      requires Valid()
      modifies this`bulkDepth
      ensures Valid()
      ensures disposed ==> r == Failure(StoreDisposed) && bulkDepth == old(bulkDepth)
      ensures !disposed ==> r == Success(()) && bulkDepth == old(bulkDepth) + 1
    {
      hide ListMatches, ChangedViews.Valid, LiveStoreImpl.IndexesAgree, LiveStoreImpl.ViewsAgree, LiveStoreImpl.RegistriesValid;
      if disposed {
        return Failure(StoreDisposed);
      }
      bulkDepth := bulkDepth + 1;
      r := Success(());
    }

    method EndBulk()
      requires Valid() && bulkDepth > 0
      modifies this`bulkDepth, this`pendingDeltas, this`changedViews, this`notifyDepth, this`calls
      ensures Valid() && bulkDepth == old(bulkDepth) - 1
      ensures bulkDepth > 0 ==> pendingDeltas == old(pendingDeltas) && changedViews == old(changedViews) && calls == old(calls)
      ensures bulkDepth == 0 && old(pendingDeltas) == [] ==> calls == old(calls)
      ensures bulkDepth == 0 && old(pendingDeltas) != [] ==>
        calls == old(calls) + Round(listeners, old(pendingDeltas), old(changedViews))
    {
      hide *;
      Parts();
      QueueParts();
      bulkDepth := bulkDepth - 1;
      if bulkDepth == 0 {
        Flush();
        NothingQueued();
      } else {
        StillQueued();
      }
      Whole();
    }

    /** A bulk whose body only writes: one round for all its writes together. */
    method Bulk(ops: seq<Op>) returns (r: Result<(), StoreError>)
      requires Valid() && bulkDepth == 0
      modifies this`byId, this`insertionOrder, this`nextOrder, this`all, this`bulkDepth
      modifies this`pendingDeltas, this`changedViews, this`notifyDepth, this`calls
      modifies indexes.Values, live`current, live`past
      ensures Valid() && bulkDepth == 0
      ensures disposed ==> r == Failure(StoreDisposed) && calls == old(calls)
      ensures !disposed ==> r == Success(()) && all == AllAfter(old(all), ops)
      ensures !disposed ==> forall v | v in live :: v.past == Longer(old(v.past), DeltasOf(old(all), ops))
      ensures !disposed ==> var deltas := DeltasOf(old(all), ops);
        calls == old(calls) + if deltas == [] then [] else Round(listeners, deltas, MarkedAll(NO_VIEWS, views, deltas))
    {
      hide *;
      Parts();
      QueueParts();
      r := BeginBulk();
      if disposed {
        return;
      }
      RunOps(ops);
      RanMeans(old(all), ops);
      EndBulk();
    }

    /** Where a bulk stands after these operations. */
    ghost predicate Ran(start: seq<Rec>, done: seq<Op>)
      reads this`all, this`pendingDeltas, this`changedViews, this`views
    {
      && all == AllAfter(start, done) && pendingDeltas == DeltasOf(start, done)
      && changedViews == MarkedAll(NO_VIEWS, views, pendingDeltas)
    }

    lemma RanMeans(start: seq<Rec>, done: seq<Op>)
      requires Ran(start, done)
      ensures all == AllAfter(start, done) && pendingDeltas == DeltasOf(start, done)
      ensures changedViews == MarkedAll(NO_VIEWS, views, pendingDeltas)
    {
    }

    /** Every live view's past is what it was and these writes. */
    ghost predicate GrownBy(was: map<MaintainedView, (seq<Rec>, seq<Delta>)>, ds: seq<Delta>)
      reads this`live, live`past
    {
      live == was.Keys && forall v | v in live :: v.past == Longer(was[v], ds)
    }

    method RunOps(ops: seq<Op>)
      requires Valid() && !disposed && bulkDepth > 0 && pendingDeltas == []
      modifies this`byId, this`insertionOrder, this`nextOrder, this`all
      modifies this`pendingDeltas, this`changedViews, this`notifyDepth, this`calls
      modifies indexes.Values, live`current, live`past
      ensures Valid() && calls == old(calls) && Ran(old(all), ops)
      ensures forall v | v in live :: v.past == Longer(old(v.past), DeltasOf(old(all), ops))
    {
      ghost var was := map v | v in live :: v.past;
      NothingRan(ops, was);
      hide *;
      RunAll(all, was, ops);
      Grew(was, DeltasOf(old(all), ops));
    }

    method RunAll(ghost start: seq<Rec>, ghost was: map<MaintainedView, (seq<Rec>, seq<Delta>)>, ops: seq<Op>)
      requires Valid() && !disposed && bulkDepth > 0 && Ran(start, ops[..0]) && GrownBy(was, DeltasOf(start, ops[..0]))
      modifies this`byId, this`insertionOrder, this`nextOrder, this`all
      modifies this`pendingDeltas, this`changedViews, this`notifyDepth, this`calls
      modifies indexes.Values, live`current, live`past
      ensures Valid() && calls == old(calls) && Ran(start, ops) && GrownBy(was, DeltasOf(start, ops))
    {
      hide *;
      for i := 0 to |ops|
        invariant Valid() && calls == old(calls) && Ran(start, ops[..i]) && GrownBy(was, DeltasOf(start, ops[..i]))
      {
        RunNext(start, was, ops, i);
      }
      assert ops[..|ops|] == ops;
    }

    lemma Grew(was: map<MaintainedView, (seq<Rec>, seq<Delta>)>, ds: seq<Delta>)
      requires GrownBy(was, ds)
      ensures live == was.Keys && forall v | v in live :: v.past == Longer(was[v], ds)
    {
    }

    lemma NothingRan(ops: seq<Op>, was: map<MaintainedView, (seq<Rec>, seq<Delta>)>)
      requires Valid() && pendingDeltas == [] && was == map v | v in live :: v.past
      ensures Ran(all, ops[..0]) && GrownBy(was, DeltasOf(all, ops[..0]))
    {
      assert changedViews == MarkedAll(NO_VIEWS, views, []);
      OpsNone(all, ops);
      forall v | v in live ensures v.past == Longer(v.past, DeltasOf(all, ops[..0])) {
        LongerTwice(v.past, [], []);
      }
    }

    method RunNext(ghost start: seq<Rec>, ghost was: map<MaintainedView, (seq<Rec>, seq<Delta>)>, ops: seq<Op>, i: nat)
      requires Valid() && !disposed && bulkDepth > 0 && i < |ops| && Ran(start, ops[..i])
      requires GrownBy(was, DeltasOf(start, ops[..i]))
      modifies this`byId, this`insertionOrder, this`nextOrder, this`all
      modifies this`pendingDeltas, this`changedViews, this`notifyDepth, this`calls
      modifies indexes.Values, live`current, live`past
      ensures Valid() && calls == old(calls) && Ran(start, ops[..i + 1])
      ensures GrownBy(was, DeltasOf(start, ops[..i + 1]))
    {
      hide LiveStoreImpl.Valid, DeltaOf, AllAfter, DeltasOf, MarkedAll, StoreStep, Longer;
      OpsStep(start, ops, i);
      RunOp(ops[i]);
      forall v | v in live ensures v.past == Longer(was[v], DeltasOf(start, ops[..i + 1])) {
        LongerTwice(was[v], DeltasOf(start, ops[..i]), DeltaList(AllAfter(start, ops[..i]), ops[i]));
      }
    }

    method RunOp(op: Op)
      requires Valid() && !disposed && bulkDepth > 0 && changedViews == MarkedAll(NO_VIEWS, views, pendingDeltas)
      modifies this`byId, this`insertionOrder, this`nextOrder, this`all
      modifies this`pendingDeltas, this`changedViews, this`notifyDepth, this`calls
      modifies indexes.Values, live`current, live`past
      ensures Valid() && calls == old(calls)
      ensures changedViews == MarkedAll(NO_VIEWS, views, pendingDeltas)
      ensures var d := DeltaOf(old(all), op);
        && all == (if d.Some? then StoreStep(old(all), d.value) else old(all))
        && pendingDeltas == (if d.Some? then old(pendingDeltas) + [d.value] else old(pendingDeltas))
      ensures forall v | v in live :: v.past == Longer(old(v.past), DeltaList(old(all), op))
    {
      hide StoreStep, Marked, LiveStoreImpl.Valid, Round, PutDelta, DropDelta, Longer;
      match op {
        case Put(rec) =>
          var put := Upsert(rec);
          assert pendingDeltas[..|pendingDeltas| - 1] == old(pendingDeltas);
        case Drop(id) =>
          var dropped := RemoveId(id);
          assert dropped.value.Some? ==> pendingDeltas[..|pendingDeltas| - 1] == old(pendingDeltas);
          forall v | v in live ensures Longer(v.past, []) == v.past {
            LongerTwice(v.past, [], []);
          }
      }
    }

    // ---------- the end ----------

    method DisposeStore()
      requires Valid()
      modifies this, indexes.Values, live
      ensures Valid() && disposed && all == [] && views == [] && calls == old(calls)
      ensures forall v | v in old(live) :: v.disposed && v.Counted()
      ensures !old(disposed) ==> forall n | n in old(indexes) :: old(indexes)[n].Agrees([])
    {
      if disposed {
        return;
      }
      TearDown();
    }

    method TearDown()
      requires Listed(views, live) && (forall v | v in live :: v.Held()) && notifyDepth == 0
      modifies this, indexes.Values, live
      ensures Valid() && disposed && all == [] && views == [] && calls == old(calls)
      ensures forall v | v in old(live) :: v.disposed && v.Counted()
      ensures forall n | n in old(indexes) :: old(indexes)[n].Agrees([])
    {
      hide *;
      disposed, byId, all := true, map[], [];
      ClearIndexes();
      ForceDisposeViews();
      ghost var was, were := live, indexes;
      assert forall n | n in were :: were[n].Agrees([]);
      assert forall v | v in was :: v.disposed && v.Counted();
      Forget();
      assert forall v | v in was :: v.disposed && v.Counted();
      assert forall n | n in were :: were[n].Agrees([]);
    }

    method Forget()
      requires disposed && byId == map[] && all == [] && notifyDepth == 0
      modifies this
      ensures Valid() && disposed && all == [] && views == [] && calls == old(calls)
    {
      hide *;
      indexes, views, live, keyedViews, listeners := map[], [], {}, map[], [];
      pendingDeltas, changedViews := [], ChangedViews([], map[]);
      EndsValid();
    }

    lemma EndsValid()
      requires disposed && all == [] && byId == map[] && indexes == map[] && views == [] && live == {} && keyedViews == map[]
      requires listeners == [] && pendingDeltas == [] && changedViews == ChangedViews([], map[]) && notifyDepth == 0
      ensures Valid()
    {
    }

    method ClearIndexes()
      modifies indexes.Values
      ensures forall n | n in indexes :: indexes[n].Agrees([])
    {
      hide MaintainedIndex.Agrees;
      var names := indexes.Keys;
      while names != {}
        invariant names <= indexes.Keys
        invariant forall n | n in indexes.Keys - names :: indexes[n].Agrees([])
      {
        var name :| name in names;
        indexes[name].Clear();
        names := names - {name};
      }
    }

    method ForceDisposeViews()
      requires Listed(views, live) && forall v | v in live :: v.Held()
      modifies live
      ensures forall v | v in live :: v.disposed && v.Counted()
    {
      for i := 0 to |views|
        invariant forall j | 0 <= j < i :: views[j].disposed && views[j].Counted()
        invariant forall j | i <= j < |views| :: views[j].Held()
      {
        views[i].ForceDispose();
      }
    }
  }

  // ---------- what the invariant says to a reader of the store ----------

  /** Any index, whenever it was made, answers as if it filtered the store now; its keys are the
      keys some record carries. */
  lemma IndexIsRecomputation(store: LiveStoreImpl, name: string, key: Key)
    requires store.Valid() && name in store.indexes
    ensures var index := store.indexes[name];
            && index.Get(key) == Select(store.all, HasKey(index.keyOf, key))
            && (forall r :: r in index.Get(key) <==>
                  r in store.all && (index.keyOf(r) == One(key) || (index.keyOf(r).Many? && key in index.keyOf(r).keys)))
            && (key in index.buckets <==>
                  exists r :: r in store.all && (index.keyOf(r) == One(key) || (index.keyOf(r).Many? && key in index.keyOf(r).keys)))
  {
    var index := store.indexes[name];
    assert index.Agrees(store.all);
    SelectMembers(store.all, HasKey(index.keyOf, key));
    if key in index.buckets {
      assert index.Get(key)[0] in index.Get(key);
    }
  }

  /** A plain view is the filtered store; a sorted one holds the same records in the one order of
      strictly increasing (compare, last touch). */
  lemma ViewIsRecomputation(store: LiveStoreImpl, view: MaintainedView)
    requires store.Valid() && view in store.live
    ensures view.compare.None? ==> view.current == Select(store.all, view.filter)
    ensures view.compare.Some? && TotalPreorder(view.compare.value) ==>
      var h := History(view.past.0, view.past.1, view.filter, view.compare.value);
      && Increasing(view.current, h.compare, Touch(h))
      && multiset(view.current) == multiset(Select(store.all, view.filter))
  {
    assert view.Agrees(store.all);
    if view.compare.Some? && TotalPreorder(view.compare.value) {
      var h := History(view.past.0, view.past.1, view.filter, view.compare.value);
      SortedViewOrder(h);
      SortedViewIsPermutation(h);
    }
  }

  // ---------- what one round says to a listener ----------

  /** The last of the deltas that concerns a filter. */
  function LastTouching(ds: seq<Delta>, filter: Filter): Option<Delta> {
    if ds == [] then None
    else if Touches(ds[|ds| - 1], filter) then Some(ds[|ds| - 1])
    else LastTouching(ds[..|ds| - 1], filter)
  }

  /** After a run of writes the queue holds each view some write touched, with the last such write. */
  lemma {:induction false} MarkedAllMeaning(views: seq<MaintainedView>, ds: seq<Delta>, v: MaintainedView)
    ensures v in MarkedAll(NO_VIEWS, views, ds).deltas <==> v in views && LastTouching(ds, v.filter).Some?
    ensures v in MarkedAll(NO_VIEWS, views, ds).deltas ==>
      LastTouching(ds, v.filter) == Some(MarkedAll(NO_VIEWS, views, ds).deltas[v])
  {
    if ds != [] {
      MarkedAllMeaning(views, ds[..|ds| - 1], v);
      MarkedMeaning(MarkedAll(NO_VIEWS, views, ds[..|ds| - 1]), views, ds[|ds| - 1], v);
    }
  }

  lemma {:induction false} MarkedMeaning(q: ChangedViews, views: seq<MaintainedView>, d: Delta, v: MaintainedView)
    requires q.Valid()
    ensures var r := Marked(q, views, d);
            if v in views && Touches(d, v.filter) then v in r.deltas && r.deltas[v] == d
            else (v in r.deltas <==> v in q.deltas) && (v in r.deltas ==> r.deltas[v] == q.deltas[v])
  {
    if views != [] {
      var n := |views| - 1;
      assert views == views[..n] + [views[n]];
      hide Touches;
      MarkedMeaning(q, views[..n], d, v);
    }
  }

  /** The queue keeps its order, and views that a write adds to it come in the order of the view list. */
  lemma {:induction false} MarkedAppends(q: ChangedViews, views: seq<MaintainedView>, d: Delta)
    requires q.Valid() && NoRepeats(views)
    ensures q.order <= Marked(q, views, d).order
    ensures var order := Marked(q, views, d).order;
      && (forall i | |q.order| <= i < |order| :: order[i] in views)
      && (forall i, j | |q.order| <= i < j < |order| :: PrecedesIn(views, order[i], order[j]))
  {
    if views != [] {
      var n := |views| - 1;
      var order, next := Marked(q, views[..n], d).order, Marked(q, views, d).order;
      MarkedAppends(q, views[..n], d);
      hide Touches;
      forall i, j | |q.order| <= i < j < |next| ensures PrecedesIn(views, next[i], next[j]) {
        assert next[i] == order[i];
        if j < |order| {
          assert next[j] == order[j] && PrecedesIn(views[..n], order[i], order[j]);
          var b, c :| 0 <= b < c < n && views[..n][b] == order[i] && views[..n][c] == order[j];
          assert views[b] == next[i] && views[c] == next[j];
        } else {
          var a :| 0 <= a < n && views[..n][a] == order[i];
          assert views[a] == next[i] && views[n] == next[j];
        }
      }
    }
  }

  ghost predicate PrecedesIn(views: seq<MaintainedView>, v: MaintainedView, w: MaintainedView) {
    exists a, b | 0 <= a < b < |views| :: views[a] == v && views[b] == w
  }

  /** Some write touched `v` before any touched `w`, or at once, and then `v` is first in the view list. */
  ghost predicate TouchedFirst(views: seq<MaintainedView>, ds: seq<Delta>, v: MaintainedView, w: MaintainedView) {
    exists k | 0 <= k < |ds| ::
      && Touches(ds[k], v.filter) && (forall l | 0 <= l < k :: !Touches(ds[l], w.filter))
      && (Touches(ds[k], w.filter) ==> PrecedesIn(views, v, w))
  }

  lemma TouchedFirstStill(views: seq<MaintainedView>, ds: seq<Delta>, d: Delta, v: MaintainedView, w: MaintainedView)
    requires TouchedFirst(views, ds, v, w)
    ensures TouchedFirst(views, ds + [d], v, w)
  {
    hide Touches;
    var k :| 0 <= k < |ds| && Touches(ds[k], v.filter) && (forall l | 0 <= l < k :: !Touches(ds[l], w.filter))
      && (Touches(ds[k], w.filter) ==> PrecedesIn(views, v, w));
    assert (ds + [d])[k] == ds[k] && forall l | 0 <= l < k :: (ds + [d])[l] == ds[l];
  }

  lemma TouchedFirstNow(views: seq<MaintainedView>, ds: seq<Delta>, d: Delta, v: MaintainedView, w: MaintainedView)
    requires forall l | 0 <= l < |ds| :: !Touches(ds[l], w.filter)
    requires (exists l | 0 <= l < |ds| :: Touches(ds[l], v.filter)) || (Touches(d, v.filter) && PrecedesIn(views, v, w))
    ensures TouchedFirst(views, ds + [d], v, w)
  {
    hide Touches;
    var longer := ds + [d];
    assert longer[|ds|] == d && forall l | 0 <= l < |ds| :: longer[l] == ds[l];
    if k :| 0 <= k < |ds| && Touches(ds[k], v.filter) {
      assert Touches(longer[k], v.filter);
    } else {
      assert Touches(longer[|ds|], v.filter);
    }
  }

  /** The order of the queue: the view touched first comes first. */
  lemma {:induction false} MarkedAllOrder(views: seq<MaintainedView>, ds: seq<Delta>, i: nat, j: nat)
    requires NoRepeats(views) && i < j < |MarkedAll(NO_VIEWS, views, ds).order|
    ensures var order := MarkedAll(NO_VIEWS, views, ds).order; TouchedFirst(views, ds, order[i], order[j])
  {
    var n := |ds| - 1;
    assert ds == ds[..n] + [ds[n]];
    var before, order := MarkedAll(NO_VIEWS, views, ds[..n]), MarkedAll(NO_VIEWS, views, ds).order;
    MarkedAppends(before, views, ds[n]);
    hide TouchedFirst, Touches, Marked;
    if j < |before.order| {
      MarkedAllOrder(views, ds[..n], i, j);
      TouchedFirstStill(views, ds[..n], ds[n], order[i], order[j]);
    } else {
      NewToTheQueue(views, ds[..n], ds[n], order[j], j);
      if i < |before.order| {
        assert before.order[i] == order[i];
        MarkedAllMeaning(views, ds[..n], order[i]);
        var k := TouchedSomewhere(ds[..n], order[i].filter);
      } else {
        NewToTheQueue(views, ds[..n], ds[n], order[i], i);
      }
      TouchedFirstNow(views, ds[..n], ds[n], order[i], order[j]);
    }
  }

  lemma NewToTheQueue(views: seq<MaintainedView>, ds: seq<Delta>, d: Delta, v: MaintainedView, i: nat)
    requires NoRepeats(views)
    requires var before := MarkedAll(NO_VIEWS, views, ds);
      |before.order| <= i < |Marked(before, views, d).order| && Marked(before, views, d).order[i] == v
    ensures Touches(d, v.filter) && forall l | 0 <= l < |ds| :: !Touches(ds[l], v.filter)
  {
    var before := MarkedAll(NO_VIEWS, views, ds);
    var now := Marked(before, views, d);
    MarkedAppends(before, views, d);
    forall k | 0 <= k < |before.order| ensures before.order[k] != v {
      assert now.order[k] == before.order[k];
    }
    assert v in now.order && v in now.deltas && v !in before.deltas;
    MarkedMeaning(before, views, d, v);
    MarkedAllMeaning(views, ds, v);
    assert v in views;
    NeverTouched(ds, v.filter);
  }

  lemma {:induction false} NeverTouched(ds: seq<Delta>, filter: Filter)
    requires LastTouching(ds, filter).None?
    ensures forall l | 0 <= l < |ds| :: !Touches(ds[l], filter)
  {
    if ds != [] {
      NeverTouched(ds[..|ds| - 1], filter);
      assert forall l | 0 <= l < |ds| - 1 :: ds[l] == ds[..|ds| - 1][l];
    }
  }

  lemma {:induction false} TouchedSomewhere(ds: seq<Delta>, filter: Filter) returns (k: nat)
    requires LastTouching(ds, filter).Some?
    ensures k < |ds| && Touches(ds[k], filter)
  {
    k := |ds| - 1;
    if !Touches(ds[k], filter) {
      k := TouchedSomewhere(ds[..k], filter);
    }
  }

  predicate SameCallee(a: Call, b: Call) {
    a.cb == b.cb && a.ListenerCall? == b.ListenerCall? && (a.ViewCall? ==> a.view == b.view)
  }

  ghost predicate NoCalleeTwice(calls: seq<Call>) {
    forall i, j | 0 <= i < j < |calls| :: !SameCallee(calls[i], calls[j])
  }

  /** Who a round calls, and with what. */
  ghost predicate Due(c: Call, listeners: seq<Callback>, pending: seq<Delta>, changed: ChangedViews)
    requires pending != []
    reads changed.order
  {
    match c
    case ListenerCall(cb, d) => cb in listeners && d == pending[|pending| - 1]
    case ViewCall(v, cb, list, d) => v in changed.order && v in changed.deltas && ViewDue(c, v, changed.deltas[v])
  }

  ghost predicate ViewDue(c: Call, view: MaintainedView, d: Delta)
    reads view
  {
    c.ViewCall? && c.view == view && !view.disposed && c.cb in view.subscribers && c.list == view.current && c.delta == d
  }

  lemma NotifyCallsDue(view: MaintainedView, d: Delta)
    ensures forall c :: c in NotifyCalls(view, d) <==> ViewDue(c, view, d)
    ensures NoRepeats(view.subscribers) ==> NoCalleeTwice(NotifyCalls(view, d))
  {
    var calls := NotifyCalls(view, d);
    forall c | ViewDue(c, view, d) ensures c in calls {
      var i :| 0 <= i < |view.subscribers| && view.subscribers[i] == c.cb;
      assert calls[i] == c;
    }
  }

  lemma {:induction false} ViewCallsDue(order: seq<MaintainedView>, deltas: map<MaintainedView, Delta>)
    requires NoRepeats(order) && forall v | v in order :: v in deltas && NoRepeats(v.subscribers)
    ensures forall c :: c in ViewCalls(order, deltas) <==> c.ViewCall? && c.view in order && ViewDue(c, c.view, deltas[c.view])
    ensures NoCalleeTwice(ViewCalls(order, deltas))
  {
    if order != [] {
      var n := |order| - 1;
      assert order == order[..n] + [order[n]];
      ViewCallsDue(order[..n], deltas);
      NotifyCallsDue(order[n], deltas[order[n]]);
      assert order[n] !in order[..n];
      JoinCallees(ViewCalls(order[..n], deltas), NotifyCalls(order[n], deltas[order[n]]));
    }
  }

  lemma JoinCallees(a: seq<Call>, b: seq<Call>)
    requires NoCalleeTwice(a) && NoCalleeTwice(b)
    requires forall x, y | x in a && y in b :: !SameCallee(x, y)
    ensures NoCalleeTwice(a + b)
  {
    forall i, j | 0 <= i < j < |a + b| ensures !SameCallee((a + b)[i], (a + b)[j]) {
      if i < |a| <= j {
        assert a[i] in a && b[j - |a|] in b;
      }
    }
  }

  lemma ListenerCallsDue(listeners: seq<Callback>, d: Delta)
    requires NoRepeats(listeners)
    ensures forall c :: c in ListenerCalls(listeners, d) <==> c.ListenerCall? && c.cb in listeners && c.delta == d
    ensures NoCalleeTwice(ListenerCalls(listeners, d))
  {
    var calls := ListenerCalls(listeners, d);
    forall c: Call | c.ListenerCall? && c.cb in listeners && c.delta == d ensures c in calls {
      var i :| 0 <= i < |listeners| && listeners[i] == c.cb;
      assert calls[i] == c;
    }
  }

  /** A round calls exactly those due, each once. */
  lemma RoundCallsEachOnce(listeners: seq<Callback>, pending: seq<Delta>, changed: ChangedViews)
    requires pending != [] && changed.Valid() && NoRepeats(listeners)
    requires forall v | v in changed.order :: NoRepeats(v.subscribers)
    ensures forall c :: c in Round(listeners, pending, changed) <==> Due(c, listeners, pending, changed)
    ensures NoCalleeTwice(Round(listeners, pending, changed))
  {
    var d := pending[|pending| - 1];
    ListenerCallsDue(listeners, d);
    ViewCallsDue(changed.order, changed.deltas);
    JoinCallees(ListenerCalls(listeners, d), ViewCalls(changed.order, changed.deltas));
  }

  /** Who is called first: the listeners in the order they came, then the changed views in the order of the
      queue, each with its subscribers in the order they came. */
  lemma RoundInOrder(listeners: seq<Callback>, pending: seq<Delta>, changed: ChangedViews)
    requires pending != [] && changed.Valid()
    ensures var round := Round(listeners, pending, changed);
      && |listeners| <= |round|
      && (forall i | 0 <= i < |listeners| :: round[i] == ListenerCall(listeners[i], pending[|pending| - 1]))
      && (forall i | |listeners| <= i < |round| :: round[i].ViewCall?)
      && (forall i, j | |listeners| <= i < j < |round| :: CalledBefore(changed.order, round[i], round[j]))
  {
    ViewCallsInOrder(changed.order, changed.deltas);
  }

  ghost predicate CalledBefore(order: seq<MaintainedView>, a: Call, b: Call)
    reads if a.ViewCall? then {a.view} else {}
  {
    && a.ViewCall? && b.ViewCall?
    && if a.view == b.view then exists i, j | 0 <= i < j < |a.view.subscribers| :: a.view.subscribers[i] == a.cb && a.view.subscribers[j] == b.cb
       else PrecedesIn(order, a.view, b.view)
  }

  lemma {:induction false} ViewCallsInOrder(order: seq<MaintainedView>, deltas: map<MaintainedView, Delta>)
    requires NoRepeats(order) && forall v | v in order :: v in deltas
    ensures forall c | c in ViewCalls(order, deltas) :: c.ViewCall? && c.view in order
    ensures forall i, j | 0 <= i < j < |ViewCalls(order, deltas)| :: CalledBefore(order, ViewCalls(order, deltas)[i], ViewCalls(order, deltas)[j])
  {
    if order != [] {
      var n := |order| - 1;
      var before, last := ViewCalls(order[..n], deltas), NotifyCalls(order[n], deltas[order[n]]);
      ViewCallsInOrder(order[..n], deltas);
      forall i, j | 0 <= i < j < |before + last| ensures CalledBefore(order, (before + last)[i], (before + last)[j]) {
        if j < |before| {
          assert CalledBefore(order[..n], before[i], before[j]);
          EarlierStays(order, n, before[i], before[j]);
        } else if i < |before| {
          assert before[i] in before;
          var a :| 0 <= a < n && order[..n][a] == before[i].view;
          assert order[a] == before[i].view && order[n] == last[j - |before|].view;
        }
      }
    }
  }

  lemma EarlierStays(order: seq<MaintainedView>, n: nat, a: Call, b: Call)
    requires n <= |order| && CalledBefore(order[..n], a, b)
    ensures CalledBefore(order, a, b)
  {
    if a.view != b.view {
      var i, j :| 0 <= i < j < n && order[..n][i] == a.view && order[..n][j] == b.view;
      assert order[i] == a.view && order[j] == b.view;
    }
  }
}
