/** The two maintained structures of the live store: keyed indexes and filtered (or sorted) views. */
module LiveStoreParts {
  import opened Lists
  import opened Wrappers
  import opened LiveStoreLists
  import opened LiveStoreSorted

  type Key = string

  /** `keyOf` may give one key or a list of keys. */
  datatype Keys = One(key: Key) | Many(keys: seq<Key>)

  type KeyOf = Rec -> Keys

  /** Callbacks are told apart by identity only. */
  type Callback = nat

  function ToKeySet(keys: Keys): set<Key> {
    match keys
    case One(k) => {k}
    case Many(ks) => set k | k in ks
  }

  function HasKey(keyOf: KeyOf, key: Key): Filter {
    (r: Rec) => key in ToKeySet(keyOf(r))
  }

  class MaintainedIndex {
    const keyOf: KeyOf
    var buckets: map<Key, seq<Rec>>

    constructor (keyOf: KeyOf)
      ensures this.keyOf == keyOf && Agrees([])
    {
      this.keyOf := keyOf;
      buckets := map[];
    }

    function Get(key: Key): seq<Rec>
      reads this
    {
      if key in buckets then buckets[key] else []
    }

    ghost predicate NoEmptyBucket()
      reads this
    {
      forall key | key in buckets :: buckets[key] != []
    }

    /** Every bucket is what filtering the whole store gives, and no bucket is empty. */
    ghost predicate Agrees(all: seq<Rec>)
      reads this
    {
      && NoEmptyBucket()
      && (forall key :: Get(key) == Select(all, HasKey(keyOf, key)))
    }

    method Add(rec: Rec, ghost all: seq<Rec>)
      requires Agrees(all)
      modifies this
      ensures Agrees(all + [rec])
    {
      var todo := ToKeySet(keyOf(rec));
      ghost var keys := todo;
      while todo != {}
        invariant todo <= keys
        invariant NoEmptyBucket()
        invariant forall key :: Get(key) == if key in keys - todo then old(Get(key)) + [rec] else old(Get(key))
      {
        var key :| key in todo;
        AddToBucket(key, rec);
        todo := todo - {key};
      }
      forall key ensures Get(key) == Select(all + [rec], HasKey(keyOf, key)) {
        AddRefines(all, rec, HasKey(keyOf, key));
      }
    }

    method Update(prev: Rec, rec: Rec, order: map<Id, nat>, ghost all: seq<Rec>)
      requires Agrees(all)
      requires DistinctIds(all) && Ordered(all, order) && prev in all && prev.id == rec.id
      modifies this
      ensures Agrees(ReplaceById(all, rec))
    {
      var oldKeys, newKeys := ToKeySet(keyOf(prev)), ToKeySet(keyOf(rec));
      LeaveBuckets(oldKeys - newKeys, prev.id);
      JoinBuckets(newKeys, oldKeys, rec, order);
      forall key ensures Get(key) == Select(ReplaceById(all, rec), HasKey(keyOf, key)) {
        UpdateRefines(all, prev, rec, order, HasKey(keyOf, key));
      }
    }

    static function Joined(list: seq<Rec>, key: Key, newKeys: set<Key>, oldKeys: set<Key>, rec: Rec, order: map<Id, nat>): seq<Rec> {
      if key !in newKeys then list
      else if key in oldKeys then ReplaceById(list, rec)
      else InsertByOrder(list, rec, order)
    }

    /** The second half of an update: replace where the record already was, insert where it is new. */
    method JoinBuckets(newKeys: set<Key>, oldKeys: set<Key>, rec: Rec, order: map<Id, nat>)
      requires NoEmptyBucket()
      modifies this
      ensures NoEmptyBucket()
      ensures forall key :: Get(key) == Joined(old(Get(key)), key, newKeys, oldKeys, rec, order)
    {
      hide MaintainedIndex.NoEmptyBucket, MaintainedIndex.Get;
      var todo := newKeys;
      while todo != {}
        invariant todo <= newKeys
        invariant NoEmptyBucket()
        invariant forall key :: Get(key) == Joined(old(Get(key)), key, newKeys - todo, oldKeys, rec, order)
      {
        var key :| key in todo;
        if key in oldKeys {
          ReplaceInBucket(key, rec);
        } else {
          InsertIntoBucket(key, rec, order);
        }
        todo := todo - {key};
      }
    }

    method Remove(prev: Rec, ghost all: seq<Rec>)
      requires Agrees(all) && DistinctIds(all) && prev in all
      modifies this
      ensures Agrees(RemoveById(all, prev.id))
    {
      LeaveBuckets(ToKeySet(keyOf(prev)), prev.id);
      forall key ensures Get(key) == Select(RemoveById(all, prev.id), HasKey(keyOf, key)) {
        RemoveRefines(all, prev, HasKey(keyOf, key));
      }
    }

    method Clear()
      modifies this
      ensures Agrees([])
    {
      buckets := map[];
    }

    method LeaveBuckets(keys: set<Key>, id: Id)
      requires NoEmptyBucket()
      modifies this
      ensures NoEmptyBucket()
      ensures forall key :: Get(key) == if key in keys then RemoveById(old(Get(key)), id) else old(Get(key))
    {
      var todo := keys;
      while todo != {}
        invariant todo <= keys
        invariant NoEmptyBucket()
        invariant forall key :: Get(key) == if key in keys - todo then RemoveById(old(Get(key)), id) else old(Get(key))
      {
        var key :| key in todo;
        RemoveFromBucket(key, id);
        todo := todo - {key};
      }
    }

    method AddToBucket(key: Key, rec: Rec)
      requires NoEmptyBucket()
      modifies this
      ensures NoEmptyBucket()
      ensures Get(key) == old(Get(key)) + [rec]
      ensures forall k | k != key :: Get(k) == old(Get(k))
    {
      GetOrCreateBucket(key);
      buckets := buckets[key := buckets[key] + [rec]];
    }

    method InsertIntoBucket(key: Key, rec: Rec, order: map<Id, nat>)
      requires NoEmptyBucket()
      modifies this
      ensures NoEmptyBucket()
      ensures Get(key) == InsertByOrder(old(Get(key)), rec, order)
      ensures forall k | k != key :: Get(k) == old(Get(k))
    {
      GetOrCreateBucket(key);
      buckets := buckets[key := InsertByOrder(buckets[key], rec, order)];
    }

    method ReplaceInBucket(key: Key, rec: Rec)
      requires NoEmptyBucket()
      modifies this
      ensures NoEmptyBucket()
      ensures Get(key) == ReplaceById(old(Get(key)), rec)
      ensures forall k | k != key :: Get(k) == old(Get(k))
    {
      if key !in buckets {
        return;
      }
      buckets := buckets[key := ReplaceById(buckets[key], rec)];
    }

    method RemoveFromBucket(key: Key, id: Id)
      requires NoEmptyBucket()
      modifies this
      ensures NoEmptyBucket()
      ensures Get(key) == RemoveById(old(Get(key)), id)
      ensures forall k | k != key :: Get(k) == old(Get(k))
    {
      if key !in buckets {
        return;
      }
      var list := RemoveById(buckets[key], id);
      if list == [] {
        buckets := buckets - {key};
      } else {
        buckets := buckets[key := list];
      }
    }

    method GetOrCreateBucket(key: Key)
      modifies this
      ensures buckets == if key in old(buckets) then old(buckets) else old(buckets)[key := []]
    {
      if key !in buckets {
        buckets := buckets[key := []];
      }
    }
  }

  /** The delta an upsert makes, read off the list of records. */
  function PutDelta(all: seq<Rec>, rec: Rec): Delta {
    var i := FindIndex(all, (r: Rec) => r.id == rec.id);
    if i == -1 then Add(rec) else Update(rec.id, rec, all[i])
  }

  /** The delta a removal makes, if it makes one. */
  function DropDelta(all: seq<Rec>, id: Id): Option<Delta> {
    var i := FindIndex(all, (r: Rec) => r.id == id);
    if i == -1 then None else Some(Remove(id, all[i]))
  }

  /** The insertion numbers after a write: only a new record gets one, and a gone one's goes. */
  function OrderAfter(order: map<Id, nat>, next: nat, d: Delta): map<Id, nat> {
    match d
    case Add(rec) => order[rec.id := next]
    case Remove(id, _) => order - {id}
    case Update(_, _, _) => order
  }

  /** What the body of a bulk may ask of the store. */
  datatype Op = Put(rec: Rec) | Drop(id: Id)

  function DeltaOf(all: seq<Rec>, op: Op): Option<Delta> {
    match op
    case Put(rec) => Some(PutDelta(all, rec))
    case Drop(id) => DropDelta(all, id)
  }

  /** The same as a list of none or one. */
  function DeltaList(all: seq<Rec>, op: Op): seq<Delta> {
    var d := DeltaOf(all, op);
    if d.Some? then [d.value] else []
  }

  /** A removal takes out the one record with the id, wherever it stands. */
  lemma DropMeans(a: seq<Rec>, prev: Rec, b: seq<Rec>)
    requires DistinctIds(a + [prev] + b)
    ensures DeltaOf(a + [prev] + b, Drop(prev.id)) == Some(Remove(prev.id, prev))
    ensures StoreStep(a + [prev] + b, Remove(prev.id, prev)) == a + b
  {
    FirstPartApart(a, prev, b);
    FindIndexCut(a, prev, b, (r: Rec) => r.id == prev.id);
    RemoveCut(a, prev, b);
  }

  /** A record put under an id that is held takes the place of the one there. */
  lemma PutMeans(a: seq<Rec>, prev: Rec, b: seq<Rec>, rec: Rec)
    requires DistinctIds(a + [prev] + b) && rec.id == prev.id
    ensures DeltaOf(a + [prev] + b, Put(rec)) == Some(Update(rec.id, rec, prev))
    ensures StoreStep(a + [prev] + b, Update(rec.id, rec, prev)) == a + [rec] + b
  {
    FirstPartApart(a, prev, b);
    FindIndexCut(a, prev, b, (r: Rec) => r.id == rec.id);
    ReplaceCut(a, prev, b, rec);
  }

  lemma FirstPartApart(a: seq<Rec>, x: Rec, b: seq<Rec>)
    requires DistinctIds(a + [x] + b)
    ensures forall r | r in a :: r.id != x.id
  {
    var list := a + [x] + b;
    forall r | r in a ensures r.id != x.id {
      var i :| 0 <= i < |a| && a[i] == r;
      assert list[i] == r && list[|a|] == x;
    }
  }

  lemma UnheldMeans(all: seq<Rec>, op: Op)
    requires forall r | r in all :: r.id != if op.Put? then op.rec.id else op.id
    ensures DeltaOf(all, op) == if op.Put? then Some(Add(op.rec)) else None
  {
  }

  function AllAfter(all: seq<Rec>, ops: seq<Op>): seq<Rec> {
    if ops == [] then all
    else
      var before := AllAfter(all, ops[..|ops| - 1]);
      var d := DeltaOf(before, ops[|ops| - 1]);
      if d.Some? then StoreStep(before, d.value) else before
  }

  function DeltasOf(all: seq<Rec>, ops: seq<Op>): seq<Delta> {
    if ops == [] then []
    else
      var d := DeltaOf(AllAfter(all, ops[..|ops| - 1]), ops[|ops| - 1]);
      DeltasOf(all, ops[..|ops| - 1]) + if d.Some? then [d.value] else []
  }

  lemma OpsNone(all: seq<Rec>, ops: seq<Op>)
    ensures AllAfter(all, ops[..0]) == all && DeltasOf(all, ops[..0]) == []
  {
    assert ops[..0] == [];
  }

  /** One more operation of a run. */
  lemma OpsStep(all: seq<Rec>, ops: seq<Op>, i: nat)
    requires i < |ops|
    ensures var before := AllAfter(all, ops[..i]); var d := DeltaOf(before, ops[i]);
            && AllAfter(all, ops[..i + 1]) == (if d.Some? then StoreStep(before, d.value) else before)
            && DeltasOf(all, ops[..i + 1]) == (if d.Some? then DeltasOf(all, ops[..i]) + [d.value] else DeltasOf(all, ops[..i]))
            && DeltasOf(all, ops[..i + 1]) == DeltasOf(all, ops[..i]) + DeltaList(before, ops[i])
  {
    assert ops[..i + 1][..i] == ops[..i];
  }

  /** Whether a write concerns a view at all: what `applyAdd`, `applyUpdate`, `applyRemove` return. */
  predicate Touches(d: Delta, filter: Filter) {
    match d
    case Add(rec) => filter(rec)
    case Update(_, rec, prev) => filter(prev) || filter(rec)
    case Remove(_, prev) => filter(prev)
  }

  function IdOf(d: Delta): Id {
    if d.Remove? then d.id else d.rec.id
  }

  /** A write concerns a view exactly when the record it is about is among those the filter takes before
      it or after it. */
  lemma TouchesIff(all: seq<Rec>, d: Delta, filter: Filter)
    requires DistinctIds(all) && ValidStep(all, d)
    ensures Touches(d, filter) <==> exists r: Rec :: r.id == IdOf(d) && filter(r) && (r in all || r in StoreStep(all, d))
  {
    match d
    case Add(rec) => assert rec in all + [rec];
    case Update(_, rec, prev) =>
      UniqueById(all, prev);
      var a, b := CutAtId(all, prev);
      ReplaceCut(a, prev, b, rec);
      ReplacedMembers(all, a, prev, b, rec);
    case Remove(_, prev) =>
      UniqueById(all, prev);
      RemoveMembers(all, prev);
  }

  /** What a view shows, against recomputation: plain views filter the store, sorted views are
      characterised in LiveStoreSorted. */
  ghost predicate Shows(list: seq<Rec>, all: seq<Rec>, filter: Filter, compare: Option<Compare>, h: (seq<Rec>, seq<Delta>)) {
    match compare
    case None => list == Select(all, filter)
    case Some(c) =>
      var past := History(h.0, h.1, filter, c);
      ValidHistory(past) && StoreAfter(past) == all && list == SortedAfter(past)
  }

  /** A past with more writes. */
  ghost function Longer(past: (seq<Rec>, seq<Delta>), ds: seq<Delta>): (seq<Rec>, seq<Delta>) {
    (past.0, past.1 + ds)
  }

  lemma LongerTwice(past: (seq<Rec>, seq<Delta>), a: seq<Delta>, b: seq<Delta>)
    ensures Longer(Longer(past, a), b) == Longer(past, a + b)
    ensures Longer(past, []) == past
  {
    assert (past.1 + a) + b == past.1 + (a + b);
    assert past.1 + [] == past.1;
  }

  lemma SortedShowsStep(all: seq<Rec>, h: History, d: Delta)
    requires ValidHistory(h) && StoreAfter(h) == all && ValidStep(all, d)
    ensures var next := h.(log := h.log + [d]);
            ValidHistory(next) && StoreAfter(next) == StoreStep(all, d)
            && SortedAfter(next) == SortedStep(SortedAfter(h), d, h.filter, h.compare)
  {
    var next := h.(log := h.log + [d]);
    assert next.log[..|h.log|] == h.log;
    assert next.Past() == h;
  }

  class MaintainedView {
    const filter: Filter
    const compare: Option<Compare>
    const key: Option<string>
    var current: seq<Rec>
    var subscribers: seq<Callback>
    var disposed: bool
    var refCount: int

    /** The store when the view was made, and the writes since. */
    ghost var past: (seq<Rec>, seq<Delta>)
    /** How often the view was handed out, and how often given back. */
    ghost var acquired: nat
    ghost var released: nat

    ghost predicate Agrees(all: seq<Rec>)
      reads this`current, this`past
    {
      Shows(current, all, filter, compare, past)
    }

    /** A live view counts its holders. */
    ghost predicate Held()
      reads this`disposed, this`refCount, this`acquired, this`released, this`subscribers
    {
      !disposed && refCount == acquired - released && 1 <= refCount && NoRepeats(subscribers)
    }

    /** A live view counts its holders, and a dead one shows nothing to nobody. */
    ghost predicate Counted()
      reads this
    {
      Held() || (disposed && refCount == 0 && current == [] && subscribers == [])
    }

    constructor (filter: Filter, all: seq<Rec>, key: Option<string>, compare: Option<Compare>)
      requires DistinctIds(all)
      ensures this.filter == filter && this.compare == compare && this.key == key
      ensures Agrees(all) && Counted() && !disposed && refCount == 1 && subscribers == []
      ensures past == (all, [])
    {
      this.filter := filter;
      this.compare := compare;
      this.key := key;
      current := match compare case None => Select(all, filter) case Some(c) => StableSort(Select(all, filter), c);
      subscribers := [];
      disposed := false;
      refCount := 1;
      past := (all, []);
      acquired := 1;
      released := 0;
    }

    /** Returns whether the subscription was taken; the callback set keeps insertion order. */
    method Subscribe(cb: Callback) returns (taken: bool)
      requires Counted()
      modifies this`subscribers
      ensures Counted()
      ensures taken == !disposed
      ensures subscribers == if !disposed && cb !in old(subscribers) then old(subscribers) + [cb] else old(subscribers)
    {
      if disposed {
        return false;
      }
      if cb !in subscribers {
        subscribers := subscribers + [cb];
      }
      return true;
    }

    /** The disposer a subscription returns. */
    method Unsubscribe(cb: Callback)
      requires Counted()
      modifies this`subscribers
      ensures Counted()
      ensures subscribers == Without(old(subscribers), cb)
    {
      WithoutNoRepeats(subscribers, cb);
      subscribers := Without(subscribers, cb);
    }

    /** A holder gives the view back; `zero` asks the store to run `onZeroRefs`. */
    method Dispose() returns (zero: bool)
      requires Counted()
      modifies this
      ensures Counted()
      ensures acquired == old(acquired) && released == old(released) + (if old(disposed) then 0 else 1)
      ensures zero == (!old(disposed) && old(refCount) == 1)
      ensures disposed == (old(disposed) || zero)
      ensures old(disposed) ==> unchanged(this)
      ensures !disposed ==> refCount == old(refCount) - 1
      ensures !disposed ==> current == old(current) && subscribers == old(subscribers) && past == old(past)
    {
      if disposed {
        return false;
      }
      refCount := refCount - 1;
      released := released + 1;
      if refCount > 0 {
        return false;
      }
      ForceDispose();
      return true;
    }

    method ForceDispose()
      modifies this
      ensures disposed && (old(Counted()) || !old(disposed) ==> Counted())
      ensures old(disposed) ==> unchanged(this)
      ensures acquired == old(acquired) && released == old(released)
    {
      if disposed {
        return;
      }
      disposed := true;
      refCount := 0;
      subscribers := [];
      current := [];
    }

    method Retain()
      requires Counted()
      modifies this`refCount, this`acquired
      ensures Counted()
      ensures old(disposed) ==> unchanged(this)
      ensures !old(disposed) ==> refCount == old(refCount) + 1 && acquired == old(acquired) + 1
    {
      if disposed {
        return;
      }
      refCount := refCount + 1;
      acquired := acquired + 1;
    }

    method ApplyAdd(rec: Rec, ghost all: seq<Rec>) returns (changed: bool)
      requires Agrees(all) && ValidStep(all, Add(rec))
      modifies this`current, this`past
      ensures Agrees(StoreStep(all, Add(rec)))
      ensures changed == filter(rec)
      ensures past == Longer(old(past), [Add(rec)])
      ensures !changed ==> current == old(current)
    {
      ghost var d := Add(rec);
      AddRefines(all, rec, filter);
      if compare.Some? {
        SortedShowsStep(all, History(past.0, past.1, filter, compare.value), d);
      }
      past := (past.0, past.1 + [d]);
      if !filter(rec) {
        return false;
      }
      current := match compare case Some(c) => InsertSorted(current, rec, c) case None => current + [rec];
      return true;
    }

    method ApplyUpdate(prev: Rec, rec: Rec, order: map<Id, nat>, ghost all: seq<Rec>) returns (changed: bool)
      requires Agrees(all) && ValidStep(all, Update(rec.id, rec, prev))
      requires DistinctIds(all) && Ordered(all, order)
      modifies this`current, this`past
      ensures Agrees(StoreStep(all, Update(rec.id, rec, prev)))
      ensures changed == (filter(prev) || filter(rec))
      ensures past == Longer(old(past), [Update(rec.id, rec, prev)])
      ensures !changed ==> current == old(current)
    {
      ghost var d := Update(rec.id, rec, prev);
      UpdateRefines(all, prev, rec, order, filter);
      if compare.Some? {
        SortedShowsStep(all, History(past.0, past.1, filter, compare.value), d);
      }
      past := (past.0, past.1 + [d]);
      var was, now := filter(prev), filter(rec);
      if !was && !now {
        return false;
      }
      if !was && now {
        current := match compare case Some(c) => InsertSorted(current, rec, c) case None => InsertByOrder(current, rec, order);
      } else if was && !now {
        current := RemoveById(current, prev.id);
      } else {
        current := match compare
          case Some(c) => InsertSorted(RemoveById(current, prev.id), rec, c)
          case None => ReplaceById(current, rec);
      }
      return true;
    }

    method ApplyRemove(prev: Rec, ghost all: seq<Rec>) returns (changed: bool)
      requires Agrees(all) && ValidStep(all, Remove(prev.id, prev)) && DistinctIds(all)
      modifies this`current, this`past
      ensures Agrees(StoreStep(all, Remove(prev.id, prev)))
      ensures changed == filter(prev)
      ensures past == Longer(old(past), [Remove(prev.id, prev)])
      ensures !changed ==> current == old(current)
    {
      ghost var d := Remove(prev.id, prev);
      RemoveRefines(all, prev, filter);
      if compare.Some? {
        SortedShowsStep(all, History(past.0, past.1, filter, compare.value), d);
      }
      past := (past.0, past.1 + [d]);
      if !filter(prev) {
        return false;
      }
      current := RemoveById(current, prev.id);
      return true;
    }
  }
}
