/** Views with a `compare`: what a run of writes leaves in them.

    A sorted view is maintained by insertion after ties, so the order of tied records is the order in
    which they were last written, not the order in which the store holds them. */
module LiveStoreSorted {
  import opened LiveStoreLists

  /** Only the sign matters, as in JavaScript. */
  type Compare = (Rec, Rec) -> int

  ghost predicate TotalPreorder(compare: Compare) {
    && (forall a, b :: compare(a, b) < 0 <==> compare(b, a) > 0)
    && (forall a, b, c :: compare(a, b) <= 0 && compare(b, c) <= 0 ==> compare(a, c) <= 0)
  }

  /** A view's whole past: the store when it was made, and every write since. */
  datatype History = History(init: seq<Rec>, log: seq<Delta>, filter: Filter, compare: Compare) {
    function Past(): History
      requires log != []
    {
      this.(log := log[..|log| - 1])
    }

    function LastWrite(): Delta
      requires log != []
    {
      log[|log| - 1]
    }
  }

  // ---------- the store, and a view, along a history ----------

  function StoreStep(all: seq<Rec>, d: Delta): seq<Rec> {
    match d
    case Add(rec) => all + [rec]
    case Update(_, rec, _) => ReplaceById(all, rec)
    case Remove(id, _) => RemoveById(all, id)
  }

  /** The store only ever makes deltas that fit its records. */
  ghost predicate ValidStep(all: seq<Rec>, d: Delta) {
    match d
    case Add(rec) => forall r | r in all :: r.id != rec.id
    case Update(id, rec, prev) => prev in all && prev.id == rec.id == id
    case Remove(id, prev) => prev in all && prev.id == id
  }

  function StoreAfter(h: History): seq<Rec>
    decreases |h.log|
  {
    if h.log == [] then h.init else StoreStep(StoreAfter(h.Past()), h.LastWrite())
  }

  ghost predicate ValidHistory(h: History)
    decreases |h.log|
  {
    if h.log == [] then DistinctIds(h.init)
    else ValidHistory(h.Past()) && ValidStep(StoreAfter(h.Past()), h.LastWrite())
  }

  /** `[...initial].sort(compare)`: JavaScript's sort is stable. */
  function StableSort(list: seq<Rec>, compare: Compare): seq<Rec> {
    if list == [] then []
    else InsertSorted(StableSort(list[..|list| - 1], compare), list[|list| - 1], compare)
  }

  /** What `applyAdd`, `applyUpdate` and `applyRemove` do to a view with a `compare`. */
  function SortedStep(list: seq<Rec>, d: Delta, filter: Filter, compare: Compare): seq<Rec> {
    match d
    case Add(rec) => if filter(rec) then InsertSorted(list, rec, compare) else list
    case Update(_, rec, prev) =>
      if !filter(prev) && !filter(rec) then list
      else if !filter(prev) then InsertSorted(list, rec, compare)
      else if !filter(rec) then RemoveById(list, prev.id)
      else InsertSorted(RemoveById(list, prev.id), rec, compare)
    case Remove(id, prev) => if filter(prev) then RemoveById(list, id) else list
  }

  function SortedAfter(h: History): seq<Rec>
    decreases |h.log|
  {
    if h.log == [] then StableSort(Select(h.init, h.filter), h.compare)
    else SortedStep(SortedAfter(h.Past()), h.LastWrite(), h.filter, h.compare)
  }

  // ---------- the reference order ----------

  /** The write keeps the record in the view or brings it in. */
  predicate Keeps(d: Delta, filter: Filter, id: Id) {
    !d.Remove? && d.rec.id == id && filter(d.rec)
  }

  function LastTouch(h: History, id: Id): (t: int)
    ensures t < |h.init| + |h.log|
    decreases |h.log|
  {
    if h.log == [] then FindIndex(h.init, (r: Rec) => r.id == id)
    else if Keeps(h.LastWrite(), h.filter, id) then |h.init| + |h.log| - 1
    else LastTouch(h.Past(), id)
  }

  function Touch(h: History): Id -> int {
    (id: Id) => LastTouch(h, id)
  }

  /** The last time a record with this id was written and taken by the filter, the initial records counting as
      written one by one before the log. */
  lemma {:induction false} TouchMeaning(h: History, id: Id)
    ensures var t, n := Touch(h)(id), |h.init|;
      && (forall k | 0 <= k < |h.log| && n + k > t :: h.log[k].Remove? || h.log[k].rec.id != id || !h.filter(h.log[k].rec))
      && (t >= n ==> t - n < |h.log| && !h.log[t - n].Remove? && h.log[t - n].rec.id == id && h.filter(h.log[t - n].rec))
      && (0 <= t < n ==> h.init[t].id == id)
      && (t < n ==> forall k | 0 <= k < n && h.init[k].id == id :: 0 <= t <= k)
    decreases |h.log|
  {
    if h.log != [] {
      TouchMeaning(h.Past(), id);
      var m := |h.log| - 1;
      assert forall k | 0 <= k < m :: h.Past().log[k] == h.log[k];
    }
  }

  ghost predicate Before(x: Rec, y: Rec, compare: Compare, touch: Id -> int) {
    compare(x, y) < 0 || (compare(x, y) == 0 && touch(x.id) < touch(y.id))
  }

  ghost predicate Increasing(list: seq<Rec>, compare: Compare, touch: Id -> int) {
    forall i, j | 0 <= i < j < |list| :: Before(list[i], list[j], compare, touch)
  }

  ghost predicate SameMembers(s: seq<Rec>, t: seq<Rec>) {
    forall r :: r in s <==> r in t
  }

  ghost predicate Follows(list: seq<Rec>, touch: Id -> int) {
    forall i, j | 0 <= i < j < |list| :: touch(list[i].id) < touch(list[j].id)
  }

  // ---------- one insertion ----------

  lemma InsertMembers(list: seq<Rec>, rec: Rec, compare: Compare)
    requires DistinctIds(list) && forall r | r in list :: r.id != rec.id
    ensures DistinctIds(InsertSorted(list, rec, compare))
    ensures SameMembers(InsertSorted(list, rec, compare), list + [rec])
  {
    var i := FindIndex(list, (item: Rec) => compare(rec, item) < 0);
    var k := if i == -1 then |list| else i;
    assert list == list[..k] + list[k..];
    assert InsertSorted(list, rec, compare) == list[..k] + [rec] + list[k..];
    forall j | 0 <= j < |list| ensures list[j].id != rec.id {
      assert list[j] in list;
    }
  }

  lemma BehindThePlace(list: seq<Rec>, rec: Rec, compare: Compare, touch: Id -> int, k: nat, j: nat)
    requires TotalPreorder(compare) && Increasing(list, compare, touch)
    requires k <= j < |list| && compare(rec, list[k]) < 0
    ensures Before(rec, list[j], compare, touch)
  {
    if k < j {
      assert Before(list[k], list[j], compare, touch);
      assert compare(list[k], list[j]) <= 0;
    }
  }

  /** A record inserted with the newest touch lands after its ties, in order. */
  lemma InsertIncreasing(list: seq<Rec>, rec: Rec, compare: Compare, was: Id -> int, now: Id -> int)
    requires TotalPreorder(compare) && Increasing(list, compare, was)
    requires forall r | r in list :: now(r.id) == was(r.id) < now(rec.id)
    ensures Increasing(InsertSorted(list, rec, compare), compare, now)
  {
    IncreasingUnder(list, compare, was, now);
    var i := FindIndex(list, (item: Rec) => compare(rec, item) < 0);
    var k := if i == -1 then |list| else i;
    forall j | 0 <= j < k ensures Before(list[j], rec, compare, now) {
      hide Increasing;
      assert list[j] in list;
      assert !(compare(rec, list[j]) < 0);
    }
    hide TotalPreorder;
    forall j | k <= j < |list| ensures Before(rec, list[j], compare, now) {
      BehindThePlace(list, rec, compare, now, k, j);
    }
    hide Before, Increasing;
    assert list == list[..k] + list[k..];
    SpliceIncreasing(list[..k], rec, list[k..], compare, now);
  }

  lemma SpliceIncreasing(a: seq<Rec>, rec: Rec, b: seq<Rec>, compare: Compare, touch: Id -> int)
    requires Increasing(a + b, compare, touch)
    requires forall j | 0 <= j < |a| :: Before(a[j], rec, compare, touch)
    requires forall j | 0 <= j < |b| :: Before(rec, b[j], compare, touch)
    ensures Increasing(a + [rec] + b, compare, touch)
  {
    var list, out, k := a + b, a + [rec] + b, |a|;
    forall i, j | 0 <= i < j < |out| ensures Before(out[i], out[j], compare, touch) {
      if i == k {
        assert out[j] == b[j - k - 1];
      } else if j == k {
        assert out[i] == a[i];
      } else {
        var i', j' := if i < k then i else i - 1, if j < k then j else j - 1;
        assert out[i] == list[i'] && out[j] == list[j'];
      }
    }
  }

  lemma RemoveIncreasing(list: seq<Rec>, prev: Rec, compare: Compare, touch: Id -> int)
    requires DistinctIds(list) && prev in list && Increasing(list, compare, touch)
    ensures Increasing(RemoveById(list, prev.id), compare, touch)
  {
    var a, b := CutAtId(list, prev);
    RemoveCut(a, prev, b);
    DropIncreasing(a, prev, b, compare, touch);
  }

  lemma DropIncreasing(a: seq<Rec>, x: Rec, b: seq<Rec>, compare: Compare, touch: Id -> int)
    requires Increasing(a + [x] + b, compare, touch)
    ensures Increasing(a + b, compare, touch)
  {
    DropIndex(a, x, b);
  }

  lemma IncreasingUnder(list: seq<Rec>, compare: Compare, was: Id -> int, now: Id -> int)
    requires Increasing(list, compare, was)
    requires forall r | r in list :: now(r.id) == was(r.id)
    ensures Increasing(list, compare, now)
  {
    forall i, j | 0 <= i < j < |list| ensures Before(list[i], list[j], compare, now) {
      assert Before(list[i], list[j], compare, was) && list[i] in list && list[j] in list;
    }
  }

  // ---------- sorting from scratch ----------

  lemma {:induction false} StableSortOrder(list: seq<Rec>, compare: Compare, touch: Id -> int)
    requires TotalPreorder(compare) && DistinctIds(list) && Follows(list, touch)
    ensures Increasing(StableSort(list, compare), compare, touch)
    ensures DistinctIds(StableSort(list, compare)) && SameMembers(StableSort(list, compare), list)
  {
    if list != [] {
      var n := |list| - 1;
      var init, last := list[..n], list[n];
      StableSortOrder(init, compare, touch);
      assert list == init + [last];
      forall r | r in init ensures r.id != last.id && touch(r.id) < touch(last.id) {
        var i :| 0 <= i < n && init[i] == r;
        assert list[i] == r;
      }
      InsertMembers(StableSort(init, compare), last, compare);
      InsertIncreasing(StableSort(init, compare), last, compare, touch, touch);
    }
  }

  lemma FirstIsIn(s: seq<Rec>)
    requires s != []
    ensures s[0] in s
  {
  }

  /** The first of one list is the first of the other: neither can come after it. */
  lemma SameFirst(s: seq<Rec>, t: seq<Rec>, compare: Compare, touch: Id -> int)
    requires TotalPreorder(compare) && s != [] && s[0] in t
    requires Increasing(s, compare, touch) && Increasing(t, compare, touch) && SameMembers(s, t)
    ensures t != [] && t[0] == s[0]
  {
    var i :| 0 <= i < |t| && t[i] == s[0];
    FirstIsIn(t);
    var j :| 0 <= j < |s| && s[j] == t[0];
    assert i > 0 ==> Before(t[0], t[i], compare, touch);
    assert j > 0 ==> Before(s[0], s[j], compare, touch);
  }

  /** A strict order has one increasing listing of a given set of records. */
  lemma {:induction false} IncreasingIsUnique(s: seq<Rec>, t: seq<Rec>, compare: Compare, touch: Id -> int)
    requires TotalPreorder(compare)
    requires Increasing(s, compare, touch) && Increasing(t, compare, touch) && SameMembers(s, t)
    ensures s == t
  {
    if s == [] {
      if t != [] {
        FirstIsIn(t);
      }
    } else {
      FirstIsIn(s);
      SameFirst(s, t, compare, touch);
      TailMembers(s, compare, touch);
      TailMembers(t, compare, touch);
      IncreasingIsUnique(s[1..], t[1..], compare, touch);
    }
  }

  lemma TailMembers(s: seq<Rec>, compare: Compare, touch: Id -> int)
    requires TotalPreorder(compare) && s != [] && Increasing(s, compare, touch)
    ensures Increasing(s[1..], compare, touch)
    ensures forall r :: r in s[1..] <==> r in s && r != s[0]
  {
    forall i | 0 < i < |s| ensures s[i] != s[0] {
      assert Before(s[0], s[i], compare, touch);
    }
    assert s == [s[0]] + s[1..];
  }

  lemma {:induction false} DistinctMultiset(s: seq<Rec>)
    requires DistinctIds(s)
    ensures forall r :: multiset(s)[r] == if r in s then 1 else 0
  {
    if s != [] {
      var n := |s| - 1;
      assert s == s[..n] + [s[n]];
      DistinctMultiset(s[..n]);
    }
  }

  // ---------- the theorem ----------

  lemma {:induction false} StoreAfterDistinct(h: History)
    requires ValidHistory(h)
    ensures DistinctIds(StoreAfter(h))
    decreases |h.log|
  {
    if h.log != [] {
      StoreAfterDistinct(h.Past());
      StoreStepShape(StoreAfter(h.Past()), h.LastWrite());
    }
  }

  lemma StoreStepShape(all: seq<Rec>, d: Delta)
    requires DistinctIds(all) && ValidStep(all, d)
    ensures DistinctIds(StoreStep(all, d))
    ensures d.Add? ==> forall r :: r in StoreStep(all, d) <==> r in all || r == d.rec
    ensures d.Update? ==> forall r :: r in StoreStep(all, d) <==> (r in all && r.id != d.id) || r == d.rec
    ensures d.Remove? ==> forall r :: r in StoreStep(all, d) <==> r in all && r.id != d.id
  {
    match d
    case Add(rec) =>
      forall i | 0 <= i < |all| ensures all[i].id != rec.id {
        assert all[i] in all;
      }
    case Update(id, rec, prev) =>
      var a, b := CutAtId(all, prev);
      ReplaceCut(a, prev, b, rec);
      ReplacedMembers(all, a, prev, b, rec);
    case Remove(id, prev) =>
      RemoveMembers(all, prev);
  }

  lemma ReplacedMembers(all: seq<Rec>, a: seq<Rec>, prev: Rec, b: seq<Rec>, rec: Rec)
    requires all == a + [prev] + b && DistinctIds(all) && prev.id == rec.id
    requires forall r | r in a || r in b :: r.id != prev.id
    ensures DistinctIds(a + [rec] + b)
    ensures forall r :: r in a + [rec] + b <==> (r in all && r.id != prev.id) || r == rec
  {
    var next := a + [rec] + b;
    assert forall i | 0 <= i < |all| :: next[i].id == all[i].id;
    forall r ensures r in next <==> (r in all && r.id != prev.id) || r == rec {
      assert r in next <==> r in a || r in b || r == rec;
      assert r in all <==> r in a || r in b || r == prev;
    }
  }

  /** After any run of writes a sorted view holds exactly the filtered store, each record once, in
      strictly increasing (compare, last touch) order. */
  lemma {:induction false} SortedViewOrder(h: History)
    requires ValidHistory(h) && TotalPreorder(h.compare)
    ensures Increasing(SortedAfter(h), h.compare, Touch(h))
    ensures DistinctIds(SortedAfter(h))
    ensures forall r :: r in SortedAfter(h) <==> r in StoreAfter(h) && h.filter(r)
    decreases |h.log|
  {
    if h.log == [] {
      SortedViewStart(h);
    } else {
      SortedViewOrder(h.Past());
      SortedViewStep(h);
    }
  }

  lemma SortedViewStart(h: History)
    requires h.log == [] && DistinctIds(h.init) && TotalPreorder(h.compare)
    ensures Increasing(SortedAfter(h), h.compare, Touch(h))
    ensures DistinctIds(SortedAfter(h))
    ensures forall r :: r in SortedAfter(h) <==> r in StoreAfter(h) && h.filter(r)
  {
    forall i | 0 <= i < |h.init| ensures Touch(h)(h.init[i].id) == i {
      var k := FindIndex(h.init, (r: Rec) => r.id == h.init[i].id);
      assert k != -1 && h.init[k].id == h.init[i].id;
      assert !(k < i) && !(i < k);
    }
    SelectFollows(h.init, h.filter, Touch(h));
    SelectMembers(h.init, h.filter);
    StableSortOrder(Select(h.init, h.filter), h.compare, Touch(h));
  }

  lemma {:induction false} SelectFollows(list: seq<Rec>, p: Filter, touch: Id -> int)
    requires DistinctIds(list) && Follows(list, touch)
    ensures DistinctIds(Select(list, p)) && Follows(Select(list, p), touch)
  {
    if list != [] {
      FirstOfAll(list, touch);
      SelectFollows(list[1..], p, touch);
      SelectMembers(list[1..], p);
      ConsFollows(list[0], Select(list[1..], p), touch);
    }
  }

  lemma ConsFollows(first: Rec, rest: seq<Rec>, touch: Id -> int)
    requires DistinctIds(rest) && Follows(rest, touch)
    requires forall r | r in rest :: first.id != r.id && touch(first.id) < touch(r.id)
    ensures DistinctIds([first] + rest) && Follows([first] + rest, touch)
  {
  }

  lemma FirstOfAll(list: seq<Rec>, touch: Id -> int)
    requires list != [] && DistinctIds(list) && Follows(list, touch)
    ensures forall r | r in list[1..] :: touch(list[0].id) < touch(r.id) && list[0].id != r.id
  {
    forall r | r in list[1..] ensures touch(list[0].id) < touch(r.id) && list[0].id != r.id {
      var k :| 0 <= k < |list[1..]| && list[1..][k] == r;
      assert list[k + 1] == r;
    }
  }

  lemma SortedViewStep(h: History)
    requires h.log != [] && ValidHistory(h) && TotalPreorder(h.compare)
    requires Increasing(SortedAfter(h.Past()), h.compare, Touch(h.Past()))
    requires DistinctIds(SortedAfter(h.Past()))
    requires forall r :: r in SortedAfter(h.Past()) <==> r in StoreAfter(h.Past()) && h.filter(r)
    ensures Increasing(SortedAfter(h), h.compare, Touch(h))
    ensures DistinctIds(SortedAfter(h))
    ensures forall r :: r in SortedAfter(h) <==> r in StoreAfter(h) && h.filter(r)
  {
    hide LastTouch, SortedAfter, SortedStep, StoreStep, InsertSorted, RemoveById, Select;
    var d, view, all := h.LastWrite(), SortedAfter(h.Past()), StoreAfter(h.Past());
    StoreAfterDistinct(h.Past());
    StoreStepShape(all, d);
    assert StoreAfter(h) == StoreStep(all, d);
    var base := StepBase(h, view, all);
    if !d.Remove? && h.filter(d.rec) {
      InsertMembers(base, d.rec, h.compare);
      InsertIncreasing(base, d.rec, h.compare, Touch(h.Past()), Touch(h));
    } else {
      IncreasingUnder(base, h.compare, Touch(h.Past()), Touch(h));
    }
  }

  /** The view with the written record taken out: what every branch of the update starts from. */
  lemma StepBase(h: History, view: seq<Rec>, all: seq<Rec>) returns (base: seq<Rec>)
    requires h.log != [] && view == SortedAfter(h.Past()) && all == StoreAfter(h.Past())
    requires DistinctIds(all) && ValidStep(all, h.LastWrite())
    requires Increasing(view, h.compare, Touch(h.Past())) && DistinctIds(view)
    requires forall r :: r in view <==> r in all && h.filter(r)
    ensures Increasing(base, h.compare, Touch(h.Past())) && DistinctIds(base)
    ensures var d := h.LastWrite(); var id := if d.Add? then d.rec.id else d.id;
            && (forall r :: r in base <==> r in all && r.id != id && h.filter(r))
            && (forall r | r in base :: Touch(h)(r.id) == Touch(h.Past())(r.id))
            && (!d.Remove? && h.filter(d.rec) ==> forall r | r in base :: Touch(h)(r.id) < Touch(h)(d.rec.id))
            && SortedAfter(h) == if !d.Remove? && h.filter(d.rec) then InsertSorted(base, d.rec, h.compare) else base
  {
    var d := h.LastWrite();
    if !d.Add? {
      UniqueById(all, d.prev);
    }
    if !d.Add? && h.filter(d.prev) {
      RemoveIncreasing(view, d.prev, h.compare, Touch(h.Past()));
      RemoveMembers(view, d.prev);
      base := RemoveById(view, d.prev.id);
    } else {
      base := view;
    }
  }

  /** The same as a permutation of the recomputed list. */
  lemma SortedViewIsPermutation(h: History)
    requires ValidHistory(h) && TotalPreorder(h.compare)
    ensures multiset(SortedAfter(h)) == multiset(Select(StoreAfter(h), h.filter))
  {
    SortedViewOrder(h);
    var s := Select(StoreAfter(h), h.filter);
    var place := FreshSortOrder(h);
    DistinctMultiset(s);
    DistinctMultiset(SortedAfter(h));
    assert forall r :: multiset(SortedAfter(h))[r] == multiset(s)[r];
  }

  lemma PlaceFollows(list: seq<Rec>, place: Id -> int)
    requires DistinctIds(list)
    requires forall id :: place(id) == FindIndex(list, (r: Rec) => r.id == id)
    ensures forall i | 0 <= i < |list| :: place(list[i].id) == i
    ensures Follows(list, place)
  {
    forall i | 0 <= i < |list| ensures place(list[i].id) == i {
      var k := FindIndex(list, (r: Rec) => r.id == list[i].id);
      assert k != -1 && list[k].id == list[i].id;
      assert !(k < i) && !(i < k);
    }
  }

  /** Nothing else has these two properties: the view is determined by them. */
  lemma SortedViewIsTheOnly(h: History, list: seq<Rec>)
    requires ValidHistory(h) && TotalPreorder(h.compare)
    requires Increasing(list, h.compare, Touch(h))
    requires forall r :: r in list <==> r in StoreAfter(h) && h.filter(r)
    ensures list == SortedAfter(h)
  {
    SortedViewOrder(h);
    IncreasingIsUnique(list, SortedAfter(h), h.compare, Touch(h));
  }

  // ---------- against sorting the filtered store from scratch ----------

  /** No tied pair of the filtered store was last written against its insertion order. */
  ghost predicate TiesFollowInsertion(h: History) {
    var s := Select(StoreAfter(h), h.filter);
    forall i, j | 0 <= i < j < |s| && h.compare(s[i], s[j]) == 0 :: Touch(h)(s[i].id) < Touch(h)(s[j].id)
  }

  /** Sorting the filtered store from scratch, ordered by (compare, place in the store). */
  lemma FreshSortOrder(h: History) returns (place: Id -> int)
    requires ValidHistory(h) && TotalPreorder(h.compare)
    ensures var s := Select(StoreAfter(h), h.filter); var scratch := StableSort(s, h.compare);
            && Increasing(scratch, h.compare, place) && SameMembers(scratch, s) && Follows(s, place)
            && (forall r :: r in s <==> r in StoreAfter(h) && h.filter(r))
            && DistinctIds(s)
  {
    StoreAfterDistinct(h);
    place := (id: Id) => FindIndex(StoreAfter(h), (r: Rec) => r.id == id);
    PlaceFollows(StoreAfter(h), place);
    SelectFollows(StoreAfter(h), h.filter, place);
    SelectMembers(StoreAfter(h), h.filter);
    StableSortOrder(Select(StoreAfter(h), h.filter), h.compare, place);
  }

  /** A sorted view equals a fresh stable sort exactly when ties were written in insertion order. */
  lemma FreshSortIff(h: History)
    requires ValidHistory(h) && TotalPreorder(h.compare)
    ensures SortedAfter(h) == StableSort(Select(StoreAfter(h), h.filter), h.compare) <==> TiesFollowInsertion(h)
  {
    var s := Select(StoreAfter(h), h.filter);
    var scratch := StableSort(s, h.compare);
    var place := FreshSortOrder(h);
    SortedViewOrder(h);
    if TiesFollowInsertion(h) {
      TiedTouches(s, scratch, h.compare, place, Touch(h));
      SortedViewIsTheOnly(h, scratch);
    }
    if SortedAfter(h) == scratch {
      TiedPlaces(s, scratch, h.compare, place, Touch(h));
    }
  }

  /** An order that is both by (compare, place) and by (compare, touch) makes ties agree. */
  lemma TiedPlaces(s: seq<Rec>, sorted: seq<Rec>, compare: Compare, place: Id -> int, touch: Id -> int)
    requires TotalPreorder(compare) && SameMembers(sorted, s) && Follows(s, place)
    requires Increasing(sorted, compare, place) && Increasing(sorted, compare, touch)
    ensures forall i, j | 0 <= i < j < |s| && compare(s[i], s[j]) == 0 :: touch(s[i].id) < touch(s[j].id)
  {
    forall i, j | 0 <= i < j < |s| && compare(s[i], s[j]) == 0
      ensures touch(s[i].id) < touch(s[j].id)
    {
      assert s[i] in sorted && s[j] in sorted;
      var a, b :| 0 <= a < |sorted| && 0 <= b < |sorted| && sorted[a] == s[i] && sorted[b] == s[j];
      assert place(s[i].id) < place(s[j].id);
      assert forall k | 0 <= k < a :: Before(sorted[k], sorted[a], compare, place);
      assert Before(sorted[a], sorted[b], compare, touch);
    }
  }

  /** If ties follow the places, an order by (compare, place) is an order by (compare, touch). */
  lemma TiedTouches(s: seq<Rec>, sorted: seq<Rec>, compare: Compare, place: Id -> int, touch: Id -> int)
    requires SameMembers(sorted, s) && Increasing(sorted, compare, place) && Follows(s, place)
    requires forall i, j | 0 <= i < j < |s| && compare(s[i], s[j]) == 0 :: touch(s[i].id) < touch(s[j].id)
    ensures Increasing(sorted, compare, touch)
  {
    forall a, b | 0 <= a < b < |sorted| ensures Before(sorted[a], sorted[b], compare, touch) {
      assert Before(sorted[a], sorted[b], compare, place);
      assert sorted[a] in s && sorted[b] in s;
      var i, j :| 0 <= i < |s| && 0 <= j < |s| && s[i] == sorted[a] && s[j] == sorted[b];
      if compare(sorted[a], sorted[b]) == 0 {
        assert place(s[i].id) < place(s[j].id);
      }
    }
  }

  /** A `compare` that never ties two records of the store makes the view a fresh sort. */
  lemma NoTiesFreshSort(h: History)
    requires ValidHistory(h) && TotalPreorder(h.compare)
    requires forall x, y | x in StoreAfter(h) && y in StoreAfter(h) && x.id != y.id :: h.compare(x, y) != 0
    ensures SortedAfter(h) == StableSort(Select(StoreAfter(h), h.filter), h.compare)
  {
    hide SortedAfter, StableSort, Select, StoreAfter, LastTouch, ValidHistory, TotalPreorder, Increasing;
    var place := FreshSortOrder(h);
    var s := Select(StoreAfter(h), h.filter);
    assert forall i | 0 <= i < |s| :: s[i] in s;
    FreshSortIff(h);
  }

  predicate AnyRecord(r: Rec) { true }

  function AllTied(x: Rec, y: Rec): int { 0 }

  /** With ties the two differ: rewriting the first of two tied records moves it behind the second. */
  lemma RewriteMovesBehindTies(a: Rec, b: Rec, a': Rec)
    requires a.id != b.id && a'.id == a.id
    ensures var h := History([a, b], [Update(a.id, a', a)], AnyRecord, AllTied);
            && ValidHistory(h) && TotalPreorder(h.compare)
            && SortedAfter(h) == [b, a']
            && StableSort(Select(StoreAfter(h), h.filter), h.compare) == [a', b]
  {
    TwoTied(a, b);
    FirstOfTwo(a, b, a', AllTied);
    var h := History([a, b], [Update(a.id, a', a)], AnyRecord, AllTied);
    assert h.Past() == History([a, b], [], AnyRecord, AllTied) && h.LastWrite() == Update(a.id, a', a);
    OneWrite(h);
    hide StableSort, ReplaceById, RemoveById, InsertSorted, Select, SortedAfter, StoreAfter, ValidHistory;
    SelectAll([a', b], AnyRecord);
    TieSort(a', b, AllTied);
  }

  lemma OneWrite(h: History)
    requires h.log != []
    ensures StoreAfter(h) == StoreStep(StoreAfter(h.Past()), h.LastWrite())
    ensures SortedAfter(h) == SortedStep(SortedAfter(h.Past()), h.LastWrite(), h.filter, h.compare)
    ensures ValidHistory(h) <==> ValidHistory(h.Past()) && ValidStep(StoreAfter(h.Past()), h.LastWrite())
  {
    hide StoreStep, SortedStep, ValidStep;
  }

  lemma TwoTied(a: Rec, b: Rec)
    requires a.id != b.id
    ensures var h := History([a, b], [], AnyRecord, AllTied); SortedAfter(h) == [a, b] == StoreAfter(h) && ValidHistory(h)
  {
    SelectAll([a, b], AnyRecord);
    TieSort(a, b, AllTied);
  }

  lemma FirstOfTwo(a: Rec, b: Rec, a': Rec, compare: Compare)
    requires a.id != b.id && a'.id == a.id && forall x, y :: compare(x, y) == 0
    ensures ReplaceById([a, b], a') == [a', b]
    ensures InsertSorted(RemoveById([a, b], a.id), a', compare) == [b, a']
  {
    assert [a, b] == [] + [a] + [b];
    ReplaceCut([], a, [b], a');
    RemoveCut([], a, [b]);
    assert [] + [b] == [b];
    InsertCut([b], [], a', (item: Rec) => compare(a', item) < 0);
    assert [b] + [] == [b];
  }

  lemma TieSort(a: Rec, b: Rec, compare: Compare)
    requires forall x, y :: compare(x, y) == 0
    ensures StableSort([a, b], compare) == [a, b]
  {
    assert [a, b][..1] == [a] && [a][..0] == [];
    assert StableSort([a], compare) == [a];
  }

  lemma {:induction false} SelectAll(list: seq<Rec>, p: Filter)
    requires forall r :: p(r)
    ensures Select(list, p) == list
  {
    if list != [] {
      SelectAll(list[1..], p);
    }
  }
}
