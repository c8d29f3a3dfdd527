/** The list helpers of shared/live-store.ts and the algebra that makes them refine recomputation.

    Every maintained structure of the store is some filtered part of the list of all records.  The
    lemmas below all have one shape: cut the list of all records at the record a write touches,
    `all == a + [prev] + b`, and see what the helper does to the filtered list cut at the same place. */
module LiveStoreLists {

  type Id = string

  /** A stored record.  The store reads nothing of it but the id. */
  datatype Rec = Rec(id: Id, fields: map<string, string>)

  datatype Delta =
    | Add(rec: Rec)
    | Update(id: Id, rec: Rec, prev: Rec)
    | Remove(id: Id, prev: Rec)

  type Filter = Rec -> bool

  /** What `insertionOrder.get(id)` yields for an id the store does not hold. */
  const MAX_SAFE_INTEGER := 9007199254740991

  function OrderOf(order: map<Id, nat>, id: Id): int {
    if id in order then order[id] else MAX_SAFE_INTEGER
  }

  // ---------- the helpers ----------

  /** JavaScript's `findIndex`. */
  function FindIndex(list: seq<Rec>, p: Rec -> bool): (i: int)
    ensures -1 <= i < |list|
    ensures 0 <= i ==> p(list[i]) && forall j | 0 <= j < i :: !p(list[j])
    ensures i == -1 ==> forall j | 0 <= j < |list| :: !p(list[j])
  {
    if list == [] then -1
    else if p(list[0]) then 0
    else
      var i := FindIndex(list[1..], p);
      if i == -1 then -1 else i + 1
  }

  function RemoveById(list: seq<Rec>, id: Id): seq<Rec> {
    var index := FindIndex(list, (r: Rec) => r.id == id);
    if index == -1 then list else list[..index] + list[index + 1..]
  }

  function ReplaceById(list: seq<Rec>, rec: Rec): seq<Rec> {
    var index := FindIndex(list, (r: Rec) => r.id == rec.id);
    if index == -1 then list else list[index := rec]
  }

  function InsertAt(list: seq<Rec>, index: int, rec: Rec): seq<Rec>
    requires -1 <= index <= |list|
  {
    if index == -1 then list + [rec] else list[..index] + [rec] + list[index..]
  }

  function InsertSorted(list: seq<Rec>, rec: Rec, compare: (Rec, Rec) -> int): seq<Rec> {
    InsertAt(list, FindIndex(list, (item: Rec) => compare(rec, item) < 0), rec)
  }

  function InsertByOrder(list: seq<Rec>, rec: Rec, order: map<Id, nat>): seq<Rec> {
    InsertAt(list, FindIndex(list, (item: Rec) => OrderOf(order, item.id) > OrderOf(order, rec.id)), rec)
  }

  // ---------- the reference: recomputation from the list of all records ----------

  function Select(list: seq<Rec>, p: Filter): seq<Rec> {
    if list == [] then []
    else if p(list[0]) then [list[0]] + Select(list[1..], p)
    else Select(list[1..], p)
  }

  ghost predicate DistinctIds(list: seq<Rec>) {
    forall i, j | 0 <= i < j < |list| :: list[i].id != list[j].id
  }

  /** The list is in insertion order. */
  ghost predicate Ordered(list: seq<Rec>, order: map<Id, nat>) {
    && (forall r | r in list :: r.id in order)
    && (forall i, j | 0 <= i < j < |list| :: OrderOf(order, list[i].id) < OrderOf(order, list[j].id))
  }

  // ---------- cutting lists ----------

  lemma {:induction false} SelectAppend(a: seq<Rec>, b: seq<Rec>, p: Filter)
    ensures Select(a + b, p) == Select(a, p) + Select(b, p)
  {
    if a == [] {
      assert a + b == b;
    } else {
      SelectAppend(a[1..], b, p);
      assert (a + b)[1..] == a[1..] + b && (a + b)[0] == a[0];
      assert [a[0]] + (Select(a[1..], p) + Select(b, p)) == ([a[0]] + Select(a[1..], p)) + Select(b, p);
    }
  }

  lemma {:induction false} SelectMembers(list: seq<Rec>, p: Filter)
    ensures forall r :: r in Select(list, p) <==> r in list && p(r)
  {
    if list != [] {
      SelectMembers(list[1..], p);
      assert list == [list[0]] + list[1..];
    }
  }

  /** Selecting from a list cut around one record. */
  lemma SelectCut(a: seq<Rec>, x: Rec, b: seq<Rec>, p: Filter)
    ensures p(x) ==> Select(a + [x] + b, p) == Select(a, p) + [x] + Select(b, p)
    ensures !p(x) ==> Select(a + [x] + b, p) == Select(a, p) + Select(b, p)
  {
    SelectAppend(a + [x], b, p);
    SelectAppend(a, [x], p);
    assert [x][1..] == [];
  }

  /** `findIndex` on a list cut at its first hit. */
  lemma FindIndexCut(a: seq<Rec>, x: Rec, b: seq<Rec>, p: Rec -> bool)
    requires p(x)
    requires forall r | r in a :: !p(r)
    ensures FindIndex(a + [x] + b, p) == |a|
  {
    var list := a + [x] + b;
    var i := FindIndex(list, p);
    assert list[|a|] == x;
    assert forall j | 0 <= j < |a| :: list[j] == a[j] && !p(a[j]);
  }

  lemma RemoveCut(a: seq<Rec>, x: Rec, b: seq<Rec>)
    requires forall r | r in a :: r.id != x.id
    ensures RemoveById(a + [x] + b, x.id) == a + b
  {
    FindIndexCut(a, x, b, (r: Rec) => r.id == x.id);
  }

  lemma ReplaceCut(a: seq<Rec>, x: Rec, b: seq<Rec>, rec: Rec)
    requires forall r | r in a :: r.id != x.id
    requires rec.id == x.id
    ensures ReplaceById(a + [x] + b, rec) == a + [rec] + b
  {
    FindIndexCut(a, x, b, (r: Rec) => r.id == rec.id);
  }

  /** Insertion into a list cut between the records that stay before and the first that goes after. */
  lemma InsertCut(a: seq<Rec>, b: seq<Rec>, rec: Rec, after: Rec -> bool)
    requires forall r | r in a :: !after(r)
    requires b == [] || after(b[0])
    ensures InsertAt(a + b, FindIndex(a + b, after), rec) == a + [rec] + b
  {
    if b == [] {
      assert a + b == a;
      assert forall j | 0 <= j < |a| :: !after(a[j]);
    } else {
      assert a + b == a + [b[0]] + b[1..];
      FindIndexCut(a, b[0], b[1..], after);
    }
  }

  /** Every list holding an id splits there, and with distinct ids the id is nowhere else. */
  lemma CutAtId(list: seq<Rec>, x: Rec) returns (a: seq<Rec>, b: seq<Rec>)
    requires DistinctIds(list) && x in list
    ensures list == a + [x] + b
    ensures forall r | r in a :: r.id != x.id
    ensures forall r | r in b :: r.id != x.id
    ensures DistinctIds(a) && DistinctIds(b)
  {
    var i :| 0 <= i < |list| && list[i] == x;
    a, b := list[..i], list[i + 1..];
  }

  // ---------- the store's own list ----------

  lemma AppendKeepsShape(list: seq<Rec>, rec: Rec, order: map<Id, nat>, next: nat)
    requires DistinctIds(list) && Ordered(list, order)
    requires forall r | r in list :: r.id != rec.id
    requires forall id | id in order :: order[id] < next
    ensures DistinctIds(list + [rec]) && Ordered(list + [rec], order[rec.id := next])
  {
    var order' := order[rec.id := next];
    forall i | 0 <= i < |list|
      ensures list[i].id != rec.id && OrderOf(order', list[i].id) == OrderOf(order, list[i].id) < next
    {
      assert list[i] in list;
    }
  }

  lemma ReplaceKeepsShape(list: seq<Rec>, prev: Rec, rec: Rec, order: map<Id, nat>)
    requires DistinctIds(list) && Ordered(list, order) && prev in list && rec.id == prev.id
    ensures DistinctIds(ReplaceById(list, rec)) && Ordered(ReplaceById(list, rec), order)
    ensures forall r :: r in ReplaceById(list, rec) <==> r == rec || (r in list && r.id != rec.id)
  {
    var a, b := CutAtId(list, prev);
    ReplaceCut(a, prev, b, rec);
    SwapMiddle(a, prev, b, rec, order);
    forall r ensures r in a + [rec] + b <==> r == rec || (r in list && r.id != rec.id) {
      assert r in a + [rec] + b <==> r in a || r in b || r == rec;
      assert r in list <==> r in a || r in b || r == prev;
    }
  }

  lemma SwapMiddle(a: seq<Rec>, prev: Rec, b: seq<Rec>, rec: Rec, order: map<Id, nat>)
    requires DistinctIds(a + [prev] + b) && Ordered(a + [prev] + b, order) && rec.id == prev.id
    ensures DistinctIds(a + [rec] + b) && Ordered(a + [rec] + b, order)
  {
    var list, next := a + [prev] + b, a + [rec] + b;
    assert forall i | 0 <= i < |list| :: next[i].id == list[i].id;
    forall r | r in next ensures r.id in order {
      var i :| 0 <= i < |next| && next[i] == r;
      assert list[i] in list;
    }
  }

  lemma RemoveMembers(list: seq<Rec>, prev: Rec)
    requires DistinctIds(list) && prev in list
    ensures DistinctIds(RemoveById(list, prev.id))
    ensures forall r :: r in RemoveById(list, prev.id) <==> r in list && r.id != prev.id
  {
    var a, b := CutAtId(list, prev);
    RemoveCut(a, prev, b);
    DropDistinct(a, prev, b);
    forall r ensures r in a + b <==> r in list && r.id != prev.id {
      assert r in a + b <==> r in a || r in b;
      assert r in list <==> r in a || r in b || r == prev;
    }
  }

  lemma DropDistinct(a: seq<Rec>, x: Rec, b: seq<Rec>)
    requires DistinctIds(a + [x] + b)
    ensures DistinctIds(a + b)
  {
    DropIndex(a, x, b);
  }

  /** Where the records of a list are once one in the middle is put back. */
  lemma DropIndex(a: seq<Rec>, x: Rec, b: seq<Rec>)
    ensures forall i | 0 <= i < |a + b| :: (a + b)[i] == (a + [x] + b)[if i < |a| then i else i + 1]
  {
  }

  lemma RemoveKeepsOrder(list: seq<Rec>, prev: Rec, order: map<Id, nat>)
    requires DistinctIds(list) && Ordered(list, order) && prev in list
    ensures Ordered(RemoveById(list, prev.id), order - {prev.id})
  {
    var a, b := CutAtId(list, prev);
    RemoveCut(a, prev, b);
    DropOrdered(a, prev, b, order);
    OrderedElsewhere(a + b, order, prev.id);
  }

  lemma DropOrdered(a: seq<Rec>, x: Rec, b: seq<Rec>, order: map<Id, nat>)
    requires Ordered(a + [x] + b, order)
    ensures Ordered(a + b, order)
  {
    DropIndex(a, x, b);
    assert forall r | r in a + b :: r in a + [x] + b;
  }

  lemma UniqueById(list: seq<Rec>, x: Rec)
    requires DistinctIds(list) && x in list
    ensures forall r | r in list && r.id == x.id :: r == x
  {
    var a, b := CutAtId(list, x);
    assert forall r :: r in list <==> r in a || r == x || r in b;
  }

  /** The order of a list does not depend on ids outside it. */
  lemma OrderedElsewhere(list: seq<Rec>, order: map<Id, nat>, id: Id)
    requires Ordered(list, order)
    requires forall r | r in list :: r.id != id
    ensures Ordered(list, order - {id})
  {
    forall i | 0 <= i < |list| ensures OrderOf(order - {id}, list[i].id) == OrderOf(order, list[i].id) {
      assert list[i] in list;
    }
  }

  // ---------- refinement, one lemma per kind of write ----------

  /** A new record goes last in every structure that takes it. */
  lemma AddRefines(all: seq<Rec>, rec: Rec, p: Filter)
    ensures Select(all + [rec], p) == if p(rec) then Select(all, p) + [rec] else Select(all, p)
  {
    SelectAppend(all, [rec], p);
    assert [rec][1..] == [];
  }

  /** The step a plain view or an index bucket takes on an update: leave, enter in order, or replace. */
  function UpdateStep(list: seq<Rec>, was: bool, now: bool, prev: Rec, rec: Rec, order: map<Id, nat>): seq<Rec> {
    if !was && !now then list
    else if !was then InsertByOrder(list, rec, order)
    else if !now then RemoveById(list, prev.id)
    else ReplaceById(list, rec)
  }

  lemma UpdateRefines(all: seq<Rec>, prev: Rec, rec: Rec, order: map<Id, nat>, p: Filter)
    requires DistinctIds(all) && Ordered(all, order) && prev in all && rec.id == prev.id
    ensures UpdateStep(Select(all, p), p(prev), p(rec), prev, rec, order) == Select(ReplaceById(all, rec), p)
  {
    var a, b := CutAtId(all, prev);
    ReplaceCut(a, prev, b, rec);
    SelectCut(a, prev, b, p);
    SelectCut(a, rec, b, p);
    SelectMembers(a, p);
    if p(prev) && p(rec) {
      ReplaceCut(Select(a, p), prev, Select(b, p), rec);
    } else if p(prev) {
      RemoveCut(Select(a, p), prev, Select(b, p));
    } else if p(rec) {
      EnterCut(a, prev, b, rec, order, p);
    }
  }

  /** A record that enters goes back to its own insertion place. */
  lemma EnterCut(a: seq<Rec>, prev: Rec, b: seq<Rec>, rec: Rec, order: map<Id, nat>, p: Filter)
    requires Ordered(a + [prev] + b, order) && rec.id == prev.id
    ensures InsertByOrder(Select(a, p) + Select(b, p), rec, order) == Select(a, p) + [rec] + Select(b, p)
  {
    var all := a + [prev] + b;
    var after := (item: Rec) => OrderOf(order, item.id) > OrderOf(order, rec.id);
    SelectMembers(a, p);
    SelectMembers(b, p);
    forall r | r in a ensures !after(r) {
      var i :| 0 <= i < |a| && a[i] == r;
      assert all[i] == r && all[|a|] == prev;
    }
    forall r | r in b ensures after(r) {
      var i :| 0 <= i < |b| && b[i] == r;
      assert all[|a| + 1 + i] == r && all[|a|] == prev;
    }
    InsertCut(Select(a, p), Select(b, p), rec, after);
  }

  lemma RemoveRefines(all: seq<Rec>, prev: Rec, p: Filter)
    requires DistinctIds(all) && prev in all
    ensures Select(RemoveById(all, prev.id), p)
         == if p(prev) then RemoveById(Select(all, p), prev.id) else Select(all, p)
  {
    var a, b := CutAtId(all, prev);
    RemoveCut(a, prev, b);
    SelectCut(a, prev, b, p);
    SelectAppend(a, b, p);
    if p(prev) {
      SelectMembers(a, p);
      RemoveCut(Select(a, p), prev, Select(b, p));
    }
  }
}
