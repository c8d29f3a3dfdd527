/** Delivery with callbacks that write back: `queueNotifications`, `bulk` and `flushNotifications` as a
    machine whose steps are the user's calls and the kernel's own moves.

    The stack holds what the program is in the middle of.  User code runs when the stack is empty,
    inside a bulk, or inside a callback; there it may make any call it likes.  Writes are concrete,
    so a view's list is the list LiveStore keeps; the log is what an outside observer sees. */
module LiveStoreDelivery {
  import opened Lists
  import opened Wrappers
  import opened LiveStoreLists
  import opened LiveStoreSorted
  import opened LiveStoreParts

  type ViewId = nat

  /** `past` is the store when the view was made, and the writes since. */
  datatype View = View(
    filter: Filter,
    compare: Option<Compare>,
    current: seq<Rec>,
    subscribers: seq<Callback>,
    disposed: bool,
    past: (seq<Rec>, seq<Delta>))

  datatype Frame = InBulk | Flushing(round: Round)

  /** Where a flush stands.  `inCall` means a callback is running. */
  datatype Round =
    | Between
    | Listeners(todo: seq<Callback>, last: Delta, changed: seq<(ViewId, Delta)>, inCall: bool)
    | Views(changed: seq<(ViewId, Delta)>)
    | Notifying(view: ViewId, list: seq<Rec>, delta: Delta, todo: seq<Callback>, changed: seq<(ViewId, Delta)>, inCall: bool)

  /** What can be seen from outside. */
  datatype Entry =
    | Subscribed(view: ViewId, cb: Callback)
    | Listened(cb: Callback)
    | Wrote(touched: set<ViewId>, delta: Delta)
    | CalledListener(cb: Callback, delta: Delta)
    | Called(view: ViewId, cb: Callback, list: seq<Rec>, delta: Delta)

  datatype State = State(
    all: seq<Rec>,
    order: map<Id, nat>,
    nextOrder: nat,
    views: map<ViewId, View>,
    listeners: seq<Callback>,
    pending: seq<Delta>,
    changed: seq<(ViewId, Delta)>,
    notifyDepth: nat,
    bulkDepth: nat,
    disposed: bool,
    stack: seq<Frame>,
    log: seq<Entry>)

  datatype Event =
    | DoOp(op: Op)
    | BeginBulk
    | EndBulk
    | MakeView(id: ViewId, filter: Filter, compare: Option<Compare>)
    | KillView(id: ViewId)
    | Subscribe(id: ViewId, cb: Callback)
    | Unsubscribe(id: ViewId, cb: Callback)
    | Listen(cb: Callback)
    | Unlisten(cb: Callback)
    | DisposeStore
    | ReturnFromCallback
    | Advance

  function Init(all: seq<Rec>, order: map<Id, nat>, nextOrder: nat): State {
    State(all, order, nextOrder, map[], [], [], [], 0, 0, false, [], [])
  }

  // ---------- a write ----------

  function PlainStep(list: seq<Rec>, d: Delta, filter: Filter, order: map<Id, nat>): seq<Rec> {
    match d
    case Add(rec) => if filter(rec) then list + [rec] else list
    case Update(_, rec, prev) => UpdateStep(list, filter(prev), filter(rec), prev, rec, order)
    case Remove(id, prev) => if filter(prev) then RemoveById(list, id) else list
  }

  function ViewStep(v: View, d: Delta, order: map<Id, nat>): View {
    if v.disposed then v
    else v.(current := match v.compare
                       case None => PlainStep(v.current, d, v.filter, order)
                       case Some(c) => SortedStep(v.current, d, v.filter, c),
            past := (v.past.0, v.past.1 + [d]))
  }

  function TouchedBy(views: map<ViewId, View>, d: Delta): set<ViewId> {
    set id | id in views && !views[id].disposed && Touches(d, views[id].filter)
  }

  predicate InQueue(q: seq<(ViewId, Delta)>, id: ViewId) {
    exists i | 0 <= i < |q| :: q[i].0 == id
  }

  /** `Map.set`: a key already there keeps its place. */
  function SetChanged(q: seq<(ViewId, Delta)>, id: ViewId, d: Delta): seq<(ViewId, Delta)> {
    if q == [] then [(id, d)]
    else if q[0].0 == id then [(id, d)] + q[1..]
    else [q[0]] + SetChanged(q[1..], id, d)
  }

  /** The views are visited in the order they were made. */
  function MarkAll(q: seq<(ViewId, Delta)>, touched: set<ViewId>, d: Delta, next: ViewId): seq<(ViewId, Delta)> {
    if next == 0 then q
    else
      var before := MarkAll(q, touched, d, next - 1);
      if next - 1 in touched then SetChanged(before, next - 1, d) else before
  }

  function Write(s: State, d: Delta): State {
    var touched := TouchedBy(s.views, d);
    s.(all := StoreStep(s.all, d),
       order := OrderAfter(s.order, s.nextOrder, d),
       nextOrder := if d.Add? then s.nextOrder + 1 else s.nextOrder,
       views := map id | id in s.views :: ViewStep(s.views[id], d, s.order),
       changed := MarkAll(s.changed, touched, d, Bound(s.views)),
       pending := s.pending + [d],
       log := s.log + [Wrote(touched, d)])
  }

  /** Views are numbered in the order they are made. */
  function Bound(views: map<ViewId, View>): nat {
    |views|
  }

  /** `flushNotifications`: only the outermost call delivers. */
  function EnterFlush(s: State): State {
    if s.notifyDepth > 0 then s
    else s.(notifyDepth := s.notifyDepth + 1, stack := s.stack + [Flushing(Between)])
  }

  // ---------- steps ----------

  function Top(s: State): Option<Frame> {
    if s.stack == [] then None else Some(s.stack[|s.stack| - 1])
  }

  predicate InCall(r: Round) {
    (r.Listeners? || r.Notifying?) && r.inCall
  }

  predicate UserRuns(s: State) {
    match Top(s)
    case None => true
    case Some(InBulk) => true
    case Some(Flushing(r)) => InCall(r)
  }

  predicate Enabled(s: State, e: Event) {
    match e
    case Advance => Top(s).Some? && Top(s).value.Flushing? && !InCall(Top(s).value.round)
    case ReturnFromCallback => Top(s).Some? && Top(s).value.Flushing? && InCall(Top(s).value.round)
    case EndBulk => Top(s) == Some(InBulk)
    case MakeView(id, _, _) => UserRuns(s) && !s.disposed && id == Bound(s.views)
    case KillView(id) => UserRuns(s) && id in s.views && !s.views[id].disposed
    case Subscribe(id, _) => UserRuns(s) && id in s.views
    case Unsubscribe(id, _) => UserRuns(s) && id in s.views
    case DoOp(_) => UserRuns(s) && !s.disposed
    case BeginBulk => UserRuns(s) && !s.disposed
    case Listen(_) => UserRuns(s) && !s.disposed
    case Unlisten(_) => UserRuns(s)
    case DisposeStore => UserRuns(s)
  }

  function SetTop(s: State, f: Frame): State
    requires s.stack != []
  {
    s.(stack := s.stack[|s.stack| - 1 := f])
  }

  function Pop(s: State): State
    requires s.stack != []
  {
    s.(stack := s.stack[..|s.stack| - 1])
  }

  function SetView(s: State, id: ViewId, v: View): State {
    s.(views := s.views[id := v])
  }

  function Next(s: State, e: Event): State
    requires Enabled(s, e)
  {
    match e
    case DoOp(op) =>
      (match DeltaOf(s.all, op)
       case None => s
       case Some(d) =>
         var w := Write(s, d);
         if w.bulkDepth == 0 then EnterFlush(w) else w)
    case BeginBulk => s.(bulkDepth := s.bulkDepth + 1, stack := s.stack + [InBulk])
    case EndBulk =>
      var out := Pop(s).(bulkDepth := if s.bulkDepth == 0 then 0 else s.bulkDepth - 1);
      if out.bulkDepth == 0 then EnterFlush(out) else out
    case MakeView(id, filter, compare) =>
      var list := Select(s.all, filter);
      SetView(s, id, View(filter, compare, if compare.Some? then StableSort(list, compare.value) else list, [], false, (s.all, [])))
    case KillView(id) => SetView(s, id, Dead(s.views[id]))
    case Subscribe(id, cb) =>
      var v := s.views[id];
      if v.disposed || cb in v.subscribers then s
      else SetView(s, id, v.(subscribers := v.subscribers + [cb])).(log := s.log + [Subscribed(id, cb)])
    case Unsubscribe(id, cb) => SetView(s, id, s.views[id].(subscribers := Without(s.views[id].subscribers, cb)))
    case Listen(cb) => if cb in s.listeners then s else s.(listeners := s.listeners + [cb], log := s.log + [Listened(cb)])
    case Unlisten(cb) => s.(listeners := Without(s.listeners, cb))
    case DisposeStore =>
      if s.disposed then s
      else s.(disposed := true, all := [], listeners := [], pending := [], changed := [],
              views := map id | id in s.views :: Dead(s.views[id]))
    case ReturnFromCallback =>
      SetTop(s, Flushing(Returned(Top(s).value.round)))
    case Advance => Kernel(s, Top(s).value.round)
  }

  function Returned(r: Round): Round {
    match r
    case Listeners(todo, last, changed, _) => Listeners(todo, last, changed, false)
    case Notifying(view, list, d, todo, changed, _) => Notifying(view, list, d, todo, changed, false)
    case _ => r
  }

  function Dead(v: View): View {
    v.(disposed := true, current := [], subscribers := [])
  }

  /** The flush loop's own moves, one at a time. */
  function Kernel(s: State, r: Round): State
    requires s.stack != []
  {
    match r
    case Between =>
      if s.pending != [] && !s.disposed then
        SetTop(s.(pending := [], changed := []),
               Flushing(Listeners(s.listeners, s.pending[|s.pending| - 1], s.changed, false)))
      else Pop(s).(notifyDepth := if s.notifyDepth == 0 then 0 else s.notifyDepth - 1)
    case Listeners(todo, last, changed, _) =>
      if todo == [] then SetTop(s, Flushing(Views(changed)))
      else SetTop(s.(log := s.log + [CalledListener(todo[0], last)]), Flushing(Listeners(todo[1..], last, changed, true)))
    case Views(changed) =>
      if changed == [] then SetTop(s, Flushing(Between))
      else
        var (id, d) := changed[0];
        if id !in s.views || s.views[id].disposed then SetTop(s, Flushing(Views(changed[1..])))
        else SetTop(s, Flushing(Notifying(id, s.views[id].current, d, s.views[id].subscribers, changed[1..], false)))
    case Notifying(id, list, d, todo, changed, _) =>
      if todo == [] then SetTop(s, Flushing(Views(changed)))
      else SetTop(s.(log := s.log + [Called(id, todo[0], list, d)]), Flushing(Notifying(id, list, d, todo[1..], changed, true)))
  }

  /** The state after a run of events, if each was possible when it came. */
  function After(s: State, events: seq<Event>): Option<State> {
    if events == [] then Some(s)
    else
      match After(s, events[..|events| - 1])
      case None => None
      case Some(t) => if Enabled(t, events[|events| - 1]) then Some(Next(t, events[|events| - 1])) else None
  }

  // ---------- what the log says ----------

  /** The list and the delta a callback was last called with, since it last subscribed. */
  function LastHeard(log: seq<Entry>, id: ViewId, cb: Callback): Option<(seq<Rec>, Delta)> {
    if log == [] then None
    else
      match log[|log| - 1]
      case Called(i, c, list, d) => if i == id && c == cb then Some((list, d)) else LastHeard(log[..|log| - 1], id, cb)
      case Subscribed(i, c) => if i == id && c == cb then None else LastHeard(log[..|log| - 1], id, cb)
      case _ => LastHeard(log[..|log| - 1], id, cb)
  }

  /** The last write that touched the view. */
  function LastChange(log: seq<Entry>, id: ViewId): Option<Delta> {
    if log == [] then None
    else
      match log[|log| - 1]
      case Wrote(touched, d) => if id in touched then Some(d) else LastChange(log[..|log| - 1], id)
      case _ => LastChange(log[..|log| - 1], id)
  }

  /** Some write touched the view since the callback last subscribed to it. */
  predicate ChangedSince(log: seq<Entry>, id: ViewId, cb: Callback) {
    log != [] &&
    match log[|log| - 1]
    case Subscribed(i, c) => if i == id && c == cb then false else ChangedSince(log[..|log| - 1], id, cb)
    case Wrote(touched, _) => id in touched || ChangedSince(log[..|log| - 1], id, cb)
    case _ => ChangedSince(log[..|log| - 1], id, cb)
  }

  /** Some entry is of the first kind, and none after it of the second. */
  ghost predicate EndsWith(log: seq<Entry>, one: Entry -> bool, none: Entry -> bool) {
    exists k :: 0 <= k < |log| && one(log[k]) && forall j | k < j < |log| :: !none(log[j])
  }

  lemma EndsWithStep(log: seq<Entry>, x: Entry, one: Entry -> bool, none: Entry -> bool)
    ensures EndsWith(log + [x], one, none) <==> one(x) || (!none(x) && EndsWith(log, one, none))
  {
    var longer := log + [x];
    assert longer[|log|] == x && forall k | 0 <= k < |log| :: longer[k] == log[k];
    if EndsWith(log, one, none) && !none(x) {
      var k :| 0 <= k < |log| && one(log[k]) && forall j | k < j < |log| :: !none(log[j]);
      assert one(longer[k]);
    }
  }

  /** In the log's own terms: what a callback was last called with since it last subscribed; the last write that
      touched the view; a write that did since the callback last subscribed. */
  lemma {:induction false} LogMeans(log: seq<Entry>, id: ViewId, cb: Callback, list: seq<Rec>, d: Delta)
    ensures LastHeard(log, id, cb) == Some((list, d)) <==>
      EndsWith(log, (x: Entry) => x == Called(id, cb, list, d),
        (x: Entry) => x == Subscribed(id, cb) || (x.Called? && x.view == id && x.cb == cb))
    ensures LastChange(log, id) == Some(d) <==>
      EndsWith(log, (x: Entry) => x.Wrote? && id in x.touched && x.delta == d, (x: Entry) => x.Wrote? && id in x.touched)
    ensures ChangedSince(log, id, cb) <==> EndsWith(log, (x: Entry) => x.Wrote? && id in x.touched, (x: Entry) => x == Subscribed(id, cb))
  {
    if log != [] {
      var before, x := log[..|log| - 1], log[|log| - 1];
      LogMeans(before, id, cb, list, d);
      assert before + [x] == log;
      EndsWithStep(before, x, (x: Entry) => x == Called(id, cb, list, d),
        (x: Entry) => x == Subscribed(id, cb) || (x.Called? && x.view == id && x.cb == cb));
      EndsWithStep(before, x, (x: Entry) => x.Wrote? && id in x.touched && x.delta == d, (x: Entry) => x.Wrote? && id in x.touched);
      EndsWithStep(before, x, (x: Entry) => x.Wrote? && id in x.touched, (x: Entry) => x == Subscribed(id, cb));
      hide EndsWith;
    }
  }

  // ---------- the invariant ----------

  /** A flush can only be at the bottom of the stack: everything above it is a bulk of a callback. */
  ghost predicate StackValid(s: State) {
    && (forall i | 0 < i < |s.stack| :: s.stack[i].InBulk?)
    && s.notifyDepth == (if s.stack != [] && s.stack[0].Flushing? then 1 else 0)
    && s.bulkDepth == |s.stack| - s.notifyDepth
    && (|s.stack| > 1 && s.stack[0].Flushing? ==> InCall(s.stack[0].round))
  }

  /** What the flush at the bottom has still to do for a subscription. */
  ghost predicate ComingUp(s: State, id: ViewId, cb: Callback) {
    s.stack != [] && s.stack[0].Flushing? &&
    match s.stack[0].round
    case Between => false
    case Listeners(_, _, changed, _) => InQueue(changed, id)
    case Views(changed) => InQueue(changed, id)
    case Notifying(v, list, _, todo, changed, _) =>
      InQueue(changed, id) || (v == id && cb in todo && id in s.views && list == s.views[id].current)
  }

  ghost predicate Settled(s: State, id: ViewId, cb: Callback) {
    id in s.views && (ChangedSince(s.log, id, cb) ==> UpToDate(s, id, cb))
  }

  /** The callback was last called with the view's list and the last write that touched the view. */
  ghost predicate UpToDate(s: State, id: ViewId, cb: Callback)
    requires id in s.views
  {
    var heard := LastHeard(s.log, id, cb);
    heard.Some? && heard.value.0 == s.views[id].current && LastChange(s.log, id) == Some(heard.value.1)
  }

  ghost predicate Owed(s: State, id: ViewId, cb: Callback) {
    Settled(s, id, cb) || InQueue(s.changed, id) || ComingUp(s, id, cb)
  }

  ghost predicate QueueValid(s: State) {
    && (s.pending == [] ==> s.changed == [])
    && (s.stack == [] ==> s.pending == [])
    && (s.disposed ==> s.pending == [])
  }

  ghost predicate ViewsValid(s: State) {
    && (forall id | id in s.views :: id < |s.views|)
    && (forall id | id in s.views && s.views[id].disposed :: s.views[id].subscribers == [])
  }

  /** A list being handed out is still the view's list, unless the view is queued again. */
  ghost predicate ListCurrent(s: State) {
    s.stack != [] && s.stack[0].Flushing? && s.stack[0].round.Notifying? ==>
      var v := s.stack[0].round.view;
      v in s.views && (s.views[v].disposed || s.stack[0].round.list == s.views[v].current || InQueue(s.changed, v))
  }

  ghost predicate Apart(q: seq<(ViewId, Delta)>) {
    forall i, j | 0 <= i < j < |q| :: q[i].0 != q[j].0
  }

  /** What waits in the queue is the last write that touched the view, and so is what a round still has to
      say of a view, unless the view is queued again. */
  ghost predicate Tells(s: State) {
    if s.disposed then forall id | id in s.views :: s.views[id].disposed
    else
      && Apart(s.changed)
      && (forall i | 0 <= i < |s.changed| :: LastChange(s.log, s.changed[i].0) == Some(s.changed[i].1))
      && (s.stack != [] && s.stack[0].Flushing? ==> RoundTells(s.log, s.changed, s.stack[0].round))
  }

  ghost predicate RoundTells(log: seq<Entry>, queue: seq<(ViewId, Delta)>, r: Round) {
    match r
    case Between => true
    case Listeners(_, _, changed, _) => AllTell(log, queue, changed)
    case Views(changed) => AllTell(log, queue, changed)
    case Notifying(v, _, d, _, changed, _) => AllTell(log, queue, changed) && (LastChange(log, v) == Some(d) || InQueue(queue, v))
  }

  ghost predicate AllTell(log: seq<Entry>, queue: seq<(ViewId, Delta)>, changed: seq<(ViewId, Delta)>) {
    && Apart(changed)
    && forall i | 0 <= i < |changed| :: LastChange(log, changed[i].0) == Some(changed[i].1) || InQueue(queue, changed[i].0)
  }

  ghost predicate AllOwed(s: State) {
    forall id, cb | id in s.views && cb in s.views[id].subscribers :: Owed(s, id, cb)
  }

  ghost predicate Inv(s: State) {
    StackValid(s) && QueueValid(s) && ViewsValid(s) && ListCurrent(s) && Tells(s) && AllOwed(s)
  }

  // ---------- every step keeps it ----------

  lemma StackKept(s: State, e: Event)
    requires StackValid(s) && QueueValid(s) && Enabled(s, e)
    ensures StackValid(Next(s, e)) && QueueValid(Next(s, e))
  {
    match e {
      case DoOp(op) => OpStack(s, op);
      case EndBulk => EndBulkStack(s);
      case Advance => AdvanceStack(s);
      case ReturnFromCallback => ReturnStack(s);
      case BeginBulk =>
      case _ =>
        hide Select, StableSort, Without, Write, DeltaOf, Kernel, EnterFlush, InCall, Returned;
    }
  }

  lemma OpStack(s: State, op: Op)
    requires StackValid(s) && QueueValid(s) && Enabled(s, DoOp(op))
    ensures StackValid(Next(s, DoOp(op))) && QueueValid(Next(s, DoOp(op)))
  {
    var od := DeltaOf(s.all, op);
    if od.Some? {
      WriteFrame(s, od.value);
      hide Write, DeltaOf;
      if s.bulkDepth == 0 {
        FlushStack(Write(s, od.value));
      }
    }
  }

  lemma EndBulkStack(s: State)
    requires StackValid(s) && QueueValid(s) && Enabled(s, EndBulk)
    ensures StackValid(Next(s, EndBulk)) && QueueValid(Next(s, EndBulk))
  {
    var out := Pop(s).(bulkDepth := s.bulkDepth - 1);
    if out.bulkDepth == 0 {
      FlushStack(out);
    }
  }

  /** A kernel move keeps the flush frame, or ends the flush when nothing is pending. */
  lemma KernelShape(s: State, r: Round)
    requires |s.stack| == 1 && s.notifyDepth == 1
    ensures var t := Kernel(s, r);
      && t.bulkDepth == s.bulkDepth && t.disposed == s.disposed
      && ((t.pending == [] && t.changed == []) || (t.pending == s.pending && t.changed == s.changed))
      && if t.stack == [] then t.notifyDepth == 0 && (s.pending == [] || s.disposed)
         else |t.stack| == 1 && t.stack[0].Flushing? && t.notifyDepth == 1
  {
    match r
    case Between =>
    case Listeners(todo, _, _, _) =>
    case Views(changed) =>
    case Notifying(_, _, _, todo, _, _) =>
  }

  lemma AdvanceStack(s: State)
    requires StackValid(s) && QueueValid(s) && Enabled(s, Advance)
    ensures StackValid(Next(s, Advance)) && QueueValid(Next(s, Advance))
  {
    assert |s.stack| == 1;
    KernelShape(s, Top(s).value.round);
    hide Kernel;
  }

  lemma ReturnStack(s: State)
    requires StackValid(s) && QueueValid(s) && Enabled(s, ReturnFromCallback)
    ensures StackValid(Next(s, ReturnFromCallback)) && QueueValid(Next(s, ReturnFromCallback))
  {
    assert |s.stack| == 1;
  }

  lemma WriteFrame(s: State, d: Delta)
    ensures var t := Write(s, d);
            && t.stack == s.stack && t.notifyDepth == s.notifyDepth && t.bulkDepth == s.bulkDepth && t.disposed == s.disposed
            && t.pending == s.pending + [d] && t.log == s.log + [Wrote(TouchedBy(s.views, d), d)]
  {
  }

  lemma FlushStack(s: State)
    requires StackValid(s) && s.bulkDepth == 0 && (s.disposed ==> s.pending == []) && (s.pending == [] ==> s.changed == [])
    ensures StackValid(EnterFlush(s)) && QueueValid(EnterFlush(s))
  {
  }

  lemma {:induction false} SetChangedQueue(q: seq<(ViewId, Delta)>, id: ViewId, d: Delta, x: ViewId)
    ensures InQueue(SetChanged(q, id, d), x) <==> InQueue(q, x) || x == id
  {
    var r := SetChanged(q, id, d);
    if q == [] {
      assert r[0].0 == id;
    } else if q[0].0 == id {
      assert r[0].0 == id;
      assert forall i | 0 < i < |q| :: r[i] == q[i];
      assert |r| == |q|;
    } else {
      SetChangedQueue(q[1..], id, d, x);
      QueueSplit(q, x);
      QueueSplit(r, x);
    }
  }

  lemma QueueSplit(q: seq<(ViewId, Delta)>, x: ViewId)
    requires q != []
    ensures InQueue(q, x) <==> q[0].0 == x || InQueue(q[1..], x)
  {
    if InQueue(q, x) {
      var i :| 0 <= i < |q| && q[i].0 == x;
      assert i == 0 || q[1..][i - 1].0 == x;
    }
    if InQueue(q[1..], x) {
      var i :| 0 <= i < |q[1..]| && q[1..][i].0 == x;
      assert q[i + 1].0 == x;
    }
  }

  lemma {:induction false} MarkAllQueue(q: seq<(ViewId, Delta)>, touched: set<ViewId>, d: Delta, next: ViewId, x: ViewId)
    ensures InQueue(MarkAll(q, touched, d, next), x) <==> InQueue(q, x) || (x in touched && x < next)
  {
    if next != 0 {
      MarkAllQueue(q, touched, d, next - 1, x);
      SetChangedQueue(MarkAll(q, touched, d, next - 1), next - 1, d, x);
    }
  }

  /** A view that says no to a write is not changed by it. */
  lemma UntouchedUnchanged(v: View, d: Delta, order: map<Id, nat>)
    requires v.disposed || !Touches(d, v.filter)
    ensures ViewStep(v, d, order).current == v.current
  {
  }

  lemma SameSubscribers(v: View, d: Delta, order: map<Id, nat>)
    ensures ViewStep(v, d, order).subscribers == v.subscribers && ViewStep(v, d, order).disposed == v.disposed
  {
  }

  /** What a write does to one view and its place in the queue. */
  lemma WriteOne(s: State, d: Delta, id: ViewId)
    requires ViewsValid(s) && id in s.views
    ensures var t, touched := Write(s, d), TouchedBy(s.views, d);
            && id in t.views
            && t.views[id].subscribers == s.views[id].subscribers && t.views[id].disposed == s.views[id].disposed
            && (id !in touched ==> t.views[id].current == s.views[id].current)
            && (InQueue(t.changed, id) <==> InQueue(s.changed, id) || id in touched)
  {
    hide ViewStep, MarkAll;
    SameSubscribers(s.views[id], d, s.order);
    MarkAllQueue(s.changed, TouchedBy(s.views, d), d, Bound(s.views), id);
    if id !in TouchedBy(s.views, d) {
      UntouchedUnchanged(s.views[id], d, s.order);
    }
  }

  /** What a write does to the views as their subscribers see them. */
  ghost predicate WroteTo(s: State, t: State, touched: set<ViewId>) {
    && t.views.Keys == s.views.Keys
    && (forall id | id in s.views ::
          && t.views[id].subscribers == s.views[id].subscribers && t.views[id].disposed == s.views[id].disposed
          && (id !in touched ==> t.views[id].current == s.views[id].current)
          && (InQueue(t.changed, id) <==> InQueue(s.changed, id) || id in touched))
  }

  lemma WriteIsSeen(s: State, d: Delta)
    requires ViewsValid(s)
    ensures WroteTo(s, Write(s, d), TouchedBy(s.views, d))
  {
    WriteKeys(s, d);
    hide Write, TouchedBy, InQueue;
    forall id | id in s.views {
      WriteOne(s, d, id);
    }
  }

  lemma WriteKept(s: State, d: Delta)
    requires Inv(s) && !s.disposed
    ensures ViewsValid(Write(s, d)) && ListCurrent(Write(s, d)) && AllOwed(Write(s, d))
  {
    var t, touched := Write(s, d), TouchedBy(s.views, d);
    hide Write, TouchedBy, StackValid, QueueValid, InQueue, Owed;
    WriteFrame(s, d);
    WriteIsSeen(s, d);
    assert |t.views| == |t.views.Keys| == |s.views.Keys|;
    forall id, cb | id in t.views && cb in t.views[id].subscribers ensures Owed(t, id, cb) {
      WriteOwed(s, t, touched, d, id, cb);
    }
  }

  lemma WriteOwed(s: State, t: State, touched: set<ViewId>, d: Delta, id: ViewId, cb: Callback)
    requires Owed(s, id, cb) && id in s.views && id in t.views
    requires t.stack == s.stack && t.log == s.log + [Wrote(touched, d)]
    requires id !in touched ==> t.views[id].current == s.views[id].current
    requires InQueue(t.changed, id) <==> InQueue(s.changed, id) || id in touched
    ensures Owed(t, id, cb)
  {
    assert t.log[..|s.log|] == s.log;
    hide InQueue;
  }

  lemma FlushKept(s: State)
    requires ListCurrent(s) && AllOwed(s) && (s.notifyDepth == 0 ==> s.stack == [])
    ensures ListCurrent(EnterFlush(s)) && AllOwed(EnterFlush(s))
  {
    var t := EnterFlush(s);
    forall id, cb | id in t.views && cb in t.views[id].subscribers ensures Owed(t, id, cb) {
      assert Owed(s, id, cb);
    }
  }

  lemma OpKept(s: State, op: Op)
    requires Inv(s) && Enabled(s, DoOp(op))
    ensures ViewsValid(Next(s, DoOp(op))) && ListCurrent(Next(s, DoOp(op))) && AllOwed(Next(s, DoOp(op)))
  {
    hide Write, DeltaOf, ListCurrent, AllOwed;
    var od := DeltaOf(s.all, op);
    if od.Some? {
      WriteKept(s, od.value);
      WriteFrame(s, od.value);
      if s.bulkDepth == 0 {
        FlushKept(Write(s, od.value));
      }
    }
  }

  /** The part of the invariant that is not about the stack and the queues. */
  ghost predicate OwedInv(s: State) {
    ViewsValid(s) && ListCurrent(s) && AllOwed(s)
  }

  /** Entries that are about no view. */
  predicate Silent(x: Entry) {
    x.Listened? || x.CalledListener?
  }

  lemma SilentEntry(log: seq<Entry>, x: Entry, id: ViewId, cb: Callback)
    requires Silent(x)
    ensures LastHeard(log + [x], id, cb) == LastHeard(log, id, cb) && LastChange(log + [x], id) == LastChange(log, id)
    ensures ChangedSince(log + [x], id, cb) == ChangedSince(log, id, cb)
  {
    assert (log + [x])[..|log|] == log;
  }

  /** Calls that change neither the views, what the log says of them, the queue of views, nor the flush. */
  lemma BystanderKept(s: State, t: State)
    requires Inv(s)
    requires t.views == s.views && t.changed == s.changed
    requires t.log == s.log || (|t.log| == |s.log| + 1 && Silent(t.log[|s.log|]) && t.log == s.log + [t.log[|s.log|]])
    requires s.stack != [] && s.stack[0].Flushing? ==> t.stack != [] && t.stack[0] == s.stack[0]
    requires s.stack == [] || s.stack[0].InBulk? ==> t.stack == [] || t.stack[0].InBulk?
    ensures OwedInv(t)
  {
    hide StackValid, QueueValid, Tells, InQueue;
    forall id, cb | id in t.views && cb in t.views[id].subscribers ensures Owed(t, id, cb) {
      assert Owed(s, id, cb);
      if t.log != s.log {
        SilentEntry(s.log, t.log[|s.log|], id, cb);
      }
      hide ChangedSince, LastHeard, LastChange;
    }
  }

  /** Calls that replace one view by one with fewer subscribers and, unless dead, the same list. */
  lemma QuieterKept(s: State, id: ViewId, v: View)
    requires Inv(s) && id in s.views
    requires forall cb | cb in v.subscribers :: cb in s.views[id].subscribers
    requires (v.disposed && v.subscribers == []) || (v.current == s.views[id].current && v.disposed == s.views[id].disposed)
    ensures OwedInv(SetView(s, id, v))
  {
    var t := SetView(s, id, v);
    assert t.views.Keys == s.views.Keys;
    assert |t.views| == |t.views.Keys|;
    if v.subscribers != [] {
      assert v.subscribers[0] in s.views[id].subscribers;
    }
    forall i, cb | i in t.views && cb in t.views[i].subscribers ensures Owed(t, i, cb) {
      assert Owed(s, i, cb);
    }
  }

  lemma SubscribeNext(s: State, id: ViewId, cb: Callback)
    requires Enabled(s, Subscribe(id, cb))
    ensures id in s.views && var t, v := Next(s, Subscribe(id, cb)), s.views[id];
      t == s || (!v.disposed && t == SetView(s, id, v.(subscribers := v.subscribers + [cb])).(log := s.log + [Subscribed(id, cb)]))
  {
  }

  lemma SubscribeKept(s: State, id: ViewId, cb: Callback)
    requires Inv(s) && Enabled(s, Subscribe(id, cb))
    ensures OwedInv(Next(s, Subscribe(id, cb)))
  {
    hide StackValid, QueueValid, Next, Enabled;
    var t := Next(s, Subscribe(id, cb));
    SubscribeNext(s, id, cb);
    if t != s {
      assert t.views.Keys == s.views.Keys;
      assert |t.views| == |t.views.Keys|;
      assert t.log[..|s.log|] == s.log;
      forall i, c | i in t.views && c in t.views[i].subscribers ensures Owed(t, i, c) {
        if i != id || c != cb {
          assert Owed(s, i, c);
        }
      }
    }
  }

  /** What is owed to a subscription stays owed while its view, the queues, the log and the flush stay. */
  lemma OwedStays(s: State, t: State, id: ViewId, cb: Callback)
    requires Owed(s, id, cb) && id in s.views && id in t.views && t.views[id] == s.views[id]
    requires t.log == s.log && t.changed == s.changed && t.stack == s.stack
    ensures Owed(t, id, cb)
  {
    hide InQueue, ChangedSince, LastHeard;
  }

  lemma NewViewCount(s: State, id: ViewId, v: View)
    requires ViewsValid(s) && id == |s.views|
    ensures id !in s.views && SetView(s, id, v).views.Keys == s.views.Keys + {id} && |SetView(s, id, v).views| == |s.views| + 1
  {
    var t := SetView(s, id, v);
    assert t.views.Keys == s.views.Keys + {id};
    assert |t.views| == |t.views.Keys| == |s.views.Keys| + 1;
  }

  lemma MakeViewNext(s: State, e: Event)
    requires e.MakeView? && Enabled(s, e)
    ensures e.id == |s.views| && Next(s, e) == SetView(s, e.id, Next(s, e).views[e.id])
    ensures var v := Next(s, e).views[e.id];
            v.subscribers == [] && !v.disposed && v.filter == e.filter && v.compare == e.compare && v.past == (s.all, [])
  {
    hide Select, StableSort;
  }

  lemma MakeViewKept(s: State, e: Event)
    requires Inv(s) && e.MakeView? && Enabled(s, e)
    ensures OwedInv(Next(s, e))
  {
    hide StackValid, QueueValid, Owed, InQueue, Next, Enabled;
    var t := Next(s, e);
    MakeViewNext(s, e);
    NewViewCount(s, e.id, t.views[e.id]);
    forall i, cb | i in t.views && cb in t.views[i].subscribers ensures Owed(t, i, cb) {
      assert i != e.id && Owed(s, i, cb);
      OwedStays(s, t, i, cb);
    }
  }

  lemma DisposeKept(s: State)
    requires Inv(s)
    requires UserRuns(s)
    ensures OwedInv(Next(s, DisposeStore))
  {
    var t := Next(s, DisposeStore);
    if !s.disposed {
      assert t.views.Keys == s.views.Keys;
      assert |t.views| == |t.views.Keys|;
    }
  }

  /** The flush's own moves, one lemma per phase. */
  lemma BetweenKept(s: State)
    requires Inv(s) && s.stack == [Flushing(Between)]
    ensures OwedInv(Kernel(s, Between))
  {
    var t := Kernel(s, Between);
    forall id, cb | id in t.views && cb in t.views[id].subscribers ensures Owed(t, id, cb) {
      assert Owed(s, id, cb);
    }
  }

  lemma ListenersKept(s: State, r: Round)
    requires Inv(s) && s.stack == [Flushing(r)] && r.Listeners?
    ensures OwedInv(Kernel(s, r))
  {
    hide StackValid, QueueValid, Tells, InQueue;
    var t := Kernel(s, r);
    forall id, cb | id in t.views && cb in t.views[id].subscribers ensures Owed(t, id, cb) {
      assert Owed(s, id, cb);
      if r.todo != [] {
        SilentEntry(s.log, CalledListener(r.todo[0], r.last), id, cb);
      }
      hide ChangedSince, LastHeard, LastChange;
    }
  }

  lemma ViewsKept(s: State, r: Round)
    requires Inv(s) && s.stack == [Flushing(r)] && r.Views?
    ensures OwedInv(Kernel(s, r))
  {
    var t := Kernel(s, r);
    forall id, cb | id in t.views && cb in t.views[id].subscribers ensures Owed(t, id, cb) {
      assert Owed(s, id, cb);
      if r.changed != [] {
        QueueSplit(r.changed, id);
      }
    }
  }

  lemma CallEntry(log: seq<Entry>, view: ViewId, called: Callback, list: seq<Rec>, d: Delta, id: ViewId, cb: Callback)
    ensures var longer := log + [Called(view, called, list, d)];
      && LastHeard(longer, id, cb) == (if id == view && cb == called then Some((list, d)) else LastHeard(log, id, cb))
      && LastChange(longer, id) == LastChange(log, id) && ChangedSince(longer, id, cb) == ChangedSince(log, id, cb)
  {
    assert (log + [Called(view, called, list, d)])[..|log|] == log;
  }

  lemma NotifyingKept(s: State, r: Round)
    requires Inv(s) && s.stack == [Flushing(r)] && r.Notifying?
    ensures OwedInv(Kernel(s, r))
  {
    hide StackValid, QueueValid, InQueue, AllTell, Apart;
    var t := Kernel(s, r);
    forall id, cb | id in t.views && cb in t.views[id].subscribers ensures Owed(t, id, cb) {
      assert Owed(s, id, cb);
      if r.todo != [] {
        CallEntry(s.log, r.view, r.todo[0], r.list, r.delta, id, cb);
        assert cb in r.todo ==> cb == r.todo[0] || cb in r.todo[1..];
      }
      assert id == r.view ==> !s.views[id].disposed;
      hide ChangedSince, LastHeard, LastChange;
    }
  }

  lemma AdvanceKept(s: State)
    requires Inv(s) && Enabled(s, Advance)
    ensures OwedInv(Next(s, Advance))
  {
    var r := Top(s).value.round;
    assert s.stack == [Flushing(r)];
    match r {
      case Between => BetweenKept(s);
      case Listeners(_, _, _, _) => ListenersKept(s, r);
      case Views(_) => ViewsKept(s, r);
      case Notifying(_, _, _, _, _, _) => NotifyingKept(s, r);
    }
  }

  lemma ReturnKept(s: State)
    requires Inv(s) && Enabled(s, ReturnFromCallback)
    ensures OwedInv(Next(s, ReturnFromCallback))
  {
    var t := Next(s, ReturnFromCallback);
    assert |s.stack| == 1;
    forall id, cb | id in t.views && cb in t.views[id].subscribers ensures Owed(t, id, cb) {
      assert Owed(s, id, cb);
    }
  }

  lemma EndBulkKept(s: State)
    requires Inv(s) && Enabled(s, EndBulk)
    ensures OwedInv(Next(s, EndBulk))
  {
    var out := Pop(s).(bulkDepth := s.bulkDepth - 1);
    BystanderKept(s, out);
    if out.bulkDepth == 0 {
      FlushKept(out);
    }
  }

  // ---------- what is told is the last write ----------

  lemma LastChangeOf(log: seq<Entry>, x: Entry, id: ViewId)
    ensures LastChange(log + [x], id) == if x.Wrote? && id in x.touched then Some(x.delta) else LastChange(log, id)
  {
    assert (log + [x])[..|log|] == log;
  }

  lemma {:induction false} SetChangedTells(q: seq<(ViewId, Delta)>, id: ViewId, d: Delta)
    requires Apart(q)
    ensures var r := SetChanged(q, id, d);
      && Apart(r) && forall i | 0 <= i < |r| :: if r[i].0 == id then r[i].1 == d else r[i] in q
  {
    if q != [] && q[0].0 != id {
      var rest := SetChanged(q[1..], id, d);
      SetChangedTells(q[1..], id, d);
      forall i | 0 <= i < |rest| ensures rest[i].0 != q[0].0 {
        if rest[i] in q[1..] {
          var k :| 0 <= k < |q[1..]| && q[1..][k] == rest[i];
          assert q[k + 1] == rest[i];
        }
      }
    }
  }

  lemma {:induction false} MarkAllTells(q: seq<(ViewId, Delta)>, touched: set<ViewId>, d: Delta, next: ViewId)
    requires Apart(q)
    ensures var r := MarkAll(q, touched, d, next);
      && Apart(r) && forall i | 0 <= i < |r| :: if r[i].0 in touched && r[i].0 < next then r[i].1 == d else r[i] in q
  {
    if next != 0 {
      var before := MarkAll(q, touched, d, next - 1);
      MarkAllTells(q, touched, d, next - 1);
      if next - 1 in touched {
        SetChangedTells(before, next - 1, d);
        var r := SetChanged(before, next - 1, d);
        forall i | 0 <= i < |r| && r[i].0 != next - 1
          ensures if r[i].0 in touched && r[i].0 < next then r[i].1 == d else r[i] in q
        {
          var k :| 0 <= k < |before| && before[k] == r[i];
        }
      }
    }
  }

  lemma WriteTells(s: State, d: Delta)
    requires Tells(s) && ViewsValid(s)
    ensures Tells(Write(s, d))
  {
    var t, touched := Write(s, d), TouchedBy(s.views, d);
    assert touched <= s.views.Keys;
    if !s.disposed {
      MarkAllTells(s.changed, touched, d, Bound(s.views));
      WriteFrame(s, d);
      assert t.changed == MarkAll(s.changed, touched, d, Bound(s.views)) && t.disposed == s.disposed;
      hide Write, TouchedBy, MarkAll;
      forall i | 0 <= i < |t.changed| ensures LastChange(t.log, t.changed[i].0) == Some(t.changed[i].1) {
        LastChangeOf(s.log, Wrote(touched, d), t.changed[i].0);
      }
      if s.stack != [] && s.stack[0].Flushing? {
        forall id | LastChange(t.log, id) != LastChange(s.log, id) ensures InQueue(t.changed, id) {
          LastChangeOf(s.log, Wrote(touched, d), id);
          MarkAllQueue(s.changed, touched, d, Bound(s.views), id);
        }
        forall id | InQueue(s.changed, id) ensures InQueue(t.changed, id) {
          MarkAllQueue(s.changed, touched, d, Bound(s.views), id);
        }
        hide InQueue;
        StillTells(s.log, s.changed, t.log, t.changed, s.stack[0].round);
      }
    }
  }

  lemma StillTells(log: seq<Entry>, queue: seq<(ViewId, Delta)>, log': seq<Entry>, queue': seq<(ViewId, Delta)>, r: Round)
    requires RoundTells(log, queue, r)
    requires forall id :: LastChange(log', id) == LastChange(log, id) || InQueue(queue', id)
    requires forall id | InQueue(queue, id) :: InQueue(queue', id)
    ensures RoundTells(log', queue', r)
  {
  }

  lemma OpTells(s: State, op: Op)
    requires Inv(s) && Enabled(s, DoOp(op))
    ensures Tells(Next(s, DoOp(op)))
  {
    hide Write, DeltaOf, RoundTells, Apart, LastChange;
    var od := DeltaOf(s.all, op);
    if od.Some? {
      WriteTells(s, od.value);
      WriteFrame(s, od.value);
      FlushTells(Write(s, od.value));
    }
  }

  lemma FlushTells(s: State)
    requires Tells(s) && (s.notifyDepth == 0 && s.bulkDepth == 0 ==> s.stack == [])
    ensures s.bulkDepth == 0 ==> Tells(EnterFlush(s))
  {
  }

  /** Nothing that matters to the queue has changed. */
  lemma SameTells(s: State, t: State)
    requires Tells(s) && t.disposed == s.disposed && t.changed == s.changed
    requires forall id | id in t.views && !t.views[id].disposed :: t.disposed ==> id in s.views && !s.views[id].disposed
    requires t.log == s.log || (|t.log| == |s.log| + 1 && !t.log[|s.log|].Wrote? && t.log == s.log + [t.log[|s.log|]])
    requires t.stack != [] && t.stack[0].Flushing? && t.stack[0].round != Between ==>
      s.stack != [] && s.stack[0].Flushing? && (t.stack[0].round == s.stack[0].round || t.stack[0].round == Returned(s.stack[0].round))
    ensures Tells(t)
  {
    forall id ensures LastChange(t.log, id) == LastChange(s.log, id) {
      if t.log != s.log {
        LastChangeOf(s.log, t.log[|s.log|], id);
      }
    }
    hide LastChange, InQueue, Apart;
  }

  lemma KernelTells(s: State, r: Round)
    requires Tells(s) && s.stack == [Flushing(r)]
    ensures Tells(Kernel(s, r))
  {
    var t := Kernel(s, r);
    forall id ensures LastChange(t.log, id) == LastChange(s.log, id) {
      if |t.log| > |s.log| {
        LastChangeOf(s.log, t.log[|s.log|], id);
      }
    }
    hide LastChange, InQueue;
    match r
    case Between =>
    case Listeners(todo, _, _, _) => SameRoundTells(s.log, s.changed, t.log, r);
    case Views(changed) =>
      if changed != [] && !s.disposed {
        TailTells(s.log, s.changed, changed);
      }
    case Notifying(_, _, _, todo, _, _) => SameRoundTells(s.log, s.changed, t.log, r);
  }

  lemma SameRoundTells(log: seq<Entry>, queue: seq<(ViewId, Delta)>, log': seq<Entry>, r: Round)
    requires forall id :: LastChange(log', id) == LastChange(log, id)
    ensures RoundTells(log', queue, r) <==> RoundTells(log, queue, r)
  {
    hide LastChange, InQueue, Apart;
  }

  lemma TailTells(log: seq<Entry>, queue: seq<(ViewId, Delta)>, changed: seq<(ViewId, Delta)>)
    requires AllTell(log, queue, changed) && changed != []
    ensures AllTell(log, queue, changed[1..])
    ensures LastChange(log, changed[0].0) == Some(changed[0].1) || InQueue(queue, changed[0].0)
  {
    hide LastChange, InQueue;
  }

  lemma TellsKept(s: State, e: Event)
    requires Inv(s) && Enabled(s, e)
    ensures Tells(Next(s, e))
  {
    match e {
      case DoOp(op) => OpTells(s, op);
      case Advance => KernelTells(s, Top(s).value.round);
      case DisposeStore => hide Select, StableSort;
      case MakeView(_, _, _) =>
        hide Tells, Next;
        MakeViewNext(s, e);
        SameTells(s, Next(s, e));
      case _ =>
        QuietFrame(s, e);
        QuietQueue(s, e);
        hide Tells, Next;
        SameTells(s, Next(s, e));
    }
  }

  lemma QuietQueue(s: State, e: Event)
    requires Enabled(s, e) && StackValid(s) && !e.DoOp? && !e.Advance? && !e.DisposeStore? && !e.MakeView?
    ensures var t := Next(s, e);
      && t.disposed == s.disposed && t.changed == s.changed
      && (t.log == s.log || (|t.log| == |s.log| + 1 && !t.log[|s.log|].Wrote? && t.log == s.log + [t.log[|s.log|]]))
      && (t.stack != [] && t.stack[0].Flushing? && t.stack[0].round != Between ==>
            s.stack != [] && s.stack[0].Flushing? && (t.stack[0].round == s.stack[0].round || t.stack[0].round == Returned(s.stack[0].round)))
  {
    hide Select, StableSort, Without, Write, DeltaOf, Kernel, Dead, InCall, Returned;
  }

  lemma OwedKept(s: State, e: Event)
    requires Inv(s) && Enabled(s, e)
    ensures OwedInv(Next(s, e))
  {
    hide StackValid, QueueValid, Tells, AllOwed, ListCurrent, Write, DeltaOf, Kernel;
    match e {
      case DoOp(op) => OpKept(s, op);
      case EndBulk => EndBulkKept(s);
      case MakeView(_, _, _) => MakeViewKept(s, e);
      case KillView(id) => QuieterKept(s, id, Dead(s.views[id]));
      case Subscribe(id, cb) => SubscribeKept(s, id, cb);
      case Unsubscribe(id, cb) =>
        QuieterKept(s, id, s.views[id].(subscribers := Without(s.views[id].subscribers, cb)));
      case DisposeStore => DisposeKept(s);
      case ReturnFromCallback => ReturnKept(s);
      case Advance => AdvanceKept(s);
      case BeginBulk => BystanderKept(s, Next(s, e));
      case Listen(_) => BystanderKept(s, Next(s, e));
      case Unlisten(_) => BystanderKept(s, Next(s, e));
    }
  }

  lemma StepKept(s: State, e: Event)
    requires Inv(s) && Enabled(s, e)
    ensures Inv(Next(s, e))
  {
    StackKept(s, e);
    TellsKept(s, e);
    OwedKept(s, e);
    hide Next, StackValid, QueueValid, Tells, AllOwed;
  }

  lemma {:induction false} RunKept(s: State, events: seq<Event>)
    requires Inv(s) && After(s, events).Some?
    ensures Inv(After(s, events).value)
  {
    if events != [] {
      RunKept(s, events[..|events| - 1]);
      StepKept(After(s, events[..|events| - 1]).value, events[|events| - 1]);
    }
  }

  // ---------- the promises ----------

  /** A store starts open, with what was loaded, nothing queued and nobody called, and takes any event of a user. */
  lemma StartsOpen(all: seq<Rec>, order: map<Id, nat>, nextOrder: nat, op: Op, filter: Filter, compare: Option<Compare>, cb: Callback)
    ensures var s := Init(all, order, nextOrder);
      && After(s, []) == Some(s) && s.all == all && s.log == [] && s.stack == []
      && Enabled(s, DoOp(op)) && Enabled(s, BeginBulk) && Enabled(s, MakeView(0, filter, compare)) && Enabled(s, Listen(cb)) && Enabled(s, DisposeStore)
  {
  }

  /** The user moves when nothing runs, inside a bulk and inside a callback, and nobody else then but for the end of
      the bulk or of the callback; the flush moves otherwise. */
  lemma WhoMayMove(s: State, op: Op, cb: Callback, id: ViewId, filter: Filter, compare: Option<Compare>)
    ensures var top := if s.stack == [] then None else Some(s.stack[|s.stack| - 1]);
      var called := top.Some? && top.value.Flushing? && (top.value.round.Listeners? || top.value.round.Notifying?) && top.value.round.inCall;
      var user := top.None? || top.value.InBulk? || called;
      && (Enabled(s, DisposeStore) <==> user) && (Enabled(s, Unlisten(cb)) <==> user)
      && (Enabled(s, DoOp(op)) <==> user && !s.disposed) && (Enabled(s, BeginBulk) <==> user && !s.disposed)
      && (Enabled(s, Listen(cb)) <==> user && !s.disposed)
      && (Enabled(s, MakeView(id, filter, compare)) <==> user && !s.disposed && id == |s.views|)
      && (Enabled(s, Subscribe(id, cb)) <==> user && id in s.views) && (Enabled(s, Unsubscribe(id, cb)) <==> user && id in s.views)
      && (Enabled(s, EndBulk) <==> top == Some(InBulk)) && (Enabled(s, ReturnFromCallback) <==> called)
      && (Enabled(s, Advance) <==> !user)
  {
  }

  /** In every state any run can reach, at most one flush is under way. */
  lemma RoundsNeverNest(all: seq<Rec>, order: map<Id, nat>, nextOrder: nat, events: seq<Event>)
    requires After(Init(all, order, nextOrder), events).Some?
    ensures var s := After(Init(all, order, nextOrder), events).value;
            && (forall i, j | 0 <= i < |s.stack| && 0 <= j < |s.stack| && s.stack[i].Flushing? && s.stack[j].Flushing? :: i == j)
            && s.notifyDepth <= 1
  {
    RunKept(Init(all, order, nextOrder), events);
  }

  /** Whenever control is back with the outermost caller, nothing is queued, and every callback still
      subscribed to a live view that changed since it subscribed was last called with the view's list. */
  lemma QuietMeansDelivered(all: seq<Rec>, order: map<Id, nat>, nextOrder: nat, events: seq<Event>)
    requires After(Init(all, order, nextOrder), events).Some?
    requires After(Init(all, order, nextOrder), events).value.stack == []
    ensures var s := After(Init(all, order, nextOrder), events).value;
            && s.pending == [] && s.changed == [] && s.notifyDepth == 0 && s.bulkDepth == 0
            && forall id, cb | id in s.views && !s.views[id].disposed && cb in s.views[id].subscribers && ChangedSince(s.log, id, cb) ::
                 LastHeard(s.log, id, cb).Some? && LastHeard(s.log, id, cb).value.0 == s.views[id].current
                 && LastChange(s.log, id) == Some(LastHeard(s.log, id, cb).value.1)
  {
    RunKept(Init(all, order, nextOrder), events);
    var s := After(Init(all, order, nextOrder), events).value;
    forall id, cb | id in s.views && cb in s.views[id].subscribers ensures Settled(s, id, cb) {
      assert Owed(s, id, cb);
    }
  }

  // ---------- the machine's views are the store's views ----------

  /** The list is what the store's own view would show after this view's own past. */
  ghost predicate Showing(v: View, all: seq<Rec>) {
    Shows(v.current, all, v.filter, v.compare, v.past)
  }

  /** While the store lives, its records are in insertion order and every live view shows them: a plain one
      is the filtered store, a sorted one is what LiveStoreSorted says. */
  ghost predicate InStep(s: State) {
    s.disposed || (
      && DistinctIds(s.all) && Ordered(s.all, s.order)
      && (forall id | id in s.order :: s.order[id] < s.nextOrder)
      && (forall id | id in s.views && !s.views[id].disposed :: Showing(s.views[id], s.all)))
  }

  lemma DeltaFits(all: seq<Rec>, op: Op)
    requires DistinctIds(all)
    ensures DeltaOf(all, op).Some? ==> ValidStep(all, DeltaOf(all, op).value)
  {
    var id := if op.Put? then op.rec.id else op.id;
    var i := FindIndex(all, (r: Rec) => r.id == id);
    assert i == -1 ==> forall r | r in all :: r.id != id;
  }

  lemma PlainStepRefines(all: seq<Rec>, d: Delta, filter: Filter, order: map<Id, nat>)
    requires DistinctIds(all) && Ordered(all, order) && ValidStep(all, d)
    ensures PlainStep(Select(all, filter), d, filter, order) == Select(StoreStep(all, d), filter)
  {
    match d
    case Add(rec) => AddRefines(all, rec, filter);
    case Update(_, rec, prev) => UpdateRefines(all, prev, rec, order, filter);
    case Remove(_, prev) => RemoveRefines(all, prev, filter);
  }

  lemma ViewStepShows(v: View, all: seq<Rec>, d: Delta, order: map<Id, nat>)
    requires DistinctIds(all) && Ordered(all, order) && ValidStep(all, d) && !v.disposed && Showing(v, all)
    ensures Showing(ViewStep(v, d, order), StoreStep(all, d))
  {
    hide PlainStep, StoreStep, ValidStep, DistinctIds, Ordered, Select, SortedStep, SortedAfter, StoreAfter, ValidHistory;
    match v.compare {
      case None => PlainStepRefines(all, d, v.filter, order);
      case Some(c) => SortedShowsStep(all, History(v.past.0, v.past.1, v.filter, c), d);
    }
  }

  lemma WriteInStep(s: State, d: Delta)
    requires InStep(s) && !s.disposed && ValidStep(s.all, d)
    ensures InStep(Write(s, d))
  {
    RecordsInStep(s.all, s.order, s.nextOrder, d);
    hide Showing, ViewStep, OrderAfter, StoreStep, DistinctIds, Ordered, ValidStep, MarkAll;
    var t := Write(s, d);
    forall id | id in t.views && !t.views[id].disposed
      ensures Showing(t.views[id], t.all)
    {
      WrittenView(s, d, id);
      ViewStepShows(s.views[id], s.all, d, s.order);
    }
  }

  lemma WrittenView(s: State, d: Delta, id: ViewId)
    requires id in s.views
    ensures id in Write(s, d).views && Write(s, d).views[id] == ViewStep(s.views[id], d, s.order)
    ensures ViewStep(s.views[id], d, s.order).disposed == s.views[id].disposed
  {
  }

  lemma RecordsInStep(all: seq<Rec>, order: map<Id, nat>, next: nat, d: Delta)
    requires DistinctIds(all) && Ordered(all, order) && ValidStep(all, d) && forall id | id in order :: order[id] < next
    ensures DistinctIds(StoreStep(all, d)) && Ordered(StoreStep(all, d), OrderAfter(order, next, d))
    ensures forall id | id in OrderAfter(order, next, d) :: OrderAfter(order, next, d)[id] < if d.Add? then next + 1 else next
  {
    hide DistinctIds, Ordered, ReplaceById, RemoveById;
    match d
    case Add(rec) => AppendKeepsShape(all, rec, order, next);
    case Update(_, rec, prev) => ReplaceKeepsShape(all, prev, rec, order);
    case Remove(_, prev) =>
      RemoveMembers(all, prev);
      RemoveKeepsOrder(all, prev, order);
  }

  lemma NewViewShows(all: seq<Rec>, filter: Filter, compare: Option<Compare>)
    requires DistinctIds(all)
    ensures var list := Select(all, filter);
            Showing(View(filter, compare, if compare.Some? then StableSort(list, compare.value) else list, [], false, (all, [])), all)
  {
  }

  lemma MakeViewInStep(s: State, e: Event)
    requires InStep(s) && e.MakeView? && Enabled(s, e)
    ensures InStep(Next(s, e))
  {
    NewViewShows(s.all, e.filter, e.compare);
    hide Select, DistinctIds, Ordered, StableSort, Showing;
  }

  lemma SameViewShows(v: View, w: View, all: seq<Rec>)
    requires Showing(v, all) && w.current == v.current && w.filter == v.filter && w.compare == v.compare && w.past == v.past
    ensures Showing(w, all)
  {
  }

  /** Calls that leave the records alone and change no live view but its subscribers. */
  lemma BystanderInStep(s: State, t: State)
    requires InStep(s) && !s.disposed && t.all == s.all && t.order == s.order && t.nextOrder == s.nextOrder
    requires forall id | id in t.views && !t.views[id].disposed ::
      id in s.views && !s.views[id].disposed
      && t.views[id] == s.views[id].(subscribers := t.views[id].subscribers)
    ensures InStep(t)
  {
    hide Showing, DistinctIds, Ordered;
    forall id | id in t.views && !t.views[id].disposed ensures Showing(t.views[id], t.all) {
      SameViewShows(s.views[id], t.views[id], s.all);
    }
  }

  lemma StepInStep(s: State, e: Event)
    requires InStep(s) && Enabled(s, e)
    ensures InStep(Next(s, e))
  {
    if e.DoOp? {
      OpInStep(s, e.op);
    } else if e.MakeView? {
      MakeViewInStep(s, e);
    } else if !s.disposed && !e.DisposeStore? {
      QuietInStep(s, e);
    } else {
      hide Select, DistinctIds, Ordered, StableSort, Showing, Without, Write, Kernel, EnterFlush;
      DisposedStays(s, e);
    }
  }

  lemma DisposedStays(s: State, e: Event)
    requires Enabled(s, e) && (s.disposed || e.DisposeStore?)
    ensures Next(s, e).disposed
  {
    hide Select, StableSort, Without, ViewStep, MarkAll, TouchedBy, StoreStep;
  }

  lemma QuietInStep(s: State, e: Event)
    requires InStep(s) && Enabled(s, e) && !s.disposed && !e.DoOp? && !e.MakeView? && !e.DisposeStore?
    ensures InStep(Next(s, e))
  {
    QuietFrame(s, e);
    hide InStep, Next, Enabled;
    BystanderInStep(s, Next(s, e));
  }

  lemma QuietFrame(s: State, e: Event)
    requires Enabled(s, e) && !e.DoOp? && !e.MakeView? && !e.DisposeStore?
    ensures var t := Next(s, e);
            && t.all == s.all && t.order == s.order && t.nextOrder == s.nextOrder
            && forall id | id in t.views && !t.views[id].disposed ::
                 id in s.views && !s.views[id].disposed && t.views[id] == s.views[id].(subscribers := t.views[id].subscribers)
  {
    hide Select, StableSort, Without, Write;
    if e.Advance? {
      KernelFrame(s, Top(s).value.round);
      hide Kernel;
    } else {
      hide Kernel;
    }
  }

  lemma KernelFrame(s: State, r: Round)
    requires s.stack != []
    ensures var t := Kernel(s, r); t.all == s.all && t.order == s.order && t.nextOrder == s.nextOrder && t.views == s.views
  {
    match r
    case Between =>
    case Listeners(todo, _, _, _) =>
    case Views(changed) =>
    case Notifying(_, _, _, todo, _, _) =>
  }

  lemma OpInStep(s: State, op: Op)
    requires InStep(s) && Enabled(s, DoOp(op))
    ensures InStep(Next(s, DoOp(op)))
  {
    hide Select, DistinctIds, Ordered, StableSort, Showing;
    DeltaFits(s.all, op);
    if DeltaOf(s.all, op).Some? {
      WriteInStep(s, DeltaOf(s.all, op).value);
    }
    hide DeltaOf, Write;
  }

  lemma {:induction false} RunInStep(s: State, events: seq<Event>)
    requires InStep(s) && After(s, events).Some?
    ensures InStep(After(s, events).value)
  {
    if events != [] {
      RunInStep(s, events[..|events| - 1]);
      StepInStep(After(s, events[..|events| - 1]).value, events[|events| - 1]);
    }
  }

  /** The deltas written along a run. */
  function Written(s: State, events: seq<Event>): seq<Delta>
    requires After(s, events).Some?
  {
    if events == [] then []
    else
      var before, e := events[..|events| - 1], events[|events| - 1];
      Written(s, before) + if e.DoOp? then DeltaList(After(s, before).value.all, e.op) else []
  }

  lemma PastGrows(s: State, e: Event, id: ViewId)
    requires Enabled(s, e) && id in s.views && (e.MakeView? ==> e.id != id)
    requires id in Next(s, e).views && !Next(s, e).views[id].disposed
    ensures var v, w := s.views[id], Next(s, e).views[id];
            && !v.disposed && w.filter == v.filter && w.compare == v.compare
            && w.past == Longer(v.past, if e.DoOp? then DeltaList(s.all, e.op) else [])
  {
    LongerTwice(s.views[id].past, [], []);
    match e
    case DoOp(op) =>
      hide Next, DeltaOf, PlainStep, SortedStep, MarkAll, TouchedBy, StoreStep;
      OpViews(s, op);
    case Advance => KernelFrame(s, Top(s).value.round); hide Kernel;
    case _ => hide Select, StableSort, Without, Kernel, Write, DeltaOf, Longer;
  }

  /** The past a sorted view is judged by is what happened to it: the store when it was made, and exactly the
      deltas written since, from inside callbacks included. */
  lemma PastOfAMadeView(s: State, e: Event, events: seq<Event>)
    requires ViewsValid(s) && e.MakeView? && Enabled(s, e) && After(Next(s, e), events).Some?
    requires e.id in After(Next(s, e), events).value.views && !After(Next(s, e), events).value.views[e.id].disposed
    ensures var v := After(Next(s, e), events).value.views[e.id];
            v.filter == e.filter && v.compare == e.compare && v.past == (s.all, Written(Next(s, e), events))
  {
    var t := Next(s, e);
    hide Next, Enabled, Written;
    MakeViewNext(s, e);
    NewViewCount(s, e.id, t.views[e.id]);
    PastIsWhatWasWritten(t, events, e.id);
    var ds := Written(t, events);
    assert [] + ds == ds;
  }

  /** Along a run every live view's past grows by the deltas written, and by nothing else. */
  lemma {:induction false} PastIsWhatWasWritten(s: State, events: seq<Event>, id: ViewId)
    requires ViewsValid(s) && After(s, events).Some? && id in s.views
    requires id in After(s, events).value.views && !After(s, events).value.views[id].disposed
    ensures var v, w := s.views[id], After(s, events).value.views[id];
            && !v.disposed && w.filter == v.filter && w.compare == v.compare && w.past == Longer(v.past, Written(s, events))
    ensures forall i | i in s.views :: i in After(s, events).value.views
  {
    hide Enabled, Next;
    if events == [] {
      LongerTwice(s.views[id].past, [], []);
    } else {
      var before, e := events[..|events| - 1], events[|events| - 1];
      var t := After(s, before).value;
      ViewsStay(s, before);
      ViewsStay(s, events);
      NewIds(s, before, e, id);
      PastGrows(t, e, id);
      PastIsWhatWasWritten(s, before, id);
      LongerTwice(s.views[id].past, Written(s, before), if e.DoOp? then DeltaList(t.all, e.op) else []);
    }
  }

  lemma {:induction false} ViewsStay(s: State, events: seq<Event>)
    requires ViewsValid(s) && After(s, events).Some?
    ensures forall i | i in s.views :: i in After(s, events).value.views
    ensures forall i | i in After(s, events).value.views :: i < |After(s, events).value.views|
  {
    if events != [] {
      ViewsStay(s, events[..|events| - 1]);
      ViewsStayStep(After(s, events[..|events| - 1]).value, events[|events| - 1]);
    }
  }

  lemma ViewsStayStep(s: State, e: Event)
    requires Enabled(s, e) && forall i | i in s.views :: i < |s.views|
    ensures forall i | i in s.views :: i in Next(s, e).views
    ensures forall i | i in Next(s, e).views :: i < |Next(s, e).views|
  {
    var t := Next(s, e);
    NextKeys(s, e);
    hide Next, Enabled;
    if e.MakeView? {
      assert |t.views| == |t.views.Keys| == |s.views.Keys| + 1;
    } else {
      assert |t.views| == |t.views.Keys|;
    }
  }

  lemma NextKeys(s: State, e: Event)
    requires Enabled(s, e) && forall i | i in s.views :: i < |s.views|
    ensures e.MakeView? ==> e.id == |s.views| && e.id !in s.views && Next(s, e).views.Keys == s.views.Keys + {e.id}
    ensures !e.MakeView? ==> Next(s, e).views.Keys == s.views.Keys
  {
    match e
    case DoOp(op) =>
      hide Next, Write, DeltaOf;
      OpViews(s, op);
      var od := DeltaOf(s.all, op);
      if od.Some? {
        WriteKeys(s, od.value);
      }
    case MakeView(_, _, _) =>
      MakeViewNext(s, e);
      hide Next;
    case _ =>
      OtherKeys(s, e);
      hide Next;
  }

  lemma OtherKeys(s: State, e: Event)
    requires Enabled(s, e) && !e.DoOp? && !e.MakeView?
    ensures Next(s, e).views.Keys == s.views.Keys
  {
    hide Select, StableSort, Without, Write, DeltaOf, Dead, Returned;
    if e.Advance? {
      KernelFrame(s, Top(s).value.round);
    }
    hide Kernel;
  }

  lemma WriteKeys(s: State, d: Delta)
    ensures Write(s, d).views.Keys == s.views.Keys
  {
    hide ViewStep, MarkAll, TouchedBy, StoreStep;
  }

  /** What the two operations do to the records and to what waits to be told, cut by cut. */
  lemma DropIsSeen(s: State, a: seq<Rec>, prev: Rec, b: seq<Rec>)
    requires Enabled(s, DoOp(Drop(prev.id))) && s.all == a + [prev] + b && DistinctIds(s.all)
    ensures var t := Next(s, DoOp(Drop(prev.id)));
      && t.all == a + b && t.pending == s.pending + [Remove(prev.id, prev)]
      && t.order == s.order - {prev.id} && t.nextOrder == s.nextOrder
  {
    hide MarkAll, ViewStep, TouchedBy, RemoveById, DropDelta;
    DropMeans(a, prev, b);
  }

  lemma PutIsSeen(s: State, a: seq<Rec>, prev: Rec, b: seq<Rec>, rec: Rec)
    requires Enabled(s, DoOp(Put(rec))) && s.all == a + [prev] + b && DistinctIds(s.all) && rec.id == prev.id
    ensures var t := Next(s, DoOp(Put(rec)));
      && t.all == a + [rec] + b && t.pending == s.pending + [Update(rec.id, rec, prev)]
      && t.order == s.order && t.nextOrder == s.nextOrder
  {
    hide MarkAll, ViewStep, TouchedBy, ReplaceById, PutDelta;
    PutMeans(a, prev, b, rec);
  }

  lemma UnheldIsSeen(s: State, op: Op)
    requires Enabled(s, DoOp(op)) && forall r | r in s.all :: r.id != if op.Put? then op.rec.id else op.id
    ensures op.Drop? ==> Next(s, DoOp(op)) == s
    ensures op.Put? ==>
      var t := Next(s, DoOp(op));
      && t.all == s.all + [op.rec] && t.pending == s.pending + [Add(op.rec)]
      && t.order == s.order[op.rec.id := s.nextOrder] && t.nextOrder == s.nextOrder + 1
  {
    hide MarkAll, ViewStep, TouchedBy, DeltaOf;
    UnheldMeans(s.all, op);
  }

  /** What the user's other moves do: who comes goes to the end, who leaves leaves the others in their order, and a
      view that dies shows nothing and calls nobody. */
  lemma LeavingIsSeen(s: State, a: seq<Callback>, cb: Callback, b: seq<Callback>, id: ViewId)
    requires UserRuns(s) && cb !in a && cb !in b
    ensures s.listeners == a + [cb] + b ==> Next(s, Unlisten(cb)) == s.(listeners := a + b)
    ensures cb !in s.listeners ==> Next(s, Unlisten(cb)) == s
    ensures id in s.views && s.views[id].subscribers == a + [cb] + b ==>
      Next(s, Unsubscribe(id, cb)) == s.(views := s.views[id := s.views[id].(subscribers := a + b)])
    ensures id in s.views && cb !in s.views[id].subscribers ==> Next(s, Unsubscribe(id, cb)) == s
  {
    hide Without;
    WithoutCut(a, cb, b);
    if cb !in s.listeners {
      WithoutAbsent(s.listeners, cb);
    }
    if id in s.views && cb !in s.views[id].subscribers {
      WithoutAbsent(s.views[id].subscribers, cb);
      assert s.views[id := s.views[id]] == s.views;
    }
  }

  lemma ComingIsSeen(s: State, cb: Callback, id: ViewId)
    requires UserRuns(s)
    ensures !s.disposed && cb !in s.listeners ==> Next(s, Listen(cb)) == s.(listeners := s.listeners + [cb], log := s.log + [Listened(cb)])
    ensures !s.disposed && cb in s.listeners ==> Next(s, Listen(cb)) == s
    ensures id in s.views && !s.views[id].disposed && cb !in s.views[id].subscribers ==>
      Next(s, Subscribe(id, cb)) ==
        s.(views := s.views[id := s.views[id].(subscribers := s.views[id].subscribers + [cb])], log := s.log + [Subscribed(id, cb)])
    ensures id in s.views && (s.views[id].disposed || cb in s.views[id].subscribers) ==> Next(s, Subscribe(id, cb)) == s
  {
  }

  lemma DyingIsSeen(s: State, id: ViewId)
    requires UserRuns(s) && id in s.views
    ensures !s.views[id].disposed ==>
      Next(s, KillView(id)) == s.(views := s.views[id := s.views[id].(disposed := true, current := [], subscribers := [])])
    ensures !s.disposed ==>
      var t := Next(s, DisposeStore);
      && t.disposed && t.all == [] && t.listeners == [] && t.pending == [] && t.changed == [] && t.views.Keys == s.views.Keys
      && t.views[id].disposed && t.views[id].current == [] && t.views[id].subscribers == []
  {
  }

  lemma OpViews(s: State, op: Op)
    requires Enabled(s, DoOp(op))
    ensures var d := DeltaOf(s.all, op); Next(s, DoOp(op)).views == if d.Some? then Write(s, d.value).views else s.views
  {
    hide Write, DeltaOf;
  }

  lemma NewIds(s: State, before: seq<Event>, e: Event, id: ViewId)
    requires ViewsValid(s) && After(s, before).Some? && Enabled(After(s, before).value, e) && id in After(s, before).value.views
    ensures e.MakeView? ==> e.id != id
  {
    ViewsStay(s, before);
  }

  /** What a callback was last called with, once control is back with the outermost caller, is what
      recomputing the view from the store's records gives now. */
  lemma DeliveredIsRecomputed(all: seq<Rec>, order: map<Id, nat>, nextOrder: nat, events: seq<Event>, id: ViewId, cb: Callback)
    requires DistinctIds(all) && Ordered(all, order) && forall i | i in order :: order[i] < nextOrder
    requires After(Init(all, order, nextOrder), events).Some?
    requires var s := After(Init(all, order, nextOrder), events).value;
             && s.stack == [] && !s.disposed && id in s.views && !s.views[id].disposed && cb in s.views[id].subscribers
             && ChangedSince(s.log, id, cb)
    ensures var s := After(Init(all, order, nextOrder), events).value; var v := s.views[id]; var heard := LastHeard(s.log, id, cb);
            && heard.Some?
            && LastChange(s.log, id) == Some(heard.value.1)
            && (v.compare.None? ==> heard.value.0 == Select(s.all, v.filter))
            && (v.compare.Some? && TotalPreorder(v.compare.value) ==>
                  && multiset(heard.value.0) == multiset(Select(s.all, v.filter))
                  && Increasing(heard.value.0, v.compare.value, Touch(History(v.past.0, v.past.1, v.filter, v.compare.value))))
  {
    QuietMeansDelivered(all, order, nextOrder, events);
    RunInStep(Init(all, order, nextOrder), events);
    var s := After(Init(all, order, nextOrder), events).value;
    var v := s.views[id];
    assert Showing(v, s.all);
    if v.compare.Some? && TotalPreorder(v.compare.value) {
      var h := History(v.past.0, v.past.1, v.filter, v.compare.value);
      SortedViewOrder(h);
      SortedViewIsPermutation(h);
    }
  }
}
