/** Who the store calls and who it does not: what listeners hear, how often callbacks are called, that
    callbacks may use the store while they run, and that a flush comes to its end.

    These are further promises about the machine of LiveStoreDelivery. */
module LiveStoreCalls {
  import opened Lists
  import opened Wrappers
  import opened LiveStoreLists
  import opened LiveStoreSorted
  import opened LiveStoreParts
  import opened LiveStoreDelivery

  // ---------- listeners ----------

  function LastWritten(log: seq<Entry>): Option<Delta> {
    if log == [] then None
    else
      match log[|log| - 1]
      case Wrote(_, d) => Some(d)
      case _ => LastWritten(log[..|log| - 1])
  }

  /** Something was written since the listener came. */
  predicate WrittenSince(log: seq<Entry>, cb: Callback) {
    log != [] &&
    match log[|log| - 1]
    case Listened(c) => if c == cb then false else WrittenSince(log[..|log| - 1], cb)
    case Wrote(_, _) => true
    case _ => WrittenSince(log[..|log| - 1], cb)
  }

  /** The delta the listener was last called with since it came. */
  function LastToldTo(log: seq<Entry>, cb: Callback): Option<Delta> {
    if log == [] then None
    else
      match log[|log| - 1]
      case CalledListener(c, d) => if c == cb then Some(d) else LastToldTo(log[..|log| - 1], cb)
      case Listened(c) => if c == cb then None else LastToldTo(log[..|log| - 1], cb)
      case _ => LastToldTo(log[..|log| - 1], cb)
  }

  ghost predicate InListeners(s: State) {
    s.stack != [] && s.stack[0].Flushing? && s.stack[0].round.Listeners?
  }

  /** A listener has heard the last write, or will: something is pending, or it is still to be called. */
  ghost predicate HearsLast(s: State, cb: Callback) {
    || (WrittenSince(s.log, cb) ==> LastToldTo(s.log, cb).Some? && LastToldTo(s.log, cb) == LastWritten(s.log))
    || s.pending != []
    || (InListeners(s) && cb in s.stack[0].round.todo && LastWritten(s.log) == Some(s.stack[0].round.last))
  }

  ghost predicate Hearing(s: State) {
    if s.disposed then s.listeners == []
    else
      && (s.pending != [] ==> LastWritten(s.log) == Some(s.pending[|s.pending| - 1]))
      && (InListeners(s) && s.pending == [] ==> LastWritten(s.log) == Some(s.stack[0].round.last))
      && forall cb | cb in s.listeners :: HearsLast(s, cb)
  }

  lemma OneMoreEntry(log: seq<Entry>, x: Entry, cb: Callback)
    ensures LastWritten(log + [x]) == if x.Wrote? then Some(x.delta) else LastWritten(log)
    ensures WrittenSince(log + [x], cb) == if x == Listened(cb) then false else x.Wrote? || WrittenSince(log, cb)
    ensures LastToldTo(log + [x], cb)
         == if x.CalledListener? && x.cb == cb then Some(x.delta) else if x == Listened(cb) then None else LastToldTo(log, cb)
  {
    assert (log + [x])[..|log|] == log;
  }

  /** What the flush at the bottom still has to say to listeners is the same. */
  ghost predicate SameListening(s: State, t: State) {
    && (InListeners(t) <==> InListeners(s))
    && (InListeners(s) ==> t.stack[0].round.todo == s.stack[0].round.todo && t.stack[0].round.last == s.stack[0].round.last)
  }

  predicate OfAView(x: Entry) {
    x.Subscribed? || x.Called?
  }

  lemma NobodyIn(s: seq<Callback>, t: seq<Callback>)
    requires forall cb | cb in t :: cb in s
    ensures t != [] ==> s != []
  {
    if t != [] {
      assert t[0] in s;
    }
  }

  lemma QuietHearing(s: State, t: State)
    requires Hearing(s) && t.disposed == s.disposed && t.pending == s.pending && SameListening(s, t)
    requires forall cb | cb in t.listeners :: cb in s.listeners
    requires t.log == s.log || (|t.log| == |s.log| + 1 && OfAView(t.log[|s.log|]) && t.log == s.log + [t.log[|s.log|]])
    ensures Hearing(t)
  {
    if t.disposed {
      NobodyIn(s.listeners, t.listeners);
    } else {
      forall cb ensures LastWritten(t.log) == LastWritten(s.log) && WrittenSince(t.log, cb) == WrittenSince(s.log, cb)
        ensures LastToldTo(t.log, cb) == LastToldTo(s.log, cb)
      {
        if t.log != s.log {
          OneMoreEntry(s.log, t.log[|s.log|], cb);
        }
      }
      hide LastWritten, WrittenSince, LastToldTo;
      forall cb | cb in t.listeners ensures HearsLast(t, cb) {
        assert HearsLast(s, cb);
      }
    }
  }

  lemma OpHearing(s: State, op: Op)
    requires StackValid(s) && Hearing(s) && Enabled(s, DoOp(op))
    ensures Hearing(Next(s, DoOp(op)))
  {
    var od := DeltaOf(s.all, op);
    if od.Some? {
      WriteFrame(s, od.value);
      var t := Next(s, DoOp(op));
      assert t.log == s.log + [Wrote(TouchedBy(s.views, od.value), od.value)] && t.pending == s.pending + [od.value] && t.disposed == s.disposed;
      hide Next, Write, DeltaOf, TouchedBy;
      OneMoreEntry(s.log, Wrote(TouchedBy(s.views, od.value), od.value), 0);
    }
  }

  lemma ListenHearing(s: State, cb: Callback)
    requires Hearing(s) && Enabled(s, Listen(cb))
    ensures Hearing(Next(s, Listen(cb)))
  {
    var t := Next(s, Listen(cb));
    if cb !in s.listeners {
      forall c | c in t.listeners ensures HearsLast(t, c) {
        OneMoreEntry(s.log, Listened(cb), c);
        hide LastWritten, WrittenSince, LastToldTo;
        assert c != cb ==> HearsLast(s, c);
      }
      OneMoreEntry(s.log, Listened(cb), cb);
    }
  }

  lemma RoundHearing(s: State)
    requires StackValid(s) && Hearing(s) && s.stack == [Flushing(Between)]
    ensures Hearing(Kernel(s, Between))
  {
    var t := Kernel(s, Between);
    hide LastWritten, WrittenSince, LastToldTo;
    forall cb | cb in t.listeners && !t.disposed ensures HearsLast(t, cb) {
      assert HearsLast(s, cb);
    }
  }

  lemma CallHearing(s: State, r: Round)
    requires StackValid(s) && Hearing(s) && s.stack == [Flushing(r)] && r.Listeners?
    ensures Hearing(Kernel(s, r))
  {
    var t := Kernel(s, r);
    if r.todo != [] {
      OneMoreEntry(s.log, CalledListener(r.todo[0], r.last), 0);
    }
    forall cb | cb in t.listeners && !t.disposed ensures HearsLast(t, cb) {
      assert HearsLast(s, cb);
      if r.todo != [] {
        OneMoreEntry(s.log, CalledListener(r.todo[0], r.last), cb);
        assert cb in r.todo ==> cb == r.todo[0] || cb in r.todo[1..];
      }
      hide LastWritten, WrittenSince, LastToldTo;
    }
    hide LastWritten, WrittenSince, LastToldTo, HearsLast;
  }

  lemma KernelHearing(s: State, r: Round)
    requires StackValid(s) && Hearing(s) && s.stack == [Flushing(r)]
    ensures Hearing(Kernel(s, r))
  {
    match r
    case Between => RoundHearing(s);
    case Listeners(_, _, _, _) => CallHearing(s, r);
    case Views(_) => hide Hearing; QuietHearing(s, Kernel(s, r));
    case Notifying(_, _, _, _, _, _) => hide Hearing; QuietHearing(s, Kernel(s, r));
  }

  lemma QuietCalls(s: State, e: Event)
    requires StackValid(s) && Enabled(s, e) && !e.DoOp? && !e.Advance? && !e.Listen? && !e.DisposeStore?
    ensures var t := Next(s, e);
      && t.disposed == s.disposed && t.pending == s.pending && SameListening(s, t)
      && (forall cb | cb in t.listeners :: cb in s.listeners)
      && (t.log == s.log || (|t.log| == |s.log| + 1 && OfAView(t.log[|s.log|]) && t.log == s.log + [t.log[|s.log|]]))
  {
    hide Select, StableSort, Write, DeltaOf, Kernel, Dead;
  }

  /** One step of the machine as far as listeners are concerned. */
  lemma HearingKept(s: State, e: Event)
    requires StackValid(s) && Hearing(s) && Enabled(s, e)
    ensures Hearing(Next(s, e))
  {
    match e {
      case DoOp(op) => OpHearing(s, op);
      case Advance =>
        assert s.stack == [Flushing(Top(s).value.round)];
        KernelHearing(s, Top(s).value.round);
      case Listen(cb) => ListenHearing(s, cb);
      case DisposeStore => hide Select, StableSort;
      case _ =>
        QuietCalls(s, e);
        hide Next;
        QuietHearing(s, Next(s, e));
    }
  }

  lemma {:induction false} RunHearing(s: State, events: seq<Event>)
    requires Inv(s) && Hearing(s) && After(s, events).Some?
    ensures Hearing(After(s, events).value)
  {
    if events != [] {
      var before := events[..|events| - 1];
      RunHearing(s, before);
      RunKept(s, before);
      HearingKept(After(s, before).value, events[|events| - 1]);
    }
  }

  /** Whenever control is back with the outermost caller, every listener that is still there and came before
      the last write was last called with that write. */
  lemma ListenersHearTheLast(all: seq<Rec>, order: map<Id, nat>, nextOrder: nat, events: seq<Event>)
    requires After(Init(all, order, nextOrder), events).Some?
    requires After(Init(all, order, nextOrder), events).value.stack == []
    ensures var s := After(Init(all, order, nextOrder), events).value;
      forall cb | cb in s.listeners && WrittenSince(s.log, cb) :: LastToldTo(s.log, cb).Some? && LastToldTo(s.log, cb) == LastWritten(s.log)
  {
    RunHearing(Init(all, order, nextOrder), events);
    RunKept(Init(all, order, nextOrder), events);
    var s := After(Init(all, order, nextOrder), events).value;
    forall cb | cb in s.listeners ensures HearsLast(s, cb) {
    }
  }

  /** In the log's own terms: the last write; a write since the listener last came; what it was last called with
      since then. */
  lemma {:induction false} ListenerLogMeans(log: seq<Entry>, cb: Callback, d: Delta)
    ensures LastWritten(log) == Some(d) <==> EndsWith(log, (x: Entry) => x.Wrote? && x.delta == d, (x: Entry) => x.Wrote?)
    ensures WrittenSince(log, cb) <==> EndsWith(log, (x: Entry) => x.Wrote?, (x: Entry) => x == Listened(cb))
    ensures LastToldTo(log, cb) == Some(d) <==>
      EndsWith(log, (x: Entry) => x == CalledListener(cb, d), (x: Entry) => x == Listened(cb) || (x.CalledListener? && x.cb == cb))
  {
    if log != [] {
      var before, x := log[..|log| - 1], log[|log| - 1];
      ListenerLogMeans(before, cb, d);
      assert before + [x] == log;
      OneMoreEntry(before, x, cb);
      EndsWithStep(before, x, (x: Entry) => x.Wrote? && x.delta == d, (x: Entry) => x.Wrote?);
      EndsWithStep(before, x, (x: Entry) => x.Wrote?, (x: Entry) => x == Listened(cb));
      EndsWithStep(before, x, (x: Entry) => x == CalledListener(cb, d),
        (x: Entry) => x == Listened(cb) || (x.CalledListener? && x.cb == cb));
      hide LastWritten, WrittenSince, LastToldTo, EndsWith;
    }
  }

  // ---------- no call without a write ----------

  ghost function CallsTo(log: seq<Entry>, id: ViewId, cb: Callback): nat {
    if log == [] then 0
    else
      var x := log[|log| - 1];
      CallsTo(log[..|log| - 1], id, cb) + if x.Called? && x.view == id && x.cb == cb then 1 else 0
  }

  ghost function WritesTouching(log: seq<Entry>, id: ViewId): nat {
    if log == [] then 0
    else WritesTouching(log[..|log| - 1], id) + if log[|log| - 1].Wrote? && id in log[|log| - 1].touched then 1 else 0
  }

  ghost function CallsToListener(log: seq<Entry>, cb: Callback): nat {
    if log == [] then 0
    else CallsToListener(log[..|log| - 1], cb) + if log[|log| - 1].CalledListener? && log[|log| - 1].cb == cb then 1 else 0
  }

  ghost function WritesIn(log: seq<Entry>): nat {
    if log == [] then 0 else WritesIn(log[..|log| - 1]) + if log[|log| - 1].Wrote? then 1 else 0
  }

  lemma CountsOfOneMore(log: seq<Entry>, x: Entry, id: ViewId, cb: Callback)
    ensures CallsTo(log + [x], id, cb) == CallsTo(log, id, cb) + if x.Called? && x.view == id && x.cb == cb then 1 else 0
    ensures WritesTouching(log + [x], id) == WritesTouching(log, id) + if x.Wrote? && id in x.touched then 1 else 0
    ensures CallsToListener(log + [x], cb) == CallsToListener(log, cb) + if x.CalledListener? && x.cb == cb then 1 else 0
    ensures WritesIn(log + [x]) == WritesIn(log) + if x.Wrote? then 1 else 0
  {
    assert (log + [x])[..|log|] == log;
  }

  ghost function Queued(q: seq<(ViewId, Delta)>, id: ViewId): nat {
    if InQueue(q, id) then 1 else 0
  }

  /** How often the flush at the bottom may still call this callback for this view. */
  ghost function StillFor(r: Round, id: ViewId, cb: Callback): nat {
    match r
    case Between => 0
    case Listeners(_, _, changed, _) => Queued(changed, id)
    case Views(changed) => Queued(changed, id)
    case Notifying(v, _, _, todo, changed, _) => Queued(changed, id) + if v == id then multiset(todo)[cb] else 0
  }

  ghost function StillForListener(r: Round, cb: Callback): nat {
    if r.Listeners? then multiset(r.todo)[cb] else 0
  }

  ghost function Flush(s: State): Round {
    if s.stack != [] && s.stack[0].Flushing? then s.stack[0].round else Between
  }

  ghost predicate PaidFor(s: State, id: ViewId, cb: Callback) {
    CallsTo(s.log, id, cb) + Queued(s.changed, id) + StillFor(Flush(s), id, cb) <= WritesTouching(s.log, id)
  }

  ghost predicate ListenerPaidFor(s: State, cb: Callback) {
    CallsToListener(s.log, cb) + (if s.pending == [] then 0 else 1) + StillForListener(Flush(s), cb) <= WritesIn(s.log)
  }

  ghost predicate Orderly(s: State) {
    && NoRepeats(s.listeners) && (forall id | id in s.views :: NoRepeats(s.views[id].subscribers))
    && Apart(s.changed) && RoundApart(Flush(s))
  }

  ghost predicate RoundApart(r: Round) {
    match r
    case Between => true
    case Listeners(_, _, changed, _) => Apart(changed)
    case Views(changed) => Apart(changed)
    case Notifying(_, _, _, _, changed, _) => Apart(changed)
  }

  ghost predicate Paid(s: State) {
    && (forall id, cb :: PaidFor(s, id, cb))
    && (forall cb :: ListenerPaidFor(s, cb))
  }

  lemma OnceEach(s: seq<Callback>, cb: Callback)
    requires NoRepeats(s)
    ensures multiset(s)[cb] <= 1
    decreases |s|
  {
    if s != [] {
      var n := |s| - 1;
      OnceEach(s[..n], cb);
      assert s == s[..n] + [s[n]];
      assert s[n] !in s[..n];
    }
  }

  lemma OneLess(todo: seq<Callback>, cb: Callback)
    requires todo != []
    ensures multiset(todo)[cb] == multiset(todo[1..])[cb] + if todo[0] == cb then 1 else 0
  {
    assert todo == [todo[0]] + todo[1..];
  }

  lemma HeadQueued(q: seq<(ViewId, Delta)>, id: ViewId)
    requires q != [] && Apart(q)
    ensures Queued(q, id) == Queued(q[1..], id) + if q[0].0 == id then 1 else 0
    ensures Apart(q[1..])
  {
    QueueSplit(q, id);
  }

  lemma OpOrderly(s: State, op: Op)
    requires Inv(s) && Orderly(s) && Enabled(s, DoOp(op))
    ensures Orderly(Next(s, DoOp(op)))
  {
    var od := DeltaOf(s.all, op);
    if od.Some? {
      WriteOrderly(s, od.value);
      WriteFrame(s, od.value);
      hide Write, DeltaOf, NoRepeats, Apart;
    }
  }

  lemma WriteOrderly(s: State, d: Delta)
    requires ViewsValid(s) && Orderly(s)
    ensures Orderly(Write(s, d))
  {
    hide ViewsValid, MarkAll, TouchedBy, Apart, InQueue, NoRepeats;
    MarkAllTells(s.changed, TouchedBy(s.views, d), d, Bound(s.views));
    WriteIsSeen(s, d);
    WriteFrame(s, d);
    assert Write(s, d).changed == MarkAll(s.changed, TouchedBy(s.views, d), d, Bound(s.views)) && Write(s, d).listeners == s.listeners;
    hide Write;
  }

  lemma KernelOrderly(s: State, r: Round)
    requires Orderly(s) && s.stack == [Flushing(r)]
    ensures Orderly(Kernel(s, r))
  {
    KernelFrame(s, r);
    match r
    case Between =>
    case Listeners(todo, _, _, _) =>
    case Views(changed) =>
    case Notifying(_, _, _, todo, _, _) =>
  }

  /** What these calls do to a list of callbacks. */
  ghost predicate Relisted(was: seq<Callback>, now: seq<Callback>, cb: Callback) {
    now == was || now == [] || (cb !in was && now == was + [cb]) || now == Without(was, cb)
  }

  lemma QuietListeners(s: State, e: Event)
    requires Enabled(s, e) && !e.DoOp? && !e.Advance? && !e.MakeView?
    ensures Relisted(s.listeners, Next(s, e).listeners, if e.Listen? || e.Unlisten? then e.cb else 0)
  {
    hide Select, StableSort, Without, Write, DeltaOf, Kernel, Dead;
  }

  lemma QuietSubscribers(s: State, e: Event, id: ViewId)
    requires Enabled(s, e) && !e.DoOp? && !e.Advance? && !e.MakeView? && id in Next(s, e).views
    ensures id in s.views
    ensures Relisted(s.views[id].subscribers, Next(s, e).views[id].subscribers, if e.Subscribe? || e.Unsubscribe? then e.cb else 0)
  {
    hide Select, StableSort, Without, Write, DeltaOf, Kernel;
  }

  lemma StillOnce(was: seq<Callback>, now: seq<Callback>, cb: Callback)
    requires NoRepeats(was) && Relisted(was, now, cb)
    ensures NoRepeats(now)
  {
    WithoutNoRepeats(was, cb);
    hide Without;
  }

  lemma QuietOrderly(s: State, e: Event)
    requires StackValid(s) && Orderly(s) && Enabled(s, e) && !e.DoOp? && !e.Advance? && !e.MakeView?
    ensures Orderly(Next(s, e))
  {
    var t := Next(s, e);
    QuietCounts(s, e);
    QuietListeners(s, e);
    hide Next, Enabled, NoRepeats, Apart, Flush, Relisted;
    StillOnce(s.listeners, t.listeners, if e.Listen? || e.Unlisten? then e.cb else 0);
    forall id | id in t.views ensures NoRepeats(t.views[id].subscribers) {
      QuietSubscribers(s, e, id);
      StillOnce(s.views[id].subscribers, t.views[id].subscribers, if e.Subscribe? || e.Unsubscribe? then e.cb else 0);
    }
    NothingApart();
  }

  lemma NothingApart()
    ensures Apart([])
  {
  }

  lemma OrderlyKept(s: State, e: Event)
    requires Inv(s) && Orderly(s) && Enabled(s, e)
    ensures Orderly(Next(s, e))
  {
    match e {
      case DoOp(op) => OpOrderly(s, op);
      case Advance =>
        assert s.stack == [Flushing(Top(s).value.round)];
        KernelOrderly(s, Top(s).value.round);
      case MakeView(_, _, _) => MakeViewNext(s, e); hide Next;
      case _ => QuietOrderly(s, e);
    }
  }

  lemma OpPaid(s: State, op: Op)
    requires Inv(s) && Paid(s) && Enabled(s, DoOp(op))
    ensures Paid(Next(s, DoOp(op)))
  {
    var od := DeltaOf(s.all, op);
    if od.Some? {
      var t, d := Next(s, DoOp(op)), od.value;
      var touched := TouchedBy(s.views, d);
      WriteFrame(s, d);
      assert t.changed == MarkAll(s.changed, touched, d, Bound(s.views)) && t.log == s.log + [Wrote(touched, d)];
      assert t.pending != [] && Flush(t) == Flush(s);
      hide Next, Write, DeltaOf, MarkAll, TouchedBy, Flush, StillFor, StillForListener, Inv, Enabled;
      forall id, cb ensures PaidFor(t, id, cb) {
        assert PaidFor(s, id, cb);
        CountsOfOneMore(s.log, Wrote(touched, d), id, cb);
        MarkAllQueue(s.changed, touched, d, Bound(s.views), id);
      }
      forall cb ensures ListenerPaidFor(t, cb) {
        assert ListenerPaidFor(s, cb);
        CountsOfOneMore(s.log, Wrote(touched, d), 0, cb);
      }
    }
  }

  /** What a kernel move does to the counts of one callback of a view, phase by phase. */
  lemma ListenersPaid(s: State, r: Round, id: ViewId, cb: Callback)
    requires PaidFor(s, id, cb) && s.stack == [Flushing(r)] && r.Listeners?
    ensures PaidFor(Kernel(s, r), id, cb)
  {
    hide CallsTo, WritesTouching, Queued;
    if r.todo != [] {
      CountsOfOneMore(s.log, CalledListener(r.todo[0], r.last), id, cb);
    }
  }

  lemma ViewsPaid(s: State, r: Round, id: ViewId, cb: Callback)
    requires Orderly(s) && PaidFor(s, id, cb) && s.stack == [Flushing(r)] && r.Views?
    ensures PaidFor(Kernel(s, r), id, cb)
  {
    hide CallsTo, WritesTouching, Queued;
    if r.changed != [] {
      HeadQueued(r.changed, id);
      if r.changed[0].0 in s.views {
        OnceEach(s.views[r.changed[0].0].subscribers, cb);
      }
    }
  }

  lemma NotifyingPaid(s: State, r: Round, id: ViewId, cb: Callback)
    requires PaidFor(s, id, cb) && s.stack == [Flushing(r)] && r.Notifying?
    ensures PaidFor(Kernel(s, r), id, cb)
  {
    hide CallsTo, WritesTouching, Queued;
    if r.todo != [] {
      OneLess(r.todo, cb);
      CountsOfOneMore(s.log, Called(r.view, r.todo[0], r.list, r.delta), id, cb);
    }
  }

  lemma BetweenPaid(s: State, id: ViewId, cb: Callback)
    requires PaidFor(s, id, cb) && s.stack == [Flushing(Between)]
    ensures PaidFor(Kernel(s, Between), id, cb)
  {
    assert Queued([], id) == 0;
    hide CallsTo, WritesTouching, Queued;
  }

  lemma KernelListenerPaid(s: State, r: Round, cb: Callback)
    requires NoRepeats(s.listeners) && ListenerPaidFor(s, cb) && s.stack == [Flushing(r)]
    ensures ListenerPaidFor(Kernel(s, r), cb)
  {
    hide CallsToListener, WritesIn, NoRepeats, CallsTo, WritesTouching;
    match r
    case Between => OnceEach(s.listeners, cb);
    case Listeners(_, _, _, _) => ListenerCallPaid(s, r, cb);
    case Views(changed) =>
    case Notifying(v, list, d, todo, _, _) =>
      if todo != [] {
        CountsOfOneMore(s.log, Called(v, todo[0], list, d), 0, cb);
      }
  }

  lemma ListenerCallPaid(s: State, r: Round, cb: Callback)
    requires ListenerPaidFor(s, cb) && s.stack == [Flushing(r)] && r.Listeners?
    ensures ListenerPaidFor(Kernel(s, r), cb)
  {
    hide CallsToListener, WritesIn, CallsTo, WritesTouching;
    if r.todo != [] {
      OneLess(r.todo, cb);
      CountsOfOneMore(s.log, CalledListener(r.todo[0], r.last), 0, cb);
    }
  }

  lemma KernelPaid(s: State, r: Round)
    requires Orderly(s) && Paid(s) && s.stack == [Flushing(r)]
    ensures Paid(Kernel(s, r))
  {
    hide Kernel, PaidFor, ListenerPaidFor;
    forall id, cb ensures PaidFor(Kernel(s, r), id, cb) {
      match r
      case Between => BetweenPaid(s, id, cb);
      case Listeners(_, _, _, _) => ListenersPaid(s, r, id, cb);
      case Views(_) => ViewsPaid(s, r, id, cb);
      case Notifying(_, _, _, _, _, _) => NotifyingPaid(s, r, id, cb);
    }
    forall cb ensures ListenerPaidFor(Kernel(s, r), cb) {
      KernelListenerPaid(s, r, cb);
    }
  }

  /** Nothing that is counted goes up. */
  lemma QuietPaid(s: State, t: State)
    requires Paid(s) && (t.changed == s.changed || t.changed == []) && (t.pending == s.pending || t.pending == [])
    requires t.log == s.log || (|t.log| == |s.log| + 1 && (t.log[|s.log|].Subscribed? || t.log[|s.log|].Listened?) && t.log == s.log + [t.log[|s.log|]])
    requires Flush(t) == Flush(s) || Flush(t) == Returned(Flush(s)) || Flush(t) == Between
    ensures Paid(t)
  {
    hide Flush;
    forall id, cb ensures PaidFor(t, id, cb) {
      assert PaidFor(s, id, cb);
      assert Queued([], id) == 0;
      if t.log != s.log {
        CountsOfOneMore(s.log, t.log[|s.log|], id, cb);
      }
    }
    forall cb ensures ListenerPaidFor(t, cb) {
      assert ListenerPaidFor(s, cb);
      if t.log != s.log {
        CountsOfOneMore(s.log, t.log[|s.log|], 0, cb);
      }
    }
  }

  lemma QuietCounts(s: State, e: Event)
    requires StackValid(s) && Enabled(s, e) && !e.DoOp? && !e.Advance?
    ensures var t := Next(s, e);
      && (t.changed == s.changed || t.changed == []) && (t.pending == s.pending || t.pending == [])
      && (t.log == s.log || (|t.log| == |s.log| + 1 && (t.log[|s.log|].Subscribed? || t.log[|s.log|].Listened?) && t.log == s.log + [t.log[|s.log|]]))
      && (Flush(t) == Flush(s) || Flush(t) == Returned(Flush(s)) || Flush(t) == Between)
  {
    hide Select, StableSort, Without, Write, DeltaOf, Kernel, Dead;
  }

  lemma PaidKept(s: State, e: Event)
    requires Inv(s) && Orderly(s) && Paid(s) && Enabled(s, e)
    ensures Paid(Next(s, e))
  {
    match e {
      case DoOp(op) => OpPaid(s, op);
      case Advance =>
        assert s.stack == [Flushing(Top(s).value.round)];
        KernelPaid(s, Top(s).value.round);
      case _ =>
        QuietCounts(s, e);
        hide Next;
        QuietPaid(s, Next(s, e));
    }
  }

  lemma {:induction false} RunPaid(s: State, events: seq<Event>)
    requires Inv(s) && Orderly(s) && Paid(s) && After(s, events).Some?
    ensures Orderly(After(s, events).value) && Paid(After(s, events).value)
  {
    if events != [] {
      var before := events[..|events| - 1];
      RunPaid(s, before);
      RunKept(s, before);
      OrderlyKept(After(s, before).value, events[|events| - 1]);
      PaidKept(After(s, before).value, events[|events| - 1]);
    }
  }

  /** No callback is ever called more often than its view was changed, and no listener more often than something
      was written: rounds put calls together and never make any up. */
  lemma NoCallInVain(all: seq<Rec>, order: map<Id, nat>, nextOrder: nat, events: seq<Event>, id: ViewId, cb: Callback)
    requires After(Init(all, order, nextOrder), events).Some?
    ensures var log := After(Init(all, order, nextOrder), events).value.log;
      && |set i | 0 <= i < |log| && log[i].Called? && log[i].view == id && log[i].cb == cb|
      <= |set i | 0 <= i < |log| && log[i].Wrote? && id in log[i].touched|
      && |set i | 0 <= i < |log| && log[i].CalledListener? && log[i].cb == cb| <= |set i | 0 <= i < |log| && log[i].Wrote?|
  {
    RunPaid(Init(all, order, nextOrder), events);
    var s := After(Init(all, order, nextOrder), events).value;
    assert PaidFor(s, id, cb) && ListenerPaidFor(s, cb);
    hide PaidFor, ListenerPaidFor, Init, After;
    CountedCalls(s.log, id, cb);
    CountedWrites(s.log, id);
  }

  lemma {:induction false} CountedCalls(log: seq<Entry>, id: ViewId, cb: Callback)
    ensures CallsTo(log, id, cb) == |set i | 0 <= i < |log| && log[i].Called? && log[i].view == id && log[i].cb == cb|
    ensures CallsToListener(log, cb) == |set i | 0 <= i < |log| && log[i].CalledListener? && log[i].cb == cb|
  {
    var n := |log| - 1;
    if log != [] {
      CountedCalls(log[..n], id, cb);
      var x := log[n];
      OneMoreCounted((set i | 0 <= i < n && log[..n][i].Called? && log[..n][i].view == id && log[..n][i].cb == cb),
        (set i | 0 <= i < |log| && log[i].Called? && log[i].view == id && log[i].cb == cb), n, x.Called? && x.view == id && x.cb == cb);
      OneMoreCounted((set i | 0 <= i < n && log[..n][i].CalledListener? && log[..n][i].cb == cb),
        (set i | 0 <= i < |log| && log[i].CalledListener? && log[i].cb == cb), n, x.CalledListener? && x.cb == cb);
    }
  }

  lemma {:induction false} CountedWrites(log: seq<Entry>, id: ViewId)
    ensures WritesTouching(log, id) == |set i | 0 <= i < |log| && log[i].Wrote? && id in log[i].touched|
    ensures WritesIn(log) == |set i | 0 <= i < |log| && log[i].Wrote?|
  {
    var n := |log| - 1;
    if log != [] {
      CountedWrites(log[..n], id);
      OneMoreCounted((set i | 0 <= i < n && log[..n][i].Wrote? && id in log[..n][i].touched),
        (set i | 0 <= i < |log| && log[i].Wrote? && id in log[i].touched), n, log[n].Wrote? && id in log[n].touched);
      OneMoreCounted((set i | 0 <= i < n && log[..n][i].Wrote?), (set i | 0 <= i < |log| && log[i].Wrote?), n, log[n].Wrote?);
    }
  }

  /** What a write says it touched: the live views whose filter takes the record before or after it. */
  lemma TouchedAreTheConcerned(s: State, op: Op)
    requires InStep(s) && Enabled(s, DoOp(op)) && Next(s, DoOp(op)) != s
    ensures var t, about := Next(s, DoOp(op)), if op.Put? then op.rec.id else op.id;
      && |t.log| == |s.log| + 1 && t.log[|s.log|].Wrote? && t.pending == s.pending + [t.log[|s.log|].delta]
      && forall id :: id in t.log[|s.log|].touched <==>
           id in s.views && !s.views[id].disposed
           && exists r: Rec :: r.id == about && s.views[id].filter(r) && (r in s.all || r in t.all)
  {
    DeltaFits(s.all, op);
    var d, t := DeltaOf(s.all, op).value, Next(s, DoOp(op));
    WriteFrame(s, d);
    assert t.log == s.log + [Wrote(TouchedBy(s.views, d), d)] && t.all == StoreStep(s.all, d);
    hide Next, Write, InStep, StoreStep;
    AboutTheRecord(s.all, op);
    forall id | id in s.views {
      TouchesIff(s.all, d, s.views[id].filter);
    }
  }

  lemma AboutTheRecord(all: seq<Rec>, op: Op)
    requires DeltaOf(all, op).Some?
    ensures IdOf(DeltaOf(all, op).value) == if op.Put? then op.rec.id else op.id
  {
  }

  // ---------- callbacks are users, and flushes end ----------

  /** Whenever the flush calls somebody, that callback may use the store as anybody may. */
  lemma CallbacksAreUsers(s: State)
    requires Inv(s) && Enabled(s, Advance) && |Next(s, Advance).log| > |s.log|
    ensures var t := Next(s, Advance);
      && Enabled(t, ReturnFromCallback) && Enabled(t, DisposeStore)
      && (!t.disposed ==> Enabled(t, BeginBulk) && forall op :: Enabled(t, DoOp(op)))
      && forall id, cb | id in t.views :: Enabled(t, Subscribe(id, cb)) && Enabled(t, Unsubscribe(id, cb))
  {
    hide QueueValid, ViewsValid, ListCurrent, Tells, AllOwed, Kernel;
    CallOpensTheStore(s, Top(s).value.round);
  }

  lemma CallOpensTheStore(s: State, r: Round)
    requires s.stack == [Flushing(r)] && |Kernel(s, r).log| > |s.log|
    ensures var t := Kernel(s, r);
      t.stack != [] && t.stack[|t.stack| - 1].Flushing? && InCall(t.stack[|t.stack| - 1].round)
  {
    match r
    case Between =>
    case Listeners(todo, _, _, _) =>
    case Views(changed) =>
    case Notifying(_, _, _, todo, _, _) =>
  }

  /** The program's own moves: a bulk ends, a callback returns, the flush goes on. */
  predicate Own(e: Event) {
    e.EndBulk? || e.ReturnFromCallback? || e.Advance?
  }

  function OwnMove(s: State): Event
    requires s.stack != []
  {
    match Top(s).value
    case InBulk => EndBulk
    case Flushing(r) => if InCall(r) then ReturnFromCallback else Advance
  }

  ghost function Waiting(s: State): nat {
    if s.pending != [] && !s.disposed then 1 else 0
  }

  ghost function Phase(s: State): nat {
    if s.stack == [] || !s.stack[0].Flushing? then 0
    else match s.stack[0].round case Between => 1 case Listeners(_, _, _, _) => 3 case _ => 2
  }

  ghost function ViewsToGo(s: State): nat {
    match Flush(s) case Views(changed) => |changed| case Notifying(_, _, _, _, changed, _) => |changed| case _ => 0
  }

  ghost function CallsToGo(s: State): nat {
    match Flush(s) case Listeners(todo, _, _, _) => |todo| case Notifying(_, _, _, todo, _, _) => |todo| + 1 case _ => 0
  }

  ghost function Running(s: State): nat {
    if InCall(Flush(s)) then 1 else 0
  }

  ghost predicate Nearer(t: State, s: State) {
    if t.bulkDepth != s.bulkDepth then t.bulkDepth < s.bulkDepth
    else if Waiting(t) != Waiting(s) then Waiting(t) < Waiting(s)
    else if Phase(t) != Phase(s) then Phase(t) < Phase(s)
    else if ViewsToGo(t) != ViewsToGo(s) then ViewsToGo(t) < ViewsToGo(s)
    else if CallsToGo(t) != CallsToGo(s) then CallsToGo(t) < CallsToGo(s)
    else Running(t) < Running(s)
  }

  lemma KernelIsNearer(s: State, r: Round)
    requires s.stack == [Flushing(r)] && !InCall(r)
    ensures Nearer(Kernel(s, r), s)
  {
    match r
    case Between =>
    case Listeners(todo, _, _, _) =>
    case Views(changed) =>
    case Notifying(_, _, _, todo, _, _) =>
  }

  /** Each of the program's own moves is possible when it comes, leaves the records alone and is nearer the end. */
  lemma OwnMoveIsNearer(s: State)
    requires Inv(s) && s.stack != []
    ensures var e := OwnMove(s); Own(e) && Enabled(s, e) && Next(s, e).all == s.all && Nearer(Next(s, e), s)
  {
    match Top(s).value
    case InBulk =>
      assert Next(s, EndBulk).bulkDepth < s.bulkDepth;
      hide Nearer;
      EndBulkIsNearer(s);
    case Flushing(r) =>
      assert s.stack == [Flushing(r)];
      if InCall(r) {
        ReturnIsNearer(s, r);
      } else {
        KernelIsNearer(s, r);
        KernelFrame(s, r);
      }
      hide Kernel, Nearer;
  }

  lemma ReturnIsNearer(s: State, r: Round)
    requires s.stack == [Flushing(r)] && InCall(r)
    ensures Nearer(Next(s, ReturnFromCallback), s)
  {
    hide Kernel;
  }

  lemma EndBulkIsNearer(s: State)
    requires Enabled(s, EndBulk) && Next(s, EndBulk).bulkDepth < s.bulkDepth
    ensures Nearer(Next(s, EndBulk), s)
  {
    hide Next;
  }

  lemma {:induction false} AfterFirst(s: State, e: Event, rest: seq<Event>)
    requires Enabled(s, e)
    ensures After(s, [e] + rest) == After(Next(s, e), rest)
  {
    var events := [e] + rest;
    hide Next, Enabled;
    if rest == [] {
      assert events[..0] == [] && events[0] == e;
    } else {
      AfterFirst(s, e, rest[..|rest| - 1]);
      assert events[..|events| - 1] == [e] + rest[..|rest| - 1];
    }
  }

  /** With nobody writing from inside callbacks the program comes to rest by its own moves, from every state a
      run can reach: no bulk stays open, no callback stays called, nothing stays queued. */
  lemma ComesToRest(s: State) returns (events: seq<Event>)
    requires Inv(s)
    ensures (forall e | e in events :: Own(e)) && After(s, events).Some?
    ensures var t := After(s, events).value; t.stack == [] && t.pending == [] && t.all == s.all
    decreases s.bulkDepth, Waiting(s), Phase(s), ViewsToGo(s), CallsToGo(s), Running(s)
  {
    events := [];
    if s.stack != [] {
      var e := OwnMove(s);
      OwnMoveIsNearer(s);
      StepKept(s, e);
      hide Inv, Next, Enabled, Waiting, Phase, ViewsToGo, CallsToGo, Running;
      var rest := ComesToRest(Next(s, e));
      AfterFirst(s, e, rest);
      events := [e] + rest;
    }
  }
}
