/** Waiting for agents to log in, and noticing agents that stopped answering.

    The class is the one of shared/spawn-librarian.ts with its environment made visible: the clock, the
    timers it has armed and not cleared, the promises it has handed out and what they were resolved
    with.  Timers fire on time: the clock does not pass an armed timer. */
module SpawnLibrarian {
  import opened Lists
  import opened Wrappers

  type AgentId = string
  type TimerId = nat

  /** Every `awaitLogin` makes one promise and one timer; the wait's number names both. */
  type WaitId = nat

  datatype LivenessState = Alive | Dead | Spawning | Wedged | Unknown

  datatype SpawnFailureReason = LaunchFailed | LoginTimeout | PolicyDenied | NameBounced

  datatype AgentRecord = AgentRecord(id: AgentId, details: map<string, string>)

  datatype SpawnResult = LoggedIn(agent: AgentRecord) | NotSpawned(reason: SpawnFailureReason)

  datatype PendingSpawn = PendingSpawn(id: AgentId, name: string, spec: map<string, string>, startedAt: int, deadlineAt: int)

  datatype PendingWaiter = PendingWaiter(resolve: WaitId, timer: WaitId)

  datatype LoginTimer = LoginTimer(id: AgentId, due: int)

  /** `event.ts` may be missing, and a present one may not parse. */
  datatype Timestamp = NoTimestamp | Unparsable | Parsed(ms: int)

  datatype LivenessEvent = LivenessEvent(agentId: AgentId, state: LivenessState, ts: Timestamp)

  datatype ActivityEvent = ActivityEvent(agentId: AgentId, jsonlOffset: int, ts: Timestamp)

  datatype DeliveryWait = DeliveryWait(deliveredAt: int, timer: TimerId)

  datatype WedgeTimer = WedgeTimer(agentId: AgentId, deliveredAt: int, due: int)

  /** What a promise was resolved with, and when. */
  datatype Resolution = Resolution(result: SpawnResult, at: int)

  datatype Timeout = Timeout(id: AgentId, at: int)

  /** A call of `onLateLogin`. */
  datatype LateLogin = LateLogin(id: AgentId, timedOutAt: int, at: int)

  /** A delivery, and when its window ends. */
  datatype Delivery = Delivery(agentId: AgentId, deliveredAt: int, due: int)

  /** An activity that was processed: the time it carried, if it could be read, and how many deliveries came before. */
  datatype Processed = Processed(agentId: AgentId, offset: int, time: Option<int>, after: nat)

  const LATE_LOGIN_TTL_MS := 300000

  /** `setTimeout` takes a negative delay for none. */
  function Delay(ms: int): nat {
    if ms < 0 then 0 else ms
  }

  /** The time an activity carries: its own, or else the time it comes at. */
  function TimeOf(ts: Timestamp, now: int): Option<int> {
    match ts
    case NoTimestamp => Some(now)
    case Unparsable => None
    case Parsed(ms) => Some(ms)
  }

  ghost function TimeoutsOf(timeouts: seq<Timeout>, id: AgentId): nat {
    if timeouts == [] then 0
    else TimeoutsOf(timeouts[..|timeouts| - 1], id) + if timeouts[|timeouts| - 1].id == id then 1 else 0
  }

  ghost function ReportsOf(reports: seq<LateLogin>, id: AgentId): nat {
    if reports == [] then 0
    else ReportsOf(reports[..|reports| - 1], id) + if reports[|reports| - 1].id == id then 1 else 0
  }

  lemma OneMoreTimeout(timeouts: seq<Timeout>, t: Timeout, id: AgentId)
    ensures TimeoutsOf(timeouts + [t], id) == TimeoutsOf(timeouts, id) + if t.id == id then 1 else 0
  {
    assert (timeouts + [t])[..|timeouts|] == timeouts;
  }

  lemma OneMoreReport(reports: seq<LateLogin>, r: LateLogin, id: AgentId)
    ensures ReportsOf(reports + [r], id) == ReportsOf(reports, id) + if r.id == id then 1 else 0
  {
    assert (reports + [r])[..|reports|] == reports;
  }

  ghost function Elements(s: seq<nat>): set<nat> {
    set x | x in s
  }

  lemma OneMoreElement(s: seq<nat>, x: nat)
    ensures Elements(s + [x]) == Elements(s) + {x}
  {
  }

  /** The waiters are the pending spawns, and each waits on an open wait for its own id. */
  ghost predicate Waiting(waiters: map<AgentId, PendingWaiter>, pendingSpawns: map<AgentId, PendingSpawn>, armed: map<WaitId, LoginTimer>) {
    && waiters.Keys == pendingSpawns.Keys
    && (forall id | id in waiters ::
          waiters[id].resolve == waiters[id].timer && waiters[id].timer in armed && armed[waiters[id].timer].id == id)
  }

  lemma WaitKeepsWaiting(waiters: map<AgentId, PendingWaiter>, pendingSpawns: map<AgentId, PendingSpawn>, armed: map<WaitId, LoginTimer>,
                         p: PendingSpawn, wait: WaitId, timer: LoginTimer)
    requires Waiting(waiters, pendingSpawns, armed) && wait !in armed && timer.id == p.id
    ensures Waiting(waiters[p.id := PendingWaiter(wait, wait)], pendingSpawns[p.id := p], armed[wait := timer])
  {
  }

  /** An id that stops waiting lets any one of its waits go. */
  lemma DropKeepsWaiting(waiters: map<AgentId, PendingWaiter>, pendingSpawns: map<AgentId, PendingSpawn>, armed: map<WaitId, LoginTimer>,
                         id: AgentId, wait: WaitId)
    requires Waiting(waiters, pendingSpawns, armed) && wait in armed && armed[wait].id == id
    ensures Waiting(waiters - {id}, pendingSpawns - {id}, armed - {wait})
  {
  }

  /** Late logins are paid for by timeouts, and none is too late. */
  ghost predicate LateLogins(timedOutIds: map<AgentId, int>, timeouts: seq<Timeout>, reports: seq<LateLogin>, now: int) {
    && (forall id :: ReportsOf(reports, id) + (if id in timedOutIds then 1 else 0) <= TimeoutsOf(timeouts, id))
    && (forall id | id in timedOutIds :: Timeout(id, timedOutIds[id]) in timeouts)
    && (forall t | t in timeouts :: t.at <= now)
    && (forall r | r in reports :: Timeout(r.id, r.timedOutAt) in timeouts && 0 <= r.at - r.timedOutAt < LATE_LOGIN_TTL_MS)
  }

  lemma FewerKeepLateLogins(timedOutIds: map<AgentId, int>, timeouts: seq<Timeout>, reports: seq<LateLogin>, now: int,
                            fewer: map<AgentId, int>)
    requires LateLogins(timedOutIds, timeouts, reports, now)
    requires forall id | id in fewer :: id in timedOutIds && fewer[id] == timedOutIds[id]
    ensures LateLogins(fewer, timeouts, reports, now)
  {
    hide TimeoutsOf, ReportsOf;
  }

  lemma TimeoutKeepsLateLogins(timedOutIds: map<AgentId, int>, timeouts: seq<Timeout>, reports: seq<LateLogin>, now: int, id: AgentId)
    requires LateLogins(timedOutIds, timeouts, reports, now)
    ensures LateLogins(timedOutIds[id := now], timeouts + [Timeout(id, now)], reports, now)
  {
    hide TimeoutsOf, ReportsOf;
    forall x ensures TimeoutsOf(timeouts + [Timeout(id, now)], x) == TimeoutsOf(timeouts, x) + if x == id then 1 else 0 {
      OneMoreTimeout(timeouts, Timeout(id, now), x);
    }
    assert Timeout(id, now) in timeouts + [Timeout(id, now)];
  }

  lemma ReportKeepsLateLogins(timedOutIds: map<AgentId, int>, timeouts: seq<Timeout>, reports: seq<LateLogin>, now: int, id: AgentId)
    requires LateLogins(timedOutIds, timeouts, reports, now) && id in timedOutIds && now - timedOutIds[id] < LATE_LOGIN_TTL_MS
    ensures LateLogins(timedOutIds - {id}, timeouts, reports + [LateLogin(id, timedOutIds[id], now)], now)
  {
    hide TimeoutsOf, ReportsOf;
    var r := LateLogin(id, timedOutIds[id], now);
    forall x ensures ReportsOf(reports + [r], x) == ReportsOf(reports, x) + if x == id then 1 else 0 {
      OneMoreReport(reports, r, x);
    }
    assert Timeout(id, timedOutIds[id]) in timeouts;
  }

  /** The activity raised its agent's offset above all before it. */
  ghost predicate Raised(activities: seq<Processed>, k: nat)
    requires k < |activities|
  {
    forall j | 0 <= j < k && activities[j].agentId == activities[k].agentId :: activities[j].offset < activities[k].offset
  }

  /** The activity answers the delivery: it was its agent's last when the activity came, which raised the offset
      and carried a later time. */
  ghost predicate Answers(activities: seq<Processed>, deliveries: seq<Delivery>, k: nat, d: nat) {
    && k < |activities| && d < |deliveries| && d < activities[k].after <= |deliveries|
    && activities[k].agentId == deliveries[d].agentId
    && (forall i | d < i < activities[k].after :: deliveries[i].agentId != deliveries[d].agentId)
    && Raised(activities, k) && activities[k].time.Some? && activities[k].time.value > deliveries[d].deliveredAt
  }

  ghost predicate AnswersMatch(activities: seq<Processed>, deliveries: seq<Delivery>, answered: set<nat>) {
    && (forall k | 0 <= k < |activities| :: activities[k].after <= |deliveries|)
    && (forall d: nat :: d in answered <==> exists k :: Answers(activities, deliveries, k, d))
  }

  /** The recorded offset is the largest the agent has reported. */
  ghost predicate OffsetsMatch(activities: seq<Processed>, lastActivity: map<AgentId, ActivityEvent>) {
    && (forall k | 0 <= k < |activities| ::
          activities[k].agentId in lastActivity && activities[k].offset <= lastActivity[activities[k].agentId].jsonlOffset)
    && (forall a | a in lastActivity ::
          exists k | 0 <= k < |activities| :: activities[k].agentId == a && activities[k].offset == lastActivity[a].jsonlOffset)
  }

  /** None of the first `n` activities is one that came after the delivery, raised its agent's offset and carried a later
      time. */
  ghost predicate Unanswered(activities: seq<Processed>, deliveries: seq<Delivery>, n: nat, d: nat)
    requires n <= |activities| && d < |deliveries|
  {
    forall k | 0 <= k < n && activities[k].agentId == deliveries[d].agentId && activities[k].after > d && Raised(activities, k) ::
      activities[k].time.None? || activities[k].time.value <= deliveries[d].deliveredAt
  }

  /** What had been processed when a delivery was reported had not answered it. */
  ghost predicate SeenMatch(activities: seq<Processed>, deliveries: seq<Delivery>, wedged: seq<nat>, seenAt: map<nat, nat>) {
    forall d | d in wedged ::
      d < |deliveries| && d in seenAt && seenAt[d] <= |activities| && Unanswered(activities, deliveries, seenAt[d], d)
  }

  /** Every agent's latest delivery is answered, was reported, found the agent not alive when its window ended, or is
      still watched until then. */
  ghost predicate Watched(armed: map<TimerId, WedgeTimer>, deliveries: seq<Delivery>, latest: map<AgentId, nat>, over: set<nat>) {
    forall a | a in latest && latest[a] !in over ::
      latest[a] < |deliveries| && exists t :: t in armed && armed[t].agentId == a && armed[t].due == deliveries[latest[a]].due
  }

  lemma UnansweredMeans(activities: seq<Processed>, deliveries: seq<Delivery>, n: nat, d: nat)
    requires n <= |activities| && d < |deliveries| && Unanswered(activities, deliveries, n, d)
    ensures forall k | 0 <= k < n && activities[k].agentId == deliveries[d].agentId && activities[k].after > d
                       && (forall j | 0 <= j < k && activities[j].agentId == deliveries[d].agentId :: activities[j].offset < activities[k].offset) ::
              activities[k].time.None? || activities[k].time.value <= deliveries[d].deliveredAt
  {
    forall k | 0 <= k < n && activities[k].agentId == deliveries[d].agentId && activities[k].after > d
               && (forall j | 0 <= j < k && activities[j].agentId == deliveries[d].agentId :: activities[j].offset < activities[k].offset)
      ensures activities[k].time.None? || activities[k].time.value <= deliveries[d].deliveredAt
    {
      assert Raised(activities, k);
    }
  }

  lemma RaisedEarlier(activities: seq<Processed>, p: Processed, k: nat)
    requires k < |activities|
    ensures Raised(activities + [p], k) <==> Raised(activities, k)
  {
    assert forall j | 0 <= j <= k :: (activities + [p])[j] == activities[j];
  }

  lemma AnswersEarlier(activities: seq<Processed>, deliveries: seq<Delivery>, p: Processed, k: nat, d: nat)
    requires k < |activities|
    ensures Answers(activities + [p], deliveries, k, d) <==> Answers(activities, deliveries, k, d)
  {
    RaisedEarlier(activities, p, k);
    assert (activities + [p])[k] == activities[k];
    hide Raised;
  }

  /** The offset on record tells whether an activity raises it. */
  lemma AdvancesIff(activities: seq<Processed>, lastActivity: map<AgentId, ActivityEvent>, p: Processed)
    requires OffsetsMatch(activities, lastActivity)
    ensures Raised(activities + [p], |activities|) <==> p.agentId !in lastActivity || p.offset > lastActivity[p.agentId].jsonlOffset
  {
    var longer := activities + [p];
    assert longer[|activities|] == p && forall j | 0 <= j < |activities| :: longer[j] == activities[j];
    if p.agentId in lastActivity {
      var k :| 0 <= k < |activities| && activities[k].agentId == p.agentId && activities[k].offset == lastActivity[p.agentId].jsonlOffset;
      assert longer[k] == activities[k];
    }
  }

  lemma OffsetKept(activities: seq<Processed>, lastActivity: map<AgentId, ActivityEvent>, event: ActivityEvent, p: Processed)
    requires OffsetsMatch(activities, lastActivity) && p.agentId == event.agentId && p.offset == event.jsonlOffset
    ensures OffsetsMatch(activities + [p],
      if event.agentId !in lastActivity || event.jsonlOffset > lastActivity[event.agentId].jsonlOffset
      then lastActivity[event.agentId := event] else lastActivity)
  {
    var longer := activities + [p];
    assert longer[|activities|] == p && forall j | 0 <= j < |activities| :: longer[j] == activities[j];
    forall a | a in lastActivity
      ensures exists k | 0 <= k < |activities| :: longer[k].agentId == a && longer[k].offset == lastActivity[a].jsonlOffset
    {
      var k :| 0 <= k < |activities| && activities[k].agentId == a && activities[k].offset == lastActivity[a].jsonlOffset;
      assert longer[k] == activities[k];
    }
  }

  /** An activity answers its agent's latest delivery, or nothing. */
  lemma ActivityAnswers(activities: seq<Processed>, deliveries: seq<Delivery>, latest: map<AgentId, nat>, pending: map<AgentId, DeliveryWait>,
                        answered: set<nat>, p: Processed)
    requires AnswersMatch(activities, deliveries, answered) && LatestValid(deliveries, latest, pending) && p.after == |deliveries|
    ensures AnswersMatch(activities + [p], deliveries,
      if p.agentId in latest && Raised(activities + [p], |activities|) && p.time.Some? && p.time.value > deliveries[latest[p.agentId]].deliveredAt
      then answered + {latest[p.agentId]} else answered)
  {
    var longer, n := activities + [p], |activities|;
    assert longer[n] == p && forall k | 0 <= k < n :: longer[k] == activities[k];
    forall d: nat ensures Answers(longer, deliveries, n, d) <==>
      && p.agentId in latest && d == latest[p.agentId]
      && Raised(longer, n) && p.time.Some? && p.time.value > deliveries[d].deliveredAt
    {
      hide Raised;
    }
    forall d: nat ensures (exists k :: Answers(longer, deliveries, k, d)) <==>
      Answers(longer, deliveries, n, d) || exists k :: Answers(activities, deliveries, k, d)
    {
      if k :| Answers(longer, deliveries, k, d) && k != n {
        AnswersEarlier(activities, deliveries, p, k, d);
      }
      if k :| Answers(activities, deliveries, k, d) {
        AnswersEarlier(activities, deliveries, p, k, d);
      }
    }
    hide Answers, Raised;
  }

  lemma DeliveryKeepsAnswers(activities: seq<Processed>, deliveries: seq<Delivery>, answered: set<nat>, next: Delivery)
    requires AnswersMatch(activities, deliveries, answered)
    ensures AnswersMatch(activities, deliveries + [next], answered)
  {
    var longer := deliveries + [next];
    hide Raised;
    forall d, k ensures Answers(activities, longer, k, d) <==> Answers(activities, deliveries, k, d) {
      assert forall i | 0 <= i < |deliveries| :: longer[i] == deliveries[i];
    }
    hide Answers;
  }

  /** A latest delivery that nothing has answered. */
  lemma LatestUnanswered(activities: seq<Processed>, deliveries: seq<Delivery>, latest: map<AgentId, nat>, pending: map<AgentId, DeliveryWait>,
                         answered: set<nat>, a: AgentId)
    requires AnswersMatch(activities, deliveries, answered) && LatestValid(deliveries, latest, pending) && a in latest && latest[a] !in answered
    ensures Unanswered(activities, deliveries, |activities|, latest[a])
  {
    var d := latest[a];
    hide Raised;
    forall k | 0 <= k < |activities| && activities[k].agentId == deliveries[d].agentId && activities[k].after > d && Raised(activities, k)
      ensures activities[k].time.None? || activities[k].time.value <= deliveries[d].deliveredAt
    {
      assert !Answers(activities, deliveries, k, d);
    }
  }

  lemma SeenStays(activities: seq<Processed>, deliveries: seq<Delivery>, wedged: seq<nat>, seenAt: map<nat, nat>, p: Processed, next: Delivery)
    requires SeenMatch(activities, deliveries, wedged, seenAt)
    ensures SeenMatch(activities + [p], deliveries, wedged, seenAt) && SeenMatch(activities, deliveries + [next], wedged, seenAt)
  {
    hide Raised;
    forall d | d in wedged ensures Unanswered(activities + [p], deliveries, seenAt[d], d) {
      forall k | 0 <= k < seenAt[d] ensures (activities + [p])[k] == activities[k] && (Raised(activities + [p], k) <==> Raised(activities, k)) {
        RaisedEarlier(activities, p, k);
      }
    }
    forall d | d in wedged ensures Unanswered(activities, deliveries + [next], seenAt[d], d) {
      assert (deliveries + [next])[d] == deliveries[d];
    }
  }

  lemma SeenOneMore(activities: seq<Processed>, deliveries: seq<Delivery>, wedged: seq<nat>, seenAt: map<nat, nat>, d: nat)
    requires SeenMatch(activities, deliveries, wedged, seenAt) && d < |deliveries| && Unanswered(activities, deliveries, |activities|, d)
    ensures SeenMatch(activities, deliveries, wedged + [d], seenAt[d := |activities|])
  {
    hide Unanswered;
  }

  /** One timer fewer: its agent's latest delivery is over. */
  lemma WatchedWithout(armed: map<TimerId, WedgeTimer>, deliveries: seq<Delivery>, latest: map<AgentId, nat>, over: set<nat>, t: TimerId, d: nat)
    requires Watched(armed, deliveries, latest, over)
    requires t in armed ==> armed[t].agentId in latest && latest[armed[t].agentId] == d
    ensures Watched(armed - {t}, deliveries, latest, over + {d})
  {
    forall a | a in latest && latest[a] !in over + {d}
      ensures latest[a] < |deliveries| && exists u :: u in armed - {t} && armed[u].agentId == a && armed[u].due == deliveries[latest[a]].due
    {
      var u :| u in armed && armed[u].agentId == a && armed[u].due == deliveries[latest[a]].due;
      assert u in armed - {t};
    }
  }

  lemma WatchedMore(armed: map<TimerId, WedgeTimer>, deliveries: seq<Delivery>, latest: map<AgentId, nat>, over: set<nat>, more: set<nat>)
    requires Watched(armed, deliveries, latest, over) && over <= more
    ensures Watched(armed, deliveries, latest, more)
  {
  }

  /** A delivery and its timer; the agent's previous timer, if there is one, is gone. */
  lemma WatchedNew(armed: map<TimerId, WedgeTimer>, deliveries: seq<Delivery>, latest: map<AgentId, nat>, over: set<nat>,
                   gone: set<TimerId>, t: TimerId, w: WedgeTimer)
    requires Watched(armed, deliveries, latest, over) && t !in armed
    requires forall u | u in armed && u in gone :: armed[u].agentId == w.agentId
    ensures Watched((armed - gone)[t := w], deliveries + [Delivery(w.agentId, w.deliveredAt, w.due)], latest[w.agentId := |deliveries|], over)
  {
    var armed', deliveries', latest' := (armed - gone)[t := w], deliveries + [Delivery(w.agentId, w.deliveredAt, w.due)], latest[w.agentId := |deliveries|];
    forall a | a in latest' && latest'[a] !in over
      ensures latest'[a] < |deliveries'| && exists u :: u in armed' && armed'[u].agentId == a && armed'[u].due == deliveries'[latest'[a]].due
    {
      if a == w.agentId {
        assert t in armed' && armed'[t] == w;
      } else {
        var u :| u in armed && armed[u].agentId == a && armed[u].due == deliveries[latest[a]].due;
        assert u in armed' && armed'[u] == armed[u] && deliveries'[latest[a]] == deliveries[latest[a]];
      }
    }
  }

  /** `latest` points at each agent's last delivery, and a pending delivery is its agent's last. */
  ghost predicate LatestValid(deliveries: seq<Delivery>, latest: map<AgentId, nat>, pending: map<AgentId, DeliveryWait>) {
    && (forall a | a in latest ::
          && latest[a] < |deliveries| && deliveries[latest[a]].agentId == a
          && forall i | latest[a] < i < |deliveries| :: deliveries[i].agentId != a)
    && (forall a | a in pending :: a in latest && pending[a].deliveredAt == deliveries[latest[a]].deliveredAt)
    && (forall i | 0 <= i < |deliveries| :: deliveries[i].agentId in latest)
  }

  /** An armed wedge timer stands for its agent's latest delivery, which is not done with. */
  ghost predicate ArmedValid(armed: map<TimerId, WedgeTimer>, pending: map<AgentId, DeliveryWait>, latest: map<AgentId, nat>,
                             deliveryOf: map<TimerId, nat>, done: set<nat>) {
    && (forall t | t in armed ::
          var a := armed[t].agentId;
          && t in deliveryOf && deliveryOf[t] !in done
          && a in latest && latest[a] == deliveryOf[t]
          && a in pending && pending[a] == DeliveryWait(armed[t].deliveredAt, t))
    && (forall a | a in pending && pending[a].timer in armed :: armed[pending[a].timer].agentId == a)
  }

  ghost predicate WedgeState(armed: map<TimerId, WedgeTimer>, pending: map<AgentId, DeliveryWait>, deliveries: seq<Delivery>,
                             latest: map<AgentId, nat>, deliveryOf: map<TimerId, nat>, answered: set<nat>, wedged: seq<nat>,
                             next: TimerId, now: int) {
    && LatestValid(deliveries, latest, pending)
    && ArmedValid(armed, pending, latest, deliveryOf, answered + Elements(wedged))
    && (forall t | t in armed :: t < next && now <= armed[t].due)
    && (forall a | a in pending :: pending[a].timer < next)
    && (forall d | d in answered + Elements(wedged) :: d < |deliveries|)
    && NoRepeats(wedged)
  }

  /** The timer of a pending delivery, while it is armed, is for that delivery. */
  lemma PendingsTimer(armed: map<TimerId, WedgeTimer>, pending: map<AgentId, DeliveryWait>, latest: map<AgentId, nat>,
                      deliveryOf: map<TimerId, nat>, done: set<nat>, a: AgentId)
    requires ArmedValid(armed, pending, latest, deliveryOf, done) && a in pending
    ensures pending[a].timer in armed ==> armed[pending[a].timer].agentId == a
  {
  }

  /** The delivery a timer stands for: its agent's last, and neither reported nor answered. */
  ghost predicate StandsFor(w: WedgeTimer, d: nat, deliveries: seq<Delivery>, latest: map<AgentId, nat>, pending: map<AgentId, DeliveryWait>,
                            answered: set<nat>, wedged: seq<nat>) {
    && d < |deliveries| && deliveries[d].agentId == w.agentId && deliveries[d].deliveredAt == w.deliveredAt
    && w.agentId in latest && latest[w.agentId] == d && d !in wedged && d !in answered
    && w.agentId in pending && pending[w.agentId].deliveredAt == w.deliveredAt
  }

  /** Clearing the timer of a pending delivery leaves the other agents' timers alone. */
  lemma ClearKeepsArmed(armed: map<TimerId, WedgeTimer>, pending: map<AgentId, DeliveryWait>, latest: map<AgentId, nat>,
                        deliveryOf: map<TimerId, nat>, done: set<nat>, a: AgentId)
    requires ArmedValid(armed, pending, latest, deliveryOf, done) && a in pending
    ensures ArmedValid(armed - {pending[a].timer}, pending - {a}, latest, deliveryOf, done)
  {
  }

  /** Without a pending delivery the agent has no armed timer, so its latest delivery can be done with. */
  lemma DoneKeepsArmed(armed: map<TimerId, WedgeTimer>, pending: map<AgentId, DeliveryWait>, deliveries: seq<Delivery>, latest: map<AgentId, nat>,
                       deliveryOf: map<TimerId, nat>, done: set<nat>, a: AgentId)
    requires ArmedValid(armed, pending, latest, deliveryOf, done) && LatestValid(deliveries, latest, pending)
    requires a in latest && a !in pending
    ensures ArmedValid(armed, pending, latest, deliveryOf, done + {latest[a]})
  {
    forall t | t in armed ensures deliveryOf[t] != latest[a] {
      assert deliveries[latest[armed[t].agentId]].agentId == armed[t].agentId;
    }
  }

  lemma ArmKeepsArmed(armed: map<TimerId, WedgeTimer>, pending: map<AgentId, DeliveryWait>, latest: map<AgentId, nat>,
                      deliveryOf: map<TimerId, nat>, done: set<nat>, t: TimerId, w: WedgeTimer, d: nat)
    requires ArmedValid(armed, pending, latest, deliveryOf, done)
    requires w.agentId !in pending && t !in armed && d !in done && forall a | a in pending :: pending[a].timer != t
    ensures ArmedValid(armed[t := w], pending[w.agentId := DeliveryWait(w.deliveredAt, t)], latest[w.agentId := d], deliveryOf[t := d], done)
  {
  }

  lemma ArmKeepsState(armed: map<TimerId, WedgeTimer>, pending: map<AgentId, DeliveryWait>, deliveries: seq<Delivery>,
                      latest: map<AgentId, nat>, deliveryOf: map<TimerId, nat>, answered: set<nat>, wedged: seq<nat>,
                      next: TimerId, now: int, w: WedgeTimer)
    requires WedgeState(armed, pending, deliveries, latest, deliveryOf, answered, wedged, next, now)
    requires w.agentId !in pending && now <= w.due
    ensures WedgeState(armed[next := w], pending[w.agentId := DeliveryWait(w.deliveredAt, next)],
                       deliveries + [Delivery(w.agentId, w.deliveredAt, w.due)], latest[w.agentId := |deliveries|],
                       deliveryOf[next := |deliveries|], answered, wedged, next + 1, now)
  {
    ArmKeepsArmed(armed, pending, latest, deliveryOf, answered + Elements(wedged), next, w, |deliveries|);
    DeliveryKeepsLatest(deliveries, latest, pending, Delivery(w.agentId, w.deliveredAt, w.due), next);
    hide ArmedValid, LatestValid, Elements, NoRepeats;
  }

  /** A delivery that is reported, or answered, when its agent has no timer armed is done with. */
  lemma ReportKeepsState(armed: map<TimerId, WedgeTimer>, pending: map<AgentId, DeliveryWait>, deliveries: seq<Delivery>,
                         latest: map<AgentId, nat>, deliveryOf: map<TimerId, nat>, answered: set<nat>, wedged: seq<nat>,
                         next: TimerId, now: int, a: AgentId)
    requires WedgeState(armed, pending, deliveries, latest, deliveryOf, answered, wedged, next, now)
    requires a in latest && latest[a] !in wedged && forall t | t in armed :: armed[t].agentId != a
    ensures WedgeState(armed, pending - {a}, deliveries, latest, deliveryOf, answered, wedged + [latest[a]], next, now)
  {
    assert ArmedValid(armed, pending - {a}, latest, deliveryOf, answered + Elements(wedged));
    DoneKeepsArmed(armed, pending - {a}, deliveries, latest, deliveryOf, answered + Elements(wedged), a);
    assert answered + Elements(wedged + [latest[a]]) == answered + Elements(wedged) + {latest[a]};
    hide ArmedValid, Elements;
  }

  lemma DeliveryKeepsLatest(deliveries: seq<Delivery>, latest: map<AgentId, nat>, pending: map<AgentId, DeliveryWait>, d: Delivery, t: TimerId)
    requires LatestValid(deliveries, latest, pending)
    ensures LatestValid(deliveries + [d], latest[d.agentId := |deliveries|], pending[d.agentId := DeliveryWait(d.deliveredAt, t)])
  {
  }

  class SpawnLibrarian {
    const loginDeadlineMs: int
    const wedgedWindowMs: int

    var pendingSpawns: map<AgentId, PendingSpawn>
    var waiters: map<AgentId, PendingWaiter>
    var liveness: map<AgentId, LivenessEvent>
    var lastActivity: map<AgentId, ActivityEvent>
    var pendingDeliveries: map<AgentId, DeliveryWait>
    var timedOutIds: map<AgentId, int>

    // the environment
    var now: int
    var nextWait: WaitId
    var nextWedgeTimer: TimerId
    var armedLogins: map<WaitId, LoginTimer>
    var armedWedges: map<TimerId, WedgeTimer>

    // what has happened
    ghost var waits: map<WaitId, LoginTimer>
    ghost var resolved: map<WaitId, Resolution>
    ghost var timeouts: seq<Timeout>
    ghost var reports: seq<LateLogin>
    ghost var deliveries: seq<Delivery>
    ghost var latest: map<AgentId, nat>
    ghost var deliveryOf: map<TimerId, nat>
    ghost var answered: set<nat>
    ghost var wedged: seq<nat>
    ghost var lapsed: set<nat>
    ghost var seenAt: map<nat, nat>
    ghost var activities: seq<Processed>

    // ---------- what holds in every reachable state ----------

    /** A promise is open exactly as long as its own timer is armed, and it is answered by then. */
    ghost predicate PromisesValid()
      reads this`waits, this`resolved, this`armedLogins, this`nextWait, this`now
    {
      && armedLogins.Keys + resolved.Keys == waits.Keys && armedLogins.Keys !! resolved.Keys
      && (forall w | w in waits :: w < nextWait)
      && (forall w | w in armedLogins :: waits[w] == armedLogins[w] && now <= armedLogins[w].due)
      && (forall w | w in resolved :: resolved[w].at <= waits[w].due && resolved[w].at <= now)
    }

    ghost predicate WaitersValid()
      reads this`waiters, this`pendingSpawns, this`armedLogins
    {
      Waiting(waiters, pendingSpawns, armedLogins)
    }

    ghost predicate LateLoginsValid()
      reads this`timedOutIds, this`timeouts, this`reports, this`now
    {
      LateLogins(timedOutIds, timeouts, reports, now)
    }

    ghost predicate WedgesValid()
      reads this`armedWedges, this`pendingDeliveries, this`deliveries, this`latest, this`deliveryOf
      reads this`answered, this`wedged, this`nextWedgeTimer, this`now
    {
      WedgeState(armedWedges, pendingDeliveries, deliveries, latest, deliveryOf, answered, wedged, nextWedgeTimer, now)
    }

    ghost predicate OffsetsValid()
      reads this`lastActivity, this`activities
    {
      OffsetsMatch(activities, lastActivity)
    }

    ghost predicate AnswersValid()
      reads this`activities, this`deliveries, this`answered
    {
      AnswersMatch(activities, deliveries, answered)
    }

    ghost predicate SeenValid()
      reads this`activities, this`deliveries, this`wedged, this`seenAt
    {
      SeenMatch(activities, deliveries, wedged, seenAt)
    }

    ghost predicate WatchValid()
      reads this`armedWedges, this`deliveries, this`latest, this`answered, this`wedged, this`lapsed
    {
      Watched(armedWedges, deliveries, latest, answered + Elements(wedged) + lapsed)
    }

    ghost predicate Valid()
      reads this
    {
      && PromisesValid() && WaitersValid() && LateLoginsValid() && WedgesValid()
      && OffsetsValid() && AnswersValid() && SeenValid() && WatchValid()
    }

    constructor (loginDeadlineMs: int, wedgedWindowMs: int, now: int)
      ensures Valid() && this.now == now && waits == map[] && deliveries == [] && reports == [] && wedged == []
    {
      this.loginDeadlineMs, this.wedgedWindowMs, this.now := loginDeadlineMs, wedgedWindowMs, now;
      pendingSpawns, waiters, liveness, lastActivity, pendingDeliveries, timedOutIds := map[], map[], map[], map[], map[], map[];
      nextWait, nextWedgeTimer, armedLogins, armedWedges := 0, 0, map[], map[];
      waits, resolved, timeouts, reports := map[], map[], [], [];
      deliveries, latest, deliveryOf, answered, wedged := [], map[], map[], {}, [];
      lapsed, seenAt, activities := {}, map[], [];
    }

    // ---------- waiting for a login ----------

    /** A second wait on an id takes the waiter over; the first keeps its own timer. */
    method AwaitLogin(id: AgentId, name: string, spec: map<string, string>) returns (wait: WaitId)
      requires Valid()
      modifies this`pendingSpawns, this`waiters, this`nextWait, this`armedLogins, this`waits
      ensures Valid()
      ensures wait !in old(waits) && waits == old(waits)[wait := LoginTimer(id, if loginDeadlineMs < 0 then now else now + loginDeadlineMs)]
      ensures armedLogins == old(armedLogins)[wait := waits[wait]]
      ensures pendingSpawns == old(pendingSpawns)[id := PendingSpawn(id, name, spec, now, now + loginDeadlineMs)]
      ensures waiters == old(waiters)[id := PendingWaiter(wait, wait)]
    {
      hide Waiting, SpawnLibrarian.LateLoginsValid, SpawnLibrarian.WedgesValid, SpawnLibrarian.OffsetsValid;
      hide SpawnLibrarian.AnswersValid, SpawnLibrarian.SeenValid, SpawnLibrarian.WatchValid;
      hide SpawnLibrarian.PromisesValid;
      var spawn := PendingSpawn(id, name, spec, now, now + loginDeadlineMs);
      wait := ArmLogin(id);
      WaitKeepsWaiting(waiters, pendingSpawns, old(armedLogins), spawn, wait, armedLogins[wait]);
      pendingSpawns := pendingSpawns[id := spawn];
      waiters := waiters[id := PendingWaiter(wait, wait)];
    }

    /** The promise, and `setTimeout` for it. */
    method ArmLogin(id: AgentId) returns (wait: WaitId)
      requires PromisesValid()
      modifies this`nextWait, this`armedLogins, this`waits
      ensures PromisesValid() && wait !in old(armedLogins)
      ensures wait !in old(waits) && waits == old(waits)[wait := LoginTimer(id, if loginDeadlineMs < 0 then now else now + loginDeadlineMs)]
      ensures armedLogins == old(armedLogins)[wait := waits[wait]]
    {
      wait := nextWait;
      nextWait := nextWait + 1;
      var timer := LoginTimer(id, now + Delay(loginDeadlineMs));
      armedLogins, waits := armedLogins[wait := timer], waits[wait := timer];
    }

    /** Takes a wait's timer off and resolves its promise, which was open: nothing is resolved twice. */
    method Settle(wait: WaitId, result: SpawnResult)
      requires PromisesValid() && wait in armedLogins
      modifies this`armedLogins, this`resolved
      ensures PromisesValid() && armedLogins == old(armedLogins) - {wait}
      ensures wait !in old(resolved) && resolved == old(resolved)[wait := Resolution(result, now)]
    {
      assert waits[wait] == armedLogins[wait];
      armedLogins := armedLogins - {wait};
      resolved := resolved[wait := Resolution(result, now)];
    }

    /** The login deadline.  It drops the id's waiter even when a later wait has taken it over. */
    method FireLoginTimer(wait: WaitId)
      requires Valid() && wait in armedLogins && armedLogins[wait].due <= now
      modifies this`waiters, this`pendingSpawns, this`timedOutIds, this`armedLogins, this`resolved, this`timeouts
      ensures Valid()
      ensures wait !in old(resolved) && resolved == old(resolved)[wait := Resolution(NotSpawned(LoginTimeout), now)]
      ensures var id := old(armedLogins)[wait].id;
        && waiters == old(waiters) - {id} && pendingSpawns == old(pendingSpawns) - {id} && armedLogins == old(armedLogins) - {wait}
        && timedOutIds == old(timedOutIds)[id := now] && timeouts == old(timeouts) + [Timeout(id, now)]
    {
      hide SpawnLibrarian.PromisesValid, SpawnLibrarian.WaitersValid, SpawnLibrarian.LateLoginsValid;
      hide SpawnLibrarian.WedgesValid, SpawnLibrarian.OffsetsValid, SpawnLibrarian.AnswersValid;
      hide SpawnLibrarian.SeenValid, SpawnLibrarian.WatchValid;
      var id := armedLogins[wait].id;
      RecordTimeout(id);
      DropAndSettle(id, wait, NotSpawned(LoginTimeout));
    }

    /** The id stops waiting, and one wait for it is resolved. */
    method DropAndSettle(id: AgentId, wait: WaitId, result: SpawnResult)
      requires PromisesValid() && WaitersValid() && wait in armedLogins && armedLogins[wait].id == id
      modifies this`waiters, this`pendingSpawns, this`armedLogins, this`resolved
      ensures PromisesValid() && WaitersValid()
      ensures waiters == old(waiters) - {id} && pendingSpawns == old(pendingSpawns) - {id}
      ensures armedLogins == old(armedLogins) - {wait}
      ensures wait !in old(resolved) && resolved == old(resolved)[wait := Resolution(result, now)]
    {
      hide Waiting, SpawnLibrarian.PromisesValid;
      DropKeepsWaiting(waiters, pendingSpawns, armedLogins, id, wait);
      waiters, pendingSpawns := waiters - {id}, pendingSpawns - {id};
      Settle(wait, result);
    }

    method RecordTimeout(id: AgentId)
      requires LateLoginsValid()
      modifies this`timedOutIds, this`timeouts
      ensures LateLoginsValid()
      ensures timedOutIds == old(timedOutIds)[id := now] && timeouts == old(timeouts) + [Timeout(id, now)]
    {
      hide LateLogins;
      TimeoutKeepsLateLogins(timedOutIds, timeouts, reports, now, id);
      timedOutIds, timeouts := timedOutIds[id := now], timeouts + [Timeout(id, now)];
    }

    method ObserveLogin(agent: AgentRecord)
      requires Valid()
      modifies this`waiters, this`pendingSpawns, this`timedOutIds, this`armedLogins, this`resolved, this`reports
      ensures Valid()
      ensures agent.id in old(waiters) ==>
        && old(waiters)[agent.id].resolve !in old(resolved)
        && resolved == old(resolved)[old(waiters)[agent.id].resolve := Resolution(LoggedIn(agent), now)]
        && waiters == old(waiters) - {agent.id} && pendingSpawns == old(pendingSpawns) - {agent.id}
        && armedLogins == old(armedLogins) - {old(waiters)[agent.id].timer}
        && timedOutIds == old(timedOutIds) && reports == old(reports)
      ensures agent.id !in old(waiters) ==>
        && resolved == old(resolved) && waiters == old(waiters) && pendingSpawns == old(pendingSpawns) && armedLogins == old(armedLogins)
        && timedOutIds == (map id | id in old(timedOutIds) && id != agent.id && old(timedOutIds)[id] >= now - 300000 :: old(timedOutIds)[id])
        && reports == if agent.id in old(timedOutIds) && now - old(timedOutIds)[agent.id] < 300000
                      then old(reports) + [LateLogin(agent.id, old(timedOutIds)[agent.id], now)] else old(reports)
    {
      hide SpawnLibrarian.PromisesValid, SpawnLibrarian.WaitersValid, SpawnLibrarian.LateLoginsValid;
      hide SpawnLibrarian.WedgesValid, SpawnLibrarian.OffsetsValid, SpawnLibrarian.AnswersValid;
      hide SpawnLibrarian.SeenValid, SpawnLibrarian.WatchValid;
      if agent.id in waiters {
        ReleaseWaiter(agent.id, LoggedIn(agent));
        return;
      }
      LateOrNever(agent.id);
    }

    /** A login nobody waits for: reported if it is late but not too late. */
    method LateOrNever(id: AgentId)
      requires LateLoginsValid()
      modifies this`timedOutIds, this`reports
      ensures LateLoginsValid()
      ensures timedOutIds == (map x | x in old(timedOutIds) && x != id && old(timedOutIds)[x] >= now - LATE_LOGIN_TTL_MS :: old(timedOutIds)[x])
      ensures reports == if id in old(timedOutIds) && now - old(timedOutIds)[id] < LATE_LOGIN_TTL_MS
                         then old(reports) + [LateLogin(id, old(timedOutIds)[id], now)] else old(reports)
    {
      hide SpawnLibrarian.LateLoginsValid;
      if id in timedOutIds {
        ReportLate(id);
      }
      SweepTimedOut();
    }

    /** What a login and a failure have in common. */
    method ReleaseWaiter(id: AgentId, result: SpawnResult)
      requires PromisesValid() && WaitersValid() && id in waiters
      modifies this`waiters, this`pendingSpawns, this`armedLogins, this`resolved
      ensures PromisesValid() && WaitersValid()
      ensures waiters == old(waiters) - {id} && pendingSpawns == old(pendingSpawns) - {id}
      ensures armedLogins == old(armedLogins) - {old(waiters)[id].timer}
      ensures old(waiters)[id].resolve !in old(resolved)
      ensures resolved == old(resolved)[old(waiters)[id].resolve := Resolution(result, now)]
    {
      hide SpawnLibrarian.PromisesValid;
      DropAndSettle(id, waiters[id].timer, result);
    }

    method ReportLate(id: AgentId)
      requires LateLoginsValid() && id in timedOutIds
      modifies this`timedOutIds, this`reports
      ensures LateLoginsValid() && timedOutIds == old(timedOutIds) - {id}
      ensures reports == if now - old(timedOutIds)[id] < LATE_LOGIN_TTL_MS
                         then old(reports) + [LateLogin(id, old(timedOutIds)[id], now)] else old(reports)
    {
      hide LateLogins;
      FewerKeepLateLogins(timedOutIds, timeouts, reports, now, timedOutIds - {id});
      var timedOutAt := timedOutIds[id];
      timedOutIds := timedOutIds - {id};
      if now - timedOutAt < LATE_LOGIN_TTL_MS {
        ReportKeepsLateLogins(old(timedOutIds), timeouts, reports, now, id);
        reports := reports + [LateLogin(id, timedOutAt, now)];
      }
    }

    method SweepTimedOut()
      requires LateLoginsValid()
      modifies this`timedOutIds
      ensures LateLoginsValid()
      ensures timedOutIds == (map id | id in old(timedOutIds) && old(timedOutIds)[id] >= now - LATE_LOGIN_TTL_MS :: old(timedOutIds)[id])
    {
      hide LateLogins;
      var cutoff := now - LATE_LOGIN_TTL_MS;
      FewerKeepLateLogins(timedOutIds, timeouts, reports, now, map id | id in timedOutIds && timedOutIds[id] >= cutoff :: timedOutIds[id]);
      timedOutIds := map id | id in timedOutIds && timedOutIds[id] >= cutoff :: timedOutIds[id];
    }

    method FailPending(id: AgentId, reason: SpawnFailureReason)
      requires Valid()
      modifies this`waiters, this`pendingSpawns, this`armedLogins, this`resolved
      ensures Valid()
      ensures id !in old(waiters) ==> unchanged(this)
      ensures id in old(waiters) ==>
        && waiters == old(waiters) - {id} && pendingSpawns == old(pendingSpawns) - {id}
        && armedLogins == old(armedLogins) - {old(waiters)[id].timer}
        && old(waiters)[id].resolve !in old(resolved)
        && resolved == old(resolved)[old(waiters)[id].resolve := Resolution(NotSpawned(reason), now)]
    {
      hide SpawnLibrarian.LateLoginsValid, SpawnLibrarian.WedgesValid, SpawnLibrarian.OffsetsValid;
      hide SpawnLibrarian.AnswersValid, SpawnLibrarian.SeenValid, SpawnLibrarian.WatchValid;
      if id !in waiters {
        return;
      }
      ReleaseWaiter(id, NotSpawned(reason));
    }

    // ---------- liveness, activity and deliveries ----------

    method ObserveLiveness(event: LivenessEvent)
      requires Valid()
      modifies this`liveness
      ensures Valid()
      ensures liveness == if event.agentId == "" then old(liveness) else old(liveness)[event.agentId := event]
    {
      hide SpawnLibrarian.LateLoginsValid, SpawnLibrarian.PromisesValid, SpawnLibrarian.WaitersValid;
      hide SpawnLibrarian.WedgesValid, SpawnLibrarian.OffsetsValid, SpawnLibrarian.AnswersValid;
      hide SpawnLibrarian.SeenValid, SpawnLibrarian.WatchValid;
      if event.agentId == "" {
        return;
      }
      liveness := liveness[event.agentId := event];
    }

    /** The first activity of an agent advances it, and then any with a larger offset.  An advance timed after the
        agent's latest delivery answers it, for ever, and takes its timer off; anything else leaves deliveries and
        timers alone. */
    method ObserveActivity(event: ActivityEvent)
      requires Valid()
      modifies this`lastActivity, this`pendingDeliveries, this`armedWedges, this`liveness, this`answered, this`activities
      ensures Valid()
      ensures event.agentId == "" ==> unchanged(this)
      ensures event.agentId != "" ==> liveness == old(liveness)[event.agentId := LivenessEvent(event.agentId, Alive, event.ts)]
      ensures event.agentId != "" ==>
        var time := match event.ts case NoTimestamp => Some(now) case Unparsable => None case Parsed(ms) => Some(ms);
        activities == old(activities) + [Processed(event.agentId, event.jsonlOffset, time, |deliveries|)]
      ensures event.agentId != "" ==>
        lastActivity == if event.agentId !in old(lastActivity) || event.jsonlOffset > old(lastActivity)[event.agentId].jsonlOffset
                        then old(lastActivity)[event.agentId := event] else old(lastActivity)
      ensures event.agentId != "" ==>
        var a := event.agentId;
        var time := match event.ts case NoTimestamp => Some(now) case Unparsable => None case Parsed(ms) => Some(ms);
        if a in latest && latest[a] < |deliveries|
           && (a !in old(lastActivity) || event.jsonlOffset > old(lastActivity)[a].jsonlOffset)
           && time.Some? && time.value > deliveries[latest[a]].deliveredAt
        then answered == old(answered) + {latest[a]} && pendingDeliveries == old(pendingDeliveries) - {a}
             && armedWedges == if a in old(pendingDeliveries) then old(armedWedges) - {old(pendingDeliveries)[a].timer} else old(armedWedges)
        else answered == old(answered) && pendingDeliveries == old(pendingDeliveries) && armedWedges == old(armedWedges)
    {
      hide SpawnLibrarian.LateLoginsValid, SpawnLibrarian.PromisesValid, SpawnLibrarian.WaitersValid;
      hide SpawnLibrarian.WedgesValid, SpawnLibrarian.OffsetsValid, SpawnLibrarian.AnswersValid;
      hide SpawnLibrarian.SeenValid, SpawnLibrarian.WatchValid;
      if event.agentId == "" {
        return;
      }
      var time := TimeOf(event.ts, now);
      ghost var p := Processed(event.agentId, event.jsonlOffset, time, |deliveries|);
      AnswerDelivery(event, time, p);
      assert PromisesValid() && WaitersValid() && LateLoginsValid() && OffsetsValid() && SeenValid();
      RecordActivity(event, p);
      assert PromisesValid() && WaitersValid() && LateLoginsValid() && WedgesValid() && WatchValid();
    }

    /** What an activity does to deliveries. */
    method AnswerDelivery(event: ActivityEvent, time: Option<int>, ghost p: Processed)
      requires WedgesValid() && OffsetsValid() && AnswersValid() && WatchValid()
      requires p == Processed(event.agentId, event.jsonlOffset, time, |deliveries|)
      modifies this`pendingDeliveries, this`armedWedges, this`answered
      ensures WedgesValid() && WatchValid() && AnswersMatch(activities + [p], deliveries, answered)
      ensures var a := event.agentId;
        if a in latest && latest[a] < |deliveries|
           && (a !in lastActivity || event.jsonlOffset > lastActivity[a].jsonlOffset)
           && time.Some? && time.value > deliveries[latest[a]].deliveredAt
        then answered == old(answered) + {latest[a]} && pendingDeliveries == old(pendingDeliveries) - {a}
             && armedWedges == if a in old(pendingDeliveries) then old(armedWedges) - {old(pendingDeliveries)[a].timer} else old(armedWedges)
        else answered == old(answered) && pendingDeliveries == old(pendingDeliveries) && armedWedges == old(armedWedges)
    {
      hide ArmedValid, Elements, NoRepeats, AnswersMatch, OffsetsMatch, Watched, Raised;
      AdvancesIff(activities, lastActivity, p);
      ActivityAnswers(activities, deliveries, latest, pendingDeliveries, answered, p);
      var a := event.agentId;
      if a in lastActivity && event.jsonlOffset <= lastActivity[a].jsonlOffset {
        return;
      }
      AnswerLatest(a, time);
    }

    method AnswerLatest(a: AgentId, time: Option<int>)
      requires WedgesValid() && WatchValid()
      modifies this`pendingDeliveries, this`armedWedges, this`answered
      ensures WedgesValid() && WatchValid()
      ensures if a in latest && latest[a] < |deliveries| && time.Some? && time.value > deliveries[latest[a]].deliveredAt
        then answered == old(answered) + {latest[a]} && pendingDeliveries == old(pendingDeliveries) - {a}
             && armedWedges == if a in old(pendingDeliveries) then old(armedWedges) - {old(pendingDeliveries)[a].timer} else old(armedWedges)
        else answered == old(answered) && pendingDeliveries == old(pendingDeliveries) && armedWedges == old(armedWedges)
    {
      hide ArmedValid, Elements, NoRepeats, Watched;
      assert a in pendingDeliveries ==> a in latest && pendingDeliveries[a].deliveredAt == deliveries[latest[a]].deliveredAt;
      ghost var over := answered + Elements(wedged) + lapsed;
      if a in pendingDeliveries && time.Some? && time.value > pendingDeliveries[a].deliveredAt {
        PendingsTimer(armedWedges, pendingDeliveries, latest, deliveryOf, answered + Elements(wedged), a);
        WatchedWithout(armedWedges, deliveries, latest, over, pendingDeliveries[a].timer, latest[a]);
        ClearDelivery(a);
      }
      if a in latest && time.Some? && time.value > deliveries[latest[a]].deliveredAt {
        WatchedMore(armedWedges, deliveries, latest, if a in old(pendingDeliveries) then over + {latest[a]} else over, over + {latest[a]});
        assert answered + {latest[a]} + Elements(wedged) + lapsed == over + {latest[a]};
        MarkAnswered(a);
      }
    }

    method RecordActivity(event: ActivityEvent, ghost p: Processed)
      requires OffsetsValid() && SeenValid() && AnswersMatch(activities + [p], deliveries, answered)
      requires p.agentId == event.agentId && p.offset == event.jsonlOffset
      modifies this`lastActivity, this`liveness, this`activities
      ensures OffsetsValid() && SeenValid() && AnswersValid() && activities == old(activities) + [p]
      ensures liveness == old(liveness)[event.agentId := LivenessEvent(event.agentId, Alive, event.ts)]
      ensures lastActivity == if event.agentId !in old(lastActivity) || event.jsonlOffset > old(lastActivity)[event.agentId].jsonlOffset
                              then old(lastActivity)[event.agentId := event] else old(lastActivity)
    {
      hide OffsetsMatch, SeenMatch, AnswersMatch;
      OffsetKept(activities, lastActivity, event, p);
      SeenStays(activities, deliveries, wedged, seenAt, p, Delivery("", 0, 0));
      if event.agentId !in lastActivity || event.jsonlOffset > lastActivity[event.agentId].jsonlOffset {
        lastActivity := lastActivity[event.agentId := event];
      }
      activities := activities + [p];
      liveness := liveness[event.agentId := LivenessEvent(event.agentId, Alive, event.ts)];
    }

    method ClearDelivery(a: AgentId)
      requires WedgesValid() && a in pendingDeliveries
      modifies this`pendingDeliveries, this`armedWedges
      ensures WedgesValid() && pendingDeliveries == old(pendingDeliveries) - {a}
      ensures armedWedges == old(armedWedges) - {old(pendingDeliveries)[a].timer}
    {
      ClearKeepsArmed(armedWedges, pendingDeliveries, latest, deliveryOf, answered + Elements(wedged), a);
      hide ArmedValid, Elements, NoRepeats;
      armedWedges := armedWedges - {pendingDeliveries[a].timer};
      pendingDeliveries := pendingDeliveries - {a};
    }

    ghost method MarkAnswered(a: AgentId)
      requires WedgesValid() && a in latest && a !in pendingDeliveries
      modifies this`answered
      ensures WedgesValid() && answered == old(answered) + {latest[a]}
    {
      DoneKeepsArmed(armedWedges, pendingDeliveries, deliveries, latest, deliveryOf, answered + Elements(wedged), a);
      hide ArmedValid, Elements, NoRepeats;
      assert answered + {latest[a]} + Elements(wedged) == answered + Elements(wedged) + {latest[a]};
      answered := answered + {latest[a]};
    }

    /** A delivery replaces the one before it: that one's timer is cleared. */
    method ObserveDelivery(agentId: AgentId, deliveredAt: int)
      requires Valid()
      modifies this`pendingDeliveries, this`armedWedges, this`nextWedgeTimer, this`deliveries, this`latest, this`deliveryOf
      ensures Valid() && nextWedgeTimer == old(nextWedgeTimer) + 1
      ensures deliveries == old(deliveries) + [Delivery(agentId, deliveredAt, if wedgedWindowMs < 0 then now else now + wedgedWindowMs)]
      ensures latest == old(latest)[agentId := |old(deliveries)|]
      ensures pendingDeliveries == old(pendingDeliveries)[agentId := DeliveryWait(deliveredAt, old(nextWedgeTimer))]
      ensures armedWedges == (if agentId in old(pendingDeliveries) then old(armedWedges) - {old(pendingDeliveries)[agentId].timer}
                              else old(armedWedges))[old(nextWedgeTimer) := WedgeTimer(agentId, deliveredAt, if wedgedWindowMs < 0 then now else now + wedgedWindowMs)]
    {
      hide SpawnLibrarian.PromisesValid, SpawnLibrarian.WaitersValid, SpawnLibrarian.LateLoginsValid;
      hide SpawnLibrarian.WedgesValid, SpawnLibrarian.OffsetsValid, AnswersMatch, SeenMatch, Watched, Elements;
      DeliveryKeeps(WedgeTimer(agentId, deliveredAt, now + Delay(wedgedWindowMs)));
      if agentId in pendingDeliveries {
        ClearDelivery(agentId);
      }
      ArmWedge(agentId, deliveredAt);
    }

    /** What a new delivery leaves as it was: the answers, what was seen and who is watched. */
    lemma DeliveryKeeps(w: WedgeTimer)
      requires WedgesValid() && AnswersValid() && SeenValid() && WatchValid()
      ensures var next := Delivery(w.agentId, w.deliveredAt, w.due);
        && AnswersMatch(activities, deliveries + [next], answered) && SeenMatch(activities, deliveries + [next], wedged, seenAt)
        && Watched((if w.agentId in pendingDeliveries then armedWedges - {pendingDeliveries[w.agentId].timer} else armedWedges)[nextWedgeTimer := w],
                   deliveries + [next], latest[w.agentId := |deliveries|], answered + Elements(wedged) + lapsed)
    {
      hide LatestValid, ArmedValid, NoRepeats, Elements, AnswersMatch, SeenMatch, Watched;
      var next := Delivery(w.agentId, w.deliveredAt, w.due);
      DeliveryKeepsAnswers(activities, deliveries, answered, next);
      SeenStays(activities, deliveries, wedged, seenAt, Processed("", 0, None, 0), next);
      var gone := if w.agentId in pendingDeliveries then {pendingDeliveries[w.agentId].timer} else {};
      if w.agentId in pendingDeliveries {
        PendingsTimer(armedWedges, pendingDeliveries, latest, deliveryOf, answered + Elements(wedged), w.agentId);
      } else {
        assert armedWedges - gone == armedWedges;
      }
      WatchedNew(armedWedges, deliveries, latest, answered + Elements(wedged) + lapsed, gone, nextWedgeTimer, w);
    }

    method ArmWedge(agentId: AgentId, deliveredAt: int)
      requires WedgesValid() && agentId !in pendingDeliveries
      modifies this`pendingDeliveries, this`armedWedges, this`nextWedgeTimer, this`deliveries, this`latest, this`deliveryOf
      ensures WedgesValid() && nextWedgeTimer == old(nextWedgeTimer) + 1
      ensures deliveries == old(deliveries) + [Delivery(agentId, deliveredAt, if wedgedWindowMs < 0 then now else now + wedgedWindowMs)]
      ensures latest == old(latest)[agentId := |old(deliveries)|]
      ensures pendingDeliveries == old(pendingDeliveries)[agentId := DeliveryWait(deliveredAt, old(nextWedgeTimer))]
      ensures armedWedges == old(armedWedges)[old(nextWedgeTimer) := WedgeTimer(agentId, deliveredAt, if wedgedWindowMs < 0 then now else now + wedgedWindowMs)]
    {
      var timer, d := nextWedgeTimer, |deliveries|;
      var w := WedgeTimer(agentId, deliveredAt, now + Delay(wedgedWindowMs));
      hide LatestValid, ArmedValid, NoRepeats, Elements;
      ArmKeepsState(armedWedges, pendingDeliveries, deliveries, latest, deliveryOf, answered, wedged, timer, now, w);
      hide WedgeState;
      nextWedgeTimer := nextWedgeTimer + 1;
      armedWedges := armedWedges[timer := w];
      pendingDeliveries := pendingDeliveries[agentId := DeliveryWait(deliveredAt, timer)];
      deliveryOf := deliveryOf[timer := d];
      latest, deliveries := latest[agentId := d], deliveries + [Delivery(agentId, deliveredAt, w.due)];
    }

    /** The wedge window is over.  An agent last seen alive is reported: its delivery was never reported before, is
        still its latest, and no activity processed since then both raised the agent's offset and carried a later time. */
    method FireWedgeTimer(timer: TimerId)
      requires Valid() && timer in armedWedges && armedWedges[timer].due <= now
      modifies this`armedWedges, this`pendingDeliveries, this`liveness, this`wedged, this`lapsed, this`seenAt
      ensures Valid()
      ensures timer in deliveryOf && deliveryOf[timer] < |deliveries| && armedWedges == old(armedWedges) - {timer}
      ensures var a, d := old(armedWedges)[timer].agentId, deliveryOf[timer];
        && d !in old(wedged) && d !in answered && a in latest && latest[a] == d
        && deliveries[d].agentId == a && deliveries[d].deliveredAt == old(armedWedges)[timer].deliveredAt
        && if a in old(liveness) && old(liveness)[a].state == Alive
           then wedged == old(wedged) + [d] && liveness == old(liveness)[a := old(liveness)[a].(state := Wedged)]
                && pendingDeliveries == old(pendingDeliveries) - {a} && lapsed == old(lapsed) && seenAt == old(seenAt)[d := |activities|]
           else wedged == old(wedged) && liveness == old(liveness) && pendingDeliveries == old(pendingDeliveries)
                && lapsed == old(lapsed) + {d} && seenAt == old(seenAt)
      ensures var a, d := old(armedWedges)[timer].agentId, deliveryOf[timer];
        forall k | 0 <= k < |activities| && activities[k].agentId == a && activities[k].after > d
                   && (forall j | 0 <= j < k && activities[j].agentId == a :: activities[j].offset < activities[k].offset) ::
          activities[k].time.None? || activities[k].time.value <= old(armedWedges)[timer].deliveredAt
    {
      hide SpawnLibrarian.PromisesValid, SpawnLibrarian.WaitersValid, SpawnLibrarian.LateLoginsValid;
      hide SpawnLibrarian.OffsetsValid, SpawnLibrarian.AnswersValid, SpawnLibrarian.SeenValid;
      hide SpawnLibrarian.WatchValid, SpawnLibrarian.WedgesValid;
      var w := armedWedges[timer];
      DisarmWedge(timer);
      UnansweredMeans(activities, deliveries, |activities|, deliveryOf[timer]);
      hide Unanswered, Watched, Elements;
      EndWindow(w.agentId, w.deliveredAt, deliveryOf[timer]);
    }

    /** What the timer's callback does; its checks of the pending delivery never fail. */
    method EndWindow(agentId: AgentId, deliveredAt: int, ghost d: nat)
      requires WedgesValid() && SeenValid() && agentId in pendingDeliveries && pendingDeliveries[agentId].deliveredAt == deliveredAt
      requires agentId in latest && latest[agentId] == d && d !in wedged && forall t | t in armedWedges :: armedWedges[t].agentId != agentId
      requires d < |deliveries| && Unanswered(activities, deliveries, |activities|, d)
      requires Watched(armedWedges, deliveries, latest, answered + Elements(wedged) + lapsed + {d})
      modifies this`pendingDeliveries, this`liveness, this`wedged, this`lapsed, this`seenAt
      ensures WedgesValid() && SeenValid() && WatchValid()
      ensures if agentId in old(liveness) && old(liveness)[agentId].state == Alive
        then wedged == old(wedged) + [d] && liveness == old(liveness)[agentId := old(liveness)[agentId].(state := Wedged)]
             && pendingDeliveries == old(pendingDeliveries) - {agentId} && lapsed == old(lapsed) && seenAt == old(seenAt)[d := |activities|]
        else wedged == old(wedged) && liveness == old(liveness) && pendingDeliveries == old(pendingDeliveries)
             && lapsed == old(lapsed) + {d} && seenAt == old(seenAt)
    {
      hide Unanswered, Watched, Elements, SpawnLibrarian.WedgesValid, SpawnLibrarian.SeenValid, SpawnLibrarian.WatchValid;
      if agentId !in pendingDeliveries || pendingDeliveries[agentId].deliveredAt != deliveredAt {
        return;
      }
      if agentId !in liveness || liveness[agentId].state != Alive {
        LetLapse(d);
        return;
      }
      ReportWedged(agentId, d);
      liveness := liveness[agentId := liveness[agentId].(state := Wedged)];
    }

    ghost method LetLapse(d: nat)
      requires Watched(armedWedges, deliveries, latest, answered + Elements(wedged) + lapsed + {d})
      modifies this`lapsed
      ensures WatchValid() && lapsed == old(lapsed) + {d}
    {
      assert answered + Elements(wedged) + lapsed + {d} == answered + Elements(wedged) + (lapsed + {d});
      lapsed := lapsed + {d};
    }

    method DisarmWedge(timer: TimerId)
      requires WedgesValid() && AnswersValid() && WatchValid() && timer in armedWedges
      modifies this`armedWedges
      ensures WedgesValid() && armedWedges == old(armedWedges) - {timer}
      ensures timer in deliveryOf
      ensures StandsFor(old(armedWedges)[timer], deliveryOf[timer], deliveries, latest, pendingDeliveries, answered, wedged)
      ensures forall t | t in armedWedges :: armedWedges[t].agentId != old(armedWedges)[timer].agentId
      ensures Watched(armedWedges, deliveries, latest, answered + Elements(wedged) + lapsed + {deliveryOf[timer]})
      ensures deliveryOf[timer] < |deliveries| && Unanswered(activities, deliveries, |activities|, deliveryOf[timer])
    {
      hide WedgeState, Watched, AnswersMatch, Unanswered, Elements, StandsFor;
      DisarmKeeps(timer);
      armedWedges := armedWedges - {timer};
    }

    /** What an armed timer says, and what taking it off leaves. */
    lemma DisarmKeeps(timer: TimerId)
      requires WedgesValid() && AnswersValid() && WatchValid() && timer in armedWedges
      ensures timer in deliveryOf && WedgeState(armedWedges - {timer}, pendingDeliveries, deliveries, latest, deliveryOf, answered, wedged, nextWedgeTimer, now)
      ensures StandsFor(armedWedges[timer], deliveryOf[timer], deliveries, latest, pendingDeliveries, answered, wedged)
      ensures forall t | t in armedWedges && t != timer :: armedWedges[t].agentId != armedWedges[timer].agentId
      ensures Watched(armedWedges - {timer}, deliveries, latest, answered + Elements(wedged) + lapsed + {deliveryOf[timer]})
      ensures deliveryOf[timer] < |deliveries| && Unanswered(activities, deliveries, |activities|, deliveryOf[timer])
    {
      hide NoRepeats, Watched, AnswersMatch, Unanswered;
      WatchedWithout(armedWedges, deliveries, latest, answered + Elements(wedged) + lapsed, timer, deliveryOf[timer]);
      LatestUnanswered(activities, deliveries, latest, pendingDeliveries, answered, armedWedges[timer].agentId);
    }

    method ReportWedged(agentId: AgentId, ghost d: nat)
      requires WedgesValid() && SeenValid() && agentId in pendingDeliveries && agentId in latest && latest[agentId] == d && d !in wedged
      requires forall t | t in armedWedges :: armedWedges[t].agentId != agentId
      requires d < |deliveries| && Unanswered(activities, deliveries, |activities|, d)
      requires Watched(armedWedges, deliveries, latest, answered + Elements(wedged) + lapsed + {d})
      modifies this`pendingDeliveries, this`wedged, this`seenAt
      ensures WedgesValid() && SeenValid() && WatchValid()
      ensures wedged == old(wedged) + [d] && pendingDeliveries == old(pendingDeliveries) - {agentId}
      ensures seenAt == old(seenAt)[d := |activities|]
    {
      hide WedgeState, SeenMatch, Watched, Unanswered;
      ReportKeepsState(armedWedges, pendingDeliveries, deliveries, latest, deliveryOf, answered, wedged, nextWedgeTimer, now, agentId);
      SeenOneMore(activities, deliveries, wedged, seenAt, d);
      OneMoreElement(wedged, d);
      hide Elements;
      assert answered + Elements(wedged) + lapsed + {d} == answered + Elements(wedged + [d]) + lapsed;
      pendingDeliveries := pendingDeliveries - {agentId};
      wedged, seenAt := wedged + [d], seenAt[d := |activities|];
    }

    // ---------- the clock ----------

    /** Time passes, but not past a timer that is due. */
    method Tick(to: int)
      requires Valid() && now <= to
      requires forall w | w in armedLogins :: to <= armedLogins[w].due
      requires forall t | t in armedWedges :: to <= armedWedges[t].due
      modifies this`now
      ensures Valid() && now == to
    {
      hide TimeoutsOf, ReportsOf, ArmedValid, LatestValid, NoRepeats, Elements, Waiting, SpawnLibrarian.OffsetsValid;
      hide SpawnLibrarian.AnswersValid, SpawnLibrarian.SeenValid, SpawnLibrarian.WatchValid;
      now := to;
    }
  }

  /** Once a wait's deadline has gone by, the wait has been answered, and by then; until then exactly its
      own timer stands for it. */
  lemma AnsweredByTheDeadline(s: SpawnLibrarian, wait: WaitId)
    requires s.Valid() && wait in s.waits
    ensures s.now > s.waits[wait].due ==> wait in s.resolved
    ensures wait in s.resolved <==> wait !in s.armedLogins
    ensures wait in s.resolved ==> s.resolved[wait].at <= s.waits[wait].due
  {
    assert s.PromisesValid();
  }

  /** A reported delivery was not answered: of the activities processed by then, none that came after the delivery
      both raised its agent's offset and carried a later time. */
  lemma WedgedWithoutAnswer(s: SpawnLibrarian, d: nat)
    requires s.Valid() && d in s.wedged
    ensures d < |s.deliveries| && d in s.seenAt && s.seenAt[d] <= |s.activities|
    ensures forall k | 0 <= k < s.seenAt[d] && s.activities[k].agentId == s.deliveries[d].agentId && s.activities[k].after > d
                       && (forall j | 0 <= j < k && s.activities[j].agentId == s.deliveries[d].agentId ::
                             s.activities[j].offset < s.activities[k].offset) ::
              s.activities[k].time.None? || s.activities[k].time.value <= s.deliveries[d].deliveredAt
  {
    assert s.SeenValid() && Unanswered(s.activities, s.deliveries, s.seenAt[d], d);
    UnansweredMeans(s.activities, s.deliveries, s.seenAt[d], d);
  }

  /** No delivery is forgotten: once the window of an agent's latest delivery is over, the delivery has been
      reported, or it found the agent not alive, or an activity that came while it was the latest answered it. */
  lemma WatchedToTheEnd(s: SpawnLibrarian, d: nat)
    requires s.Valid() && d < |s.deliveries| && s.now > s.deliveries[d].due
    requires forall i | d < i < |s.deliveries| :: s.deliveries[i].agentId != s.deliveries[d].agentId
    ensures d in s.wedged || d in s.lapsed || exists k ::
      && 0 <= k < |s.activities| && s.activities[k].agentId == s.deliveries[d].agentId && s.activities[k].after > d
      && (forall j | 0 <= j < k && s.activities[j].agentId == s.deliveries[d].agentId :: s.activities[j].offset < s.activities[k].offset)
      && s.activities[k].time.Some? && s.activities[k].time.value > s.deliveries[d].deliveredAt
  {
    var a := s.deliveries[d].agentId;
    assert s.WedgesValid() && a in s.latest && s.latest[a] == d;
    if d !in s.wedged && d !in s.lapsed {
      assert d in s.answered by {
        assert s.WatchValid();
      }
      assert s.AnswersValid();
      var k :| Answers(s.activities, s.deliveries, k, d);
      assert Raised(s.activities, k);
    }
  }

  /** Every late login that was reported belongs to a timeout of its own, less than five minutes before. */
  lemma LateLoginsHadTimeouts(s: SpawnLibrarian, id: AgentId)
    requires s.Valid()
    ensures |set i | 0 <= i < |s.reports| && s.reports[i].id == id| <= |set i | 0 <= i < |s.timeouts| && s.timeouts[i].id == id|
    ensures forall r | r in s.reports ::
      0 <= r.at - r.timedOutAt < 300000 && exists i :: 0 <= i < |s.timeouts| && s.timeouts[i] == Timeout(r.id, r.timedOutAt)
  {
    assert s.LateLoginsValid();
    TimeoutsCounted(s.timeouts, id);
    ReportsCounted(s.reports, id);
    assert ReportsOf(s.reports, id) <= TimeoutsOf(s.timeouts, id);
  }

  lemma {:induction false} TimeoutsCounted(timeouts: seq<Timeout>, id: AgentId)
    ensures TimeoutsOf(timeouts, id) == |set i | 0 <= i < |timeouts| && timeouts[i].id == id|
  {
    var n := |timeouts| - 1;
    if timeouts != [] {
      TimeoutsCounted(timeouts[..n], id);
      OneMoreCounted((set i | 0 <= i < n && timeouts[..n][i].id == id), (set i | 0 <= i < |timeouts| && timeouts[i].id == id), n, timeouts[n].id == id);
    }
  }

  lemma {:induction false} ReportsCounted(reports: seq<LateLogin>, id: AgentId)
    ensures ReportsOf(reports, id) == |set i | 0 <= i < |reports| && reports[i].id == id|
  {
    var n := |reports| - 1;
    if reports != [] {
      ReportsCounted(reports[..n], id);
      OneMoreCounted((set i | 0 <= i < n && reports[..n][i].id == id), (set i | 0 <= i < |reports| && reports[i].id == id), n, reports[n].id == id);
    }
  }
}
