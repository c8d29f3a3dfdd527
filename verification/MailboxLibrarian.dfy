/** Mailbox entries: one verdict each, and a deadline that is not a verdict.

    As in SpawnLibrarian the timers that are armed and not cleared are part of the state.  Ids come
    from a generator that does not repeat itself; listeners of the entry store do not write to it. */
module MailboxLibrarian {
  import opened Wrappers

  type Id = string
  type TimerId = nat

  datatype MailboxStatus = Pending | Completed | Failed | Indeterminate | Expired

  datatype MailboxEntry = MailboxEntry(
    id: Id,
    kind: string,
    ownerId: string,
    status: MailboxStatus,
    startedAt: int,
    deadlineAt: Option<int>,
    meta: map<string, string>,
    result: Option<map<string, string>>,
    error: Option<string>)

  const DEFAULT_TIMEOUT_MS := 300000
  const DEADLINE_EXCEEDED := "deadline exceeded"

  predicate Terminal(s: MailboxStatus) {
    s == Completed || s == Failed || s == Indeterminate
  }

  /** The lives an entry can have: pending, perhaps expired, and then at most one verdict. */
  ghost predicate Legal(life: seq<MailboxStatus>) {
    || life == [Pending]
    || life == [Pending, Expired]
    || (|life| == 2 && life[0] == Pending && Terminal(life[1]))
    || (|life| == 3 && life[0] == Pending && life[1] == Expired && Terminal(life[2]))
  }

  /** Each entry is what its life says. */
  ghost predicate EntriesMatch(entries: map<Id, MailboxEntry>, lives: map<Id, seq<MailboxStatus>>) {
    && entries.Keys == lives.Keys
    && (forall id | id in entries ::
          && entries[id].id == id && Legal(lives[id]) && entries[id].status == lives[id][|lives[id]| - 1]
          && (entries[id].status == Completed || entries[id].status == Pending ==> entries[id].error.None?))
  }

  /** A timer is armed exactly for a pending entry with a deadline. */
  ghost predicate TimersMatch(entries: map<Id, MailboxEntry>, timers: map<Id, TimerId>, armed: map<TimerId, Id>, next: TimerId) {
    && (forall id :: id in timers <==> id in entries && entries[id].status == Pending && entries[id].deadlineAt.Some?)
    && (forall id | id in timers :: timers[id] in armed && armed[timers[id]] == id)
    && (forall t | t in armed :: t < next && armed[t] in timers && timers[armed[t]] == t)
  }

  /** Expiry is reported once for each entry that expired. */
  ghost predicate ReportsMatch(expiries: seq<MailboxEntry>, lives: map<Id, seq<MailboxStatus>>) {
    && (forall i, j | 0 <= i < j < |expiries| :: expiries[i].id != expiries[j].id)
    && (forall e | e in expiries :: e.id in lives && Expired in lives[e.id])
    && (forall id | id in lives && Expired in lives[id] :: exists e :: e in expiries && e.id == id)
  }

  class MailboxLibrarian {
    var entries: map<Id, MailboxEntry>
    var timers: map<Id, TimerId>
    var now: int
    var nextTimer: TimerId
    var armed: map<TimerId, Id>
    /** The calls of `onExpire`. */
    ghost var expiries: seq<MailboxEntry>
    /** Every status each entry has had. */
    ghost var lives: map<Id, seq<MailboxStatus>>

    ghost predicate Valid()
      reads this
    {
      EntriesMatch(entries, lives) && TimersMatch(entries, timers, armed, nextTimer) && ReportsMatch(expiries, lives)
    }

    constructor (now: int)
      ensures Valid() && entries == map[] && expiries == []
    {
      entries, timers, this.now, nextTimer, armed, expiries, lives := map[], map[], now, 0, map[], [], map[];
    }

    method Start(id: Id, kind: string, ownerId: string, timeout: Option<int>, meta: map<string, string>) returns (entry: MailboxEntry)
      requires Valid() && id !in entries
      modifies this`entries, this`timers, this`nextTimer, this`armed, this`lives
      ensures Valid()
      ensures var ms := if timeout.Some? then timeout.value else 300000;
        entry == MailboxEntry(id, kind, ownerId, Pending, now, if ms > 0 then Some(now + ms) else None, meta, None, None)
      ensures entries == old(entries)[id := entry] && lives == old(lives)[id := [Pending]]
      ensures id in timers <==> entry.deadlineAt.Some?
    {
      var timeoutMs := if timeout.Some? then timeout.value else DEFAULT_TIMEOUT_MS;
      var deadlineAt := if timeoutMs > 0 then Some(now + timeoutMs) else None;
      entry := MailboxEntry(id, kind, ownerId, Pending, now, deadlineAt, meta, None, None);
      Enter(entry);
    }

    /** A new entry, with a timer when it has a deadline. */
    method Enter(e: MailboxEntry)
      requires Valid() && e.id !in entries && e.status == Pending && e.error.None?
      modifies this`entries, this`timers, this`nextTimer, this`armed, this`lives
      ensures Valid() && entries == old(entries)[e.id := e] && lives == old(lives)[e.id := [Pending]]
      ensures e.id in timers <==> e.deadlineAt.Some?
    {
      assert e.id !in lives;
      hide EntriesMatch, TimersMatch, ReportsMatch;
      StartEntries(entries, lives, e);
      StartReports(expiries, lives, e.id);
      ArmFor(e);
      entries, lives := entries[e.id := e], lives[e.id := [Pending]];
    }

    method ArmFor(e: MailboxEntry)
      requires TimersMatch(entries, timers, armed, nextTimer) && e.id !in entries && e.status == Pending
      modifies this`timers, this`nextTimer, this`armed
      ensures TimersMatch(entries[e.id := e], timers, armed, nextTimer)
      ensures e.id in timers <==> e.deadlineAt.Some?
    {
      hide TimersMatch;
      StartTimers(entries, timers, armed, nextTimer, e);
      if e.deadlineAt.Some? {
        var timer := nextTimer;
        nextTimer, armed := nextTimer + 1, armed[timer := e.id];
        timers := timers[e.id := timer];
      }
    }

    /** The deadline: a visible non-verdict, once at most, and only for an entry still pending. */
    method FireTimer(timer: TimerId)
      requires Valid() && timer in armed
      modifies this`entries, this`timers, this`armed, this`expiries, this`lives
      ensures Valid() && armed == old(armed) - {timer}
      ensures var id := old(armed)[timer];
        && id in old(entries) && old(entries)[id].status == Pending
        && entries == old(entries)[id := old(entries)[id].(status := Expired, error := Some("deadline exceeded"))]
        && expiries == old(expiries) + [entries[id]] && lives == old(lives)[id := old(lives)[id] + [Expired]]
    {
      hide EntriesMatch, TimersMatch, ReportsMatch;
      var id := armed[timer];
      ArmedIsPending(entries, lives, timers, armed, nextTimer, timer);
      armed := armed - {timer};
      if id !in entries || entries[id].status != Pending {
        return;
      }
      var expired := entries[id].(status := Expired, error := Some(DEADLINE_EXCEEDED));
      ExpireKeeps(entries, lives, timers, old(armed), nextTimer, expiries, timer, expired);
      entries, lives := entries[id := expired], lives[id := lives[id] + [Expired]];
      timers := timers - {id};
      expiries := expiries + [expired];
    }

    method Complete(id: Id, result: map<string, string>) returns (r: Option<MailboxEntry>)
      requires Valid()
      modifies this`entries, this`timers, this`armed, this`lives
      ensures Valid() && SettledAs(old(entries), old(lives), id, Completed, result, None, r)
    {
      r := Settle(id, Completed, result, None);
    }

    method Fail(id: Id, error: string, result: map<string, string>) returns (r: Option<MailboxEntry>)
      requires Valid()
      modifies this`entries, this`timers, this`armed, this`lives
      ensures Valid() && SettledAs(old(entries), old(lives), id, Failed, result, Some(error), r)
    {
      r := Settle(id, Failed, result, Some(error));
    }

    method MarkIndeterminate(id: Id, error: string, result: map<string, string>) returns (r: Option<MailboxEntry>)
      requires Valid()
      modifies this`entries, this`timers, this`armed, this`lives
      ensures Valid() && SettledAs(old(entries), old(lives), id, Indeterminate, result, Some(error), r)
    {
      r := Settle(id, Indeterminate, result, Some(error));
    }

    /** Exactly the first verdict for an entry gives one back; later ones, and those for no entry, change
        nothing.  A verdict that names no error takes the deadline's error away. */
    ghost predicate SettledAs(was: map<Id, MailboxEntry>, lived: map<Id, seq<MailboxStatus>>, id: Id, status: MailboxStatus,
                              result: map<string, string>, error: Option<string>, r: Option<MailboxEntry>)
      reads this`entries, this`lives
    {
      if id in was && !Terminal(was[id].status) then
        && r == Some(was[id].(status := status, result := Some(result), error := error))
        && entries == was[id := r.value] && id in lived && lives == lived[id := lived[id] + [status]]
      else r == None && entries == was && lives == lived
    }

    method Settle(id: Id, status: MailboxStatus, result: map<string, string>, error: Option<string>) returns (r: Option<MailboxEntry>)
      requires Valid() && Terminal(status) && (status == Completed ==> error.None?)
      modifies this`entries, this`timers, this`armed, this`lives
      ensures Valid() && SettledAs(old(entries), old(lives), id, status, result, error, r)
    {
      hide EntriesMatch, TimersMatch, ReportsMatch;
      if id !in entries || (entries[id].status != Pending && entries[id].status != Expired) {
        return None;
      }
      EntryId(entries, lives, id);
      var settled := entries[id].(status := status, result := Some(result), error := error);
      Leave(settled);
      r := Some(settled);
    }

    /** The entry takes its verdict and gives its timer up. */
    method Leave(e: MailboxEntry)
      requires Valid() && e.id in entries && e.id in lives && !Terminal(entries[e.id].status) && Terminal(e.status)
      requires e.status == Completed ==> e.error.None?
      modifies this`entries, this`timers, this`armed, this`lives
      ensures Valid() && entries == old(entries)[e.id := e] && lives == old(lives)[e.id := old(lives[e.id]) + [e.status]]
    {
      hide EntriesMatch, TimersMatch, ReportsMatch;
      SettleKeeps(entries, lives, timers, armed, nextTimer, expiries, e);
      ClearTimer(e.id);
      entries, lives := entries[e.id := e], lives[e.id := lives[e.id] + [e.status]];
    }

    /** Time passes. */
    method Tick(to: int)
      requires Valid() && now <= to
      modifies this`now
      ensures Valid() && now == to
    {
      hide EntriesMatch, TimersMatch, ReportsMatch;
      now := to;
    }

    method ClearTimer(id: Id)
      requires id in timers ==> timers[id] in armed
      modifies this`timers, this`armed
      ensures timers == old(timers) - {id}
      ensures armed == if id in old(timers) then old(armed) - {old(timers)[id]} else old(armed)
    {
      if id in timers {
        armed := armed - {timers[id]};
        timers := timers - {id};
      }
    }
  }

  // ---------- what each step keeps ----------

  lemma EntryId(entries: map<Id, MailboxEntry>, lives: map<Id, seq<MailboxStatus>>, id: Id)
    requires EntriesMatch(entries, lives) && id in entries
    ensures entries[id].id == id && id in lives
  {
  }

  lemma ArmedIsPending(entries: map<Id, MailboxEntry>, lives: map<Id, seq<MailboxStatus>>, timers: map<Id, TimerId>, armed: map<TimerId, Id>,
                       next: TimerId, timer: TimerId)
    requires EntriesMatch(entries, lives) && TimersMatch(entries, timers, armed, next) && timer in armed
    ensures var id := armed[timer]; id in entries && id in lives && entries[id].id == id && entries[id].status == Pending
  {
  }

  lemma StartEntries(entries: map<Id, MailboxEntry>, lives: map<Id, seq<MailboxStatus>>, e: MailboxEntry)
    requires EntriesMatch(entries, lives) && e.status == Pending && e.error.None?
    ensures EntriesMatch(entries[e.id := e], lives[e.id := [Pending]])
  {
    assert Legal([Pending]);
    hide Legal;
  }

  lemma StartTimers(entries: map<Id, MailboxEntry>, timers: map<Id, TimerId>, armed: map<TimerId, Id>, next: TimerId, e: MailboxEntry)
    requires TimersMatch(entries, timers, armed, next) && e.id !in entries && e.status == Pending
    ensures e.id !in timers
    ensures e.deadlineAt.None? ==> TimersMatch(entries[e.id := e], timers, armed, next)
    ensures e.deadlineAt.Some? ==> TimersMatch(entries[e.id := e], timers[e.id := next], armed[next := e.id], next + 1)
  {
  }

  lemma StartReports(expiries: seq<MailboxEntry>, lives: map<Id, seq<MailboxStatus>>, id: Id)
    requires ReportsMatch(expiries, lives) && id !in lives
    ensures ReportsMatch(expiries, lives[id := [Pending]])
  {
  }

  /** An entry that is no longer pending gives its timer up, if it had one. */
  lemma LeavingTimers(entries: map<Id, MailboxEntry>, timers: map<Id, TimerId>, armed: map<TimerId, Id>, next: TimerId, e: MailboxEntry)
    requires TimersMatch(entries, timers, armed, next) && e.id in entries && e.status != Pending
    ensures TimersMatch(entries[e.id := e], timers - {e.id}, if e.id in timers then armed - {timers[e.id]} else armed, next)
  {
  }

  lemma LeavingEntries(entries: map<Id, MailboxEntry>, lives: map<Id, seq<MailboxStatus>>, e: MailboxEntry)
    requires EntriesMatch(entries, lives) && e.id in entries && Legal(lives[e.id] + [e.status])
    requires e.status == Completed || e.status == Pending ==> e.error.None?
    ensures EntriesMatch(entries[e.id := e], lives[e.id := lives[e.id] + [e.status]])
  {
    hide Legal;
    var life := lives[e.id] + [e.status];
    assert life[|life| - 1] == e.status;
  }

  lemma ExpiryReported(expiries: seq<MailboxEntry>, lives: map<Id, seq<MailboxStatus>>, e: MailboxEntry)
    requires ReportsMatch(expiries, lives) && e.id in lives && lives[e.id] == [Pending]
    ensures ReportsMatch(expiries + [e], lives[e.id := [Pending, Expired]])
  {
    var lives', expiries' := lives[e.id := [Pending, Expired]], expiries + [e];
    forall i | 0 <= i < |expiries| ensures expiries[i].id != e.id {
      assert expiries[i] in expiries;
    }
    forall x | x in lives' && Expired in lives'[x] ensures exists r :: r in expiries' && r.id == x {
      if x == e.id {
        assert e in expiries';
      } else {
        var r :| r in expiries && r.id == x;
        assert r in expiries';
      }
    }
  }

  lemma VerdictUnreported(expiries: seq<MailboxEntry>, lives: map<Id, seq<MailboxStatus>>, id: Id, life: seq<MailboxStatus>)
    requires ReportsMatch(expiries, lives) && id in lives && (Expired in life <==> Expired in lives[id])
    ensures ReportsMatch(expiries, lives[id := life])
  {
  }

  lemma ExpireKeeps(entries: map<Id, MailboxEntry>, lives: map<Id, seq<MailboxStatus>>, timers: map<Id, TimerId>, armed: map<TimerId, Id>,
                    next: TimerId, expiries: seq<MailboxEntry>, timer: TimerId, expired: MailboxEntry)
    requires EntriesMatch(entries, lives) && TimersMatch(entries, timers, armed, next) && ReportsMatch(expiries, lives)
    requires timer in armed && armed[timer] == expired.id && expired.id in entries && entries[expired.id].status == Pending
    requires expired.status == Expired
    ensures EntriesMatch(entries[expired.id := expired], lives[expired.id := lives[expired.id] + [Expired]])
    ensures TimersMatch(entries[expired.id := expired], timers - {expired.id}, armed - {timer}, next)
    ensures ReportsMatch(expiries + [expired], lives[expired.id := lives[expired.id] + [Expired]])
  {
    PendingLife(entries, lives, expired.id);
    ArmedIsItsTimer(entries, timers, armed, next, timer);
    assert [Pending] + [Expired] == [Pending, Expired];
    hide EntriesMatch, TimersMatch, ReportsMatch;
    LeavingEntries(entries, lives, expired);
    LeavingTimers(entries, timers, armed, next, expired);
    ExpiryReported(expiries, lives, expired);
  }

  lemma PendingLife(entries: map<Id, MailboxEntry>, lives: map<Id, seq<MailboxStatus>>, id: Id)
    requires EntriesMatch(entries, lives) && id in entries && entries[id].status == Pending
    ensures id in lives && lives[id] == [Pending]
  {
  }

  lemma ArmedIsItsTimer(entries: map<Id, MailboxEntry>, timers: map<Id, TimerId>, armed: map<TimerId, Id>, next: TimerId, timer: TimerId)
    requires TimersMatch(entries, timers, armed, next) && timer in armed
    ensures armed[timer] in timers && timers[armed[timer]] == timer
  {
  }

  lemma SettleKeeps(entries: map<Id, MailboxEntry>, lives: map<Id, seq<MailboxStatus>>, timers: map<Id, TimerId>, armed: map<TimerId, Id>,
                    next: TimerId, expiries: seq<MailboxEntry>, settled: MailboxEntry)
    requires EntriesMatch(entries, lives) && TimersMatch(entries, timers, armed, next) && ReportsMatch(expiries, lives)
    requires settled.id in entries && !Terminal(entries[settled.id].status) && Terminal(settled.status)
    requires settled.status == Completed ==> settled.error.None?
    ensures settled.id in lives
    ensures EntriesMatch(entries[settled.id := settled], lives[settled.id := lives[settled.id] + [settled.status]])
    ensures TimersMatch(entries[settled.id := settled], timers - {settled.id},
                        if settled.id in timers then armed - {timers[settled.id]} else armed, next)
    ensures ReportsMatch(expiries, lives[settled.id := lives[settled.id] + [settled.status]])
    ensures settled.id in timers ==> timers[settled.id] in armed
  {
    VerdictIsLegal(lives[settled.id], settled.status);
    assert settled.id in lives && (settled.id in timers ==> timers[settled.id] in armed);
    hide EntriesMatch, TimersMatch, ReportsMatch, Legal;
    LeavingEntries(entries, lives, settled);
    LeavingTimers(entries, timers, armed, next, settled);
    VerdictUnreported(expiries, lives, settled.id, lives[settled.id] + [settled.status]);
  }

  lemma VerdictIsLegal(life: seq<MailboxStatus>, verdict: MailboxStatus)
    requires Legal(life) && !Terminal(life[|life| - 1]) && Terminal(verdict)
    ensures Legal(life + [verdict]) && (Expired in life + [verdict] <==> Expired in life)
  {
    assert life == [Pending] || life == [Pending, Expired];
    assert (life + [verdict])[0] == Pending;
  }

  // ---------- what it means for a reader ----------

  /** Once an entry has a verdict nothing that can still happen to it is legal. */
  lemma NothingFollowsAVerdict(life: seq<MailboxStatus>, next: MailboxStatus)
    requires Legal(life) && Terminal(life[|life| - 1])
    ensures !Legal(life + [next])
  {
    var longer := life + [next];
    assert longer[|life| - 1] == life[|life| - 1] && |longer| == |life| + 1;
  }

  /** Deadline errors belong to expired entries and to verdicts that were given one. */
  lemma CompletedHasNoError(m: MailboxLibrarian, id: Id)
    requires m.Valid() && id in m.entries && m.entries[id].status == Completed
    ensures m.entries[id].error.None? && id !in m.timers && forall t | t in m.armed :: m.armed[t] != id
  {
    assert EntriesMatch(m.entries, m.lives) && TimersMatch(m.entries, m.timers, m.armed, m.nextTimer);
  }
}
