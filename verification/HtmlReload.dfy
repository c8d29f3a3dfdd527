/** Waiting for an html page to finish reloading: src/htmlIframeRegistry.ts knows which document each
    shape holds and who waits for which, src/htmlReloadWatch.ts decides what a reload does about it.

    A promise is settled once; what is attached to it runs later, as a step of its own. */
module HtmlReload {
  import opened Lists
  import opened Wrappers

  type ShapeId = string
  type WaitId = nat

  /** A URL and what `reloadToken` reads in it: the path and the reload's own token, if it has one. */
  datatype Url = Url(text: string, reload: Option<(string, string)>)

  datatype LoadWaiter = LoadWaiter(shape: ShapeId, url: Url)

  /** Why a wait was settled: `true` for a document that arrived, `false` for a cancellation. */
  datatype Outcome = Arrived(document: Url) | Cancelled

  function SameReload(requested: Url, loaded: Url): bool {
    if requested.reload.None? || loaded.reload.None? then requested.text == loaded.text
    else requested.reload == loaded.reload
  }

  /** The document ends the wait: an empty request takes any. */
  predicate Satisfies(requested: Url, document: Url) {
    requested.text == "" || SameReload(requested, document)
  }

  ghost predicate Registered(registered: map<ShapeId, seq<WaitId>>, shape: ShapeId, w: WaitId) {
    shape in registered && w in registered[shape]
  }

  /** The unsettled waits of a shape are exactly its registered ones, and a wait that was settled `true`
      was settled by a document it asked for. */
  ghost predicate Matches(registered: map<ShapeId, seq<WaitId>>, waits: map<WaitId, LoadWaiter>, settled: map<WaitId, Outcome>) {
    && (forall s | s in registered :: registered[s] != [] && NoRepeats(registered[s]))
    && (forall s, w :: Registered(registered, s, w) <==> w in waits && waits[w].shape == s && w !in settled)
    && (forall w | w in settled :: w in waits && (settled[w].Arrived? ==> Satisfies(waits[w].url, settled[w].document)))
  }

  /** The registrations of one shape once a wait leaves it; an empty set is dropped. */
  function Leave(registered: map<ShapeId, seq<WaitId>>, shape: ShapeId, w: WaitId): map<ShapeId, seq<WaitId>> {
    if shape !in registered then registered
    else
      var rest := Without(registered[shape], w);
      if rest == [] then registered - {shape} else registered[shape := rest]
  }

  lemma LeaveMatches(registered: map<ShapeId, seq<WaitId>>, waits: map<WaitId, LoadWaiter>, settled: map<WaitId, Outcome>, w: WaitId, why: Outcome)
    requires Matches(registered, waits, settled) && w in waits && w !in settled
    requires why.Arrived? ==> Satisfies(waits[w].url, why.document)
    ensures Matches(Leave(registered, waits[w].shape, w), waits, settled[w := why])
  {
    var shape := waits[w].shape;
    assert Registered(registered, shape, w);
    var rest := Without(registered[shape], w);
    WithoutNoRepeats(registered[shape], w);
    assert rest != [] ==> rest[0] in rest;
    forall s, x ensures Registered(Leave(registered, shape, w), s, x) <==> Registered(registered, s, x) && x != w {
      if s == shape {
        assert x in registered[shape] && x != w <==> x in rest;
      } else {
        assert !Registered(registered, s, w);
      }
    }
  }

  /** The registrations a loop over a snapshot of them has not come to yet. */
  ghost predicate StillRegistered(registered: map<ShapeId, seq<WaitId>>, shape: ShapeId, snapshot: seq<WaitId>, i: nat) {
    forall k | i <= k < |snapshot| :: Registered(registered, shape, snapshot[k])
  }

  /** The first `i` waits of the snapshot have been settled for this reason, those that take it. */
  ghost predicate SettledUpTo(was: map<WaitId, Outcome>, settled: map<WaitId, Outcome>, waits: map<WaitId, LoadWaiter>,
                              snapshot: seq<WaitId>, i: nat, why: Outcome)
    requires i <= |snapshot|
  {
    && (forall w :: w in settled <==> w in was || (w in waits && w in snapshot[..i] && Takes(waits[w], why)))
    && (forall w | w in settled :: settled[w] == if w in was then was[w] else why)
  }

  /** A wait takes any cancellation, and the documents it asked for. */
  predicate Takes(waiter: LoadWaiter, why: Outcome) {
    why.Arrived? ==> Satisfies(waiter.url, why.document)
  }

  lemma RegisteredIsOpen(registered: map<ShapeId, seq<WaitId>>, waits: map<WaitId, LoadWaiter>, settled: map<WaitId, Outcome>,
                         shape: ShapeId, w: WaitId)
    requires Matches(registered, waits, settled)
    ensures Registered(registered, shape, w) <==> w in waits && waits[w].shape == shape && w !in settled
  {
  }

  lemma NobodyWaits(registered: map<ShapeId, seq<WaitId>>, waits: map<WaitId, LoadWaiter>, settled: map<WaitId, Outcome>, shape: ShapeId)
    requires Matches(registered, waits, settled) && shape !in registered
    ensures forall w | w in waits && waits[w].shape == shape :: w in settled
  {
    forall w | w in waits && waits[w].shape == shape ensures w in settled {
      RegisteredIsOpen(registered, waits, settled, shape, w);
    }
  }

  lemma SnapshotIsOpen(registered: map<ShapeId, seq<WaitId>>, waits: map<WaitId, LoadWaiter>, settled: map<WaitId, Outcome>, shape: ShapeId,
                       why: Outcome)
    requires Matches(registered, waits, settled) && shape in registered
    ensures forall w :: w in registered[shape] <==> w in waits && waits[w].shape == shape && w !in settled
    ensures NoRepeats(registered[shape]) && StillRegistered(registered, shape, registered[shape], 0)
    ensures SettledUpTo(settled, settled, waits, registered[shape], 0, why)
  {
    forall w ensures w in registered[shape] <==> w in waits && waits[w].shape == shape && w !in settled {
      RegisteredIsOpen(registered, waits, settled, shape, w);
    }
  }

  /** The next wait of the snapshot is still open, and settling it, or passing over one that does not take the
      reason, is one step further. */
  lemma NextIsOpen(registered: map<ShapeId, seq<WaitId>>, waits: map<WaitId, LoadWaiter>, was: map<WaitId, Outcome>,
                   settled: map<WaitId, Outcome>, shape: ShapeId, snapshot: seq<WaitId>, i: nat, why: Outcome)
    requires Matches(registered, waits, settled) && i < |snapshot|
    requires StillRegistered(registered, shape, snapshot, i) && SettledUpTo(was, settled, waits, snapshot, i, why)
    ensures var w := snapshot[i];
      && Registered(registered, shape, w) && w in waits && waits[w].shape == shape && w !in settled
      && SettledUpTo(was, if Takes(waits[w], why) then settled[w := why] else settled, waits, snapshot, i + 1, why)
    ensures StillRegistered(registered, shape, snapshot, i + 1)
  {
    RegisteredIsOpen(registered, waits, settled, shape, snapshot[i]);
    hide Matches, Registered, Takes;
    assert forall x :: x in snapshot[..i + 1] <==> x in snapshot[..i] || x == snapshot[i];
  }

  lemma OneFewerRegistered(before: map<ShapeId, seq<WaitId>>, after: map<ShapeId, seq<WaitId>>, shape: ShapeId, snapshot: seq<WaitId>, i: nat)
    requires i < |snapshot| && NoRepeats(snapshot) && StillRegistered(before, shape, snapshot, i)
    requires forall s, x :: Registered(before, s, x) && x != snapshot[i] ==> Registered(after, s, x)
    ensures StillRegistered(after, shape, snapshot, i + 1)
  {
  }

  lemma AllSettled(was: map<WaitId, Outcome>, settled: map<WaitId, Outcome>, waits: map<WaitId, LoadWaiter>, shape: ShapeId,
                   snapshot: seq<WaitId>, why: Outcome)
    requires SettledUpTo(was, settled, waits, snapshot, |snapshot|, why)
    requires forall w :: w in snapshot <==> w in waits && waits[w].shape == shape && w !in was
    ensures Ended(was, settled, waits, shape, why)
  {
    hide Takes;
    assert snapshot[..|snapshot|] == snapshot;
  }

  /** Exactly the open waits of the shape that take it have been settled for this reason. */
  ghost predicate Ended(was: map<WaitId, Outcome>, settled: map<WaitId, Outcome>, waits: map<WaitId, LoadWaiter>, shape: ShapeId, why: Outcome) {
    && (forall w :: w in settled <==> w in was || (w in waits && waits[w].shape == shape && Takes(waits[w], why)))
    && (forall w | w in settled :: settled[w] == if w in was then was[w] else why)
  }

  class HtmlIframeRegistry {
    var lastLoadedUrl: map<ShapeId, Url>
    var loadWaiters: map<ShapeId, seq<WaitId>>
    var nextWait: WaitId
    var settled: map<WaitId, Outcome>
    /** The waiter objects ever made. */
    var waits: map<WaitId, LoadWaiter>

    ghost predicate Valid()
      reads this
    {
      Matches(loadWaiters, waits, settled) && forall w | w in waits :: w < nextWait
    }

    constructor ()
      ensures Valid() && waits == map[] && settled == map[] && lastLoadedUrl == map[]
    {
      lastLoadedUrl, loadWaiters, nextWait, settled, waits := map[], map[], 0, map[], map[];
    }

    /** Waits of the shape that the document satisfies end, and no others change. */
    method NoteHtmlIframeLoaded(shape: ShapeId, url: Url)
      requires Valid()
      modifies this`lastLoadedUrl, this`loadWaiters, this`settled
      ensures Valid() && lastLoadedUrl == old(lastLoadedUrl)[shape := url]
      ensures forall w :: w in settled <==>
        w in old(settled) || (
          w in waits && waits[w].shape == shape && (
            waits[w].url.text == "" ||
            if waits[w].url.reload.Some? && url.reload.Some? then waits[w].url.reload == url.reload else waits[w].url.text == url.text))
      ensures forall w | w in settled :: settled[w] == if w in old(settled) then old(settled)[w] else Arrived(url)
    {
      hide Matches, StillRegistered, SettledUpTo, Registered, NoRepeats;
      lastLoadedUrl := lastLoadedUrl[shape := url];
      if shape !in loadWaiters {
        NobodyWaits(loadWaiters, waits, settled, shape);
        return;
      }
      var snapshot := loadWaiters[shape];
      SnapshotIsOpen(loadWaiters, waits, settled, shape, Arrived(url));
      for i := 0 to |snapshot|
        modifies this`loadWaiters, this`settled
        invariant Valid() && StillRegistered(loadWaiters, shape, snapshot, i)
        invariant SettledUpTo(old(settled), settled, waits, snapshot, i, Arrived(url))
      {
        var w := snapshot[i];
        ghost var before := loadWaiters;
        NextIsOpen(loadWaiters, waits, old(settled), settled, shape, snapshot, i, Arrived(url));
        var wanted := waits[w].url;
        if wanted.text != "" && !SameReload(wanted, url) {
          continue;
        }
        Settle(w, shape, Arrived(url));
        OneFewerRegistered(before, loadWaiters, shape, snapshot, i);
      }
      AllSettled(old(settled), settled, waits, shape, snapshot, Arrived(url));
    }

    method Settle(w: WaitId, shape: ShapeId, why: Outcome)
      requires Valid() && Registered(loadWaiters, shape, w)
      requires why.Arrived? ==> w in waits && Satisfies(waits[w].url, why.document)
      modifies this`loadWaiters, this`settled
      ensures Valid() && settled == old(settled)[w := why] && w !in old(settled)
      ensures forall s, x :: Registered(loadWaiters, s, x) <==> Registered(old(loadWaiters), s, x) && x != w
    {
      LeaveMatches(loadWaiters, waits, settled, w, why);
      loadWaiters, settled := Leave(loadWaiters, shape, w), settled[w := why];
    }

    /** A wait for a document that is already the loaded one is settled at once and never registered. */
    method WhenHtmlIframeLoaded(shape: ShapeId, url: Url) returns (w: WaitId)
      requires Valid()
      modifies this`nextWait, this`waits, this`loadWaiters, this`settled
      ensures Valid() && w !in old(waits) && waits == old(waits)[w := LoadWaiter(shape, url)]
      ensures if url.text != "" && shape in lastLoadedUrl && lastLoadedUrl[shape].text != "" &&
                 (if url.reload.Some? && lastLoadedUrl[shape].reload.Some? then url.reload == lastLoadedUrl[shape].reload
                  else url.text == lastLoadedUrl[shape].text)
              then settled == old(settled)[w := Arrived(lastLoadedUrl[shape])] && loadWaiters == old(loadWaiters)
              else settled == old(settled) && Registered(loadWaiters, shape, w)
    {
      w := nextWait;
      nextWait := nextWait + 1;
      if url.text != "" && shape in lastLoadedUrl && lastLoadedUrl[shape].text != "" && SameReload(url, lastLoadedUrl[shape]) {
        SettledAtOnce(loadWaiters, waits, settled, w, LoadWaiter(shape, url), lastLoadedUrl[shape]);
        hide Matches;
        waits, settled := waits[w := LoadWaiter(shape, url)], settled[w := Arrived(lastLoadedUrl[shape])];
        return;
      }
      var waiters := if shape in loadWaiters then loadWaiters[shape] else [];
      JoinMatches(loadWaiters, waits, settled, w, LoadWaiter(shape, url));
      hide Matches;
      waits, loadWaiters := waits[w := LoadWaiter(shape, url)], loadWaiters[shape := waiters + [w]];
      assert w in loadWaiters[shape];
    }

    /** The wait's own `dispose`: a cancellation if it is still open, and nothing otherwise. */
    method Dispose(w: WaitId)
      requires Valid() && w in waits
      modifies this`loadWaiters, this`settled
      ensures Valid()
      ensures settled == if w in old(settled) then old(settled) else old(settled)[w := Cancelled]
    {
      var shape := waits[w].shape;
      assert w !in settled <==> Registered(loadWaiters, shape, w);
      if shape !in loadWaiters {
        return;
      }
      if w in loadWaiters[shape] {
        Settle(w, shape, Cancelled);
      }
    }

    /** The shape is gone: its open waits are cancelled, and it holds no document. */
    method DisposeHtmlIframeLoadWaiters(shape: ShapeId)
      requires Valid()
      modifies this`lastLoadedUrl, this`loadWaiters, this`settled
      ensures Valid() && lastLoadedUrl == old(lastLoadedUrl) - {shape} && shape !in loadWaiters
      ensures forall w :: w in settled <==> w in old(settled) || (w in waits && waits[w].shape == shape)
      ensures forall w | w in settled :: settled[w] == if w in old(settled) then old(settled)[w] else Cancelled
    {
      hide Matches, StillRegistered, SettledUpTo, Registered, NoRepeats;
      lastLoadedUrl := lastLoadedUrl - {shape};
      if shape !in loadWaiters {
        NobodyWaits(loadWaiters, waits, settled, shape);
        return;
      }
      var snapshot := loadWaiters[shape];
      SnapshotIsOpen(loadWaiters, waits, settled, shape, Cancelled);
      for i := 0 to |snapshot|
        modifies this`loadWaiters, this`settled
        invariant Valid() && StillRegistered(loadWaiters, shape, snapshot, i)
        invariant SettledUpTo(old(settled), settled, waits, snapshot, i, Cancelled)
      {
        ghost var before := loadWaiters;
        NextIsOpen(loadWaiters, waits, old(settled), settled, shape, snapshot, i, Cancelled);
        Settle(snapshot[i], shape, Cancelled);
        OneFewerRegistered(before, loadWaiters, shape, snapshot, i);
      }
      AllSettled(old(settled), settled, waits, shape, snapshot, Cancelled);
      NobodyLeft(loadWaiters, waits, settled, shape);
    }
  }

  lemma NobodyLeft(registered: map<ShapeId, seq<WaitId>>, waits: map<WaitId, LoadWaiter>, settled: map<WaitId, Outcome>, shape: ShapeId)
    requires Matches(registered, waits, settled) && forall w | w in waits && waits[w].shape == shape :: w in settled
    ensures shape !in registered
  {
    if shape in registered {
      RegisteredIsOpen(registered, waits, settled, shape, registered[shape][0]);
    }
  }

  lemma JoinMatches(registered: map<ShapeId, seq<WaitId>>, waits: map<WaitId, LoadWaiter>, settled: map<WaitId, Outcome>, w: WaitId, waiter: LoadWaiter)
    requires Matches(registered, waits, settled) && w !in waits
    ensures var before := if waiter.shape in registered then registered[waiter.shape] else [];
            Matches(registered[waiter.shape := before + [w]], waits[w := waiter], settled)
  {
    var before := if waiter.shape in registered then registered[waiter.shape] else [];
    var joined := registered[waiter.shape := before + [w]];
    assert forall i | 0 <= i < |before| :: Registered(registered, waiter.shape, before[i]);
    assert forall s :: !Registered(registered, s, w);
    assert w !in settled;
    forall s, x ensures Registered(joined, s, x) <==> Registered(registered, s, x) || (s == waiter.shape && x == w) {
    }
  }

  lemma SettledAtOnce(registered: map<ShapeId, seq<WaitId>>, waits: map<WaitId, LoadWaiter>, settled: map<WaitId, Outcome>, w: WaitId,
                      waiter: LoadWaiter, document: Url)
    requires Matches(registered, waits, settled) && w !in waits && Satisfies(waiter.url, document)
    ensures Matches(registered, waits[w := waiter], settled[w := Arrived(document)])
  {
    assert forall s :: !Registered(registered, s, w);
  }

  // ---------- what a reload does with its wait ----------

  /** `done` is the closure flag of `watchHtmlPageReload`; `tracked` says that its `then` has run. */
  datatype Watch = Watch(wait: WaitId, tracked: bool, done: bool)

  /** One `loaded.then(...)` of `remapOnLateHtmlLoad`. */
  datatype Continuation = Continuation(watch: nat, ran: bool)

  class HtmlReloadWatches {
    const registry: HtmlIframeRegistry
    var watches: seq<Watch>
    var continuations: seq<Continuation>
    /** The continuations that called `runRemap`. */
    ghost var remaps: seq<nat>

    /** A flag tells how its wait was settled, and only arrivals remap, once a continuation. */
    ghost predicate Valid()
      reads this, registry
    {
      && registry.Valid()
      && (forall i | 0 <= i < |watches| ::
            && watches[i].wait in registry.waits
            && (watches[i].tracked ==> watches[i].wait in registry.settled && watches[i].done == registry.settled[watches[i].wait].Arrived?)
            && (!watches[i].tracked ==> !watches[i].done))
      && (forall c | 0 <= c < |continuations| ::
            continuations[c].watch < |watches| && (continuations[c].ran ==> watches[continuations[c].watch].tracked))
      && NoRepeats(remaps)
      && (forall c | c in remaps :: c < |continuations| && continuations[c].ran && watches[continuations[c].watch].done)
    }

    constructor (registry: HtmlIframeRegistry)
      requires registry.Valid()
      ensures Valid() && this.registry == registry && watches == [] && continuations == [] && remaps == []
    {
      this.registry := registry;
      watches, continuations, remaps := [], [], [];
    }

    method WatchHtmlPageReload(shape: ShapeId, requestedUrl: Url) returns (i: nat)
      requires Valid()
      modifies this`watches, registry`nextWait, registry`waits, registry`loadWaiters, registry`settled
      ensures Valid() && i == |old(watches)| && |watches| == i + 1 && watches[..i] == old(watches)
      ensures watches[i].wait !in old(registry.waits) && !watches[i].tracked
      ensures registry.waits == old(registry.waits)[watches[i].wait := LoadWaiter(shape, requestedUrl)]
      ensures shape !in registry.lastLoadedUrl ==> registry.settled == old(registry.settled)
    {
      var wait := registry.WhenHtmlIframeLoaded(shape, requestedUrl);
      hide HtmlIframeRegistry.Valid;
      i := |watches|;
      watches := watches + [Watch(wait, false, false)];
    }

    /** The promise job that sets the flag. */
    method RunTracked(i: nat)
      requires Valid() && i < |watches| && !watches[i].tracked && watches[i].wait in registry.settled
      modifies this`watches
      ensures Valid()
      ensures watches == old(watches)[i := Watch(old(watches[i].wait), true, registry.settled[old(watches[i].wait)].Arrived?)]
    {
      hide HtmlIframeRegistry.Valid;
      var ok := registry.settled[watches[i].wait].Arrived?;
      watches := watches[i := Watch(watches[i].wait, true, ok)];
    }

    /** Reloads that have finished give their watch up; each other one gets one continuation. */
    method RemapOnLateHtmlLoad(given: seq<nat>)
      requires Valid() && forall k | 0 <= k < |given| :: given[k] < |watches|
      modifies this`continuations, registry`loadWaiters, registry`settled
      ensures Valid() && registry.settled == old(registry.settled)
      ensures continuations == old(continuations) + LateOnes(given)
    {
      hide HtmlIframeRegistry.Valid, NoRepeats;
      for k := 0 to |given|
        invariant Valid() && registry.settled == old(registry.settled)
        invariant continuations == old(continuations) + LateOnes(given[..k])
      {
        var i := given[k];
        assert given[..k + 1][..k] == given[..k];
        if watches[i].done {
          registry.Dispose(watches[i].wait);
        } else {
          continuations := continuations + [Continuation(i, false)];
        }
      }
      assert given[..|given|] == given;
    }

    function LateOnes(given: seq<nat>): seq<Continuation>
      requires forall k | 0 <= k < |given| :: given[k] < |watches|
      reads this`watches
    {
      if given == [] then []
      else
        var before, i := LateOnes(given[..|given| - 1]), given[|given| - 1];
        if watches[i].done then before else before + [Continuation(i, false)]
    }

    /** Watch by watch: one that is not done gets a continuation that has not run, and one that is done gets none. */
    lemma {:induction false} LateOnesWatchByWatch(first: seq<nat>, i: nat, rest: seq<nat>)
      requires i < |watches| && forall k | 0 <= k < |first| :: first[k] < |watches|
      requires forall k | 0 <= k < |rest| :: rest[k] < |watches|
      ensures LateOnes([]) == []
      ensures LateOnes(first + [i] + rest) == LateOnes(first) + (if watches[i].done then [] else [Continuation(i, false)]) + LateOnes(rest)
    {
      if rest == [] {
        assert first + [i] + rest == first + [i] && (first + [i])[..|first|] == first;
      } else {
        var n := |rest| - 1;
        LateOnesWatchByWatch(first, i, rest[..n]);
        assert (first + [i] + rest)[..|first| + 1 + n] == first + [i] + rest[..n];
      }
    }

    /** The promise job of a continuation: it remaps exactly when the document arrived before any
        cancellation and the editor still wants it. */
    method RunContinuation(c: nat, isStillWanted: bool)
      requires Valid() && c < |continuations| && !continuations[c].ran && watches[continuations[c].watch].tracked
      modifies this`continuations, this`remaps, registry`loadWaiters, registry`settled
      ensures Valid() && registry.settled == old(registry.settled)
      ensures continuations == old(continuations)[c := old(continuations[c]).(ran := true)]
      ensures remaps == if isStillWanted && registry.settled[watches[continuations[c].watch].wait].Arrived?
                        then old(remaps) + [c] else old(remaps)
      ensures c !in old(remaps)
    {
      hide HtmlIframeRegistry.Valid;
      var watch := continuations[c].watch;
      var loaded := watches[watch].done;
      continuations := continuations[c := continuations[c].(ran := true)];
      if loaded && isStillWanted {
        remaps := remaps + [c];
      }
      registry.Dispose(watches[watch].wait);
    }

    /** Exactly the open waits of the given watches are cancelled; every other wait stays as it is. */
    method CancelHtmlReloadWatches(given: seq<nat>)
      requires Valid() && forall k | 0 <= k < |given| :: given[k] < |watches|
      modifies registry`loadWaiters, registry`settled
      ensures Valid()
      ensures forall w :: w in registry.settled <==> w in old(registry.settled) || exists i :: i in given && i < |watches| && watches[i].wait == w
      ensures forall w | w in registry.settled ::
        registry.settled[w] == if w in old(registry.settled) then old(registry.settled)[w] else Cancelled
    {
      hide HtmlIframeRegistry.Valid, NoRepeats;
      for k := 0 to |given|
        invariant Valid()
        invariant forall w :: w in registry.settled <==> w in old(registry.settled) || exists i :: i in given[..k] && i < |watches| && watches[i].wait == w
        invariant forall w | w in registry.settled ::
          registry.settled[w] == if w in old(registry.settled) then old(registry.settled)[w] else Cancelled
      {
        assert forall x :: x in given[..k + 1] <==> x in given[..k] || x == given[k];
        registry.Dispose(watches[given[k]].wait);
      }
      assert given[..|given|] == given;
    }
  }

  /** A cancelled wait never leads to a remap. */
  lemma NoRemapAfterCancellation(w: HtmlReloadWatches, c: nat)
    requires w.Valid() && c < |w.continuations|
    requires var wait := w.watches[w.continuations[c].watch].wait; wait in w.registry.settled && w.registry.settled[wait].Cancelled?
    ensures c !in w.remaps
  {
    var i := w.continuations[c].watch;
    assert w.watches[i].done ==> w.registry.settled[w.watches[i].wait].Arrived?;
  }

  /** A wait that was settled true was settled by a document with its own reload identity. */
  lemma ArrivalsMatch(r: HtmlIframeRegistry, w: WaitId)
    requires r.Valid() && w in r.settled && r.settled[w].Arrived?
    ensures w in r.waits && var asked, got := r.waits[w].url, r.settled[w].document;
      && (asked.reload.Some? && got.reload.Some? && asked.text != "" ==> asked.reload == got.reload)
      && (asked.text != "" && (asked.reload.None? || got.reload.None?) ==> asked.text == got.text)
    ensures forall s :: !Registered(r.loadWaiters, s, w)
  {
    assert Matches(r.loadWaiters, r.waits, r.settled);
  }

  /** Too late: the document arrives, then the watch is cancelled, and its continuation, still wanted, remaps. */
  method CancelledTooLate(shape: ShapeId, url: Url) returns (watches: HtmlReloadWatches)
    ensures watches.Valid() && |watches.watches| == 1 && |watches.continuations| == 1 && watches.continuations[0].watch == 0
    ensures var wait := watches.watches[0].wait; wait in watches.registry.settled && watches.registry.settled[wait] == Arrived(url)
    ensures watches.remaps == [0]
  {
    hide Matches, NoRepeats;
    var registry := new HtmlIframeRegistry();
    watches := new HtmlReloadWatches(registry);
    var i := watches.WatchHtmlPageReload(shape, url);
    ghost var wait := watches.watches[0].wait;
    watches.RemapOnLateHtmlLoad([0]);
    assert watches.continuations == [Continuation(0, false)];
    assert wait in registry.waits && registry.waits[wait] == LoadWaiter(shape, url) && Satisfies(url, url);
    assert wait !in registry.settled;
    registry.NoteHtmlIframeLoaded(shape, url);
    assert registry.settled[wait] == Arrived(url);
    watches.CancelHtmlReloadWatches([0]);
    assert registry.settled[wait] == Arrived(url);
    watches.RunTracked(0);
    watches.RunContinuation(0, true);
  }
}
