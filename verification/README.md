# The stateful core of tlda, modelled and proved in Dafny

tlda is a shared canvas for reading and writing a LaTeX paper. Under its user interface lie a few small algorithms that carry
a promise over every run: a store whose indexes and views are kept up to date incrementally, timer-driven
protocols around it, a graph walk, a macro parser, annotation anchoring, and some layout and sampling loops. This
project models those and proves the promises. `dafny verify dfyconfig.toml` checks all of it.

| file | what it models |
|---|---|
| `LiveStoreLists.dfy`, `LiveStoreSorted.dfy`, `LiveStoreParts.dfy`, `LiveStore.dfy` | `shared/live-store.ts`: the list helpers, sorted views over whole histories, the classes `MaintainedIndex` and `MaintainedView`, the class `LiveStoreImpl` |
| `LiveStoreDelivery.dfy`, `LiveStoreCalls.dfy` | the notification queue of `shared/live-store.ts` with callbacks that write back, as a step machine, and who it calls |
| `SpawnLibrarian.dfy`, `MailboxLibrarian.dfy` | the two librarians, with the clock, the armed timers and the promises made visible |
| `InvalidationGraph.dfy` | `src/invalidationGraph.ts` |
| `ExtractPreamble.dfy` | the `\newcommand` pass of `scripts/extract-preamble.js` |
| `HtmlReload.dfy` | `src/htmlIframeRegistry.ts` and `src/htmlReloadWatch.ts` |
| `AnchorCluster.dfy`, `AnchorRemap.dfy` | `src/anchorCluster.ts` and `remapAnnotations` of `src/editorSetup.ts` |
| `AnchorRuns.dfy` | the two over whole runs: clusters that open and fill up, and remaps that are worked out and applied later |
| `CaptureWorklet.dfy` | `public/deepgram-capture-worklet.js` |
| `HighlighterSampling.dfy` | `samplePathForSynctex` of `src/highlighterSnap.ts` |
| `GraphMaterialize.dfy` | layering and card placement of `src/graphNativeMaterialize.ts` |
| `DocRefs.dfy`, `DocLinks.dfy` | `findRefs` and `linkifyDocRefs` of `src/docLinks.ts` |
| `Lists.dfy`, `Text.dfy`, `Wrappers.dfy` | shared helpers |

Objects whose fields the program reassigns are classes with the same fields; loops are loops; pure helpers are
functions. Environment that the program does not own, such as the clock, armed timers, promises and the editor's shapes, is a
field, a parameter or an event. Ghost fields record what has happened, so that invariants can speak about whole runs.

## Where the code does less than its description

Each of these is kept as the code has it, shown by a concrete case, and followed by the exact condition under
which the described behaviour holds.

- **Sorted views.** A rewritten record is put back after its ties, so a view with `compare` is ordered by
  (compare, last write), not by (compare, insertion). `RewriteMovesBehindTies` is the case; `FreshSortIff` says
  that the view equals a fresh stable sort exactly when tied records were last written in insertion order.
- **The `\newcommand` loop can run for ever.** An opening bracket that never closes sends the search for the body
  to the front of the text. `LoopingNeverHalts` is the case; `TurnAdvancesIff` names the guard, `HaltsIff` says exactly on
  which texts the loop ends, and `ClosedBracketsHalt` gives the condition an author can see: every `[` is closed.
- **Late joins to a remapped cluster.** A remap moves the recorded anchor of a cluster's shapes, but not the one held
  by the cluster that is still open, and a remap already worked out does not know a shape that joins before it is
  applied. `LateJoinDrifts` and `JoinDuringRemapDrifts` are the two cases. `JoinWholeIff` says that a join leaves the cluster in
  one piece, at once and whichever remap in flight is applied next, exactly when the open cluster records its
  members' place and every remap in flight leaves that as it is; `JoinForEverIff` says when that lasts through every later
  run of remaps. `ReachableUniform` and `Rigid` are about the runs without such joins, from the empty canvas on.
- **Skipped elements in elements.** The skip counter of `linkifyDocRefs` does not count `<code>` opened inside
  `<pre>`, but counts its end. `PreformattedCodeEscapes` is the case; `SkipsAllIff` says that well-nested HTML is
  skipped as meant exactly when no link, code or preformatted element is nested inside a skipped one.
- **Layers of a cyclic graph.** With cycles the first band can be empty: `TwoStepCycleLeavesAHole` is the case, and
  `LayTwoStepCycle` runs the code on it. `NoBandEmptyIff` says that, on every graph, no band is empty exactly when there are
  no steps or some step is fed by none; no band above the first is ever empty.
- **A remap after an arrival.** Cancelling a watch whose document has already arrived does not stop its remap, if
  the editor still wants it. `CancelledTooLate` is the run; `RunContinuation` states exactly when a continuation remaps.

## Model

| member | source | states |
|---|---|---|
| LiveStoreLists.UpdateRefines | shared/live-store.ts:280-302 | One update step on a filtered list (leave, enter at the insertion place, replace, or nothing) gives what filtering the updated store from scratch gives |
| LiveStoreLists.AddRefines | shared/live-store.ts:273-278 | Appending to a filtered list what the filter accepts is filtering the longer store |
| LiveStoreLists.RemoveRefines | shared/live-store.ts:304-309 | Removing by id from a filtered list is filtering the store without that id |
| LiveStoreLists.EnterCut | shared/live-store.ts:142-152 | A record that comes to match goes back to its own insertion place among the records already there |
| LiveStoreLists.AppendKeepsShape | shared/live-store.ts:468-471 | A new record keeps ids distinct and the list in insertion order |
| LiveStoreLists.ReplaceKeepsShape | shared/live-store.ts:63-69 | Replacing by id keeps ids distinct and insertion order, and changes exactly one record |
| LiveStoreLists.RemoveMembers | shared/live-store.ts:57-61 | Removing by id takes out exactly that record |
| LiveStoreLists.RemoveKeepsOrder | shared/live-store.ts:487-490 | What is left after a removal is in the insertion order without that id |
| LiveStoreSorted.SortedViewOrder | shared/live-store.ts:273-309 | After any history of writes a view with `compare` holds each matching record once, in strictly increasing (compare, last touch) order |
| LiveStoreSorted.SortedViewIsPermutation | shared/live-store.ts:273-309 | and is a permutation of the filtered store |
| LiveStoreSorted.SortedViewIsTheOnly | shared/live-store.ts:273-309 | and is the only list with these properties |
| LiveStoreSorted.TouchMeaning | shared/live-store.ts:273-309 | A record's touch is its last write that the filter took, at its place in the log, or else its first place in the store the view was made from |
| LiveStoreSorted.FreshSortIff | shared/live-store.ts:221-221 | It equals sorting the filtered store afresh exactly when ties were last written in insertion order |
| LiveStoreSorted.NoTiesFreshSort | shared/live-store.ts:221-221 | So with a `compare` that never ties two records it is a fresh sort |
| LiveStoreSorted.RewriteMovesBehindTies | shared/live-store.ts:288-291 | Concrete: rewriting the first of two tied records moves it behind the second, and a fresh sort does not |
| LiveStoreSorted.StableSortOrder | shared/live-store.ts:221-221 | Sorting a list stably orders it by (compare, place in the list) and keeps its records |
| LiveStoreSorted.InsertIncreasing | shared/live-store.ts:71-79 | Inserting before the first greater record keeps the order, with the new record last among its ties |
| LiveStoreParts.MaintainedIndex.constructor | shared/live-store.ts:92-96 | A new index agrees with the empty store |
| LiveStoreParts.MaintainedIndex.Add | shared/live-store.ts:106-110 | After an add every bucket is the filtered longer store and no bucket is empty |
| LiveStoreParts.MaintainedIndex.Update | shared/live-store.ts:112-123 | After an update every bucket is the filtered updated store and no bucket is empty |
| LiveStoreParts.MaintainedIndex.Remove | shared/live-store.ts:125-129 | After a removal every bucket is the filtered shorter store and no bucket is empty |
| LiveStoreParts.MaintainedIndex.Clear | shared/live-store.ts:131-134 | A cleared index agrees with the empty store |
| LiveStoreParts.MaintainedIndex.RemoveFromBucket | shared/live-store.ts:161-171 | One bucket loses the id, an emptied bucket goes, and the others stay |
| LiveStoreParts.MaintainedIndex.InsertIntoBucket | shared/live-store.ts:142-152 | One bucket takes the record at its insertion place, and the others stay |
| LiveStoreParts.MaintainedView.constructor | shared/live-store.ts:209-228 | A new view shows the filtered (and sorted) store, has one holder and no subscribers, and its past starts here: this store and no writes |
| LiveStoreParts.MaintainedView.ApplyAdd | shared/live-store.ts:273-278 | The view goes on showing the store for its past and this write, which fixes the place among ties; it reports a change exactly when the filter takes the record |
| LiveStoreParts.MaintainedView.ApplyUpdate | shared/live-store.ts:280-295 | The view goes on showing the store for its past and this write, through leaving, re-entering and moving behind ties; it reports a change exactly when the filter took the old or takes the new record |
| LiveStoreParts.MaintainedView.ApplyRemove | shared/live-store.ts:304-309 | The view goes on showing the store for its past and this write; it reports a change exactly when the filter took the record |
| LiveStoreParts.MaintainedView.Subscribe | shared/live-store.ts:238-244 | A live view takes a callback once; a dead one takes none |
| LiveStoreParts.MaintainedView.Unsubscribe | shared/live-store.ts:241-243 | Exactly this callback goes |
| LiveStoreParts.MaintainedView.Dispose | shared/live-store.ts:246-253 | A holder is given back; only the last one kills the view; a dead view does not change |
| LiveStoreParts.MaintainedView.ForceDispose | shared/live-store.ts:255-262 | A dead view has no holders, no subscribers and shows nothing |
| LiveStoreParts.MaintainedView.Retain | shared/live-store.ts:264-271 | One more holder, and nothing on a dead view |
| LiveStoreParts.DropMeans | shared/live-store.ts:362-369 | Dropping a record that is held, the first one included, is the removal of that record, and leaves what was before and after it |
| LiveStoreParts.PutMeans | shared/live-store.ts:352-360 | Putting a record under an id that is held is an update of the record there, and takes its place |
| LiveStoreParts.UnheldMeans | shared/live-store.ts:352-366 | Under an id that is not held a put is an add and a drop is nothing |
| LiveStoreParts.TouchesIff | shared/live-store.ts:473-494 | A write touches a view exactly when the filter takes the record of that id before it or after it |
| Lists.WithoutCut | shared/live-store.ts:241-243 | Leaving an ordered set takes out exactly that element and keeps the others in their places |
| LiveStore.LiveStoreImpl.constructor | shared/live-store.ts:337-346 | The store starts with the initial records, first place and last value for each id, and every invariant |
| LiveStore.LoadedMeaning | shared/live-store.ts:337-346 | What is loaded is each id once, with its last record, in the order in which the ids first come |
| LiveStore.LiveStoreImpl.Upsert | shared/live-store.ts:352-360 | The delta is an update with the record that was held under the id, or else an add; the record is held and its place kept or new; every index and view stays in step, and every live view's past grows by exactly this write; outside a bulk one round of calls is made, inside one the delta is queued |
| LiveStore.LiveStoreImpl.RemoveId | shared/live-store.ts:362-369 | The result is the removal of the record held under the id, which is then held no more, whatever its place; a missing id gives nothing and changes nothing, the views included; a disposed store fails; indexes, views, pasts and calls as for a put |
| LiveStore.LiveStoreImpl.Write | shared/live-store.ts:459-466 | A write updates the list, the map, the insertion numbers, the indexes and the views, extends every live view's past by itself, marks exactly the views it touches and notifies or queues |
| LiveStore.LiveStoreImpl.Flush | shared/live-store.ts:502-518 | With passive callbacks: the queues end empty and one round is called if anything was queued |
| LiveStore.LiveStoreImpl.Index | shared/live-store.ts:383-395 | An index made mid-run agrees with the store at once; a name taken gives the index there |
| LiveStore.LiveStoreImpl.View | shared/live-store.ts:397-423 | What is handed out is alive and shows the store; a key taken retains the view there, a miss registers a new one with one holder whose past starts at this store |
| LiveStore.LiveStoreImpl.Release | shared/live-store.ts:246-253 | The view leaves both registries exactly when acquisitions equal releases; releasing a dead view changes nothing, so it evicts no newer view |
| LiveStore.LiveStoreImpl.Unregister | shared/live-store.ts:411-414 | The dying view leaves the view set and its own key, and nothing else goes |
| LiveStore.LiveStoreImpl.Listen | shared/live-store.ts:425-431 | A listener is taken once; a disposed store fails |
| LiveStore.LiveStoreImpl.Unlisten | shared/live-store.ts:428-430 | Exactly this listener goes |
| LiveStore.LiveStoreImpl.Bulk | shared/live-store.ts:433-442 | The writes take effect one after another, every live view's past grows by their deltas in that order, and they lead to one round for all of them, or none if there was no delta |
| LiveStore.LiveStoreImpl.BeginBulk | shared/live-store.ts:434-435 | A bulk opens one level deeper; a disposed store fails |
| LiveStore.LiveStoreImpl.EndBulk | shared/live-store.ts:438-441 | Only the outermost bulk delivers, and then everything queued in one round |
| LiveStore.LiveStoreImpl.DisposeStore | shared/live-store.ts:444-457 | Everything is emptied and every view is dead, with no callback called |
| LiveStore.LiveStoreImpl.HoldsItsMap | shared/live-store.ts:459-495 | The list is the map's records, each once, in the order of their insertion numbers, and no number is kept for an id that is not held |
| LiveStore.IndexIsRecomputation | shared/live-store.ts:98-104 | For every key `get` is the store filtered to records carrying it, and the keys are exactly those some record carries |
| LiveStore.ViewIsRecomputation | shared/live-store.ts:230-236 | A live plain view is the filtered store; a sorted one its permutation in (compare, last touch) order, touch taken in the view's own past: the store it was made from and the writes since |
| LiveStore.MarkedAllMeaning | shared/live-store.ts:473-475 | After a run of writes the queue holds exactly the views some write touched, each with the last such write |
| LiveStore.MarkedAllOrder | shared/live-store.ts:473-475 | and in the order in which they were first touched, views touched by one write in the order they were made |
| LiveStore.RoundCallsEachOnce | shared/live-store.ts:511-513 | A round calls exactly the listeners and the subscribers of changed live views, each once, with the last delta that concerns it and the view's list |
| LiveStore.RoundInOrder | shared/live-store.ts:511-513 | Listeners first, in the order they came, each with the last delta; then the views in the order of the queue, each with its subscribers in the order they came |
| LiveStoreDelivery.StepKept | shared/live-store.ts:497-518 | Every step of the program, the user's calls from inside callbacks included, keeps the delivery invariant |
| LiveStoreDelivery.StartsOpen | shared/live-store.ts:323-346 | A store starts open, with what was loaded, nothing queued and nobody called, and takes any event of a user |
| LiveStoreDelivery.WhoMayMove | shared/live-store.ts:433-518 | The user moves when nothing runs, inside a bulk and inside a callback; the flush moves otherwise |
| LiveStoreDelivery.RoundsNeverNest | shared/live-store.ts:502-504 | In every reachable state at most one flush is under way |
| LiveStoreDelivery.QuietMeansDelivered | shared/live-store.ts:506-514 | When the outermost call returns nothing is queued, and every callback still subscribed to a live view that changed since was last called with the view's list and with the last write that touched the view |
| LiveStoreDelivery.RunInStep | shared/live-store.ts:468-495 | Along every run, re-entrant or not, live views show the store, sorted ones for their own past |
| LiveStoreDelivery.PastIsWhatWasWritten | shared/live-store.ts:459-495 | Along every run a live view's past grows by exactly the deltas written, those from inside callbacks included, in their order |
| LiveStoreDelivery.PastOfAMadeView | shared/live-store.ts:397-423 | So at the end of a run a view's past is the store when it was made and every delta since |
| LiveStoreDelivery.DeliveredIsRecomputed | shared/live-store.ts:311-315 | So that last list is what recomputing the view from the store gives: the filtered store, or its permutation in (compare, last touch) order, touch taken in the view's own past; and that last delta is the last write that touched the view |
| LiveStoreDelivery.LogMeans | shared/live-store.ts:311-315 | What "last called with", "last touched by" and "changed since" mean, in terms of the entries of the log |
| LiveStoreDelivery.DropIsSeen | shared/live-store.ts:362-369 | A drop of a held record takes exactly it out, wherever it stands, with its insertion number, and queues its removal |
| LiveStoreDelivery.PutIsSeen | shared/live-store.ts:352-360 | A put under a held id replaces exactly that record, keeps its insertion number, and queues the update |
| LiveStoreDelivery.UnheldIsSeen | shared/live-store.ts:352-366 | A put under a new id appends the record under the next insertion number and queues the add; a drop of one changes nothing |
| LiveStoreDelivery.ComingIsSeen | shared/live-store.ts:238-244 | Who listens or subscribes goes to the end, and whoever is there already changes nothing |
| LiveStoreDelivery.LeavingIsSeen | shared/live-store.ts:428-430 | Exactly the one who leaves goes, and the others keep their order |
| LiveStoreDelivery.DyingIsSeen | shared/live-store.ts:444-457 | A view that dies, alone or with the store, shows nothing and calls nobody; a store that dies holds, queues and calls nothing |
| LiveStoreCalls.ListenersHearTheLast | shared/live-store.ts:506-512 | When the outermost call returns, every listener that came before the last write was last called with that write, whoever made it |
| LiveStoreCalls.ListenerLogMeans | shared/live-store.ts:506-512 | What "last written", "written since" and "last told" mean, in terms of the entries of the log |
| LiveStoreCalls.NoCallInVain | shared/live-store.ts:497-518 | Over any run no callback is called more often than writes touched its view, and no listener more often than there were writes |
| LiveStoreCalls.TouchedAreTheConcerned | shared/live-store.ts:468-495 | The views a write is logged as touching are the live ones whose filter takes the record before or after it |
| LiveStoreCalls.CallbacksAreUsers | shared/live-store.ts:503-514 | Whenever the flush calls somebody, that callback may write, bulk, subscribe, unsubscribe or dispose as anybody may |
| LiveStoreCalls.ComesToRest | shared/live-store.ts:502-518 | From every state a run can reach, open bulks that end and callbacks that return without writing lead to rest: the flush ends with nothing queued |
| SpawnLibrarian.SpawnLibrarian.AwaitLogin | shared/spawn-librarian.ts:179-198 | A new wait with its own timer; a second wait on an id takes its waiter over; the invariants below hold |
| SpawnLibrarian.SpawnLibrarian.FireLoginTimer | shared/spawn-librarian.ts:190-195 | The deadline resolves its own wait, which was open, as a timeout, and the id stops waiting |
| SpawnLibrarian.SpawnLibrarian.ObserveLogin | shared/spawn-librarian.ts:200-222 | A login resolves the id's open wait, or is reported late within the TTL, once for a timeout; stale timeouts are swept |
| SpawnLibrarian.SpawnLibrarian.FailPending | shared/spawn-librarian.ts:224-231 | A failure resolves the id's open wait; without one nothing changes |
| SpawnLibrarian.SpawnLibrarian.Settle | shared/spawn-librarian.ts:184-198 | A promise is resolved only while it is open, so exactly once |
| SpawnLibrarian.AnsweredByTheDeadline | shared/spawn-librarian.ts:179-198 | Past its deadline every wait has been resolved, and by then; a wait is open exactly while its own timer is armed, overlapping waits included |
| SpawnLibrarian.SpawnLibrarian.ObserveLiveness | shared/spawn-librarian.ts:233-236 | The agent's last liveness is recorded; an event without an agent is ignored |
| SpawnLibrarian.SpawnLibrarian.ObserveActivity | shared/spawn-librarian.ts:238-251 | The recorded offset is the largest seen; an activity that raises it, and whose time, its own if it parses and now if it has none, is after the latest delivery, answers it and takes its timer off; any other leaves deliveries and timers alone |
| SpawnLibrarian.SpawnLibrarian.ObserveDelivery | shared/spawn-librarian.ts:253-267 | A delivery replaces the agent's previous one, whose timer is cleared |
| SpawnLibrarian.SpawnLibrarian.FireWedgeTimer | shared/spawn-librarian.ts:256-265 | `onWedged` is called exactly when the agent was last seen alive, for a delivery never reported before and still the agent's latest, after which no activity was processed that both raised the agent's offset and carried a later time |
| SpawnLibrarian.SpawnLibrarian.Tick | shared/spawn-librarian.ts:157-157 | Time passes up to the next armed timer and keeps every invariant |
| SpawnLibrarian.WedgedWithoutAnswer | shared/spawn-librarian.ts:238-265 | For every delivery ever reported: of the activities processed by then, none that came after it both raised the agent's offset and carried a later time |
| SpawnLibrarian.WatchedToTheEnd | shared/spawn-librarian.ts:253-267 | Once the window of an agent's latest delivery is over, it was reported, or the agent was found not alive, or such an activity came: none is forgotten |
| SpawnLibrarian.LateLoginsHadTimeouts | shared/spawn-librarian.ts:210-217 | Every late login reported belongs to a timeout of the same id less than five minutes before, and no id has more such reports than timeouts |
| MailboxLibrarian.MailboxLibrarian.Start | shared/mailbox-librarian.ts:56-84 | A pending entry; a timer is armed exactly if there is a deadline |
| MailboxLibrarian.MailboxLibrarian.FireTimer | shared/mailbox-librarian.ts:70-80 | An armed timer finds its entry pending; expiry is reported and the entry expires |
| MailboxLibrarian.MailboxLibrarian.Settle | shared/mailbox-librarian.ts:102-118 | Exactly the first verdict on a pending or expired entry gives it back; later ones change nothing; a verdict without an error drops the deadline's |
| MailboxLibrarian.MailboxLibrarian.Complete | shared/mailbox-librarian.ts:86-88 | The verdict `completed`, with no error |
| MailboxLibrarian.MailboxLibrarian.Fail | shared/mailbox-librarian.ts:90-92 | The verdict `failed`, with its error |
| MailboxLibrarian.MailboxLibrarian.MarkIndeterminate | shared/mailbox-librarian.ts:94-96 | The verdict `indeterminate`, with its error |
| MailboxLibrarian.NothingFollowsAVerdict | shared/mailbox-librarian.ts:104-106 | No status can follow a verdict in an entry's life |
| MailboxLibrarian.CompletedHasNoError | shared/mailbox-librarian.ts:112-114 | A completed entry carries no error and has no timer |
| MailboxLibrarian.ExpireKeeps | shared/mailbox-librarian.ts:70-80 | An expiry keeps entries, timers and reports in step: timers exactly for pending entries with a deadline, one report for each entry that expired |
| MailboxLibrarian.SettleKeeps | shared/mailbox-librarian.ts:102-118 | A verdict keeps them in step |
| InvalidationGraph.BuildReverseGraph | src/invalidationGraph.ts:56-67 | The reversed graph has exactly the edges the pairs declare, each once |
| InvalidationGraph.OverlapIsACommonLine | src/invalidationGraph.ts:40-42 | Two ranges overlap exactly when some line is in both |
| InvalidationGraph.EntriesHaveAnEditedLine | src/invalidationGraph.ts:44-49 | A label is an entry exactly when some line lies in an edited range and between the first two numbers of a pair with this id, whichever way round they are written |
| InvalidationGraph.EntryIdsSplit | src/invalidationGraph.ts:75-86 | Entries come pair by pair, in the pairs' order |
| InvalidationGraph.EntryLabelsForRanges | src/invalidationGraph.ts:75-86 | The ids of exactly the pairs whose statement, from its first number to its second or back, meets an edited range, in the pairs' order |
| InvalidationGraph.WithinIsDistance | src/invalidationGraph.ts:103-114 | The labels a breadth-first round reaches first are those whose shortest path has that length |
| InvalidationGraph.Bfs | src/invalidationGraph.ts:100-114 | The loop ends on every graph, cycles included, having marked everything reachable once, nearest first |
| InvalidationGraph.Cascade | src/invalidationGraph.ts:95-126 | Exactly the reachable labels that are not seeds, each once, with `depth` the shortest distance and `via` a true predecessor one step nearer |
| InvalidationGraph.InvalidationFromRanges | src/invalidationGraph.ts:135-153 | Direct and cascade together are the least set that holds the edited pairs and is closed under dependents; they are disjoint, each described by the last pair with its id, at their shortest distance, and sorted by depth |
| InvalidationGraph.LeastClosure | src/invalidationGraph.ts:135-153 | Reachability from the edited pairs is the least closed set |
| InvalidationGraph.SortChangesNothing | src/invalidationGraph.ts:152-152 | The final stable sort by depth leaves the cascade as it is |
| InvalidationGraph.GrowsWithRanges | src/invalidationGraph.ts:75-86 | More edited ranges never invalidate less |
| InvalidationGraph.ReversesAgree | src/invalidationGraph.ts:89-94 | Distances depend on the pairs only |
| ExtractPreamble.ExtractBraceContent | scripts/extract-preamble.js:35-50 | The loop computes the reference scan |
| ExtractPreamble.GroupIsRead | scripts/extract-preamble.js:35-50 | A brace-balanced group is read back whole, whatever it nests |
| ExtractPreamble.ReadIsAGroup | scripts/extract-preamble.js:35-50 | Whatever is read is a brace-balanced group of the text |
| ExtractPreamble.MatchBracket | scripts/extract-preamble.js:54-63 | The loop computes the reference scan for a bracket outside braces |
| ExtractPreamble.DefaultIsRead | scripts/extract-preamble.js:54-63 | A default with its own braces and bracketed groups inside them is read back whole |
| ExtractPreamble.SubstituteStep | scripts/extract-preamble.js:91-94 | `#1` gives the default, any other `#k` becomes `#k-1`, and every other character stays |
| ExtractPreamble.SubstituteKeepsMeaning | scripts/extract-preamble.js:90-95 | Expanding the substituted body with the remaining arguments equals expanding the original with the default first |
| ExtractPreamble.CollapseKeepsMeaning | scripts/extract-preamble.js:90-101 | The whole rewrite only trims trailing space from that and adds one pair of braces for bodies without a starred operator |
| ExtractPreamble.CollapseMeans | scripts/extract-preamble.js:96-101 | The rewrite puts out the substituted body without the blanks at its end, in braces exactly unless it holds a starred operator |
| ExtractPreamble.ExtractNewcommands | scripts/extract-preamble.js:111-156 | On a text on which it ends, the loop computes the reference run, turn by turn |
| ExtractPreamble.TurnSkips | scripts/extract-preamble.js:112-122 | A command whose name does not open within 20 characters, or never closes, defines nothing, and the search goes on one character further |
| ExtractPreamble.TurnAdvancesIff | scripts/extract-preamble.js:112-156 | A turn moves past its command exactly when it does not stall on an unclosed bracket |
| ExtractPreamble.ClosedBracketsHalt | scripts/extract-preamble.js:112-156 | If every bracket closes somewhere later, the loop ends within a turn a character |
| ExtractPreamble.HaltsIff | scripts/extract-preamble.js:112-156 | The loop ends exactly when it does not stall both from the front and from where a stall goes back to |
| ExtractPreamble.LoopingNeverHalts | scripts/extract-preamble.js:129-132 | Concrete: on one short text the loop never ends |
| ExtractPreamble.RoundTrip | scripts/extract-preamble.js:111-156 | Any list of macros printed with up to nine characters between command and name, blanks before the brackets and text before the bodies is extracted in one turn each: exactly their names, each with its last body, as written or collapsed if it has a default; nothing nested inside a body is harvested |
| HtmlReload.HtmlIframeRegistry.NoteHtmlIframeLoaded | src/htmlIframeRegistry.ts:84-99 | A load settles as arrived exactly the shape's open waits that asked for anything, or whose reload token and path are the document's, or, where either has no token, whose whole text is |
| HtmlReload.HtmlIframeRegistry.WhenHtmlIframeLoaded | src/htmlIframeRegistry.ts:109-138 | A wait is settled at once exactly when the document already loaded has its reload token and path, or, where either has no token, its whole text; any other is registered open |
| HtmlReload.HtmlIframeRegistry.Dispose | src/htmlIframeRegistry.ts:128-137 | An open wait is cancelled; a settled one stays as it is |
| HtmlReload.HtmlIframeRegistry.DisposeHtmlIframeLoadWaiters | src/htmlIframeRegistry.ts:141-149 | Exactly the shape's open waits are cancelled, and it holds no document |
| HtmlReload.ArrivalsMatch | src/htmlIframeRegistry.ts:63-68 | A wait settled true was settled by a document with its own reload identity, and is no longer registered |
| HtmlReload.HtmlReloadWatches.WatchHtmlPageReload | src/htmlReloadWatch.ts:38-48 | A new watch on a new wait, its flag down |
| HtmlReload.HtmlReloadWatches.RunTracked | src/htmlReloadWatch.ts:40-41 | The flag goes up exactly for an arrival |
| HtmlReload.HtmlReloadWatches.RemapOnLateHtmlLoad | src/htmlReloadWatch.ts:78-96 | One continuation for every given watch that has not finished, and none for the others |
| HtmlReload.HtmlReloadWatches.LateOnesWatchByWatch | src/htmlReloadWatch.ts:78-96 | Watch by watch: one that is not done gets a continuation that has not run, and one that is done gets none |
| HtmlReload.HtmlReloadWatches.RunContinuation | src/htmlReloadWatch.ts:86-93 | It remaps exactly when the document arrived before any cancellation and is still wanted, and at most once |
| HtmlReload.HtmlReloadWatches.CancelHtmlReloadWatches | src/htmlReloadWatch.ts:74-76 | Exactly the open waits of the given watches are cancelled; those of any other editor stay |
| HtmlReload.NoRemapAfterCancellation | src/htmlReloadWatch.ts:86-92 | A cancelled wait never leads to a remap |
| HtmlReload.CancelledTooLate | src/htmlReloadWatch.ts:86-93 | Concrete: the document arrives, the watch is cancelled, and the continuation, still wanted, remaps |
| AnchorCluster.GetShapePage | src/anchorCluster.ts:51-62 | The first page that holds the shape's place, counted from one, or none |
| AnchorCluster.SystemShapesAre | src/anchorCluster.ts:39-43 | Overlay shapes are those whose id, with or without the editor's prefix, starts as overlays' ids do |
| AnchorCluster.ClusterAnchors.AnchorShape | src/anchorCluster.ts:68-107 | A shape that is not to be anchored changes nothing; one in time and on the page joins the open cluster with that cluster's record; any other asks for an anchor; every cluster with one anchor and place keeps them, the open one if it records its members' place |
| AnchorCluster.ClusterAnchors.AnchorFound | src/anchorCluster.ts:106-133 | A new cluster opens under the next number, and it and the shape, if that still exists, record the shape's own x and y as the anchor's place; every cluster with one anchor and place keeps them, the new one if its id was not in use |
| AnchorCluster.JoinKeeps | src/anchorCluster.ts:85-102 | Joining a cluster whose record is its members' place, after any remaps, keeps every cluster at one anchor and place |
| AnchorCluster.OpenKeeps | src/anchorCluster.ts:106-133 | So does opening a cluster under an unused id, which may take its shape out of another |
| AnchorCluster.LateJoinDrifts | src/anchorCluster.ts:85-102 | Concrete: after a join to a remapped cluster the next remap leaves a shape 20 off its anchor |
| AnchorRemap.ComputeUpdates | src/editorSetup.ts:60-177 | The snapshot half: exactly the updates expected of each shape on the page, alone or through its cluster's first shape |
| AnchorRemap.Group | src/editorSetup.ts:69-83 | Anchored shapes are grouped by cluster in page order, and the others are on their own |
| AnchorRemap.ClusterUpdates | src/editorSetup.ts:120-177 | Exactly the updates of one cluster's shapes |
| AnchorRemap.FirstMember | src/editorSetup.ts:69-83 | The shape a cluster goes by is its first one on the page |
| AnchorRemap.UnanchoredStays | src/editorSetup.ts:60-69 | A shape without an anchor, or whose anchor is lost, stays as it is |
| AnchorRemap.SoloRemapMeans | src/editorSetup.ts:88-119 | A note on its own goes to 100 above its anchor when it is more than 1 away, and records a lost anchor with its reason |
| AnchorRemap.ClusterRemapMeans | src/editorSetup.ts:120-177 | A clustered shape moves by what the anchor moved from the place its cluster's first shape records, when that is at least 1, and takes over that record; a lost anchor is recorded with its reason |
| AnchorRemap.Editor.UpdateShapes | src/editorSetup.ts:179-182 | The updates are laid over the shapes one after another; a shape that is gone stays gone |
| AnchorRemap.Editor.ApplyRemap | src/editorSetup.ts:179-182 | The second half of a remap: whatever was worked out is laid over the shapes of now |
| AnchorRuns.SnapshotBatch | src/editorSetup.ts:120-177 | What a snapshot works out for a uniform cluster moves all of it to one level, takes the anchor of all of it, or leaves it alone |
| AnchorRuns.ApplyUniform | src/editorSetup.ts:179-182 | Applying such a batch, however late, keeps the cluster uniform and each shape's distance below its anchor |
| AnchorRuns.StepKept | src/editorSetup.ts:51-182 | Every snapshot, apply, drag of another shape, deletion, creation, join and opening keeps this, if what comes into the cluster fits it |
| AnchorRuns.WhoMayMove | src/editorSetup.ts:51-182 | At any time shapes may be dragged, deleted and created, and a remap worked out, which moves nothing, or applied, which moves what was worked out |
| AnchorRuns.JoinOrAsk | src/anchorCluster.ts:85-106 | A new shape joins exactly when it comes less than 5000 after the open cluster's last one and on its page, and asks for an anchor otherwise |
| AnchorRuns.JoinRecords | src/anchorCluster.ts:85-102 | The run's join is a creation and the update `AnchorShape` makes: the shape takes the open cluster's record |
| AnchorRuns.OpenRecords | src/anchorCluster.ts:106-133 | The run's opening is the update `AnchorFound` makes: shape and open cluster record the x and y asked for |
| AnchorRuns.ReachableUniform | src/anchorCluster.ts:85-133 | From the empty canvas, after any run of snapshots, late applies, drags, deletions, joins and openings, a cluster that only fitting shapes came into has one anchor and one anchor place |
| AnchorRuns.Rigid | src/editorSetup.ts:122-182 | From the empty canvas, over any run of remaps, overlapping or not, with clusters opening and filling up, a shape of a cluster that only fitting shapes come into, and that nobody drags, keeps its x, and while anchored its y less `anchorCanvasY` |
| AnchorRuns.WithinAUnit | src/editorSetup.ts:149-157 | A remap that finds the anchor, with the shape untouched meanwhile, leaves it less than a unit from its exact place: drift does not add up |
| AnchorRuns.StaysOnItsAnchor | src/editorSetup.ts:122-182 | A shape that opens its cluster where it is drawn, and that nobody drags, is at its anchor's recorded y for as long as it is anchored, and keeps its x, whatever remaps, overlapping or not, move it |
| AnchorRuns.EndsOnItsAnchor | src/editorSetup.ts:122-182 | and a remap that finds the anchor and is not overlapped leaves it less than a unit from where the anchor was found: drift does not add up |
| AnchorRuns.SoloWithinAUnit | src/editorSetup.ts:88-119 | A note on its own ends within a unit of 100 above its anchor, keeping x and metadata |
| AnchorRuns.MoveConservesIff | src/editorSetup.ts:155-170 | One cluster move keeps a shape's distance below the anchor exactly when it is recorded at the first shape's anchor place |
| AnchorRuns.AddWholeIff | src/editorSetup.ts:51-182 | A shape added to a cluster leaves it in one piece, now and after each remap in flight, exactly when it is recorded at the members' place and every remap in flight leaves that as it is |
| AnchorRuns.JoinWholeIff | src/anchorCluster.ts:85-102 | The same for a join: exactly when the open cluster records the members' place and every remap in flight leaves it |
| AnchorRuns.JoinDuringRemapDrifts | src/anchorCluster.ts:85-102 | Concrete: a join that meets its cluster's record while a remap is in flight is left behind when the remap is applied |
| AnchorRuns.AddForEverIff | src/editorSetup.ts:51-182 | It stays in one piece through every later run of remaps exactly when it is recorded at the members' place and no remap in flight can disturb them |
| AnchorRuns.JoinForEverIff | src/anchorCluster.ts:85-102 | The same for a join |
| CaptureWorklet.ConvertFits | public/deepgram-capture-worklet.js:39-46 | Every sample fits in 16 bits without wrapping; full scale maps to full scale |
| CaptureWorklet.ConvertCutsOff | public/deepgram-capture-worklet.js:39-46 | Between the ends a sample is scaled by 32767, or by 32768 below zero, and cut off toward zero |
| CaptureWorklet.ConvertMonotone | public/deepgram-capture-worklet.js:39-40 | Louder stays louder |
| CaptureWorklet.PassSplits | public/deepgram-capture-worklet.js:34-43 | Two stretches read in turn, the phase carried, give the samples of the two read as one |
| CaptureWorklet.ChunkInvariant | public/deepgram-capture-worklet.js:34-43 | However the input is cut into quanta, the samples are those of one pass, for every positive ratio |
| CaptureWorklet.WholePassLength | public/deepgram-capture-worklet.js:38-42 | From N inputs come N over the ratio samples, rounded up, said without dividing |
| CaptureWorklet.WholePassAt | public/deepgram-capture-worklet.js:39-41 | Sample k is built from input floor(k * ratio) and fits in 16 bits |
| CaptureWorklet.DeepgramCaptureProcessor.constructor | public/deepgram-capture-worklet.js:20-26 | Nothing heard, nothing posted, phase zero |
| CaptureWorklet.DeepgramCaptureProcessor.Process | public/deepgram-capture-worklet.js:28-50 | After every quantum everything posted is one pass over everything heard; an empty message is never posted |
| CaptureWorklet.PostedSoFar | public/deepgram-capture-worklet.js:28-50 | In every state sample k of all that was posted is the converted input at floor(k * ratio) |
| CaptureWorklet.PostedLength | public/deepgram-capture-worklet.js:28-50 | and there are as many as fit in what was heard |
| HighlighterSampling.SortedSorts | src/highlighterSnap.ts:458-461 | The character widths are sorted before the middle one is taken |
| HighlighterSampling.Step | src/highlighterSnap.ts:458-465 | The step is at least 0.75 |
| HighlighterSampling.StepIsHalfTheMiddle | src/highlighterSnap.ts:458-465 | It is half the middle one of the ascending character widths when that is more than 0.75, and 2.5 when there are no widths |
| HighlighterSampling.CharWidthsMeaning | src/highlighterSnap.ts:458-460 | The widths are the positive average widths of the fragments that have text |
| HighlighterSampling.PathAtMeaning | src/highlighterSnap.ts:476-482 | The point at a distance lies on a segment of positive length, at a parameter in (0, 1] between its ends' coordinates, and that far along the path |
| HighlighterSampling.TotalLength | src/highlighterSnap.ts:452-456 | The loop adds up the path's length |
| HighlighterSampling.LengthAddsUp | src/highlighterSnap.ts:452-456 | A path one point longer is longer by the distance from its last point |
| HighlighterSampling.EvenSamples | src/highlighterSnap.ts:466-485 | The nested loops end and give one sample more than whole steps fit in the path: the start, and sample i at distance i * step |
| HighlighterSampling.SamplePathForSynctex | src/highlighterSnap.ts:446-491 | The same for the whole function, with the short and zero-length cases, and the endpoint added exactly when it is more than 0.5 from the last sample |
| GraphMaterialize.StepIncoming | src/graphNativeMaterialize.ts:43-44 | Each step is fed by exactly the sources of its edges between steps |
| GraphMaterialize.StepDepths.Depth | src/graphNativeMaterialize.ts:46-53 | Ends on every graph; the depth is the length of some walk, zero exactly for a step nothing feeds, and above one is one more than some source's; without cycles every depth known is one more than the deepest source, despite the shared `seen` |
| GraphMaterialize.StepDepths.AllDepths | src/graphNativeMaterialize.ts:54-54 | Every step gets a depth |
| GraphMaterialize.DepthIsLongestPath | src/graphNativeMaterialize.ts:46-54 | Without cycles a depth is the length of the longest path into the step |
| GraphMaterialize.EdgesGoDeeper | src/graphNativeMaterialize.ts:43-58 | and every edge between steps goes to a strictly deeper one |
| GraphMaterialize.Bands | src/graphNativeMaterialize.ts:55-58 | Band d holds the steps of depth d in authored order, and there is a band for every depth and no more |
| GraphMaterialize.OneBandEach | src/graphNativeMaterialize.ts:58-58 | A step is in the band of its depth as often as it is listed, and in no other |
| GraphMaterialize.NoEmptyBand | src/graphNativeMaterialize.ts:55-58 | Without cycles no band is empty |
| GraphMaterialize.NoHoleAbove | src/graphNativeMaterialize.ts:43-58 | On every graph, below a step's band every band but the first is filled |
| GraphMaterialize.NoBandEmptyIff | src/graphNativeMaterialize.ts:55-58 | On every graph, no band is empty exactly when there are no steps or some step is fed by none |
| GraphMaterialize.TwoStepCycleLeavesAHole | src/graphNativeMaterialize.ts:46-58 | Concrete: on a cycle of two steps the first band is empty and the second is not |
| GraphMaterialize.LayTwoStepCycle | src/graphNativeMaterialize.ts:46-58 | Concrete: the code itself, run on that cycle, lays those bands |
| GraphMaterialize.FirstBandEmptyIff | src/graphNativeMaterialize.ts:55-58 | The first band is empty exactly when every step is fed by some step |
| GraphMaterialize.DeOverlap | src/graphNativeMaterialize.ts:87-93 | The loop pushes the cards in place into the spread column |
| GraphMaterialize.SpreadClears | src/graphNativeMaterialize.ts:87-93 | Cards only move down and each ends at least 22 below the bottom of every card above it |
| GraphMaterialize.SpreadIsLeast | src/graphNativeMaterialize.ts:87-93 | and no further down than any column that does so |
| DocRefs.AcceptedIsGreedy | src/docLinks.ts:94-101 | A match is dropped exactly when it overlaps one kept before it, patterns in order of priority |
| DocRefs.KeptIff | src/docLinks.ts:94-101 | The next match is kept exactly when no match kept before shares a position with it |
| DocRefs.PatternByPattern | src/docLinks.ts:87-87 | Matches are taken pattern by pattern |
| DocRefs.AcceptedDisjoint | src/docLinks.ts:94-101 | Matches kept do not overlap, and are matches found |
| DocRefs.FindRefs | src/docLinks.ts:83-153 | The loops over patterns, matches and covered positions compute the references of the matches kept, left to right |
| DocRefs.RefsInOrder | src/docLinks.ts:83-153 | References are in range, pairwise disjoint and sorted, each marks the text it names, and they are exactly those of the matches kept |
| DocRefs.RefsAreThese | src/docLinks.ts:105-148 | A reference comes out exactly if a kept match says it: the match as a whole with its kind, value and environment, or one for each number of a list of lines |
| DocLinks.SplitTags | src/docLinks.ts:160-176 | The loop cuts the HTML into its tags and the text between them |
| DocLinks.PartsCover | src/docLinks.ts:160-176 | The parts lie end to end over the HTML; tag parts are tags of it, and no tag starts inside a text part |
| DocLinks.TagIs | src/docLinks.ts:161-161 | A tag opens, has something in it, and ends at the first closing bracket |
| DocLinks.TagsThatCount | src/docLinks.ts:180-183 | The tags that open or close something to skip, letter by letter and in any case |
| DocLinks.SpansThatCount | src/docLinks.ts:182-182 | A span is a link or a chip exactly when it has a class attribute that says so |
| DocLinks.EscapedHasNoQuote | src/docLinks.ts:234-236 | An escaped value cannot end its attribute |
| DocLinks.EscapedIsReadBack | src/docLinks.ts:234-236 | Reading an escaped value as HTML gives the value back |
| DocLinks.LinkSays | src/docLinks.ts:217-224 | Read as HTML, the span around a reference has its kind and value, and its environment if it has one |
| DocLinks.WrapText | src/docLinks.ts:212-229 | Text is written out with exactly its references wrapped |
| DocLinks.LinkifyDocRefs | src/docLinks.ts:159-232 | The whole pass writes the reference pieces out |
| DocLinks.ErasingGivesBack | src/docLinks.ts:159-232 | Taking the inserted spans away gives the HTML back exactly |
| DocLinks.SpansInOpenText | src/docLinks.ts:186-207 | Every inserted span is around a stretch of one text part with the skip counter at zero: never in a tag, never while the counter is positive |
| DocLinks.EveryReferenceIsLinked | src/docLinks.ts:186-229 | Every reference found in a text part with the counter at zero gets its span, around the text it marks and where that stands in the HTML |
| DocLinks.LinksAreReferences | src/docLinks.ts:186-229 | and every span is that of such a reference |
| DocLinks.SkipsAllIff | src/docLinks.ts:178-196 | For well-nested HTML everything to be skipped is skipped exactly when no link, code or preformatted element is nested in a skipped one |
| DocLinks.CounterExact | src/docLinks.ts:186-196 | Without such nesting the counter is the depth inside skipped elements |
| DocLinks.PreformattedCodeEscapes | src/docLinks.ts:188-195 | Concrete, for any listing and any text: inside `<pre>`, after `</code>`, the counter is back at zero |

## Left out

- Reactive atoms and `transact` of the state library: an atom is a plain cell, and callbacks do not throw.
- The diagnostic observer hooks of the store, and `size`, `has` and the iteration order of `keys()`.
- `LiveStoreImpl` calls its callbacks passively; callbacks that write back are the subject of `LiveStoreDelivery`, on values. Whether callbacks that keep writing ever come to rest is up to them; `ComesToRest` is about those that stop.
- LiveStore.LiveStoreImpl.Flush: with callbacks that only listen; the queue with callbacks that write back is `LiveStoreDelivery`.
- LiveStore.LiveStoreImpl.Bulk: its body is a list of writes; bodies that also make views, subscribe or dispose the store are runs of `LiveStoreDelivery`.
- The integer widths of counters: `Number.MAX_SAFE_INTEGER` stands for a missing insertion number, and counters do not reach it.
- Timers fire on time in `SpawnLibrarian`, and at any time in `MailboxLibrarian`; entry stores have no listeners that write back.
- MailboxLibrarian.MailboxLibrarian.Start: the fresh id of the generator is a parameter that must not be in use.
- `decideWake`, the spawn-collision helpers and the bounce items: decision tables without state.
- ExtractPreamble.ExtractNewcommands: it requires a text on which the loop ends, because on others it does not; `HaltsIff` says which.
- The `\DeclareMathOperator`, `\DeclarePairedDelimiter` and `\def` passes, `\input` expansion and file reads.
- The argument count of a `\newcommand`, which the program reads and does not use.
- URL parsing: a URL is its text and the path and token `reloadToken` reads in it. The bounded wait of a watch, a race with a timer, is not modelled; the frames' elements and cross-origin reads are not either.
- AnchorRuns.ReachableUniform: what comes into the cluster must meet the record of every member, no member held by a remap in flight; `AddForEverIff` says that this asks too much only of a cluster whose members have lost their anchor, where remaps in flight would take it away again.
- Undo that brings a deleted shape back under its old id while a remap is in flight.
- The `failed` count of `remapAnnotations`, which also counts shapes that did not have to move.
- Floating point: numbers are reals, and `Math.hypot` is any non-negative distance.
- NaN samples and widths, and the transfer of message buffers.
- The barycenter order within a band, x positions, height estimates and the editor calls of `materializeChain`.
- GraphMaterialize.StepDepths.AllDepths: on a graph with cycles it promises walks that leave no hole above the first band, not longest paths, because depths then depend on the order of the steps.
- Regular expressions of `findRefs`: what each pattern matches is an input, a list of non-empty matches for each pattern. Those of `linkifyDocRefs` are modelled as they are written.
- Running `linkifyDocRefs` on its own output: splitting text changes word boundaries, so it is not promised to change nothing.
- The other link passes of `src/docLinks.ts`, which repeat the same splitting and counter.
