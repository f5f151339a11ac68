# aulos verification model

A Dafny model of the parts of aulos whose correctness is a statement about whole runs: the Live
Activity notifier and its APNs client, the WebSocket session with its replay ring, the event router,
and the algorithms that rewrite a structure in place and have to equal a simpler description of it.

`dafny verify dfyconfig.toml` checks the whole project.

## How it is organised

Where the program updates fields under a lock, the model has a class with the same fields and one
method per critical section or per loop. Each method is proved against a function on values, and the
theorems are about sequences of those functions: an interleaving of tasks is a sequence of critical
sections, so a theorem about every sequence is a theorem about every interleaving. Where the program
runs an algorithm over a list or a map, the method has the program's loop and is proved equal to an
independent description.

- `Frames`, `ReplayFold`, `FoldWords`, `ReplayRing`: the frames, what a client makes of them, the fold that
  answers a resume, what that fold keeps of each item and of everything else, and the bounded ring.
- `WsProtocol`, `WsAgreement`, `WsProgress`, `WsSession`: the cursor protocol of one socket as a state machine
  over hub and session steps, what it says about client and server, what brings a socket live and what ends
  it, and the hub and socket objects that carry it out.
- `LiveActivity`, `Throttle`, `TrailingEdge`: one item's `Track`, its runs, and the timer loop.
- `Timestamps`, `StartOrder`, `Notifier`: the timestamp, end and start-latch protocol, exactly when a
  claim exceeds an earlier start, and the shared state object.
- `ProviderToken`, `ApnsSend`: the token cache shared by all push tasks, and the send loop.
- `EventFilter`, `EventRouter`: the kind bitset and the one-to-N fan-out.
- `Indirection`, `IndirectionOrder`, `PathMap`: two readers of the settings, and exactly when the first does
  not depend on the order of its keys.
- `Catalog`: merging the providers' catalogs.
- `Reconcile`, `Flush`: the page's rows.
- `DownloadUrl`: the two fillers of `download_url`, and the delta path.
- `Calendar`, `Redaction`, `Progress`: `http_date`, `redact_tokens`, the percent normaliser.
- `Prelude`, `IndexMaps`: shared types and the insertion-ordered map.

## Where the code and its description part

Each of these is a lemma with a concrete input, and beside it the exact condition under which the
promised property does hold.

- A socket that connects to a fresh store before any generation is published can miss frame number 0,
  because a cursor of "none" and a cursor of 0 ask the hub the same question
  (`WsProtocol.ZeroFrameIsLost`; exactly when: `WsProtocol.CheckHeadSound`, `WsProtocol.FoldGapSound`, and for
  the whole connect `WsProgress.SnapshotLosesNothingExactly`).
- After a restart whose recovery found no items nothing waits for a first generation, and the empty one
  reports 0. That is below the new ring's floor, so a replay the ring could have served is refused
  (`WsProtocol.BootGenerationIsRefused`; exactly when a refusal loses something: `WsProtocol.FoldGapSound`).
- "More than 8 lags in 60 s" closes a socket only if they fall in one window, and the windows tumble: sixteen lags
  within a millisecond can leave it open (`WsProgress.SixteenLagsInAMinute`). It is closed exactly by the ninth lag
  of a window (`WsProgress.NinthLagCloses`), so only after nine in a minute and always before seventeen
  (`WsProgress.LagsAreBounded`).
- "One update per interval and status" holds between consecutive sends only. Inside the window of a token's
  last send a view goes out exactly under another status (`Throttle.FlapExactly`), so two sends of one word
  can go out together, and only around a send of another (`Throttle.StatusFlapBeatsTheWindow`,
  `Throttle.FlapNeedsAnother`).
- A timer that was armed before the events that now count is woken once for nothing: a view of another
  status, sent at once, moves the instants it waits for (`TrailingEdge.EventsMoveTheDueInstant`). A wake-up
  gets anything done exactly if someone is then behind and not throttled (`TrailingEdge.WakeOnce`), and only
  the first can be wasted (`TrailingEdge.RunTimer`).
- Forgetting an item also drops the floor its start timestamp set (`Timestamps.ForgetDropsTheFloor`). A claim
  exceeds an earlier start exactly when its clock reading does, or an unforgotten start or an earlier claim
  to its token is at least as large (`StartOrder.StartOrderIsExact`).
- In-place `%%` resolution can depend on the order of the keys, because a key may stand for a text that itself
  starts with `%%` and is read as a reference once it is written in (`Indirection.OrderShowsWhenUnsound`; when a
  key does: `Indirection.ReadsAsReferenceExactly`). For every map, every order gives the meaning and the reports
  of the original map exactly when each setting that refers to such a key has an absolute suffix, and every way
  of reading on from that key, by its own text or by what it stands for, ends at a literal
  (`IndirectionOrder.EveryOrderIsRightExactly`).
- A frame lowers the percent exactly if it is finished and a seed above 100 was still in force
  (`Progress.OnlyAnOverfullSeedGoesDown`, `Progress.NeverGoesDown`).
- `http_date` writes the year without padding, so the header is the 29-character IMF-fixdate exactly in the
  years 1000 to 9999 (`Calendar.HttpDateIsFixdate`).
- A download type whose first declaration repeats a format id keeps the repetition; a merged list names each
  id once exactly when that declaration does (`Catalog.FoldRepeatsOnlyTheFirst`).
- The view filler clears a URL that the JSON filler keeps (`DownloadUrl.FillersAgree`), and a delta that
  takes a file name away leaves the old URL on the client (`DownloadUrl.DeltaKeepsUrls`).

## Model

| member | source | states |
|---|---|---|
| ReplayFold.FoldIsReplay | crates/aulos-queue/src/ring.rs:427-510 | for every window and every client, applying the folded frames gives the same items as applying the window frame by frame |
| ReplayFold.ReplayIsIdempotent | docs/PROTOCOL.md:1775-1848 | applying a window twice is applying it once, so a client that asks again from an older cursor is not harmed |
| ReplayFold.FoldNamesEachIdOnce | crates/aulos-queue/src/ring.rs:427-510 | a fold never names an id in two of its full-object and removal lists, lists each removal reason once in the documented order, and each of its counts is exact |
| ReplayFold.BucketedStep | crates/aulos-queue/src/ring.rs:514-536 | filing a removal under a reason takes the id out of every other reason and adds no other id |
| FoldWords.FoldTells | crates/aulos-queue/src/ring.rs:427-510 | what a fold tells of a window: the same as replaying it to every client, of each item exactly its last full word and the patches since, in order, the most specific add reason, and every frame that speaks of no item, in order |
| FoldWords.FoldSays | crates/aulos-queue/src/ring.rs:427-510 | an item is in a fold's added, completed or removed part, with the object or under the reason last given, exactly if its last full word was of that kind; and its patch there is what its patches since that word add up to, unless it was removed |
| FoldWords.FoldIsOrdered | crates/aulos-queue/src/ring.rs:429-436 | within each part the items come in the order in which they came to stand there, and patches in the order of the first one waiting |
| FoldWords.FoldKeepsOthers | crates/aulos-queue/src/ring.rs:476 | a client that is sent the fold gets every subscription, provider, notice and health frame of the window, in order |
| FoldWords.ReasonIsMostSpecific | crates/aulos-queue/src/ring.rs:541-549 | the merged add reason is one of the window's, and none of them is more specific |
| Frames.PatchTouchesOnly | docs/PROTOCOL.md:1804-1809 | a patch gives the item it names the values it carries, creates none and touches nothing else |
| ReplayRing.AfterIsSuffix | crates/aulos-queue/src/ring.rs:404-410 | the frames above a cursor are a suffix of the retained ones |
| ReplayRing.RingCoversAboveFloor | crates/aulos-queue/src/ring.rs:364-410 | for a cursor at or above the floor the ring alone holds every newer frame ever published |
| ReplayRing.EvictSuffices | crates/aulos-queue/src/ring.rs:390-401 | eviction stops inside both bounds and never drops the newest frame |
| ReplayRing.EvictIsLeast | crates/aulos-queue/src/ring.rs:390-401 | eviction drops no frame while both bounds hold |
| ReplayRing.EvictOldest | crates/aulos-queue/src/ring.rs:393-400 | the popping loop with its running byte count drops exactly the frames eviction calls for |
| ReplayRing.FoldEntries | crates/aulos-queue/src/ring.rs:427-510 | one pass over the retained frames absorbs exactly those above the cursor and reports the last one's sequence |
| ReplayRing.AbsorbFrame | crates/aulos-queue/src/ring.rs:438-477 | the loops over one frame's items, ids and patches compute that frame's contribution to the fold |
| ReplayRing.Ring.Push | crates/aulos-queue/src/ring.rs:390-401 | a push appends, evicts, and keeps entries, byte count and floor in step with the frames ever pushed |
| ReplayRing.Ring.MergeAfter | crates/aulos-queue/src/ring.rs:427-510 | the ring's answer is the fold of every frame above the cursor, and tells all a fold tells |
| WsProtocol.NoLostUpdate | crates/aulos-api/src/ws.rs:152-226 | over every interleaving of publishes, generations, connects, snapshots, catch-ups, resumes from any cursor under this boot, another or none, lags and receives, a live client holds its base plus every newer frame up to its cursor, each sent once in increasing order, those that speak of no item among them, and the receiver holds the rest |
| WsAgreement.ClientIsServer | crates/aulos-api/src/ws.rs:152-226 | if each published generation carries the server's state at its number, so does every live client at its cursor, over every interleaving, and a drained client holds the server's state |
| WsAgreement.StepAgrees | crates/aulos-api/src/ws.rs:318-426 | each step of hub or socket keeps client and server in agreement |
| WsAgreement.FreshGenerationIsCurrent | crates/aulos-api/src/ws.rs:318-365 | a snapshot of a generation just published at the head needs no catch-up and leaves the client with the server's state |
| WsProgress.NinthLagCloses | crates/aulos-api/src/ws.rs:208-226 | over every run of one socket, lags that fall in the running minute are counted one by one, the ninth closes the socket and nothing else does |
| WsProgress.LagsAreBounded | crates/aulos-api/src/ws.rs:208-226 | over every run of one socket on a clock that does not go back, it is closed only if its last nine lags fell in one minute, and open only if no minute had seventeen |
| WsProgress.SixteenLagsInAMinute | docs/DESIGN.md:4221-4224 | a concrete run of sixteen lags around the end of a window that leaves the budget unspent |
| WsProgress.ConnectsUnspent | crates/aulos-api/src/ws.rs:186-187 | a socket connects with an unspent budget |
| WsProgress.RunSpends | crates/aulos-api/src/ws.rs:208-226 | whatever happens between them, a run's lags and nothing else are counted, in windows of a minute of which a later lag starts a new one |
| WsProgress.StepSpends | crates/aulos-api/src/ws.rs:208-226 | a lag that does not spend the budget leaves the socket to be resynced, with the newest frames the bus holds in its receiver |
| WsProgress.ResumeHandsOver | crates/aulos-api/src/ws.rs:381-426 | a client that connects or asks with a cursor the ring covers is handed everything above it, and only that, on top of what it holds |
| WsProgress.OthersStartOver | crates/aulos-api/src/ws.rs:152-175 | any other cursor, or none, is answered by a snapshot |
| WsProgress.SnapshotLosesNothingExactly | crates/aulos-api/src/ws.rs:318-378 | a snapshot with its catch-up loses nothing exactly if the generation is as new as the head or covered by the ring and hides no frame numbered 0, or else if the receiver was taken before anything newer |
| WsProgress.LiveInFour | crates/aulos-api/src/ws.rs:318-426 | left to itself a socket that is not closed is live after at most four moves |
| WsProtocol.CheckHeadSound | crates/aulos-api/src/ws.rs:362-365 | finding nothing newer than the snapshot completes the connect exactly when no frame numbered 0 slipped by |
| WsProtocol.FoldGapSound | crates/aulos-api/src/ws.rs:357-378 | the catch-up closes the gap exactly when the ring still covers the cursor, or the receiver already holds every newer frame |
| WsProtocol.AnswerIsGood | crates/aulos-api/src/ws.rs:381-426 | answering any cursor a client presents, by fold, by nothing or by a fresh snapshot, keeps the session sound |
| WsProtocol.ForwardIsSound | crates/aulos-api/src/ws.rs:192-200 | forwarding a frame newer than the cursor sends exactly the next one |
| WsProtocol.SkipIsSound | crates/aulos-api/src/ws.rs:192-200 | dropping a frame at or below the cursor loses nothing |
| WsProtocol.RefoldFromEarlier | crates/aulos-api/src/ws.rs:381-426 | folding again from a cursor the client has moved past lands on the same state |
| WsProtocol.ZeroFrameIsLost | crates/aulos-api/src/ws.rs:357-365 | on a fresh store whose frame 0 completes an item, a socket that connects before the first generation goes live without that item and is never sent it |
| WsProtocol.BootGenerationIsRefused | crates/aulos-queue/src/hub.rs:233-260 | a concrete restart that recovered no items, after which the catch-up is refused although the ring holds the frame |
| WsSession.EventHub.PublishFrame | crates/aulos-queue/src/hub.rs:169-196 | publishing is the protocol's publish step, with ring and head moved together |
| WsSession.EventHub.ResumeAfter | crates/aulos-queue/src/hub.rs:233-260 | the five answers to a cursor, by boot id, head and floor |
| WsSession.Socket.constructor | crates/aulos-api/src/ws.rs:152-182 | the receiver is taken before anything is read, so later frames wait in it |
| WsSession.Socket.SendSnapshot | crates/aulos-api/src/ws.rs:318-350 | the snapshot sets client and cursor from the published generation |
| WsSession.Socket.CompareHead | crates/aulos-api/src/ws.rs:362-365 | no catch-up when the head is not above the cursor |
| WsSession.Socket.CatchUp | crates/aulos-api/src/ws.rs:357-378 | the catch-up forwards the hub's fold and moves the cursor, or leaves both when refused |
| WsSession.Socket.Answer | crates/aulos-api/src/ws.rs:381-426 | a resume is the protocol's answer step; another boot id starts over with a snapshot |
| WsSession.Socket.Ask | crates/aulos-api/src/ws.rs:277-281 | a live client's resume without a boot id starts over with a snapshot |
| WsSession.Socket.Lagged | crates/aulos-api/src/ws.rs:208-226 | a lag costs a resync, or the socket once the tumbling window's budget is spent |
| WsSession.Socket.ReceiveFrame | crates/aulos-api/src/ws.rs:190-200 | a frame is forwarded exactly when it is newer than the cursor |
| LiveActivity.TargetsAre | crates/aulos-apns/src/notifier.rs:856-883 | a pass targets a token exactly when it is registered, behind the newest view and not throttled |
| LiveActivity.TargetsAreDistinct | crates/aulos-apns/src/notifier.rs:856-883 | one pass never aims at a token twice |
| LiveActivity.TargetsInOrder | crates/aulos-apns/src/notifier.rs:856-883 | the targets come in the order of the registrations |
| LiveActivity.SendsToOwnTarget | crates/aulos-apns/src/notifier.rs:871-882 | whatever a pass sends goes to a registration's own token, device and environment, under the topic of its device's app, or of the default one, with the Live Activity suffix |
| LiveActivity.NextDueIs | crates/aulos-apns/src/notifier.rs:857-869 | the wake-up asked for is the earliest instant a throttled registration comes due, and there is one exactly when some registration is throttled |
| LiveActivity.StampAt | crates/aulos-apns/src/notifier.rs:884-893 | stamping touches the targeted tokens and no other |
| LiveActivity.StepEffect | crates/aulos-apns/src/notifier.rs:832-936 | what a pass sends, to whom, and what it remembers of it, token by token |
| LiveActivity.WhatIsShown | crates/aulos-apns/src/notifier.rs:782-848 | an event's view goes out under its own id, status and durable part, with the reader's numbers exactly while both views are live; the timer takes the reader's view while what is pending is progressing, and counts it as new exactly when it differs |
| Throttle.ThrottleHolds | crates/aulos-apns/src/notifier.rs:768-936 | over every run of one `Track`, with passes, refreshes, cache invalidations and timer releases in any order, while a token stays registered it never gets a view twice or out of order, and consecutive sends of one status are an update interval apart |
| Throttle.ClearedMeansDelivered | crates/aulos-apns/src/notifier.rs:902-930 | a pass that clears what was pending leaves no registration behind |
| Throttle.ClearedMeansNewest | crates/aulos-apns/src/notifier.rs:902-930 | and the last thing each registered token was sent is then the newest view of the whole run |
| Throttle.InsideTheWindow | crates/aulos-apns/src/notifier.rs:856-883 | inside the window of a registration's last send, a pass sends to it exactly if it has a view the token has not had, under another status |
| Throttle.FlapExactly | crates/aulos-apns/src/notifier.rs:856-883 | over every run, a view that comes inside the window of a token's last send goes out to it exactly under another status |
| Throttle.FlapNeedsAnother | crates/aulos-apns/src/notifier.rs:856-883 | over every run, two sends of one status closer than a window have a send of another status between them |
| Throttle.StatusFlapBeatsTheWindow | crates/aulos-apns/src/notifier.rs:863-869 | for any two views of different status there is a run in which the first goes out twice at one instant, around the second |
| TrailingEdge.DueWake | crates/aulos-apns/src/notifier.rs:968-994 | a wake-up at or after the instant some registration comes due leaves strictly fewer behind |
| TrailingEdge.AnyWake | crates/aulos-apns/src/notifier.rs:968-994 | any wake-up sends to exactly those it takes off the list of those behind, and goes on exactly with the instant the earliest of the rest comes due |
| TrailingEdge.WakeOnce | crates/aulos-apns/src/notifier.rs:968-994 | one wake-up, re-read included, takes someone off the list of those behind exactly if someone on it is not throttled, and sends to exactly those it takes off |
| TrailingEdge.PassArms | crates/aulos-apns/src/notifier.rs:902-930 | once the numbers have stopped moving, a pass that asks for a timer asks for the instant the first of those behind comes due |
| TrailingEdge.PassGoesOn | crates/aulos-apns/src/notifier.rs:895-930 | for every pass: it goes on, and keeps what is pending and the flag, exactly while the numbers move or someone is behind; it asks for a timer exactly if none is armed or it is the timer's own pass, for the instant the first of those behind comes due, and after the progress interval when nobody is |
| TrailingEdge.PullGoesOn | crates/aulos-apns/src/notifier.rs:895-922 | while the numbers move, a wake-up keeps something pending and comes back within the longer interval, exactly after the progress interval when it leaves nobody behind |
| TrailingEdge.ReadsOncePerWindow | crates/aulos-apns/src/notifier.rs:738-778 | a wake-up works on registrations read within a window, if they can be read, and two reads are a window apart |
| TrailingEdge.InvalidatedIsReadAgain | crates/aulos-apns/src/notifier.rs:1275-1281 | after a removal the next wake-up reads the registrations again, however young the cache |
| TrailingEdge.DisarmUnwedges | crates/aulos-apns/src/notifier.rs:996-1001 | after a cancelled timer the next event sends what it would have sent and asks for a timer whenever something is left pending |
| TrailingEdge.RunTimer | crates/aulos-apns/src/notifier.rs:968-994 | with fixed registrations and numbers that no longer move, from any state and any deadline, the timer loop ends by itself having sent what was pending to each registration behind once and to no one else; it takes at most one wake-up more than registrations were behind, and none more if it was armed for them or if someone behind is not throttled when it first wakes |
| TrailingEdge.EventsMoveTheDueInstant | crates/aulos-apns/src/notifier.rs:832-994 | a concrete run in which events after arming make the timer wake once for nothing, two wake-ups with one registration behind |
| TrailingEdge.RunTimerWithReader | crates/aulos-apns/src/notifier.rs:814-994 | with a reader, for any answers and delays: while the item and the answers are progressing the loop never stops and asks to come back within the longer interval; what it leaves pending is the reader's last view and whoever is behind it is throttled; no registration comes to have a view without a push, and if the answers stay the same none gets more than one |
| Timestamps.TimestampProtocol | crates/aulos-apns/src/notifier.rs:599-679 | for every interleaving and any wall clock: claims for one token strictly increase, they exceed the item's starts not forgotten since, no update follows an end without a start edge in between, and one start task passes the latch between two forgets |
| Timestamps.FirstStartPasses | crates/aulos-apns/src/notifier.rs:599-619 | over every interleaving, a start task passes the latch exactly if none has tried since the item was last forgotten, so one of any number that race gets through |
| Timestamps.UpdatesWhileOpen | crates/aulos-apns/src/notifier.rs:646-679 | over every interleaving, updates are claimed, one for each target in turn, exactly while the item has not been ended since its last start edge |
| Timestamps.EndsAreClaimed | crates/aulos-apns/src/notifier.rs:661-671 | an end closes the item and claims one end for each token, whether or not it was closed before |
| Timestamps.EndIsNewest | crates/aulos-apns/src/notifier.rs:661-671 | an end's timestamp exceeds every earlier update's to the same token |
| Timestamps.SectionKeepsSafe | crates/aulos-apns/src/notifier.rs:626-679 | each critical section keeps the protocol's invariant |
| Timestamps.ForgetDropsTheFloor | crates/aulos-apns/src/notifier.rs:610-619 | a concrete run in which an update after a forget falls below the earlier start |
| StartOrder.StartOrderIsExact | crates/aulos-apns/src/notifier.rs:610-679 | over every interleaving and any wall clock, an update or end exceeds an earlier start of its item (below the top of the range) exactly when the clock it read does, or an unforgotten start of the item is at least as large, or an earlier claim to its token is |
| StartOrder.LiftedByMaps | crates/aulos-apns/src/notifier.rs:626-671 | the maps answer that question for the next claim: the floor is an unforgotten start, the token's entry an earlier claim |
| StartOrder.StampExceeds | crates/aulos-apns/src/notifier.rs:626-636 | a timestamp exceeds a bound exactly when the clock, the floor or the token's last one lifts it there |
| Notifier.Shared.MarkStarted | crates/aulos-apns/src/notifier.rs:599-603 | the latch's section, of which `Timestamps.FirstStartPasses` says who passes |
| Notifier.Shared.Forget | crates/aulos-apns/src/notifier.rs:610-619 | the forget section drops the items' tracks, latches and floors and nothing else |
| Notifier.Shared.ClaimStart | crates/aulos-apns/src/notifier.rs:637-645 | a start claim is newer than the token's last and raises the item's floor |
| Notifier.Shared.ClaimUpdates | crates/aulos-apns/src/notifier.rs:646-660 | an ended item claims nothing, whatever targets a pass had chosen; otherwise each target gets the next timestamp above the floor |
| Notifier.Shared.ClaimEndTimestamps | crates/aulos-apns/src/notifier.rs:661-671 | the item is marked ended and its tokens' end timestamps are claimed in one section |
| Notifier.Shared.StoreRecords | crates/aulos-apns/src/notifier.rs:768-778 | a refresh keeps the throttle memory of the tokens still registered and drops the others' |
| Notifier.Shared.Choose | crates/aulos-apns/src/notifier.rs:856-883 | the loop over the registrations finds exactly the targets and the earliest due instant |
| Notifier.Shared.PassOver | crates/aulos-apns/src/notifier.rs:832-936 | the pass's branches compute the specified new track, send and timer, which `LiveActivity.StepEffect`, `LiveActivity.WhatIsShown` and `TrailingEdge.PassGoesOn` describe |
| Notifier.Shared.Step | crates/aulos-apns/src/notifier.rs:832-936 | one pass changes its own item's track and no other |
| Notifier.Shared.Disarm | crates/aulos-apns/src/notifier.rs:997-1001 | a cancelled timer gives up its own item's flag and changes nothing else |
| Notifier.Shared.InvalidateCaches | crates/aulos-apns/src/notifier.rs:1275-1281 | after a removal every item's registrations and the topics count as stale, and nothing else changes |
| Notifier.TaskSet.Spawn | crates/aulos-apns/src/notifier.rs:1285-1316 | a task is accepted exactly below 256, and the count stays the number of live slots |
| Notifier.TaskSet.Drop | crates/aulos-apns/src/notifier.rs:1322-1326 | a dropped slot is given back exactly once |
| ProviderToken.RemintsAreBounded | crates/aulos-apns/src/jwt.rs:149-159 | over every interleaving each token is retired by a remint at most once, so remints never exceed the distinct tokens reported, and every other mint is owed to age |
| ProviderToken.RetiredInOrder | crates/aulos-apns/src/jwt.rs:149-159 | tokens are retired in the order they were signed, each behind a newer one |
| ProviderToken.AnswersAnotherToken | crates/aulos-apns/src/jwt.rs:149-159 | a task never gets back the token it reported |
| ProviderToken.RetiredNeverReturns | crates/aulos-apns/src/jwt.rs:114-159 | a retired token is never handed out again by either call |
| ProviderToken.BearerIsInBand | crates/aulos-apns/src/jwt.rs:114-129 | a bearer was signed by this very call, or less than fifty minutes before the clock read and not after it |
| ProviderToken.SignsExactly | crates/aulos-apns/src/jwt.rs:114-159 | a request signs a new token exactly if the newest was not signed within the fifty minutes before the clock reading, and a report exactly if it names the newest or there is none |
| ProviderToken.ProviderToken.GetBearer | crates/aulos-apns/src/jwt.rs:114-129 | the freshness check and the mint are one critical section, the call of the run |
| ProviderToken.ProviderToken.RemintIfStillCurrent | crates/aulos-apns/src/jwt.rs:149-159 | the compare-and-swap is one critical section; the loser gets the winner's token |
| ProviderToken.ProviderToken.MintInto | crates/aulos-apns/src/jwt.rs:163-181 | a failed signature leaves cache and counter alone, a good one replaces the cache and counts once |
| ApnsSend.SendIsBounded | crates/aulos-apns/src/client.rs:389-446 | against any answers a send makes at most two requests more than its ladder is long |
| ApnsSend.SleepsFollowTheLadder | crates/aulos-apns/src/client.rs:343-358 | the delays slept are the ladder's, in order and from the first |
| ApnsSend.RemintsAtMostOnce | crates/aulos-apns/src/client.rs:420-429 | one send remints at most once |
| ApnsSend.EveryEventIsLegal | crates/aulos-apns/src/client.rs:343-446 | a send sleeps only after a 429, a 5xx or a transport fault and only if the delay's whole-second end stays before a non-zero expiration, and remints only on a stale-token 403 |
| ApnsSend.EndingIsExplained | crates/aulos-apns/src/client.rs:396-446 | each outcome is exactly what the last answer's status and reason call for, and carries them; a send ends without one only if a token could not be signed |
| ApnsSend.GivesUpOnlyWhenSpent | crates/aulos-apns/src/client.rs:343-358 | a send gives up only when its ladder is spent or the next delay would reach the expiration |
| ApnsSend.OutageSpendsTheLadder | crates/aulos-apns/src/client.rs:343-358 | through an outage a push without a deadline sleeps every delay left on its ladder and then gives up |
| ApnsSend.RejectionNeedsTwoTokens | crates/aulos-apns/src/client.rs:420-429 | whatever other tasks do to the cache, the misconfiguration outcome follows two stale-token 403s on two different tokens, the second signed later |
| ApnsSend.SendStaysHonest | crates/aulos-apns/src/client.rs:396-430 | a send reports only tokens that were signed, so any number of sends meet the rotation theorem |
| ApnsSend.ApnsClient.Trip | crates/aulos-apns/src/client.rs:396-446 | one trip round the loop, on the shared cache, with the retry counter moved exactly by a sleep |
| ApnsSend.ApnsClient.SendPush | crates/aulos-apns/src/client.rs:343-446 | the loop computes the specified send, and `retried_total` grows by exactly the number of sleeps; through an outage a new client sleeps 1, 4, 16, 60, 120 and 300 seconds for a push of priority 10 or more and 1, 4 and 16 for any other |
| EventFilter.Of | crates/aulos-core/src/event.rs:413-426 | the loop builds the set that admits the listed kinds and no others |
| EventFilter.Aggregator | crates/aulos-core/src/event.rs:446-448 | the aggregator's set admits everything but `Finishing` |
| EventFilter.WithLeavesOthers | crates/aulos-core/src/event.rs:430-432 | adding a kind leaves every other kind's bit alone |
| EventFilter.WithoutLeavesOthers | crates/aulos-core/src/event.rs:436-438 | removing a kind leaves every other kind's bit alone |
| EventRouter.BlockLosesNothing | crates/aulos-core/src/event.rs:736-768 | for a `Block` subscriber with an open inbox, received ++ inbox ++ still-to-serve filtered events are the filtered publish sequence, and nothing is dropped |
| EventRouter.DropNewestIsCounted | crates/aulos-core/src/event.rs:736-768 | for `DropNewest`, delivered and lost events interleave to the filtered events served, the counter is exactly what is missing, and an open inbox loses one only with as many unread events as its capacity, which is at least one |
| EventRouter.DeliveredInOrder | crates/aulos-core/src/event.rs:677-684 | every subscriber receives in publish order |
| EventRouter.SubscribersAgreeOnOrder | crates/aulos-core/src/event.rs:677-684 | two subscribers that received the same two events received them in the same order |
| EventRouter.StuckOnlyOnAFullInbox | crates/aulos-core/src/event.rs:744-753 | a running router with an event in hand is stuck exactly at a waiting subscriber with an open inbox that holds its capacity of unread events, and one receive there frees it |
| EventRouter.EventRouter.TryPublish | crates/aulos-core/src/event.rs:585-590 | refused without effect exactly when the inbound queue, which the event in hand has left, is full |
| EventRouter.TakeFreesASlot | crates/aulos-core/src/event.rs:736-738 | over every run the queue stays within its capacity, and taking an event frees its place before the fan-out |
| EventRouter.ClosedGetsNothing | crates/aulos-core/src/event.rs:744-766 | once its inbox is closed a subscriber is delivered nothing more, whatever happens |
| EventRouter.RunsWhenStarted | crates/aulos-core/src/event.rs:772-775 | the router runs exactly if it was started |
| EventRouter.EventRouter.ServeOne | crates/aulos-core/src/event.rs:739-766 | one subscriber's turn is the machine's route step, and waits exactly where that step cannot be taken |
| EventRouter.EventRouter.ServeRest | crates/aulos-core/src/event.rs:736-768 | the loop serves the subscribers in registration order and resumes where it waited |
| Indirection.ResolveKey | crates/aulos-core/src/config.rs:1234-1274 | in the map as it stands, a key whose chain reaches a literal is rewritten to what the chain stands for, and any other key is left alone with a problem that is true of the map |
| Indirection.ResolveIndirection | crates/aulos-core/src/config.rs:1228-1277 | for every map and order the keys are resolved one after another in the map as it has become, and those that then stand for nothing are reported; for a sound map the result is what each key stands for in the original map, and each bad key is reported once |
| Indirection.RewriteKeepsValues | crates/aulos-core/src/config.rs:1241-1247 | writing a key's own value back changes the meaning of no key |
| Indirection.ExplainedHasNoValue | crates/aulos-core/src/config.rs:1255-1269 | a reported unknown target or cycle means the key stands for nothing |
| Indirection.NoProblemsMeansAllResolve | crates/aulos-core/src/config.rs:1276 | resolution succeeds exactly when every chain reaches a literal |
| Indirection.ReadsAsReferenceExactly | crates/aulos-core/src/config.rs:1237-1252 | what a key stands for starts with `%%` exactly when its chain ends in an empty literal, the suffix nearest it starts with `%%` and no later suffix is absolute |
| Indirection.PlainSuffixesAreClean | crates/aulos-core/src/config.rs:1251-1253 | with no suffix starting with `%%`, no resolved value does |
| Indirection.OrderShowsWhenUnsound | crates/aulos-core/src/config.rs:1228-1277 | a concrete unsound map on which the order of the keys decides whether a key is reported |
| Indirection.OrderDecides | crates/aulos-core/src/config.rs:1228-1277 | for every map, once a key that stands for a `%%` text is rewritten, a setting that refers to it stands for what reading that text again gives: the same as before exactly when that is the same, and nothing where that is nothing |
| Indirection.OrderShows | crates/aulos-core/src/config.rs:1228-1277 | for every map and whatever follows, the referring key gets its value when it is resolved first, and that other text, or its own old one, when it comes second |
| Indirection.NamesNoKey | crates/aulos-core/src/config.rs:1255-1260 | a `%%` text that names no key stands for nothing once it has been written in |
| IndirectionOrder.EveryOrderIsRightExactly | crates/aulos-core/src/config.rs:1228-1277 | for every map, all orders of the keys give the meaning and the reports of the original map exactly when the map is sound |
| IndirectionOrder.SoundIsRight | crates/aulos-core/src/config.rs:1228-1277 | in a sound map every key still stands for what it did when its turn comes, so texts, reported keys and reports are those of the original map |
| IndirectionOrder.RightNeedsAbsolute | crates/aulos-core/src/config.rs:1237-1253 | a setting that takes anything of the text of a key standing for a `%%` text goes wrong in some order |
| IndirectionOrder.RightNeedsSteady | crates/aulos-core/src/config.rs:1255-1269 | a key standing for a `%%` text that is referred to must come to a literal however it is read on, or some order loses the setting |
| IndirectionOrder.PlainReferencesNeedClean | crates/aulos-core/src/config.rs:1237-1253 | where no setting refers to such a key with an absolute suffix, every order is right exactly when no setting refers to one at all |
| Indirection.PushEach | crates/aulos-core/src/config.rs:1242-1245 | the reverse loop appends the suffixes innermost first |
| PathMap.Parse | crates/aulos-core/src/config.rs:544-571 | reading the entries, sorting and deduplicating, as a function of the entries as written |
| PathMap.SplitIsExact | crates/aulos-core/src/config.rs:546 | splitting the setting loses nothing and leaves no separator in an entry |
| PathMap.EntryReads | crates/aulos-core/src/config.rs:546-565 | an entry reads as its pair whatever spaces stand around its halves and separators at their ends |
| PathMap.SpaceIs | crates/aulos-core/src/config.rs:546-557 | the spaces trimmed are the characters of Unicode's White_Space property |
| PathMap.WrittenPairsAreTidy | crates/aulos-core/src/config.rs:554-565 | no half of a usable pair is blank or ends at a separator |
| PathMap.MapIsBest | crates/aulos-core/src/config.rs:566-603 | the first covering pair of the sorted list is what scanning the written pairs for the longest source gives |
| PathMap.BestIsLongestThenFirst | crates/aulos-core/src/config.rs:587-603 | the lookup succeeds exactly when the path is some source or goes on behind one at a separator, and takes the longest such source, the first written among equals |
| PathMap.OrderDoesNotMatter | crates/aulos-core/src/config.rs:531-533 | with distinct sources every order of writing them gives the same answer |
| PathMap.ParsedSourcesAreDistinct | crates/aulos-core/src/config.rs:567-569 | a parsed map lists each source once, longest first |
| PathMap.MapPath | crates/aulos-core/src/config.rs:591-603 | the scan with its two prefix strips finds the first covering pair and replaces its source |
| PathMap.Translate | crates/aulos-core/src/config.rs:543-603 | parsing and looking up together, for every setting and every path: what follows the source is put behind its target |
| Calendar.CivilIsTheCalendar | crates/aulos-api/src/files.rs:514-531 | for every integer day the next day's date is the calendar successor |
| Calendar.CivilIsValid | crates/aulos-api/src/files.rs:514-531 | every day number, before or after the epoch, yields a valid date |
| Calendar.DaysInvertsCivil | crates/aulos-api/src/files.rs:514-531 | counting the days of a day number's date gives the number back |
| Calendar.CivilInvertsDays | crates/aulos-api/src/files.rs:514-531 | every valid date is the date of its own day number |
| Calendar.EpochIsDayZero | crates/aulos-api/src/files.rs:514-531 | day zero is 1970-01-01 |
| Calendar.WeekdaysGoRound | crates/aulos-api/src/files.rs:507-508 | the epoch was a Thursday and each day has the name that follows its predecessor's |
| Calendar.HttpDateReadsBack | crates/aulos-api/src/files.rs:494-512 | read back field by field a header names the weekday, the civil date and the hour, minute and second of its instant, and so the second itself |
| Calendar.HttpDateNamesTheSecond | crates/aulos-api/src/files.rs:494-512 | two instants get the same header exactly when they fall in the same second |
| Calendar.HttpDateIsFixdate | crates/aulos-api/src/files.rs:494-512 | the header has the shape of an IMF-fixdate exactly in the years 1000 to 9999, and its width then or with a sign in place of a digit |
| Catalog.FoldIsMerge | crates/aulos-core/src/catalog.rs:231-270 | for any declarations, what a search of the merged lists can find is every declared id, in the slot of its first declaration, under its owner |
| Catalog.LookupIsOwner | crates/aulos-core/src/catalog.rs:231-237 | looking an id up gives the first real declaration, else the first placeholder, and nothing exactly where none is declared |
| Catalog.EarlierProviderWins | crates/aulos-core/src/catalog.rs:231-270 | once some provider really declares a format, no provider registered later changes what a search finds |
| Catalog.DefaultsStayListed | crates/aulos-core/src/catalog.rs:44-55 | if every declared default names one of its formats, so does every merged one |
| Catalog.FoldRepeatsOnlyTheFirst | crates/aulos-core/src/catalog.rs:243-248 | a merged list names each id once exactly when the first declaration of its type does |
| Catalog.MergeFormatsInto | crates/aulos-core/src/catalog.rs:251-261 | the inner loop, which replaces a placeholder in place, is the fold of the declarations |
| Catalog.MergeOptionsInto | crates/aulos-core/src/catalog.rs:262-266 | the option loop keeps the first declaration of each id |
| Catalog.Merge | crates/aulos-core/src/catalog.rs:243-270 | the nested loops are the fold of every declaration in registration order |
| Reconcile.Page.Reconcile | crates/aulos-api/web/app.js:420-429 | the container ends with exactly the list's rows in order, those rows are taken out of every other container, and rows that existed are used again |
| Reconcile.Page.PlaceNext | crates/aulos-api/web/app.js:422-427 | one turn of the loop puts the row next in place, whether it moves or stands there |
| Reconcile.Page.TrimFrom | crates/aulos-api/web/app.js:428 | what the cursor has not passed is removed and nothing else |
| Reconcile.Page.RowFor | crates/aulos-api/web/app.js:431-463 | an item's row is the one it has, or a new node |
| Reconcile.MoveOne | crates/aulos-api/web/app.js:425 | inserting a node takes it from wherever it was and keeps the cursor where it stands |
| Flush.OneSection | crates/aulos-api/web/app.js:366-371 | every item, whatever its status, belongs to exactly one section |
| Flush.FiltersDecideOnce | crates/aulos-api/web/app.js:366-371 | the four filters agree with one decision by status, start mode and error code, in which an unknown status counts as active |
| Flush.MembersInOrder | crates/aulos-api/web/app.js:362-371 | a section lists its items in the order of the list |
| Flush.ShownOnceOrEvicted | crates/aulos-api/web/app.js:366-373 | every top-level item is shown in its own section or evicted, never both, and nowhere else |
| Flush.NewestDoneAreShown | crates/aulos-api/web/app.js:371-373 | the completed rows shown are the newest ones, at most the limit |
| Flush.ReconcileAll | crates/aulos-api/web/app.js:375-378 | for disjoint lists and any starting document, reconciling the containers in turn leaves each with exactly its rows |
| Flush.DropStale | crates/aulos-api/web/app.js:404-406 | the rows of items that are gone go, and no shown row is touched |
| Flush.FlushRows | crates/aulos-api/web/app.js:360-406 | one repaint: each of the four containers holds its own section, rows are used again, the items kept are all but the evicted, and a row is kept only for one of them |
| Redaction.RedactTokens | crates/aulos-apns/src/health.rs:49-75 | the nested scan cuts each maximal hexadecimal run on its own |
| Redaction.RedactsRunByRun | crates/aulos-apns/src/health.rs:49-75 | of a maximal run of 32 or more hexadecimal characters the first eight stay with a mark behind them, a shorter one stays whole, and what is around it is redacted as if it stood alone |
| Redaction.RedactsExactlyLongRuns | crates/aulos-apns/src/health.rs:32-40 | no run of 32 is left, and a text is unchanged exactly when it has none |
| Redaction.RedactingIsIdempotent | crates/aulos-apns/src/health.rs:49-75 | redacting twice is redacting once |
| Redaction.OthersSurvive | crates/aulos-apns/src/health.rs:66-73 | every other character survives in order and none is added |
| Progress.RunsTheMaximum | crates/aulos-core/src/progress.rs:298-363 | over any frames and from any seed the floor is the largest clamped point of the current leg, the seed included for the leg it was planted in, brought down to 100 by a finished frame |
| Progress.StaysInBand | crates/aulos-core/src/progress.rs:298-363 | from a new normaliser the percent stays in [0, 99.9] until a frame is finished |
| Progress.NeverGoesDown | crates/aulos-core/src/progress.rs:354-360 | within a leg a frame lowers the percent exactly if it is finished and a seed above 100 was still in force, and a finished frame's 100 stays |
| Progress.OnlyAnOverfullSeedGoesDown | crates/aulos-core/src/progress.rs:273-282 | a seeded percent goes down on a finished frame exactly when the seed was above 100 |
| Progress.FragmentsBoundThePercent | crates/aulos-core/src/progress.rs:324-335 | with fragments and no exact total the percent lies between the fragments done and the one under way |
| Progress.FirstFrameShows | crates/aulos-core/src/progress.rs:298-363 | the percent reported comes first, whatever the counts say; then the share of the bytes there are; then, with fragments, the estimated share where the fragment under way allows it; each brought into 0 to 99.9 |
| Progress.ReachedEstimateIsIgnored | crates/aulos-core/src/progress.rs:336-346 | without fragments an estimate counts exactly when it is positive and above the bytes fetched, and then gives less than 100 |
| Progress.Normalizer.Apply | crates/aulos-core/src/progress.rs:298-363 | one frame moves the normaliser to the specified next state and returns what it shows |
| DownloadUrl.FillersAgree | crates/aulos-api/src/view.rs:81-162 | serialising the filled view equals filling the serialised view, exactly unless the view has files, no file name and a URL already |
| DownloadUrl.PatchItemWith | crates/aulos-api/src/view.rs:142-162 | the in-place edit fills the item and every entry of both lists |
| DownloadUrl.DeltaReproduces | crates/aulos-queue/src/aggregator.rs:205-209 | applying a delta to the old object gives exactly the new one |
| DownloadUrl.DeltaKeepsUrls | crates/aulos-api/src/view.rs:164-187 | a client that applies the filled delta holds the filled new object, exactly unless the item's file name was taken away |
| DownloadUrl.NothingToFill | crates/aulos-api/src/view.rs:164-187 | the check in front of the delta filler skips only deltas it would leave alone, and an unpublished item's delta is filled as a video's |
| DownloadUrl.StatedOrVideo | crates/aulos-api/src/view.rs:130-137 | an object has the type it states, and is a video if it states none that is known |
| DownloadUrl.DiffSends | crates/aulos-queue/src/aggregator.rs:200-209 | a delta carries the id and exactly the fields that changed, with their new values |

## Left out

- HTTP, TLS, JWT signing, sockets and the async runtime: answers, clock readings, signing results and
  scheduling are parameters; a signed token is known by its serial number, so two mints never give the
  same token.
- The store and the aggregator's flush: that a published generation carries the server's state at its
  number is what `WsAgreement.ClientIsServer` starts from; the other theorems take any content.
- The wire encoding of frames, and the sequence number a failed encoding skips: the allocator is only
  taken to move forward.
- The ring's byte counter and the notifier's `pending_seq` are unbounded; saturation and wrap-around of
  64-bit counters are modelled for timestamps and deadlines only.
- WsProtocol.NoLostUpdate: assumes that a refused catch-up does not happen while frames are missing and
  that no frame is numbered like the boot cursor; `FoldGapSound` and `CheckHeadSound` say exactly what
  happens otherwise.
- Throttle.ThrottleHolds: speaks of one `Track` and of a token while it stays registered, since a refresh
  or a forget that drops the token drops its memory too.
- A single live timer per item: the task set may refuse a task after the flag was set, so the code does
  not give it.
- Which pushes a notifier event leads to, the Live Activity payloads, device caches and pruning.
- `ProviderToken::remint`, which nothing in the server calls.
- The setting map's key order is any order; the program's is the sorted one.
- PathMap.Parse: compares sources by characters where the program compares bytes; sources that cover one
  path are prefixes of it, on which the two agree.
- Redaction.RedactTokens: reads characters where the program walks bytes and skips whole characters.
- Progress.RunsTheMaximum: real numbers instead of 64-bit floats, and finite byte counts; NaN and infinity
  only as a reported percent.
- Calendar.CivilIsTheCalendar: day numbers are unbounded integers. `parse_range` would only add
  branch-level facts.
- The provider list, version sum and naming policy of a merged catalog, and the legacy projections.
- The order in which JSON members are written, and the shortcut that skips frames without a file name.
- DownloadUrl.DeltaKeepsUrls: the published view is taken to hold the item's download type, as the module
  documentation argues.
- The page's sorting, its row contents, the child rows of a group and the subscription list.
- The kind lists of the other subscribers' filters, and tracing.
