# sdim: conversations, connections, frames and groups

A Dafny 4.11 model of the four stateful components of the sdim instant-messaging
backend, and proofs about them. `dafny verify dfyconfig.toml` checks everything.

## What is modelled

**Conversation sequencing and unread counts** (topic server). Redis holds a tree per
conversation: `msg_seq` and a browse position per user, changed by two scripts. The
server keeps a copy in memory that is filled by lazy loads and moved by publish results
in any order, stored-message events and clear-unread.

- `ConvValues` holds the values and the effect of every atomic section on them;
  `ConvProtocol` is the transition system of one conversation with one action per lock
  section, script or publish outcome, including failures at every point and restarts.
- `ConvSafety` proves the invariant and `ConvTheorems` what it means over every run.
  `ConvArrival` says for each step exactly when memory loses, and regains, something
  Redis has; `ConvAgreement` draws from it exactly when the two agree at rest, over runs
  with any failures; `ConvUnread` does the same for unread counts and `ConvLastMsg` for
  the last message shown. `ConvNewest` says what Redis keeps beside the numbers, and
  `ConvActivity` when LastActiveTs and LastMsgId agree with it. `ConvRest` is the case of two users whose loads and
  clear-unreads run through, `ConvConfluence` independence from order, and `ConvWitness`
  runs that end in disagreement.
- `ConvMemory` and `ConvManager` are the whole in-memory copy, as a value and as
  objects; `ConvProjection` shows that each section of the manager is a step of the
  protocol for its conversation and leaves the others alone, and `ConvSystem` that runs of
  the manager over all conversations are runs of the protocol seen through each. `ConvIds`
  is the naming of conversations.

**Connection registry** (engine server). `ConnRegistry` is the registry as a value,
`RegistryRuns` its runs with the history its promises speak of, `RegistryTheorems` and
`RegistryMonitor` the promises about indexes, eviction, master replacement and the delay
queue, `RegistryTimes` the timeouts counted from openings, pings and authentications, `ConnManager` the manager with its objects, `ConnLifecycle` one connection under
compare-and-swap interleaving, and `ConnWraps` all connections of a user with the wraps
that close events fetch before their lock section.

**Frames.** `WireFormat` is the format, the server's decoder and the example client's;
`FrameCodec` the codec over buffers and the client over short reads; `Traffic` and
`TrafficStreams` the engine's batch loop with its wakes, and whole streams, and
`TrafficEvents` what each event does in any surroundings. The checksum
is any function from bytes to 32-bit values.

**Group membership cache.** `GroupCache` is the member table, the cache and the
handlers that change first one and then the other, `GroupRefusals` who may change a group
and who is refused, `GroupWitness` runs that go wrong; `GroupManager` is the cache with its objects.

`Basics` is shared vocabulary; `Traces` is what a step property comes to over a run of
any of the transition systems.

## What the proofs found

- The close of an already replaced master empties its user's master slot even while its
  successor sits in it. That is the only step that can break the slot, and afterwards a
  user can hold two masters (`OnlyStaleClosesBreakTheSlot`, `TwoMastersAfterAStaleClose`).
- A close event that looks for the user between a winning authentication's exchange and
  its lock section leaves the connection listed in the user's wrap until another
  connection pushes it out (`ListedAfterCloseIffReadTooEarly`).
- A close event that fetched the user's wrap, was overtaken by the closing of everyone in
  that wrap and runs it empty deletes whatever wrap the user has by then; a connection
  authenticated meanwhile stays registered and is listed nowhere. Only an evicted
  connection's close can do it (`ListedUnlessAnotherIsDeleted`,
  `OnlyEvictedDeleteAnother`, `LateCloseDeletesANewWrap`).
- Publish results processed out of order leave a wrong unread count: it counts from the
  number last written to the entry, so it is right exactly when that is the newest number
  or there is nothing left to read (`OutOfOrderAcksMiscount`, `UnreadRightIff`).
- A clear-unread whose memory half runs late takes a cached browse position back. It
  stays behind Redis until the user's own next number or clear-unread or a restart: no
  other message mends it, and a cached conversation is not loaded again
  (`SplitClearLeavesBrowseBehind`, `LostUntilOwnOrRestart`).
- A load that fails after the conversation was cached leaves it without the store's
  MsgSeq and without entries, and it is not loaded again before a restart
  (`GivenUpLoadLeavesNothing`, `NoLoadUntilRestart`).
- A clear-unread whose script ran and whose answer was lost leaves the user's entry behind
  Redis, unless there was nothing to clear (`LostAnswerDisagrees`).
- What makes memory and Redis disagree at rest, step by step, is in `SeqStep`, `EntryStep`
  and `BrowseStep`; they agree if and only if all of it was made good
  (`AgreesAtRestIff`).
- A group load overwrites LastMsgId with the store's even when a newer message was stored
  since it read the store. An older message stored afterwards then replaces the newer one
  as the last message (`KnownStep`, `NeverBackIff`, `GroupLoadTakesLastMsgBack`).
- A load brings LastMsgId only to a group: a loaded one-to-one chat shows zero until a
  result or an event (`LoadShows`, `LoadedChatLacksLastId`). LastActiveTs is not the
  newest number's time when times do not follow the order of numbers
  (`OlderTimeEndsAhead`). `BehindStep` and `AheadStep` give all the steps that part either
  field from Redis, `FieldAgreesAtRestIff` when they agree.
- Names with a colon let two pairs of users share a conversation
  (`IdsIdentifyIffNoColon`).
- Frames decoded in the same call before a bad frame never reach the handler, so what is
  handled depends on how the bytes were cut unless the batch limit is one
  (`HandledIgnoresChunkingIffBatchOfOne`).
- Only the client accepts a bare header with a non-zero checksum (`ImplementationsAgree`).
- Adding a removed group member again makes it a normal member in the cache and leaves
  its row removed; it can then not be removed from the fan-out until the server stops, and
  is lost from it by the stop (`ReaddedCannotBeRemoved`, `RemovalWorksIffRowIsNormal`,
  `CameBackUntilAStop`, `CameBackLostByAStop`).
- Handlers of one group that overlap can leave a removed member in the fan-out, when the
  cache half of an addition is overtaken by that of the removal, or a normal one out of
  it, when that of the creation comes late; a handler that ends after its commit does
  either (`OvertakenAdditionStays`, `LateCreationLeavesOut`, `DroppedRemovalStays`,
  `LastChangeStep`, `FanOutIsTheLastChangeIff`).
- A removed member is refused as removed only until the server stops: loads leave removed
  members out, and the message then goes out to nobody (`RefusedByTheRow`,
  `RefusedUntilTakenBack`).
- A sender who is not in a normal group passes the send check: the report leaves the
  group state unset, so the membership check is never reached (`RefusedExactlyWhen`).
- A comment in the server codec gives the request id 32 bytes
  (micros/enginesrv/internal/codec/fcodec/frame_codec_impl.go:123); the constant is 16,
  and the model follows the constant.

## Assumptions

- One topic server process; a chat's sender and receiver differ where `ConvRest` says
  so. A first message to oneself ends its handler before anything is written: building the
  rows dereferences another user that is not there
  (micros/topicsrv/internal/core/convmgr/conv_manager.go:1340-1346); that this may stop the
  process is a restart. Committing a group's rows and `UpsertGroupChatConv` are one step
  of the protocol each, with anything in between.
- `maxSlaveConns` is at least one, users are not empty strings, connection ids are fresh.
- Each step of the registry and of `ConnLifecycle` reads one clock value.
- New rows of the member table are in the normal state.
- Outcomes of database, Redis, queue and remote calls are parameters of the steps.

## Model

| member | source | states |
|---|---|---|
| `ConvTheorems.LedgerOverRuns` | micros/topicsrv/internal/repostories/convrepo/conversation_repostory.go:382-408 | over every interleaving of sends, lost publishes, results in any order, loads, clears, group creation and restarts: the numbers issued are exactly 1..msg_seq, each to one message, and each is acknowledged, in flight or lost, never two of these |
| `ConvTheorems.NumbersAreUnique` | micros/topicsrv/internal/repostories/convrepo/conversation_repostory.go:44-49 | two messages never hold the same number |
| `ConvTheorems.UpsertNeverHitsIssuedNumbers` | micros/topicsrv/internal/repostories/convrepo/conversation_repostory.go:357-373 | whenever the create branch is taken, in any run with half-failed creates and restarts, no number has been issued and the write of zeros changes no counter |
| `ConvTheorems.MemoryNeverAhead` | micros/topicsrv/internal/core/convmgr/conv_manager.go:787-797 | in every reachable state cached MsgSeq <= msg_seq and cached browse <= Redis browse <= msg_seq, with load, result and clear split into their lock sections |
| `ConvTheorems.CountersNeverDecrease` | micros/topicsrv/internal/core/convmgr/conv_manager.go:1411-1471 | between any two points of a run msg_seq, every Redis browse and the ledger only grow; cached MsgSeq only grows while the server does not restart |
| `ConvTheorems.UnreadAlwaysBounded` | micros/topicsrv/internal/core/convmgr/conv_manager.go:799-881 | in every reachable state every member entry sits beside a cached conversation and 0 <= UnreadCount <= max(0, MsgSeq - BrowseMsgSeq) |
| `ConvTheorems.RecentIsTheTail` | micros/topicsrv/internal/core/convmgr/conv_manager.go:196-215 | RecentlyMsgs is always the last min(n, msgCap) of the n messages stored since the conversation entered memory |
| `ConvTheorems.FailedCreateIsLoadedNext` | micros/topicsrv/internal/core/convmgr/conv_manager.go:711-757 | a creation whose tree was not written leaves its rows, sender first, and nothing cached: the next send loads them and does not create again |
| `ConvTheorems.RowsStay` | micros/topicsrv/internal/repostories/convrepo/conversation_repostory.go:357-373 | over every run rows are never written over |
| `ConvTheorems.MembersWhenCached` | micros/topicsrv/internal/core/convmgr/conv_manager.go:669-757 | who is a member when a conversation enters memory: sender and receiver, the owners of a group's rows, or those a creation names |
| `ConvTheorems.MembersStayCached` | micros/topicsrv/internal/core/convmgr/conv_manager.go:664-972 | and so it stays over every run until a restart |
| `ConvTheorems.OnlyMembersAreSentTo` | micros/topicsrv/internal/core/convmgr/conv_manager.go:931-935 | a numbered one-to-one message is handed to the queue exactly if its receiver is a member of the cached conversation |
| `ConvTheorems.OutsidersAreNeverSentTo` | micros/topicsrv/internal/core/convmgr/conv_manager.go:931-935 | otherwise it never goes out, whatever runs: its number ends lost |
| `ConvNewest.RedisHasTheNewest` | micros/topicsrv/internal/repostories/convrepo/conversation_repostory.go:44-49 | over every run last_msg_id and last_active_ts are the id and the time of the message that was given the newest number, and zero before the first |
| `ConvNewest.CurrentOverRuns` | micros/topicsrv/internal/repostories/convrepo/conversation_repostory.go:382-408 | over every run a send that holds the newest number, and a snapshot as new as Redis, carry that id and time |
| `ConvSafety.RunKeeps` | micros/topicsrv/internal/core/convmgr/conv_manager.go:664-972 | every run keeps the invariant tying the Redis tree, the ledger, the cached conversation, every entry and every running send and clear |
| `ConvSafety.CreateZeroesNothing` | micros/topicsrv/internal/core/convmgr/conv_manager.go:711-755 | the create branch only runs over an empty ledger and a tree of zeros |
| `ConvArrival.BrowseStep` | micros/topicsrv/internal/core/convmgr/conv_manager.go:1446-1456 | in any state of any conversation, after any one step, a cached browse position equals Redis' or is still to be brought by a result or a clear-unread, if and only if it was so before and the step is none of these: a clear-unread's memory half with an older number, a load with an older snapshot, a new zero entry, the loss of the one publish or the one answer to a clear-unread that carried it; or the step restores it |
| `ConvArrival.SeqStep` | micros/topicsrv/internal/core/convmgr/conv_manager.go:774-797 | the same for the cached MsgSeq: what loses it is the loss of the last carrying publish, a load given up after caching, a group cached without a load; what restores it is the next number or a restart |
| `ConvArrival.EntryStep` | micros/topicsrv/internal/core/convmgr/conv_manager.go:799-881 | the same for the entries of the owners of rows: what loses one is a load given up after caching, or rows committed over a cached conversation |
| `ConvAgreement.ArrivesUnlessLost` | micros/topicsrv/internal/core/convmgr/conv_manager.go:664-972 | over whole runs of any interleaving memory has, or is about to get, all of MsgSeq, entries and positions at every point if and only if no step loses any of them |
| `ConvAgreement.RestAgrees` | micros/topicsrv/internal/core/convmgr/conv_manager.go:1411-1471 | with nothing on its way, there or coming means equal to Redis and the rows |
| `ConvAgreement.AgreesAtRestIff` | micros/topicsrv/internal/core/convmgr/conv_manager.go:664-972 | after any run, with lost publishes, lost answers to clear-unread, given-up loads, cut clear-unreads, group creation and restarts: at rest memory agrees with Redis and the rows on MsgSeq, entries and every position if and only if each step that lost one of them was followed by one that restored it |
| `ConvAgreement.LostAnswerDisagrees` | micros/topicsrv/internal/core/convmgr/conv_manager.go:357-363 | from any state at rest and in agreement, a clear-unread whose script ran and whose answer was lost keeps agreement if and only if the user's entry had nothing to clear; otherwise the entry is left behind |
| `ConvAgreement.NoLoadUntilRestart` | micros/topicsrv/internal/core/convmgr/conv_manager.go:669-690 | a cached conversation with no load running is not loaded again before a restart |
| `ConvAgreement.LostUntilOwnOrRestart` | micros/topicsrv/internal/core/convmgr/conv_manager.go:1457-1464 | a position that was lost stays behind Redis through all other messages, results and clear-unreads until the user's own next number or clear-unread, or a restart |
| `ConvActivity.BehindStep` | micros/topicsrv/internal/core/convmgr/conv_manager.go:1411-1435 | for LastActiveTs and for LastMsgId: after any one step memory is not behind Redis, or something is still to bring it, if and only if it was so before and the step is no older load with nothing newer on its way, no loss of the last carrying result or load, no conversation cached without a load that writes the field; or a number, a result, an event, a load or a restart sets it right |
| `ConvActivity.AheadStep` | micros/topicsrv/internal/core/convmgr/conv_manager.go:498-516 | after any one step memory is not ahead of Redis if and only if it was so before and the step is no number with an older value, no result, event or load with a newer one than Redis'; or the step meets it |
| `ConvActivity.FieldAgreesAtRestIff` | micros/topicsrv/internal/core/convmgr/conv_manager.go:1411-1435 | after any run, at rest: LastActiveTs equals last_active_ts, and LastMsgId equals last_msg_id, if and only if each step that left it behind or took it ahead was made good by a later one |
| `ConvActivity.AgreesFullyAtRestIff` | micros/topicsrv/internal/core/convmgr/conv_manager.go:664-972 | after any run from a server that has just started, at rest: memory agrees with Redis on MsgSeq, entries, positions, LastActiveTs and LastMsgId if and only if everything a step cost was made good |
| `ConvActivity.LoadShows` | micros/topicsrv/internal/core/convmgr/conv_manager.go:1063-1085 | a load by itself shows Redis' msg_seq and last_active_ts; only a group's shows last_msg_id, a one-to-one chat shows zero (lines 787-797) |
| `ConvUnread.UnreadFormula` | micros/topicsrv/internal/core/convmgr/conv_manager.go:1458-1463 | after any run an UnreadCount is max(0, n - BrowseMsgSeq), where n is the number last written to the entry by a load, a result or a clear-unread |
| `ConvUnread.UnreadRightIff` | micros/topicsrv/internal/core/convmgr/conv_manager.go:303-310 | where the positions agree, the cached UnreadCount is the one recomputed from Redis if and only if the user has seen everything or the newest number is the one last written to the entry |
| `ConvUnread.UnreadStep` | micros/topicsrv/internal/core/convmgr/conv_manager.go:1437-1471 | from a state in which an entry counts up to msg_seq or the newest number is still to reach it, a step keeps that if and only if it does not write an older number into a lagging entry or take the newest number away from it |
| `ConvUnread.UnreadUnlessLost` | micros/topicsrv/internal/core/convmgr/conv_manager.go:1437-1471 | over whole runs that holds at every point if and only if there is no such step |
| `ConvRest.CacheEqualsSourceAtRest` | micros/topicsrv/internal/core/convmgr/conv_manager.go:1411-1471 | one-to-one chats, from any stored state, load and clear-unread each in one piece, everything else cut into its sections: with nothing on its way, memory and Redis agree on MsgSeq and both browse positions for any order of results; each UnreadCount is the one recomputed from Redis (lines 303-310) if and only if the user has seen everything or the newest number was the last written to the entry, and so it is when results came one by one in increasing order |
| `ConvRest.CalmAtRest` | micros/topicsrv/internal/core/convmgr/conv_manager.go:1411-1471 | where nothing is on its way, carried means agreed |
| `ConvRest.CalmRun` | micros/topicsrv/internal/core/convmgr/conv_manager.go:353-387 | along every such run everything is in memory or on its way, and in order every UnreadCount is up to date or its newest number still to come |
| `ConvWitness.OutOfOrderAcksMiscount` | micros/topicsrv/internal/core/convmgr/conv_manager.go:1458-1463 | numbers 1 and 2, handed to the queue 2 before 1 and answered in that order, leave a settled conversation whose cached unread count is 1 where Redis says 2 |
| `ConvWitness.SplitClearLeavesBrowseBehind` | micros/topicsrv/internal/core/convmgr/conv_manager.go:360-384 | a clear-unread whose memory half runs after a later result ends at rest, everything acknowledged, with the cached browse left behind Redis |
| `ConvWitness.GivenUpLoadLeavesNothing` | micros/topicsrv/internal/core/convmgr/conv_manager.go:774-776 | a load that fails once the conversation is cached leaves a one-to-one chat at rest with MsgSeq 0 beside msg_seq 1 and no entry for either user |
| `ConvWitness.LoadedChatLacksLastId` | micros/topicsrv/internal/core/convmgr/conv_manager.go:787-797 | from any one-to-one chat at rest over a store with a last_msg_id, a load that runs through ends at rest with everything Redis has but LastMsgId, which is zero |
| `ConvWitness.OlderTimeEndsAhead` | micros/topicsrv/internal/core/convmgr/conv_manager.go:1427-1430 | from any cached chat at rest, a message numbered with an older time than the one shown and acknowledged ends at rest with a LastActiveTs that Redis no longer has |
| `ConvConfluence.AcksConfluent` | micros/topicsrv/internal/core/convmgr/conv_manager.go:1411-1435 | any two series of results with the same elements, in any order and multiplicity, give the same conversation |
| `ConvConfluence.AcksJoin` | micros/topicsrv/internal/core/convmgr/conv_manager.go:1416-1431 | MsgSeq, LastMsgId and LastActiveTs after any series of results are the start joined with the maxima; members, last message and history are untouched |
| `ConvConfluence.BrowseConfluent` | micros/topicsrv/internal/core/convmgr/conv_manager.go:1446-1456 | a user's BrowseMsgSeq after a series of results does not depend on their order or repetition |
| `ConvConfluence.BrowseJoins` | micros/topicsrv/internal/core/convmgr/conv_manager.go:1449-1454 | BrowseMsgSeq is the start joined with the numbers of the user's own sends |
| `ConvLastMsg.KnownStep` | micros/topicsrv/internal/core/convmgr/conv_manager.go:1076-1080 | after any one step of any conversation the message shown is no newer than LastMsgId if and only if it was so before and the step is no group load that writes a last_msg_id older than it, or the step restores it |
| `ConvLastMsg.KnownIffRenewed` | micros/topicsrv/internal/core/convmgr/conv_manager.go:1076-1080 | over whole runs it is so at the end if and only if each such load was made good |
| `ConvLastMsg.NeverBackIff` | micros/topicsrv/internal/core/convmgr/conv_manager.go:181-194 | over any run LastMsg's id never goes back between restarts if and only if no message older than it is ever stored at an id not below LastMsgId |
| `ConvLastMsg.LastMsgNeverOlder` | micros/topicsrv/internal/core/convmgr/conv_manager.go:181-194 | over every run of a one-to-one chat, and of a group in which no load goes behind LastMsg, LastMsg's id never goes back between restarts |
| `ConvLastMsg.LargestStep` | micros/topicsrv/internal/core/convmgr/conv_manager.go:181-194 | from a state in which no stored message is newer than LastMsgId and LastMsg is the stored message with that id exactly when there is one, a step keeps it so if and only if it is no group load with a last_msg_id older than a stored message, or equal to that of one not shown |
| `ConvLastMsg.LastMsgIsTheLargestStored` | micros/topicsrv/internal/core/convmgr/conv_manager.go:181-194 | over whole runs from a server that has just started it is so at every point if and only if there is no such load |
| `ConvLastMsg.P2pShowsTheLargestStored` | micros/topicsrv/internal/core/convmgr/conv_manager.go:787-797 | in a one-to-one chat it is so over every run |
| `ConvLastMsg.GroupLoadTakesLastMsgBack` | micros/topicsrv/internal/core/convmgr/conv_manager.go:1063-1085 | a message stored between a group load's reading and its writing is later replaced by an older one, with no restart |
| `ConvProjection.ConvSectionsAreSteps` | micros/topicsrv/internal/core/convmgr/conv_manager.go:787-797 | each conversation section of the manager is the protocol's step of its conversation and touches no other |
| `ConvProjection.SyncMembersIsSteps` | micros/topicsrv/internal/core/convmgr/conv_manager.go:799-881 | the member loop of a load over the per-user wraps is one protocol step per item and touches no other conversation |
| `ConvProjection.AckMembersIsSteps` | micros/topicsrv/internal/core/convmgr/conv_manager.go:1437-1471 | the member loop of a publish result is one protocol step per member and touches no other conversation |
| `ConvProjection.ClearIsAStep` | micros/topicsrv/internal/core/convmgr/conv_manager.go:367-384 | the memory half of clear-unread is the protocol's step and touches no other conversation |
| `ConvProjection.LookupIsAStep` | micros/topicsrv/internal/core/convmgr/conv_manager.go:669-757 | the lookup section caches a conversation, or refuses, exactly when the protocol does |
| `ConvProjection.UpsertGroupIsAStep` | micros/topicsrv/internal/core/convmgr/conv_manager.go:389-496 | the memory half of creating a group chat, for any members asked for that include the owners of the rows, is the protocol's step, which comes any time after the commit: missing entries are added at zero, present ones are kept |
| `ConvSystem.ManagerRunsAreProtocolRuns` | micros/topicsrv/internal/core/convmgr/conv_manager.go:170-1471 | after any run of the manager, sections of all conversations in any order, the memory shows at every conversation exactly what the protocol's run of that conversation's own actions comes to |
| `ConvSystem.WholeMemoryIsBehind` | micros/topicsrv/internal/core/convmgr/conv_manager.go:170-1471 | so over every run of the manager no cached counter of any conversation is ahead of its store, and every user's entry has its conversation cached and its count within what is unseen |
| `ConvSystem.ListsGrowAtTheEnd` | micros/topicsrv/internal/core/convmgr/conv_manager.go:872-880 | over every run of the manager up to a restart a user's list keeps its order and only grows at its end |
| `ConvManager.ConvManager.SyncConversation` | micros/topicsrv/internal/core/convmgr/conv_manager.go:787-797 | the conversation half of a load: newer counters win, nothing else changes; the object indexes stay consistent |
| `ConvManager.ConvManager.SyncMembers` | micros/topicsrv/internal/core/convmgr/conv_manager.go:799-881 | the member loop of a load leaves exactly the loaded entries, one object each in list and index |
| `ConvManager.ConvManager.LookupP2p` | micros/topicsrv/internal/core/convmgr/conv_manager.go:669-757 | cached wins, rows load, no rows create, and each failing call refuses without caching |
| `ConvManager.ConvManager.LookupGroup` | micros/topicsrv/internal/core/convmgr/conv_manager.go:980-1033 | a group without rows is cached empty and loads nothing |
| `ConvManager.ConvManager.OnPublished` | micros/topicsrv/internal/core/convmgr/conv_manager.go:1411-1471 | one successful result: the conversation, then every member with the sender last |
| `ConvManager.ConvManager.ClearUnread` | micros/topicsrv/internal/core/convmgr/conv_manager.go:367-384 | sets browse to Redis' answer and unread to zero where the user has the entry, and changes nothing else |
| `ConvManager.ConvManager.UpsertGroupChatConv` | micros/topicsrv/internal/core/convmgr/conv_manager.go:389-496 | caches the conversation and gives each member an entry, keeping what is there, without duplicates in list or index |
| `ConvManager.ConvManager.UpdateGroupChatAfterCreatedEventSent` | micros/topicsrv/internal/core/convmgr/conv_manager.go:498-516 | joins last id and activity with the event's |
| `ConvManager.ConvManager.StoreMessage` | micros/topicsrv/internal/core/convmgr/conv_manager.go:176-219 | newest by id is shown, the history queue is trimmed from the front to msgCap |
| `ConvManager.ConvManager.OnMsgStored` | micros/topicsrv/internal/core/convmgr/conv_manager.go:170-244 | reports the new last message only when it is not older, with the unread counts of exactly the users who have an entry |
| `ConvManager.ConvManager.ReadUnread` | micros/topicsrv/internal/core/convmgr/conv_manager.go:221-243 | the counts of exactly the asked users who have an entry |
| `ConvManager.ConvManager.ConvList` | micros/topicsrv/internal/core/convmgr/conv_manager.go:557-662 | one row per entry in list order, never a hole: every listed conversation is cached |
| `ConvIds.P2pIdsIdentifyPairs` | micros/topicsrv/internal/core/convmgr/conv_manager.go:1478-1484 | both directions of a chat share one id, no group has it, and colon-free users share it only as the same pair |
| `ConvIds.GroupIdsIdentify` | external/emodel/chatmodel/group.go:26-28 | group ids identify groups |
| `ConvIds.SmallerUserFirst` | micros/topicsrv/internal/core/convmgr/conv_manager.go:1478-1484 | whoever sends, the user who comes first in string order is named first |
| `ConvIds.LeqIsLexicographic` | micros/topicsrv/internal/core/convmgr/conv_manager.go:1479-1479 | that order: a beginning comes before the whole, otherwise the first difference decides |
| `ConvIds.IdsIdentifyIffNoColon` | micros/topicsrv/internal/core/convmgr/conv_manager.go:1478-1484 | over the names of any alphabet and any least length the ids of private chats identify the unordered pair of users if and only if the alphabet has no colon |
| `RegistryRuns.StepKeeps` | micros/enginesrv/internal/core/connmgr/conn_manager.go:126-296 | every manager method keeps: wraps list exactly the surviving connections of their user in authentication order, states match bindings, slots hold at most one master |
| `RegistryTheorems.IndexesAgree` | micros/enginesrv/internal/core/connmgr/conn_manager.go:164-234 | over every run: a user has a wrap iff it has a live registered connection; conns has no duplicate and only connections registered under that user; the slave list is exactly the slaves of conns in order, within the limit; the master slot holds at most one, from conns |
| `RegistryTheorems.UnauthenticatedInNoWrap` | micros/enginesrv/internal/core/connmgr/conn_manager.go:368-386 | a connection that never authenticated, expired ones included, is in no wrap |
| `RegistryTheorems.SlaveEvictionIsFifo` | micros/enginesrv/internal/core/connmgr/conn_manager.go:207-232 | in every reachable state a slave's authentication appends it and, at the limit, evicts exactly the earliest surviving slave from both indexes, returned as the one silent item |
| `RegistryTheorems.SlaveCloseDeletes` | micros/enginesrv/internal/core/connmgr/conn_manager.go:284-288 | a close takes exactly that connection out of the queue and keeps the order |
| `RegistryTheorems.OnlyStaleClosesBreakTheSlot` | micros/enginesrv/internal/core/connmgr/conn_manager.go:282-283 | from an agreeing state, a step keeps every master slot equal to the masters of conns if and only if it is not the close of an already replaced master while the slot is taken |
| `RegistryTheorems.SlotAgreesUntilAStaleClose` | micros/enginesrv/internal/core/connmgr/conn_manager.go:186-233 | over whole runs the slots agree at every point if and only if no such close happens |
| `RegistryTheorems.AtMostOneMaster` | micros/enginesrv/internal/core/connmgr/conn_manager.go:186-233 | without such closes a user holds at most one master and at most maxSlaveConns + 1 connections |
| `RegistryTheorems.MastersAfterAuth` | micros/enginesrv/internal/core/connmgr/conn_manager.go:186-206 | an authentication leaves the user's surviving masters without the slot's holder and with the new master last; a slave's leaves them alone |
| `RegistryTheorems.OneMasterUnlessTheSlotLostIt` | micros/enginesrv/internal/core/connmgr/conn_manager.go:186-206 | from a state in which a user has at most one surviving master a step makes two if and only if it is a master's authentication beside a surviving master while the slot is empty |
| `RegistryTheorems.OneMasterIff` | micros/enginesrv/internal/core/connmgr/conn_manager.go:186-206 | over whole runs a user has at most one master at every point if and only if no such authentication happens |
| `RegistryTheorems.TwoMastersAfterAStaleClose` | micros/enginesrv/internal/core/connmgr/conn_manager.go:282-283 | with a stale close, a user ends up with two masters |
| `RegistryMonitor.ChecksAreConserved` | micros/enginesrv/internal/core/connmgr/conn_manager.go:132-136 | over every run: never two queued checks of a kind for a connection; a registered opened one has exactly one authentication check, a registered authenticated one exactly one ping check |
| `RegistryTimes.LastPingIsTheLatestSign` | micros/enginesrv/internal/core/connmgr/conn_manager.go:317-324 | over every timed run a registered connection's last ping time is the instant of its latest ping or of its authentication, whichever is later; before the first there is none |
| `RegistryTimes.SilentConnectionsAreClosed` | micros/enginesrv/internal/core/connmgr/conn_manager.go:388-418 | with queue lag at most D: a connection is authenticated at most until its latest ping or its authentication + pingInterval * (pingLostTimes + 1) + D |
| `RegistryTimes.PingedConnectionsAreKept` | micros/enginesrv/internal/core/connmgr/conn_manager.go:420-422 | a connection that from its authentication on pings at least every pingInterval * pingLostTimes is never closed by a ping check |
| `RegistryTimes.UnauthenticatedAreDropped` | micros/enginesrv/internal/core/connmgr/conn_manager.go:132-136 | with queue lag at most D: a connection that has not authenticated is in the table at most until its opening + authTimeout + D |
| `RegistryTimes.NothingHappensEarly` | micros/enginesrv/internal/core/connmgr/conn_manager.go:368-418 | but for its close and its authentication only two things happen to a connection: unauthenticated it is dropped, not before its opening + authTimeout; authenticated it is closed, not before it was silent for longer than tolerated and not within pingInterval of its latest check |
| `RegistryMonitor.TimeCanPass` | micros/enginesrv/internal/core/connmgr/conn_manager.go:298-315 | running the due checks always leads to a state in which time may pass, so the bound is not bought by stopping the clock |
| `ConnManager.ConnManager.AddWhenOpened` | micros/enginesrv/internal/core/connmgr/conn_manager.go:126-137 | registers the connection and queues its authentication check |
| `ConnManager.ConnManager.ModifyAfterAuthed` | micros/enginesrv/internal/core/connmgr/conn_manager.go:139-246 | binds, files, evicts and queues exactly as the registry function says, and returns its items; lists and tables hold the same objects |
| `ConnManager.ConnManager.CleanAfterConnClosed` | micros/enginesrv/internal/core/connmgr/conn_manager.go:256-296 | takes the connection out of the table and its user's wrap, empties the master slot when it was a master, drops an empty wrap |
| `ConnManager.ConnManager.ModifyAfterPingSuccess` | micros/enginesrv/internal/core/connmgr/conn_manager.go:317-324 | only the last ping time changes |
| `ConnManager.ConnManager.TakeAndRun` | micros/enginesrv/internal/core/connmgr/conn_manager.go:298-418 | the taker's turn: one due check leaves the queue and is run |
| `ConnManager.ConnManager.GetUsersConns` | micros/enginesrv/internal/core/connmgr/conn_manager.go:352-366 | for each asked user with connections, exactly the wrap's, in order |
| `ConnManager.ConnManager.WrapsListRegisteredObjects` | micros/enginesrv/internal/core/connmgr/conn_manager.go:475-500 | in every state of a run, each connection object a wrap lists is the one registered under its id |
| `ConnManager.UnusedIdsAreFresh` | micros/enginesrv/internal/core/connmgr/conn_manager.go:126-130 | along every run an id never used is held by no table or wrap, which is what opening asks |
| `ConnWraps.ListedStep` | micros/enginesrv/internal/core/connmgr/conn_manager.go:267-294 | with any number of connections of a user authenticating and closing, wraps as objects: from a state in which the user's wrap lists every connection that was filed, not pushed out and not closed through, a step keeps it so if and only if it is no close that runs the wrap it fetched empty while another one is under the user's name |
| `ConnWraps.ListedUnlessAnotherIsDeleted` | micros/enginesrv/internal/core/connmgr/conn_manager.go:267-294 | over every interleaving it is so at every point if and only if there is no such close |
| `ConnWraps.OnlyEvictedDeleteAnother` | micros/enginesrv/internal/core/connmgr/conn_manager.go:186-233 | only the late close of an evicted connection can be one |
| `ConnWraps.LateCloseDeletesANewWrap` | micros/enginesrv/internal/core/connmgr/conn_manager.go:267-294 | three masters of one user: a late close of the first deletes the third's new wrap and leaves it authenticated, registered and unlisted |
| `ConnLifecycle.StatesOnlyMoveForward` | micros/enginesrv/internal/core/connmgr/conn_manager.go:438-443 | under every interleaving of exchanges, stores and lock sections by any number of threads, states only move from opened to authed or closing, authed to closing, closing to closed; authed is passed exactly when an authentication won |
| `ConnLifecycle.AuthAndExpiryNeverBothWin` | micros/enginesrv/internal/core/connmgr/conn_manager.go:149-152 | at most one authentication or expiry check ever wins the connection |
| `ConnLifecycle.ExpiredConnectionsAreInNoWrap` | micros/enginesrv/internal/core/connmgr/conn_manager.go:377-385 | a connection killed by the authentication timeout is in no wrap and none is about to list it |
| `ConnLifecycle.BoundToOneUser` | micros/enginesrv/internal/core/connmgr/conn_manager.go:156-174 | it is bound to at most one user in its life, and listed at most once, by that user's wrap |
| `ConnLifecycle.BindingIsForGood` | micros/enginesrv/internal/core/connmgr/conn_manager.go:161 | a binding never changes, whatever runs afterwards |
| `ConnLifecycle.TableStep` | micros/enginesrv/internal/core/connmgr/conn_manager.go:368-386 | a winning expiry check's deletion and a close event take a connection out of the table; nothing else does |
| `ConnLifecycle.TakenOutForGood` | micros/enginesrv/internal/core/connmgr/conn_manager.go:256-272 | and it is out for good, whatever runs afterwards |
| `ConnLifecycle.ListedAfterCloseIffReadTooEarly` | micros/enginesrv/internal/core/connmgr/conn_manager.go:256-272 | a connection that was closed and not evicted is still listed at rest if and only if its close event looked for the user before the winning authentication filed it |
| `ConnLifecycle.MethodsInARowStrandNothing` | micros/enginesrv/internal/core/connmgr/conn_manager.go:139-296 | when the methods run one at a time a listed connection is always registered and nothing is left half done: the stranding needs the gap |
| `ConnLifecycle.CloseBeforeFilingStrands` | micros/enginesrv/internal/core/connmgr/conn_manager.go:149-156 | that interleaving exists |
| `WireFormat.DecodesExactlyTheFormat` | micros/enginesrv/internal/codec/fcodec/frame_codec_impl.go:55-155 | the decoder returns frame f consuming n bytes if and only if the buffer starts with the n bytes of the well-formed frame f |
| `WireFormat.VerdictsArePrefixStable` | micros/enginesrv/internal/codec/fcodec/frame_codec_impl.go:55-155 | a verdict other than incomplete is unchanged by any bytes appended, malformed input included |
| `WireFormat.RefusesExactlyWhen` | micros/enginesrv/internal/codec/fcodec/frame_codec_impl.go:55-155 | when each refusal is given and when the decoder waits, by the bytes: magic number before version, length before checksum, checksum before the payload's shape |
| `WireFormat.Layout` | micros/enginesrv/internal/codec/fcodec/frame_codec_impl.go:20-53 | the encoding byte by byte: CA FE, version 1, type, length and checksum in network order, protocol, sixteen bytes of request id, body; refused exactly above 1048576 bytes of payload |
| `WireFormat.RoundTrip` | micros/enginesrv/internal/codec/fcodec/frame_codec_impl.go:20-53 | what Encode makes of a frame decodes, whatever follows, to its type and payload and consumes exactly the encoding |
| `WireFormat.EncodeUndoesDecode` | micros/enginesrv/internal/codec/fcodec/frame_codec_impl.go:20-53 | a decoded frame with a payload encodes to the bytes it came from |
| `WireFormat.EncodingsArePrefixFree` | micros/enginesrv/internal/codec/fcodec/frame_codec_impl.go:39-50 | no frame's bytes are a proper prefix of another's |
| `WireFormat.WaitingIsBounded` | micros/enginesrv/internal/codec/fcodec/frame_codec_impl.go:83-112 | a decoder that waits holds less than a largest frame |
| `WireFormat.ImplementationsAgree` | examples/client/client.go:556-623 | client and server give the same verdict, fields and size on every byte string if and only if it is not a bare header with a checksum, which only the client accepts |
| `WireFormat.Interoperate` | examples/client/client.go:625-650 | each side decodes what the other encodes to the same fields |
| `FrameCodec.Codec.Encode` | micros/enginesrv/internal/codec/fcodec/frame_codec_impl.go:20-53 | fills its buffers with the frame's bytes, refused exactly above the payload limit |
| `FrameCodec.Codec.Decode` | micros/enginesrv/internal/codec/fcodec/frame_codec_impl.go:55-155 | peeks and discards as the verdict says: a frame consumes its size, anything else consumes nothing |
| `FrameCodec.Socket.ReadFull` | examples/client/client.go:560-567 | short reads, empty-handed ones included, fill exactly the buffer, or the socket failed first |
| `FrameCodec.Client.ReadFrame` | examples/client/client.go:556-623 | however the socket cuts its reads, the outcome is the client's verdict on the bytes it delivers |
| `Traffic.Engine.Serve` | micros/enginesrv/internal/drive/engine.go:108-157 | the callback: bounded decode loop, close on a bad frame or unknown connection, handler's action, wake when a full batch leaves bytes |
| `Traffic.BatchReads` | micros/enginesrv/internal/drive/engine.go:114-128 | the decode loop takes frames in stream order up to the limit, and stops early only at an incomplete or bad frame |
| `TrafficStreams.StreamingRoundTrip` | micros/enginesrv/internal/drive/engine.go:108-157 | encoded frames cut anywhere, wakes served any time, limit at least one: once settled the handler has exactly the original types, protocols, ids and bodies, the connection is open and the buffer empty |
| `TrafficStreams.NoPrefixIsRefused` | micros/enginesrv/internal/drive/engine.go:116-125 | while only a beginning of those bytes has arrived the connection stays open and the handler has a beginning of the frames |
| `TrafficStreams.DecodedFramesIgnoreChunking` | micros/enginesrv/internal/drive/engine.go:114-128 | for arbitrary bytes, once settled, the decoded frames and the verdict that ended them are functions of the bytes sent, not of their cutting; less than a batch of them misses the handler |
| `TrafficStreams.DecodedInOrder` | micros/enginesrv/internal/drive/engine.go:114-147 | whatever the handler, the manager or waking do, the handled frames are a beginning of the decoded ones, and those of the frames in the bytes sent |
| `TrafficEvents.ServedEvent` | micros/enginesrv/internal/drive/engine.go:108-157 | over every run, for each event the callback serves: the handler gets exactly the frames decoded when the manager knows the connection and decoding did not end at bad bytes, and otherwise nothing; the connection is closed exactly for bad bytes, for a stranger's frames, for a handler that says so and for a wake that fails; it is woken exactly when a whole batch left bytes and it stays open |
| `TrafficEvents.StrangersAreTurnedAway` | micros/enginesrv/internal/drive/engine.go:135-140 | a connection the manager does not know hands nothing over and is closed as soon as a frame is decoded |
| `TrafficEvents.AnswersForTheHandler` | micros/enginesrv/internal/drive/engine.go:141-147 | the callback's answer is the handler's when it is called and has one; it shuts down for nothing else |
| `TrafficStreams.SettledHoldsNoFrame` | micros/enginesrv/internal/drive/engine.go:148-154 | an open connection with no wake outstanding buffers no complete frame |
| `TrafficStreams.WakesRunOut` | micros/enginesrv/internal/drive/engine.go:148-154 | serving wakes ends, within the outstanding wakes plus one per smallest frame buffered |
| `TrafficStreams.HandledIgnoresChunkingIffBatchOfOne` | micros/enginesrv/internal/drive/engine.go:122-125 | the frames handed over are independent of cutting for all byte streams if and only if the batch limit is one: with more, good frames decoded in the same call as a bad one are dropped |
| `GroupCache.StepKeeps` | micros/topicsrv/internal/core/grpmgr/grp_manager.go:33-226 | with any number of handlers under way, each half of each handler, a handler that ends after its commit, each load and a restart keep cache, table and history in agreement |
| `GroupCache.FansOutTo` | micros/topicsrv/internal/core/grpmgr/grp_manager.go:228-267 | over every run of overlapping handlers a sender present in a normal group reaches, of the others no cache half is pending for, exactly those who are normal in the table, save those the cache was never told of or a late creation half wiped out, and the removed it was told to add or never told to remove; never itself |
| `GroupCache.LastChangeStep` | micros/topicsrv/internal/core/grpmgr/grp_manager.go:176-226 | in any reachable state, after any one step, the cache has a user in or out as the user's last change says, or a half is still to come, if and only if it was so before and the step is no half with another last word, no half that never comes, no load of a row left removed, or the step sets it right |
| `GroupCache.FanOutIsTheLastChangeIff` | micros/topicsrv/internal/core/grpmgr/grp_manager.go:244-254 | between handlers, after any run, a user is in the fan-out as the last change says if and only if every step that lost the user's change was made good by a later one |
| `GroupCache.CacheIsTheTableIff` | micros/topicsrv/internal/repostories/grouprepo/group_repository.go:371-379 | between handlers cached and stored normal members are the same set if and only if the cache was never told to add a removed member, left untold of a change, or wiped by a late creation half |
| `GroupCache.RemovalWorksIffRowIsNormal` | micros/topicsrv/internal/repostories/grouprepo/group_repository.go:389-412 | a permitted removal takes a cached normal member out of the fan-out if and only if its row is still normal; one who came back cannot be removed again |
| `GroupCache.CameBackUntilAStop` | micros/topicsrv/internal/repostories/grouprepo/group_repository.go:393-395 | and stays so, whatever runs, until the server stops |
| `GroupCache.CameBackLostByAStop` | micros/topicsrv/internal/core/grpmgr/grp_manager.go:100-135 | after a stop such a member is in no fan-out, whatever is loaded or runs, until added once more |
| `GroupWitness.ReaddedCannotBeRemoved` | micros/topicsrv/internal/repostories/grouprepo/group_repository.go:371-412 | a member removed and added again, handler by handler, is in the fan-out and the permitted removal finds nothing to remove |
| `GroupWitness.DroppedRemovalStays` | micros/topicsrv/internal/core/grpmgr/grp_manager.go:176-193 | so is a member whose removal was committed by a handler that ended before its cache half |
| `GroupWitness.OvertakenAdditionStays` | micros/topicsrv/internal/core/grpmgr/grp_manager.go:176-226 | so is a member added and removed by two handlers whose cache halves come the other way round |
| `GroupWitness.LateCreationLeavesOut` | micros/topicsrv/internal/core/grpmgr/grp_manager.go:33-64 | a creation half that comes after a member was added leaves that normal member out |
| `GroupCache.RefusedExactlyWhen` | micros/topicsrv/internal/core/convmgr/conv_manager.go:1262-1286 | when each refusal is given; a sender missing from a normal group is never refused and reaches nobody |
| `GroupRefusals.RemovalHalfRefuses` | micros/topicsrv/internal/core/grpmgr/grp_manager.go:176-193 | the cache half of a removal: each removed user in the member map of a normal group is from then on refused as removed, keeps role and mute, and is in nobody's fan-out; everyone else is as before |
| `GroupRefusals.KickedStep` | micros/topicsrv/internal/core/grpmgr/grp_manager.go:176-226 | after any one step a user is a removed member of the cache if and only if it was one before and the step is no half of its addition, no creation half and no stop, or the step is the half of its removal |
| `GroupRefusals.RefusedUntilTakenBack` | micros/topicsrv/internal/core/convmgr/conv_manager.go:1271-1273 | over every run a removed member stays one, and is refused as removed in a normal group, at every point if and only if no such half is taken and the server does not stop |
| `GroupRefusals.KickedIffRemovedLast` | micros/topicsrv/internal/core/grpmgr/grp_manager.go:176-226 | after any run a user is a removed member of the cache if and only if the last half that settled the user was a removal |
| `GroupRefusals.RefusedByTheRow` | micros/topicsrv/internal/core/grpmgr/grp_manager.go:100-135 | after a load a send is refused by the group's state and the mute in the sender's row; a removed member's is no longer refused, and reaches nobody |
| `GroupRefusals.PutInMaySend` | micros/topicsrv/internal/core/grpmgr/grp_manager.go:195-226 | whom a creation or an addition half puts in is a member without a mute, is not refused in a normal group and is in everybody's fan-out |
| `GroupRefusals.OnlyManagersChange` | micros/topicsrv/internal/handlers/hhttp/group_handler.go:738-750 | members are added or removed for a normal member who is owner or manager and for nobody else; a removal of nobody normal changes nothing |
| `GroupRefusals.CreationRoles` | micros/topicsrv/internal/repostories/grouprepo/group_repository.go:75-120 | a creation makes a normal group of exactly those named, the owner its owner and the others ordinary, and its half tells the cache the same |
| `GroupRefusals.RemovedRows` | micros/topicsrv/internal/repostories/grouprepo/group_repository.go:389-412 | a permitted removal marks the rows of exactly the requested normal members as removed and keeps their role and mute |
| `GroupCache.AddedRows` | micros/topicsrv/internal/repostories/grouprepo/group_repository.go:371-379 | the upsert keeps every existing row's role and state and inserts the rest as normal members |
| `GroupManager.GroupInfo.ReportFor` | micros/topicsrv/internal/core/grpmgr/grp_manager.go:228-267 | the scan of the member map returns the report's forward list without duplicates |
| `GroupManager.GroupManager.OnGroupCreated` | micros/topicsrv/internal/core/grpmgr/grp_manager.go:33-64 | caches every member as normal |
| `GroupManager.GroupManager.InitGroupInfoLazy` | micros/topicsrv/internal/core/grpmgr/grp_manager.go:76-149 | cached wins; otherwise what the tables answer is cached, or nothing when they fail |
| `GroupManager.GroupManager.OnSendMsgInGroup` | micros/topicsrv/internal/core/grpmgr/grp_manager.go:66-74 | loads when needed and reports for the sender |
| `GroupManager.GroupManager.OnGroupMebAdded` | micros/topicsrv/internal/core/grpmgr/grp_manager.go:195-226 | every added member becomes a new normal entry; the count includes removed members |
| `GroupManager.GroupManager.OnGroupMebRemoved` | micros/topicsrv/internal/core/grpmgr/grp_manager.go:176-193 | marks exactly the named members present, in place; an uncached group is left alone |
| `GroupManager.GroupManager.GetGroupMebUids` | micros/topicsrv/internal/core/grpmgr/grp_manager.go:151-174 | loads when needed; everyone in the member map, removed members included |
| `GroupManager.LazyLoadIsALoad` | micros/topicsrv/internal/core/grpmgr/grp_manager.go:76-149 | the manager's lazy load is the group model's load step and touches no other group |
| `GroupManager.CacheHalvesAreSettles` | micros/topicsrv/internal/core/grpmgr/grp_manager.go:33-226 | the manager's cache halves, with calls that work or fail, are the group model's settle steps and touch no other group |

## Left out

- SQL, Redis client, NSQ, RPC, HTTP and JSON: abstract maps and nondeterministic outcomes stand for them.
- Display and time fields of members and conversations (title, icon, remark, `Uts`), and `OnGroupDataChanged`, which only rewrites them.
- 64-bit width of sequence numbers, ids and times: unbounded integers are used.
- Interleaving below a lock section or a compare-and-swap, and the shared lock segments themselves.
- `SyncHotConvList` beyond the unread count it recomputes, and the ordering of the copied history in `convList`.
- ConvManager.ConvManager.UpsertGroupChatConv: the check and the write of its conversation half are one section here, as its separate locks are not modelled; title and icon are display fields.
- ConvProjection.UpsertGroupIsAStep: the conversation and the entries of all members are one step of the protocol.
- ConnWraps.ListedStep: reading the bound user and fetching its wrap are one step, as nothing is lost between them; a connection killed by a check closes like any other.
- ConvManager.ConvManager.SyncMembers: title, icon, remark and the other display fields of the loaded entries are not modelled.
- ConvManager.ConvManager.OnPublished: the entry's `Uts`, a display field, is not modelled.
- ConvManager.ConvManager.ConvList: the optional copy of the recent messages and the display fields of a row are not modelled.
- RegistryRuns.StepKeeps: authentication and close are one step each; what falls between their exchange, their reads and their lock sections is the subject of `ConnLifecycle` for one connection and of `ConnWraps` for all of a user's.
- ConnLifecycle.ListedAfterCloseIffReadTooEarly: a wrap deleted by another connection's late close counts as an eviction here.
- ConnManager.ConnManager.TakeAndRun: the delay queue hands out any due check, its order and blocking are not modelled.
- RegistryTimes.SilentConnectionsAreClosed: the queue's lag is a bound on when time may pass, not derived from the taker's loop.
- FrameCodec.Codec.Decode: a peek fails only for want of bytes; the source passes other errors through as a refusal.
- FrameCodec.Socket.ReadFull: only finitely many reads return neither bytes nor an error, as the loop would not end otherwise.
- FrameCodec.Codec.Encode: also stands for the client's `encodeFrame`, which has the same statements.
- GroupCache.LastChangeStep: a removal request for a member who came back changes neither table nor cache and is not a change.
- GroupManager.GroupManager.GetGroupMebUids: a set, as the order of the keys is arbitrary.
- The frame handler, message server, user cache, push handlers, routers, configuration and the interactive client: plumbing, or easy members.
- Who is told about evicted connections: the frame handler discards that result.
