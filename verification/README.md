# Cluster actor server: a Dafny model

The models and proofs in this directory describe the parts of the server that keep their own state and protocol: the
Consul-backed key-value cache and its watchers, the chat room grain with the node-wide room registry, the WebSocket
session layer with its outgoing queues, the RPC envelope, and the topology change detector. `dafny verify
dfyconfig.toml` verifies them all.

## What is modelled

**Cache and watchers** (`Remote`, `CacheSync`, `Lifecycle`, `KvStore`, `WatchProtocol`, `KvSteps`, `Convergence`,
`Agreement`, `LostKey`, `CasClients`, `LogClients`, `StaleRead`). The remote store is a growing history of snapshots,
bound only by the contract a blocking prefix query relies on: the index of a prefix never goes back and determines the
content under it, and the modify index of a key grows with each write and determines the value.
`Remote.LogMeetsContract` shows that a log-structured store meets it, and `LogClients` that the moves of the
compare-and-swap clients are writes to such a store. `KvStore` is the imperative side: a map of mutable entry objects,
merged in place, with a registry of watchers. Each method is specified by functions of `CacheSync` and `Lifecycle`.
`WatchProtocol` puts the same functions into a step system in which every `List` is taken at one moment and merged at a
later one, the index is stored before the merge, `Start` loads one prefix after the other under the registration mutex,
and removed watchers may still finish a round. `KvSteps` shows the methods to be runs of that system.

**Chat rooms** (`RoomLog`, `GoSlice`, `RoomReplies`, `ChatRoom`, `Pages`). A room is a class updated in place, with a
ghost log of its successful joins and leaves, accepted messages and creations. Its invariant says that members,
capacity, history and the number in the registry are the replay of that log, so each fact about all legal logs in
`RoomLog` is a fact about all runs of the room. Slices are modelled with base array, offset and length, so that sharing
between the room and the slices it hands out is visible. What each handler answers is a function of the room's value in
`RoomReplies`, and every method is proved to give that answer. What is said in a room is also told from the requests
alone (`ChatRoom.LinesAreRequests`).

**Sessions and queues** (`SendQueue`, `WsClient`, `Session`, `SessionHistory`, `SessionFaults`, `StuckUsers`,
`SessionRooms`, `WsManager`). The queue with its producers and the sessions with their rooms are step systems; what each
of them holds after a run is also told by folds over the steps of the run; `WsClient` has the write pump as a loop and
`WsManager` the handlers, cut where others may act, and every method is proved to be a run, or one step, of those
systems.

**RPC and users** (`MsgId`, `Messages`, `RpcEnvelope`, `UserGrain`, `GrainRpc`, `Encodable`). Tables, messages,
dispatcher and caller, the user grain's handlers, calls to both grains through their own handler tables, and why their
answers always encode.

**Topology** (`Topology`). The diff of two snapshots, its channel of ten events, and one subscriber.

## Findings

- The convergence one would expect, namely that the cache is right under every watched prefix once every registered
  watcher has caught up, does not follow from "no watcher was removed with a `List` in flight". When prefixes overlap,
  removing an idle watcher that is behind can leave a key wrong for ever (`LostKey.IdleRemovalCanLoseAKey`). The exact
  condition, key by key, is in `Convergence.ConvergesExactly` and `Convergence.RemovalLosesExactly`.
- `Stop` forgets the watchers, so a later `Start` watches nothing (`Lifecycle.RestartWatchesNothing`; exactly when a
  registration survives, `Lifecycle.RestartKeepsExactly`).
- A full room refuses even a user who is already in it, because that test comes first
  (`RoomLog.FullRoomRefusesItsMember`; exactly when, `RoomLog.MemberJoinsAgain`).
- Creating a room again sets its number in the registry to 0 while the members stay, and can put the capacity below the
  member count (`RoomLog.SecondCreationGoesWrong`; exactly when, `RoomLog.RegistryDrift` and
  `RoomLog.WithinCapacityExactly`).
- Two connections can be logged in as the same user: after a race of two logins (`SessionFaults.DoubleLogin`), and
  without any race after a logout, which leaves the user in the connection (`StuckUsers.LogoutThenLogin`). Exactly when
  is in `SessionFaults.OnePerUserExactly`.
- A second login on a connection leaves its first user stored with nobody to take the entry back, so that this user can
  never log in again (`StuckUsers.SecondLoginSticks`; exactly when, `StuckUsers.StuckExactly`). User 0 is never taken
  back at all (`StuckUsers.ZeroStays`).
- A join that is served after its caller gave up makes a member of a client that believes itself in no room
  (`StuckUsers.UnknowingMember`).
- A client can name a room that its user is not in: when another connection of the user leaves
  (`SessionFaults.SecondConnectionBreaksIt`), when a leave is served after its caller gave up
  (`SessionFaults.LostLeaveBreaksIt`), when the connection logs in a second time (`SessionFaults.SecondLoginBreaksIt`),
  and, for the time of one answer, in any leave (`SessionFaults.WindowIsReachable`). `SessionFaults.AgreesExactly` says
  which steps do it, for all runs, and `Session.WrongExactlyInTheWindow` what is left when they are not taken.
- A message to a client that does not read closes its queue when the queue is full, and the next message then panics;
  made from a connection's own goroutine that ends the process (`SendQueue.PanicIsReachable`; exactly when,
  `SendQueue.PanicsExactly`).
- The dispatcher overwrites a serialization error with the handler's code, so a response that does not encode would end
  in a call without an error and with a message the handler never made (`RpcEnvelope.SerializeErrorIsMasked`;
  `GrainRpc.MaskedErrorMisleads` shows it on the user grain's own table, with a codec made up to encode too little). The
  two grains are safe from it: in every run each of their responses encodes, whatever strings a field may hold
  (`Encodable.RoomsAlwaysAnswer`, `Encodable.UsersAlwaysAnswer`).
- Two pages of the room list may come from different orders of the registry, and then repeat one room and miss another
  (`Pages.TwoCallsCanMiss`). For any number of pages, they have every room if and only if they have none twice
  (`Pages.CallsTileExactly`); for two pages, if and only if both orders begin with the same page (`Pages.TwoCallsTile`).
- A client that reads the value of a cached entry first and its index later can lose an update; the other order is safe
  (`StaleRead.StaleValueIsAccepted`; exactly when, `CasClients.ValueThenIndexIsSafeExactly`;
  `CasClients.IndexThenValueIsSafe`).
- A message from somebody outside the room is refused with an OK code (`ChatRoom.ChatGrain.ChatSendMessageReq`).
- A change found while ten events wait is dropped, and no later poll repairs that by itself
  (`Topology.AMissedChangeIsReachable`, `Topology.PollingDoesNotRepair`). A drained subscriber is right all along if and
  only if no poll finds a changed map while ten events wait (`Topology.SubscriberIsRightExactly`);
  `Topology.StepRepairsExactly` says what puts a wrong one right.

## Model

| member | source | states |
|---|---|---|
| Remote.LogMeetsContract | internal/kvstore/kvstore.go:107-152 | A store that numbers its writes, deletions and compare-and-swaps meets, at all moments of every log, the contract the watchers are proved against |
| Remote.ContentIs | internal/kvstore/kvstore.go:107-152 | Over every log: a key holds the value and the index of the one entry that wrote it with no later write or deletion, and nothing if there is none |
| Remote.CasTakesExactly | internal/kvstore/kvstore.go:123-137 | Over every log: a compare-and-swap at an index above 1 changes the content if and only if the entry of that index wrote the key and no later entry wrote or deleted it; it then leaves its own value at its own index |
| Remote.CasCreatesExactly | internal/kvstore/kvstore.go:123-137 | At index 0 it changes the content if and only if no entry counts for the key |
| CacheSync.RecordsForward | internal/kvstore/watcher.go:109-128 | Through any listing a cached record keeps its creation time, never goes back, and changes only to a higher index listed for its own key |
| CacheSync.NewRecords | internal/kvstore/watcher.go:112-122 | A record that was not cached and now is was created and updated at that moment, with an item listed for its key |
| CacheSync.SyncIsMerge | internal/kvstore/watcher.go:103-144 | For every order of the listing, the insert, update and delete loops compute the key-by-key merge of the snapshot |
| CacheSync.MergeReplacesPrefix | internal/kvstore/watcher.go:123-142 | The index guard and the delete loop replace the whole prefix when nothing cached there is from after the snapshot, and leave all other keys alone |
| CacheSync.ListingsAgree | internal/kvstore/kvstore.go:155-186 | Listings of two stores that agree under a prefix are equal as multisets |
| KvStore.KVStore.SyncCache | internal/kvstore/watcher.go:103-144 | In-place merge: the new records and the new view are the merge of the old ones; an entry that stays is the same object, a new one is fresh, created and updated now and listed, a dropped one is left as it was |
| KvStore.KVStore.PutPair | internal/kvstore/watcher.go:112-129 | One listed pair: insert a new object, created and updated now, or update the existing one in place when strictly newer |
| KvStore.KVStore.DropMissing | internal/kvstore/watcher.go:134-142 | Exactly the keys under the prefix that were not listed are deleted, and no entry object is touched |
| KvStore.KVStore.WatchOnce | internal/kvstore/watcher.go:80-100 | Syncs if and only if the listing succeeded with a higher index; otherwise neither cache nor index changes |
| KvStore.KVStore.AddWatcher | internal/kvstore/watcher.go:19-42 | A second registration changes nothing; a new watcher has a loop exactly when the store runs |
| KvStore.KVStore.RemoveWatcher | internal/kvstore/watcher.go:45-58 | Closes the watcher's stop channel and forgets the watcher; an unknown prefix changes nothing |
| KvStore.KVStore.Start | internal/kvstore/watcher.go:147-177 | Each registered prefix is loaded once, in some order, failed listings are skipped, then every registered watcher gets one loop; a second call changes nothing |
| KvStore.KVStore.Stop | internal/kvstore/watcher.go:180-200 | Closes every registered stop channel once and forgets the watchers |
| KvStore.KVStore.GetEntry | internal/kvstore/kvstore.go:95-104 | Hands out the cached object itself, with the value and index of the view |
| KvStore.KVStore.ListFromCache | internal/kvstore/kvstore.go:174-186 | Returns every matching cached object exactly once |
| Lifecycle.LifecycleSafe | internal/kvstore/watcher.go:19-200 | Over every sequence of calls: no stop channel is closed twice, a registered watcher has one loop when running and none otherwise, an open channel belongs to a registered watcher |
| Lifecycle.RestartWatchesNothing | internal/kvstore/watcher.go:147-200 | Starting a store that was stopped while running starts no loop |
| Lifecycle.RestartKeepsExactly | internal/kvstore/watcher.go:147-200 | Stopping and starting keeps the registrations if and only if the store was not running or had none |
| WatchProtocol.BasicStep | internal/kvstore/watcher.go:19-200 | Every step of every watcher, call and remote change keeps the protocol invariant |
| WatchProtocol.NothingInvented | internal/kvstore/watcher.go:107-129 | In every reachable state each cached key, value and index occurred together in a past remote state |
| WatchProtocol.NothingRolledBack | internal/kvstore/watcher.go:123-128 | While a key stays cached its index never decreases and an equal index means an equal value, over every run |
| WatchProtocol.IndexesNeverGoBack | internal/kvstore/watcher.go:91-97 | A watcher's stored index never goes back, over every run |
| Convergence.Converges | internal/kvstore/watcher.go:80-144 | With overlapping prefixes: after every run with safe removals, once every registered watcher has caught up, the cache equals the remote store under every watched prefix |
| Convergence.OneMoreRoundConverges | internal/kvstore/watcher.go:61-144 | After any run with safe removals: once the store is at rest and every registered watcher has got one more listing and finished a round, in any interleaving, the cache equals the remote store under every watched prefix |
| Convergence.RoundRun | internal/kvstore/watcher.go:80-100 | A watcher that gets a listing after the last remote change and finishes the round is caught up at the end, whatever the others do meanwhile |
| Convergence.RoundCatchesUp | internal/kvstore/watcher.go:80-100 | From a listing of the newest snapshot the next step is a skip or a store and merge, and both end caught up; skipping on an unchanged index loses nothing |
| Convergence.RemovalLosesExactly | internal/kvstore/watcher.go:45-58 | After a removal a key is still going to be right if and only if it was right or another watcher covering it is behind |
| Convergence.ConvergesExactly | internal/kvstore/watcher.go:61-144 | With the store and the registrations at rest: when the watchers covering a key have caught up the cache is right about it if and only if it was right at first or one of them was behind |
| LostKey.IdleRemovalCanLoseAKey | internal/kvstore/watcher.go:45-58 | A state reached by removing only idle watchers, all caught up, in which a watched key is wrong and will stay so |
| Agreement.SnapshotAgreement | internal/kvstore/watcher.go:91-144 | With disjoint prefixes, outside the window between index and merge, the cache under a synced prefix is exactly the remote snapshot at the watcher's index |
| Agreement.CachedListingIsRemoteListing | internal/kvstore/kvstore.go:155-186 | For every prefix extending a synced one, the cached and the remote listing are equal as multisets |
| KvSteps.WatchOnceIsARound | internal/kvstore/watcher.go:80-100 | What the method does with a listing is the skip step, or the two steps that store the index and merge |
| KvSteps.StartIsARun | internal/kvstore/watcher.go:147-177 | What the method does is a run of the start's steps, with the same watchers and the same cache, the store changing as it likes before each listing |
| CasClients.IndexThenValueIsSafe | internal/kvstore/kvstore.go:95-141 | Reading the index of a live entry before its value: an accepted write was computed from what the store held |
| CasClients.ValueThenIndexIsSafeExactly | internal/kvstore/kvstore.go:95-141 | Reading the value before the index: an accepted write was computed from what the store held if and only if no sync changed the value in between |
| StaleRead.StaleValueIsAccepted | internal/kvstore/kvstore.go:95-141 | A run in which a value is read before and the index after a sync of the live entry: the store accepts the index and holds another value |
| CasClients.AcceptedMeansCurrent | internal/kvstore/kvstore.go:123-141 | A compare-and-swap with a pair read from the cache succeeds only when the store held exactly that value |
| LogClients.AcceptedExactly | internal/kvstore/kvstore.go:123-137 | Over the log-structured store a client is accepted if and only if its write takes effect there, that is, if and only if the entry of the index it holds is the last to have written or deleted the key |
| LogClients.CasIsAMove | internal/kvstore/kvstore.go:123-137 | The accepted write is the move of the client |
| LogClients.WriteIsAMove | internal/kvstore/kvstore.go:107-152 | Any write, deletion or compare-and-swap of somebody else is a move too |
| CasClients.InterleavingIsSerial | internal/kvstore/kvstore.go:95-141 | Any interleaving of read-compute-CAS clients, watchers and other writers leaves the store as the serial application of the successful writes |
| RoomLog.EventsAlternate | internal/grains/chat_grain.go:255-395 | Each user's events alternate, beginning with a join; a user is a member exactly when the number of events is odd |
| RoomLog.MembersAreJoinsMinusLeaves | internal/grains/chat_grain.go:255-395 | The member count is the number of joins minus the number of leaves |
| RoomLog.CapacityBounds | internal/grains/chat_grain.go:321-355 | The capacity stays positive, the count never exceeds the largest capacity ever in force, and its 32-bit conversion never truncates |
| RoomLog.WithinCapacityExactly | internal/grains/chat_grain.go:397-413 | The count was always within the capacity if and only if no creation asked for less than the members of that moment |
| RoomLog.MemberJoinsAgain | internal/grains/chat_grain.go:321-351 | A member who joins again hears "already in" if and only if there is room for one more, and "full" otherwise |
| RoomLog.OutsiderJoins | internal/grains/chat_grain.go:321-351 | Somebody else is let in if and only if the count is below the capacity, and hears "full" otherwise |
| RoomLog.FullRoomRefusesItsMember | internal/grains/chat_grain.go:321-327 | A room for one tells its one member that it is full |
| RoomLog.SecondCreationGoesWrong | internal/grains/chat_grain.go:403-425 | A run in which a second creation leaves a room overfull and the registry says that it is empty |
| RoomLog.RegistryDrift | internal/grains/chat_grain.go:302-425 | The registry's number is never above the count, right after a leave equal to it, and short by the joins since the last update plus everybody forgotten at a creation |
| RoomLog.HistoryIsBoundedSuffix | internal/grains/chat_grain.go:228-238 | The history is a suffix of all messages, at most 100 after an accepted message, at most 100 plus the joins and leaves since then, and never less than the last 100 |
| GoSlice.Append | internal/grains/chat_grain.go:228-230 | An append writes only just past the end of the slice, or copies into a new array |
| ChatRoom.RoomRegistry.UpdateRoomMembers | internal/grains/grain_registry.go:134-141 | The count of one known room is assigned through the shared object; an unknown room changes nothing |
| ChatRoom.RoomRegistry.GetAllRooms | internal/grains/grain_registry.go:145-154 | Every registered room exactly once |
| ChatRoom.ChatGrain.Push | internal/grains/chat_grain.go:291-370 | An append to the history disturbs no slice handed out before |
| ChatRoom.ChatGrain.GetRecentMessages | internal/grains/chat_grain.go:465-470 | The last `limit` messages of the replayed history, sharing the room's array |
| ChatRoom.ChatGrain.ChatJoinRoomReq | internal/grains/chat_grain.go:306-395 | Full, already in, or admitted: what is answered and encoded, that only an admission changes state, by the newcomer's entry and one logged note with these fields, and that the slice handed out is one of those that never change |
| ChatRoom.ChatGrain.ChatLeaveRoomReq | internal/grains/chat_grain.go:255-304 | Always OK; a member's leave takes out that member, logs one note with these fields and tells the registry the exact count, any other changes nothing and is told so |
| ChatRoom.ChatGrain.ChatSendMessageReq | internal/grains/chat_grain.go:197-253 | A member's message, with the sender, name, kind and content of the request and the room's identity, stamp and time, is answered and appended, and the history trimmed; anybody else is told so and changes nothing |
| ChatRoom.ChatGrain.ChatCreateRoomReq | internal/grains/chat_grain.go:397-436 | Replaces the registry's entry by a fresh one with the names and capacity of the request, the time and count 0, which is the object in the answer |
| ChatRoom.ChatGrain.ChatGetMessagesReq | internal/grains/chat_grain.go:118-142 | Limits outside 1 to 50 mean 20; the answer is that suffix of the history |
| ChatRoom.ChatGrain.ChatGetRoomUsersReq | internal/grains/chat_grain.go:144-166 | Every member exactly once |
| ChatRoom.ChatGrain.ChatGetRoomInfoReq | internal/grains/chat_grain.go:168-195 | The count reported is joins minus leaves, without truncation |
| RoomReplies.RoomAnswers | internal/grains/chat_grain.go:78-436 | Each of the eight handlers, in every state and on every request, answers with a message of the type that goes with the request and the code it returns, or with an error and no message |
| RoomReplies.AnswerFitsRoom | internal/grains/chat_grain.go:118-436 | The answer fits what becomes of the room: who is told to be in is a member, who left is not, the message answered is the newest of the history, a creation shows the room it made, and a reading changes nothing |
| RoomReplies.AnswersTile | internal/grains/chat_grain.go:85-114 | For each legal size the answers to pages 1 up to the ceiling are all rooms in order and later ones are empty; other sizes are answered as 50 and pages below 1 as page 1; the total is that of all rooms |
| ChatRoom.Serve | internal/grains/chat_grain.go:118-436 | Over any sequence of requests a history slice handed out at any time keeps its contents, the room stays the replay of its log, and what has been appended to it are the lines of the requests, in order |
| ChatRoom.LinesAreRequests | internal/grains/chat_grain.go:197-395 | Over any sequence of requests: what is appended is, in order and field by field, what the members of each moment asked to say, and the notes of those let in and of the members that left |
| Pages.PagesTile | internal/grains/chat_grain.go:85-114 | Pages 1 up to the ceiling, one after the other, are the whole list in order; later pages are empty |
| Pages.IndexesFit | internal/grains/chat_grain.go:85-114 | For every 32-bit request the 64-bit index arithmetic does not overflow |
| Pages.CallsTileExactly | internal/grains/grain_registry.go:145-154 | However each call orders the rooms, the pages of all calls have every room if and only if they have none twice |
| Pages.TwoCallsTile | internal/grains/grain_registry.go:145-154 | For a list of at most two pages: page 1 of one order and page 2 of another have every room, and none twice, if and only if the orders begin with the same page |
| Pages.TwoCallsCanMiss | internal/grains/grain_registry.go:145-154 | Two orders of two rooms whose pages 1 and 2 are the same room |
| ChatRoom.ChatGrain.ChatGetRoomListReq | internal/grains/chat_grain.go:78-116 | One page of an enumeration of the registry that has every room once, and its full length |
| SendQueue.DrainNeverBlocks | internal/api/websocket.go:120-124 | In every run each receive of the inner loop finds a buffered message |
| SendQueue.AcceptedExactly | internal/api/websocket.go:593-642 | Over every run: accepted are, in order, the messages of exactly those sends of either kind that found the queue open and shorter than 256 |
| SendQueue.DeliveryIsFifo | internal/api/websocket.go:98-136 | What is delivered is a prefix of the messages sent to an open queue with room; a close frame is last, single, and comes after all of them |
| SendQueue.CloseDrains | internal/api/websocket.go:105-113 | After a close, with writes succeeding and actors still sending, the pump is never stuck, stops within a bound of its own steps, and has then sent everything and the close frame |
| SendQueue.FramesByStep | internal/api/websocket.go:98-136 | Over every run: the frames are one text for each flush, one ping for each tick and one close frame, whose writes succeeded |
| SendQueue.StopsExactly | internal/api/websocket.go:98-136 | Over every run: the pump has stopped if and only if a write failed or the close frame went out |
| SendQueue.PanicsExactly | internal/api/websocket.go:593-605 | A run ends in an unrecovered panic if and only if its last step is a send that nobody recovers and an earlier one had found the queue full and closed it |
| SendQueue.PanicIsReachable | internal/api/websocket.go:593-605 | For every message: 258 unrecovered sends without a receive panic |
| SendQueue.FramesSplitIntoMessages | internal/api/websocket.go:110-125 | Splitting the frames on newlines gives a prefix of the messages sent to an open queue with room, when none contains a newline |
| WsClient.WSClient.SendToClient | internal/api/wsclient.go:77-89 | Puts the very message at the end of an open queue with room, closes a full one, or panics on a closed one, which ends the process unless it is recovered |
| WsClient.WSClient.SendToUser | internal/api/websocket.go:608-642 | Puts the very message at the end of an open queue with room, drops it when the queue is full, or panics on a closed one, which ends the process unless it is recovered |
| WsClient.WSClient.WriteBatch | internal/api/websocket.go:106-125 | One frame of exactly the messages queued when it is opened, whatever is sent meanwhile, unless the process panics or a write fails, which stops the pump; undisturbed it empties the queue |
| WsClient.WSClient.OneTurn | internal/api/websocket.go:104-134 | A tick pings; an undisturbed turn empties the queue, and goes on unless the queue was empty and closed, when the close frame is out |
| WsClient.WSClient.WritePump | internal/api/websocket.go:98-136 | The loop is a run of the queue's steps, so its frames are in order and the close frame comes last, after everything accepted; one undisturbed turn empties the queue and two finish a closed one |
| Session.SessionAgreesWithRoom | internal/api/websocket.go:367-455 | In every orderly run a live client's room has the client's user among its members, lost join answers included, except between the serving of its leave and the answer |
| Session.WrongExactlyInTheWindow | internal/api/websocket.go:367-455 | In every orderly run that waits for its joins a live client's room has the client's user if and only if no served leave of that client is still unanswered |
| SessionFaults.StepBreaksExactly | internal/api/websocket.go:166-455 | For each step: sessions and rooms that agreed before it agree after it if and only if it is not one of five kinds |
| SessionFaults.AgreesExactly | internal/api/websocket.go:166-455 | Over every run: sessions and rooms agree all the way if and only if no step of those kinds is taken |
| SessionFaults.LeaveBreaksExactly | internal/api/websocket.go:426-443 | Serving a leave breaks the agreement if and only if another live connection of the user counts on the room |
| SessionFaults.LoginDoublesExactly | internal/api/websocket.go:180-199 | A login leaves one connection per user if and only if no other live connection holds the user at that moment |
| SessionFaults.OnePerUserExactly | internal/api/websocket.go:180-199 | Over every run: one connection per user all the way if and only if no login sets a user that another live connection holds |
| SessionFaults.DoubleLogin | internal/api/websocket.go:180-199 | For every user some run of two racing logins leaves two live connections logged in as that user |
| StuckUsers.LogoutThenLogin | internal/api/websocket.go:257-300 | For every user: a login, its logout and a login over a second connection, without a race, leave two live connections of that user |
| StuckUsers.UserComesBack | internal/api/websocket.go:180-199 | For every user: a login, its disconnection and a login over a second connection is a run |
| StuckUsers.StuckExactly | internal/api/websocket.go:180-199 | A stored user can never log in again, in any run from there, if and only if no live connection is or is about to be that user's |
| StuckUsers.SecondLoginSticks | internal/api/websocket.go:192-199 | For every two users: a login as one and then as the other on the same connection leaves the first stuck |
| StuckUsers.ZeroStays | internal/api/websocket.go:580-587 | User 0 once stored stays stored in every run |
| StuckUsers.UnknowingMember | internal/api/websocket.go:391-422 | A run in which a join served after its caller gave up makes a member of a client in no room |
| SessionHistory.ClientsHistory | internal/api/websocket.go:192-590 | Over every run: who is stored for a user is the connection of the last login stored, unless a connection that was then the user's has since gone or logged out |
| SessionHistory.LeavingFrees | internal/api/websocket.go:180-590 | Once a connection of a user has gone or logged out, every live connection that is ready may log in as that user |
| SessionHistory.ConnHistory | internal/api/websocket.go:166-455 | Over every run: a connection is live, has the user of its last login, and believes itself in the room of its last admitted join that no answered leave has followed |
| SessionHistory.SeatHistory | internal/grains/chat_grain.go:255-395 | Over every run: a user sits in a room if and only if a join of the two has been served and let in, awaited or not, and no leave since |
| SessionHistory.CapacityHistory | internal/grains/chat_grain.go:397-413 | Over every run: the capacity is that of the last creation that named one |
| SessionHistory.StrayHistory | internal/api/websocket.go:391-437 | Over every run: the requests still on their way are those whose callers gave up, less those served or lost since |
| SessionRooms.JoinIsServed | internal/grains/chat_grain.go:306-395 | The join of the session system is the room handler's, as far as seats go, and lets the client in exactly when the answer is OK |
| SessionRooms.LeaveIsServed | internal/grains/chat_grain.go:255-304 | Its leave is the room handler's, which always answers OK |
| SessionRooms.CreationIsServed | internal/grains/chat_grain.go:397-436 | Its creation is the room handler's |
| SessionFaults.SecondConnectionBreaksIt | internal/api/websocket.go:426-443 | A run in which the leave of one of a user's two connections makes the other's room wrong |
| SessionFaults.LostLeaveBreaksIt | internal/api/websocket.go:426-443 | A run in which a leave served after its caller gave up makes its own client's room wrong |
| SessionFaults.SecondLoginBreaksIt | internal/api/websocket.go:192-199 | A run in which a second login on a connection makes its room wrong |
| SessionFaults.WindowIsReachable | internal/api/websocket.go:437-443 | A run that ends between the serving of a leave and its answer, with a client naming a room its user is not in |
| SendQueue.InvStep | internal/api/websocket.go:98-136 | Every step of a producer or the pump keeps: what is delivered, in hand and queued is what was accepted, in order |
| Session.InvStep | internal/api/websocket.go:166-455 | Every orderly step of every connection and room keeps the agreement of sessions and rooms |
| WsManager.WebSocketManager.CheckLogin | internal/api/websocket.go:180-190 | The first critical section of a login is the check step of the session system |
| WsManager.WebSocketManager.SetFields | internal/api/websocket.go:192-195 | The client takes the user before the lock is taken |
| WsManager.WebSocketManager.StoreLogin | internal/api/websocket.go:197-199 | The second critical section stores the client without checking again |
| WsManager.WebSocketManager.BeginJoin | internal/api/websocket.go:367-394 | A request reaches a room exactly when the client is logged in and names one |
| WsManager.WebSocketManager.JoinAnswered | internal/api/websocket.go:404-422 | Only an OK answer makes the room the client's room |
| WsManager.WebSocketManager.BeginLeave | internal/api/websocket.go:426-437 | A request is sent exactly when the client has a login and a room |
| WsManager.WebSocketManager.LeaveAnswered | internal/api/websocket.go:438-448 | An OK answer clears the client's room |
| WsManager.WebSocketManager.UnregisterClient | internal/api/websocket.go:580-590 | Drops whichever connection is stored under the client's user, and nobody else; a client without a login drops nobody |
| MsgId.TablesAreInverse | gen/msgid.pb.go:60-111 | The two message-id tables are inverse to each other |
| RpcEnvelope.BaseGrain.RegisterMsgHandler | internal/grains/base_grain.go:55-66 | The first registration of an id wins |
| RpcEnvelope.BaseGrain.Receive | internal/grains/base_grain.go:155-180 | The request's own envelope becomes the answer |
| RpcEnvelope.Rpc | internal/global/global.go:57-99 | The in-place call computes the result of the value-level call: an error if it does not reach a handler, and a message only if the handler returned OK |
| RpcEnvelope.NotDeliveredFails | internal/global/global.go:57-92 | A call that does not reach a handler ends in an error, and which one says why |
| RpcEnvelope.MessageOnlyOnOk | internal/global/global.go:57-99 | For every table, codec, transport, address and request: a message comes back only if the call reached a handler that returned OK |
| RpcEnvelope.WhatArrives | internal/global/global.go:57-99 | And it is the handler's own, or, when that does not encode, what the request's bytes read as in its place, or the request when there was none |
| RpcEnvelope.RpcIsFaithful | internal/global/global.go:57-99 | For any handler table: an error becomes a system error with its code; with an OK the caller gets the handler's message if and only if it encodes, and not to nothing between nodes |
| GrainRpc.RoomRpcIsFaithful | internal/grains/chat_grain.go:52-76 | For each of the eight room handlers, in every state: the outcome is the handler's on the request that was sent; an error becomes a system error; an OK comes with the matching response, whose body says OK, and the caller gets it if and only if it can be marshalled |
| GrainRpc.UserRpcIsFaithful | internal/grains/user_grain.go:44-160 | The same for the four handlers of the user grain, in every state |
| RpcEnvelope.UnknownRequestFails | internal/grains/base_grain.go:176-179 | A request without a handler becomes a system error |
| RpcEnvelope.SerializeErrorIsMasked | internal/grains/base_grain.go:166-174 | When an OK response cannot be marshalled the caller decodes its own request's bytes as the response, on one node or between two, unless there are none to travel |
| GrainRpc.MaskedErrorMisleads | internal/grains/base_grain.go:166-174 | With the user grain's own handler, in every state, and a lawful codec made up to encode two messages only: the call succeeds with another message, whose own code is not OK |
| Encodable.RoomsAlwaysAnswer | internal/global/global.go:57-99 | After any run of calls to any rooms and users, a call to a room that gets through returns the handler's response or its error; no response fails to encode, if a message encodes exactly when its fields may hold their strings |
| Encodable.UsersAlwaysAnswer | internal/global/global.go:57-99 | The same for a user grain, but for the chat message it sends back, which between nodes has to have bytes |
| Encodable.CountHistory | internal/grains/grain_registry.go:113-154 | Over every run of calls: the number the registry lists for a room is 0 from its creation and then that of the members left at the last leave |
| RpcEnvelope.NoResponseEchoesRequest | internal/grains/base_grain.go:157-174 | A handler that returns OK without a message, as `internal/api/ws_grain.go` has one, sends the request back, or an error when it has no bytes to travel; the two lemmas on the grains show that no room or user handler is one |
| UserGrain.Grain.Handle | internal/grains/user_grain.go:62-160 | New state and encoded answer of the four requests; a message exactly with code OK, carrying that code in its body when it is a response |
| UserGrain.OnlineWhileLoggedIn | internal/grains/user_grain.go:107-160 | Over any sequence of requests a user is online exactly while a login is active, with its session; name, number and time are those of the last login; the user is never in a room |
| Topology.FlagsExactly | internal/server/consul_provider.go:233-254 | A change is flagged if and only if the name-to-liveness map differs or the list contradicts itself, which distinct names rule out |
| Topology.ConsulProvider.UpdateTopology | internal/server/consul_provider.go:221-274 | The loops flag exactly that and rebuild the members: the names of the list, each with the list's last entry of that name; one event, the very list, is sent or dropped; a failed query changes nothing |
| Topology.ByNameKeeps | internal/server/consul_provider.go:256-260 | A name is kept if and only if the list has it, with the whole of its last entry |
| Topology.MembersHistory | internal/server/consul_provider.go:256-260 | Over every run: the members are those of the last answered poll, flagged or not |
| Topology.EventsHistory | internal/server/consul_provider.go:221-274 | Over every run: the subscriber has had, in order, the very lists of the polls that found a change and room, and the rest of them waits |
| Topology.StepLosesExactly | internal/server/consul_provider.go:221-274 | A subscriber that is right, or will be when it has drained the channel, stays so through a step if and only if the step is not a poll that finds a changed map while ten events wait |
| Topology.SubscriberIsRightExactly | internal/server/consul_provider.go:221-274 | Over every run: a drained subscriber is right all along if and only if there is no such poll |
| Topology.StepRepairsExactly | internal/server/consul_provider.go:221-274 | One that is wrong is put right by exactly two kinds of poll |
| Topology.DrainedSubscriberKnows | internal/server/consul_provider.go:256-274 | In every run a drained subscriber knows who is alive unless the latest change event was dropped |
| Topology.PollingDoesNotRepair | internal/server/consul_provider.go:233-274 | Without a new change, no number of polls alters what a drained subscriber knows |
| Topology.AMissedChangeIsReachable | internal/server/consul_provider.go:264-273 | Some run drops an event and leaves the drained subscriber wrong |

## Left out

- Consul, protoactor, gRPC, gorilla and protobuf internals: they appear as contracts only (versioned store, one message
  at a time per actor, FIFO channel, a codec that is invertible where a lemma says so).
- Consul index rewinds after a restart: outside the contract of the remote store.
- The 64-bit width of Consul's indexes: they are natural numbers.
- Clock readings, message ids and the growth of a reallocated slice are parameters; ids are not assumed to be distinct.
- KvStore.KVStore: a watcher is a pointer shared by the registry and its goroutine; here it is a number into `made`,
  which keeps the sharing. Its goroutine is not a loop but the steps of `WatchProtocol`.
- KvStore.KVStore.Start: holds no lock as a method; the interleavings of its load with the other watchers are in
  `WatchProtocol`.
- Set, SetWithCAS, Delete and the remote List as network calls: their effect is a new snapshot, and their errors change
  nothing.
- Convergence.Converges: asks for more than "no watcher removed with a `List` in flight", because that alone is not
  enough; see the findings.
- LostKey.IdleRemovalCanLoseAKey: that the key stays wrong is `Convergence.ConvergesExactly` for that state.
- WsClient.WSClient.WritePump: write deadlines, and a first write error that shows only when the frame is closed.
- Session.SessionAgreesWithRoom: says nothing between a room's serving of a leave and the answer, where the client still
  names the room; `Session.WrongExactlyInTheWindow` does.
- WsManager.WebSocketManager.SetFields: the username, the session id, the call of the user grain and the topic
  subscription are not modelled.
- Encodable.RoomsAlwaysAnswer: that a message encodes exactly when its strings may be held is a law assumed of the
  codec, as are the addresses and the formatted message ids being such strings.
- SendQueue.CloseDrains: sends from a connection's own goroutine are not among those interleaved, since on a closed
  queue they end the process.
- CasClients.ValueThenIndexIsSafeExactly: an entry object that has been dropped from the cache is not followed; it no
  longer changes.
- ChatRoom.ChatGrain: the publication of messages to subscribers, and the member's call of the user grain.
- Decoding of requests: a request is decoded or absent.
- BeforeTimestamp of a message request is ignored by the program, and so here.
- UserGrain.Grain.Handle: the branch that leaves the current room, which no request sequence reaches.
- Grain activation, passivation and rebalancing: a grain lives for the whole run; the instance half of the grain
  registry.
- Topology.ConsulProvider: `Stop` closes the channel, possibly during a send; heartbeats and registration; the single
  poller is the only writer, so a poll is one step.
- Telemetry, HTTP handlers, configuration, start-up and the web pages: no state of the kinds above.
