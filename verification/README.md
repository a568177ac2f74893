# Efir in Dafny

Efir is a messenger written in Go. Most of its services are thin layers over a database, a cache and a
broker; this project models the parts that keep state over many calls and proves what that state stays
true to, for every run and every interleaving.

`dafny verify dfyconfig.toml` checks everything. Nothing here runs the Go program. Paths with line numbers are
paths in the messenger's repository; its own `README.md` is cited as "the messenger's README.md".

## What is modelled

**Rooms** (`RoomTables`, `RoomRepository`, `RoomProtocol`, `RoomService`, `RoomEventLog`). A service call checks one
thing, checks another, and then acts; other calls come in between. Every call is a request with a
program counter, every repository or publisher call one atomic step that may work, fail, or work and
still report a failure. The proof is rely and guarantee: a call relies on facts it has checked (the
room's id was used, its type, the creator), and every step of every other call guarantees not to break
them. Separately, a call that nobody interrupts is shown to do exactly what its request means, and the
service object's methods do the same thing. `RoomEventLog` says for every run of overlapping calls when a
consumer of the published events is right about the members: exactly as long as no event that is still to
be published has become untrue.

**The hub** (`Hub`). Three cross-indexed maps against one relation of (connection, room) pairs, for any
order in which the event loop picks requests from its queues.

**Connections** (`Connection`). The bounded outbound queue and the read, write and ping pumps as a state
machine over channel operations, socket operations and cancels.

**Sessions** (`TokenRepository`, `Sessions`, `AuthService`). Sign-in, refresh and logout interleave, and
a refresh consumes the old token and saves the new one in two separate steps.

**The rate limiter** (`RateLimit`). The counter with an expiry, and what it lets through over windows and
over sliding intervals.

**Messages** (`MessageContent`, `MessageStore`, `MessagePaging`, `MessageProtocol`, `MessageService`).
Typed content from the request to the column and back; the page read against a sorted listing; walks
through a room whose table changes between the pages; sends and deletions as interleaved calls.

**User creation** (`Users`) from events that are delivered any number of times, and **the retry loop**
(`Retry`) around calls to the room service.

Code that changes a store or an object step by step is a class whose methods are proved against
functions on values; the whole-run results are lemmas about those functions. The machines take total
steps: an action that is not enabled changes nothing, so every sequence of actions is a run.

## Assumptions

- Generated uuids are fresh. A new room's id and a new token were never used before; a new message's id
  is not in the table.
- One SQL statement, one Lua script, and the serializable transaction that creates a room, is atomic. A
  transaction that has to be retried by its caller shows up as a failing step.
- `(created_at, id)` orders messages strictly. `created_at` need not follow the order of insertion.
- Time is a natural number; in the rate limiter it counts milliseconds.
- Deleting a room deletes its member rows, and a member row needs its room (schema at the messenger's README.md:470-486).
- The handler registers a connection with one user id, which is not empty.
- A read on a cancelled context returns an error. Whether a write or a ping then fails is left open.
- A channel of capacity zero counts as one slot: the hub has the request as soon as it is sent, and the slot is
  taken until the hub is done with it. Which of several queued requests are the connection's own is left open
  but for their order within one queue.
- A Valkey key is gone from the very moment of its deadline on, and deadlines are exact to the millisecond.
- Ids, emails, usernames and outbound data are numbers that are only compared.

## What the code does not give

- A client's subscribe request and its disconnect wait in different channels. If the loop picks the
  disconnect first, the later subscription of the dead connection stays in the hub
  (services/websocket/internal/hub/hub.go:117-139). `Hub.LastRequestDecides` says exactly when in terms of the
  picks, and `Connection.LingersExactlyIf` for a connection whose pumps are done and whose requests are all
  taken. `Connection.ForgetsExactlyIfUnbuffered`: no run leaves such a subscription exactly if the hub's queues
  have no buffer, since then the reader's requests are taken in the order it sends them. The shipped size is 256
  (services/websocket/internal/config/config.yaml:6).
- The room event log is right as long as no pending event has become untrue, and once one has, publishing
  what is pending can leave it wrong without any failure: `RoomEventLog.LogIsReliableExactlyIfNeverStale` is
  the equivalence. Calls that come one after the other on each room never get there
  (`RoomEventLog.LogRefinesTables`); from every reachable state with a right log and a group room that has a
  member besides its owner, overlapping calls can (`RoomEventLog.LogCanBeMisled`).
- A logout succeeds with any token of a session, but ends the session only if no refresh is between its two
  steps and no other token of the session is live. So it fails to end it in two ways: a refresh is under way,
  or a refresh has already replaced the presented token, as when a second tab logs out with the old one.
  `Sessions.LogoutEndsSession` is the equivalence, `Sessions.LogoutDuringRefresh` a run of the first kind and
  `Sessions.LogoutWithReplacedToken` one of the second.
- docs/adr/010-user-service.md:47-58 describes the insert with ON CONFLICT DO NOTHING. The statement at
  services/user/internal/repository/user.go:63-67 has no such clause, so the branch for "no rows" at
  lines 74-83 is never taken, and losing a race for the id or the name is a plain error that ends in Nak
  without another attempt. `Users.NakExactlyIf` says when a delivery ends in Nak although its own statements
  work, `Users.RaceFromTheStart` is a run with it. A delivery for a user who exists when it starts is
  acknowledged in every interleaving (`Users.RedeliveryIsAcknowledged`); one whose user is still missing may
  lose again.
- The messenger's README.md:311 lists VIDEO_STICKER and EVENT among the supported types. No request with them is accepted
  (`MessageContent.AcceptedExactlyIfAcceptable`).
- The rate limiter's window loses its fraction of a second. One window as configured lets up to 2 * limit - 1
  calls through without a fraction, 2 * limit with a fraction of one millisecond, and 3 * limit - 1 with a
  larger one; each is reached. So the bound of one window holds as configured exactly for whole seconds
  (`RateLimit.WholeSecondsKeepTheBound`).
- Deleting a message that is already deleted is answered with an internal error and not with "not found": the
  repository's error for it is handed on unmapped (services/message/internal/service/message.go:180), and the
  handler knows only the service's own. The same handler answers a caller who is no member with an internal
  error. `MessageProtocol.DeletionIsAnswered` gives all cases for an undisturbed deletion and
  `MessageProtocol.DeletionIsAnsweredInAnyRun` for any; a message that is live when the deletion reads it and
  deleted by another call before the update is answered the same way (`MessageProtocol.DeletionsRace`).
- The page read decodes the look-ahead row as well, so an undecodable row would also fail the page before
  it. In a table written by SendMessage there is none (`MessageProtocol.PageReadsNeverFail`).

## Model

| member | source | states |
|---|---|---|
| RoomTables.CreateRoomKeeps | services/room/internal/repository/room.go:73-152 | The transaction keeps the tables well formed (one owner row per room, direct rooms of two, one direct room per pair, no member without a room) exactly if a direct room comes with a participant other than its creator, which only the service checks |
| RoomTables.RemoveMemberKeeps | services/room/internal/repository/room.go:234-247 | Removing anyone but the creator from a group room keeps the tables well formed, whatever has happened since the checks |
| RoomTables.AddMemberKeeps | services/room/internal/repository/room.go:212-232 | Adding a plain member to a group room, or to a room that is gone by now, keeps the tables well formed |
| RoomTables.DeleteRoomKeeps | services/room/internal/repository/room.go:197-210 | Deletion with its cascade keeps the tables well formed |
| RoomTables.RoleTellsCreator | services/room/internal/repository/room.go:297-313 | In well-formed tables the stored role is owner exactly for the user who created the room |
| RoomRepository.Repository.CreateRoom | services/room/internal/repository/room.go:73-128 | The statements of the transaction add up to the transaction as a function on the tables; a duplicate direct room changes nothing |
| RoomRepository.Repository.DeleteRoom | services/room/internal/repository/room.go:197-210 | Takes the room and all its member rows, or reports that there is no such room |
| RoomRepository.Repository.AddMember | services/room/internal/repository/room.go:212-232 | Inserts one row, or changes nothing if the member exists or the room does not |
| RoomRepository.Repository.RemoveMember | services/room/internal/repository/room.go:234-247 | Removes exactly one row, or reports that there is none |
| RoomRepository.Repository.GetRoomMembers | services/room/internal/repository/room.go:249-276 | The rows of the room, each user once, with the stored roles, none missing |
| RoomProtocol.StepKeepsTables | services/room/internal/service/room.go:57-333 | A step of any call keeps the tables well formed, using only what that call relies on |
| RoomProtocol.StepGuarantees | services/room/internal/service/room.go:57-333 | No step reuses a room id or changes a room's type or creator |
| RoomProtocol.RelianceIsStable | services/room/internal/service/room.go:207-308 | What a call has checked stays true through the steps of others |
| RoomProtocol.StepEstablishes | services/room/internal/service/room.go:207-308 | Each check gives the call what it relies on next, among others that the user to be removed is not the creator |
| RoomProtocol.EveryRoomHasItsOwner | services/room/internal/service/room.go:57-333 | In every reachable state of interleaved calls each room has exactly one owner row, its creator's |
| RoomProtocol.AtMostOneDirectRoom | services/room/internal/repository/room.go:73-152 | In every reachable state two users share at most one direct room |
| RoomProtocol.DirectRoomsAreFrozen | services/room/internal/service/room.go:216-218 | A direct room has the same two members, its creator and one other, from creation to deletion |
| RoomService.RunAloneIsOutcome | services/room/internal/service/room.go:57-333 | The steps of an uninterrupted call add up to the meaning of its request: result, tables and events |
| RoomService.OutcomeIsAnnounced | services/room/internal/service/room.go:77-94 | A call's event turns the old membership into the new one and is addressed to the members right after the change, or right before a deletion |
| RoomService.CallsInARowAreLogged | services/room/internal/service/room.go:183-330 | After any sequence of uninterrupted calls, folding the event log gives exactly the membership table |
| RoomEventLog.TrueEventsKeepTheLogRight | services/room/internal/service/room.go:57-333 | For every run of overlapping calls whose steps work: as long as no pending event has become untrue, the log agrees with the tables about every room and every member of which nothing is pending |
| RoomEventLog.StaleMisleads | services/room/internal/service/room.go:228-330 | From any state with an untrue pending event, publishing what is pending can make the log wrong |
| RoomEventLog.LogIsReliableExactlyIfNeverStale | services/room/internal/service/room.go:57-333 | For every run whose steps work: the log is right in whatever order pending events are published at whatever point, if and only if no pending event ever becomes untrue |
| RoomEventLog.LogRefinesTables | services/room/internal/service/room.go:183-330 | For every run whose steps work and in which calls on one room do not overlap, the log folds to exactly the members of every room with no call under way |
| RoomEventLog.RaceMisleadsTheLog | services/room/internal/service/room.go:228-330 | From any state where a removal and an addition of one member are past their checks, a schedule without failures leaves a log that denies a stored member |
| RoomEventLog.LogCanBeMisled | services/room/internal/service/room.go:207-333 | Every reachable state with a right log and a group room with a second member can be continued, without failures, to one whose log denies a stored member |
| RoomService.MemberUserIds | services/room/internal/service/room.go:381-387 | The user of every row, in order |
| RoomService.Service.CreateRoom | services/room/internal/service/room.go:57-97 | Result, tables and published events are what the request means |
| RoomService.Service.UpdateRoom | services/room/internal/service/room.go:111-160 | Likewise, with the refusals in the order of the checks |
| RoomService.Service.DeleteRoom | services/room/internal/service/room.go:162-205 | Likewise; the event goes to the members before the deletion |
| RoomService.Service.AddMember | services/room/internal/service/room.go:207-259 | Likewise; adding a member again succeeds without an event |
| RoomService.Service.RemoveMember | services/room/internal/service/room.go:261-333 | Likewise; leaving needs no owner, removing others does, the owner stays |
| Hub.LastRequestDecides | services/websocket/internal/hub/hub.go:117-139 | A subscription exists exactly if a picked Register made it (or it was there) and nothing picked later cancelled it |
| Hub.DisconnectedUntilRegistered | services/websocket/internal/hub/hub.go:211-235 | After a picked Disconnect the connection is in no room until a later-picked Register |
| Hub.PickOrderMatters | services/websocket/internal/hub/hub.go:117-151 | A Register and a Disconnect picked in either order leave the subscription behind exactly if the Disconnect comes first |
| Hub.AttachedIndexes | services/websocket/internal/hub/hub.go:166-174 | Appending to one slice makes the nested map an index of one more subscription, without duplicates |
| Hub.DetachedIndexes | services/websocket/internal/hub/hub.go:188-202 | Cutting one element out of one slice makes it an index of one subscription fewer |
| Hub.DropAfterRemoval | services/websocket/internal/hub/hub.go:196-202 | The two deletions after the cut leave no empty slice and no empty map |
| Hub.SendToConns | services/websocket/internal/hub/hub.go:249-259 | Each connection of the slice gets the data once, in order; exactly those whose queue is full are closed |
| Hub.Hub.AddConn | services/websocket/internal/hub/hub.go:163-180 | Adds one subscription and keeps the three maps consistent; a repeated registration changes nothing |
| Hub.Hub.CutOut | services/websocket/internal/hub/hub.go:188-194 | The loop cuts the connection out of the slice, or leaves the map alone if it is not there |
| Hub.Hub.Detach | services/websocket/internal/hub/hub.go:188-202 | Takes one connection out of the nested map, dropping what becomes empty |
| Hub.Hub.RemoveConn | services/websocket/internal/hub/hub.go:182-209 | Removes one subscription and keeps the maps consistent, also for unknown connections and rooms |
| Hub.Hub.DisconnectAll | services/websocket/internal/hub/hub.go:211-235 | Removes all subscriptions of a connection and nothing else, in any iteration order |
| Hub.Hub.SendToRoom | services/websocket/internal/hub/hub.go:237-260 | Calls Send once on every subscriber of the room and on nobody else, in any iteration order; the hub does not change |
| Hub.Hub.GetRoomUserCount | services/websocket/internal/hub/hub.go:262-267 | The number of distinct users with a subscribed connection |
| Hub.Hub.Run | services/websocket/internal/hub/hub.go:117-139 | For any picked sequence the maps represent the fold of the requests over the relation, and every answer is right for the moment of its pick |
| Connection.WsConn.Send | services/websocket/internal/handler/ws.go:255-265 | Takes the data if there is room and the queue is open; otherwise false, also after the recovered panic |
| Connection.WsConn.CloseOutbound | services/websocket/internal/handler/ws.go:246-250 | Closes once, however often it is called |
| Connection.WrittenIsPrefixOfAccepted | services/websocket/internal/handler/ws.go:129-141 | In every interleaving the socket got a prefix of the accepted sends, the queue stays within its capacity and is closed at most once |
| Connection.NothingAcceptedAfterClose | services/websocket/internal/handler/ws.go:237-265 | Once closed the queue stays closed and no send by anyone is accepted |
| Connection.MeasureDecreases | services/websocket/internal/handler/ws.go:97-161 | Every step of a pump or the hub lowers a measure; an input raises it by at most three |
| Connection.NeverStuck | services/websocket/internal/handler/ws.go:97-161 | While the hub drains, pumps that are stopping but not all done always have a step left |
| Connection.StepsAreBounded | services/websocket/internal/handler/ws.go:97-161 | In any run the number of steps is bounded by the initial measure and three times the number of inputs |
| Connection.CanAlwaysFinish | services/websocket/internal/handler/ws.go:97-161 | From every state that satisfies the invariant and is stopping, steps alone lead to the end of all three pumps |
| Connection.DoneMeansCleanedUp | services/websocket/internal/handler/ws.go:97-161 | When all three pumps are done the context is cancelled, the queue is closed exactly once and a Disconnect was queued |
| Connection.MaximalRunsFinish | services/websocket/internal/handler/ws.go:97-161 | From every reachable stopping state, any input-free run makes a bounded number of steps, and where none is left all pumps are done: context cancelled, queue closed once, Disconnect queued |
| Connection.OnlyTheHubCanHelp | services/websocket/internal/hub/hub.go:149-151 | With a full disconnect queue and a waiting writer, only the draining hub can move the pumps |
| Connection.OnlyTheHubIsLeftSomewhere | services/websocket/internal/handler/ws.go:97-161 | Every configuration has a run from the start into that state |
| Connection.LingersExactlyIf | services/websocket/internal/hub/hub.go:117-151 | In every run, once the pumps are done and the queues are empty, the hub has taken a Disconnect, and a subscription is left exactly if a Register of its room was taken after it and nothing later cancelled that |
| Connection.SubscriptionIsLeft | services/websocket/internal/hub/hub.go:104-151 | With a buffer of any size some run leaves a subscription of a finished connection behind |
| Connection.ForgetsExactlyIfUnbuffered | services/websocket/internal/hub/hub.go:104-151 | No run leaves a subscription of a finished connection behind exactly if the queues have no buffer |
| TokenRepository.Repository.SaveRefreshToken | services/auth/internal/repository/token.go:34-42 | Stores the user under the token until the ttl is over |
| TokenRepository.Repository.GetUserIDByRefreshToken | services/auth/internal/repository/token.go:44-65 | The user of a live token, and an error for an absent or expired one |
| TokenRepository.Repository.ReviveRefreshToken | services/shared/pkg/valkey/scripts.go:15-21 | Reads and deletes a live token as one step; an absent or expired one changes nothing |
| Sessions.OneTokenPerLogin | services/auth/internal/service/auth.go:186-235 | In every interleaving each login has at most one stored token or one call about to mint one, never both |
| Sessions.StoredTokenNamesItsUser | services/auth/internal/service/auth.go:214-235 | A stored token names the user of the sign-in it descends from |
| Sessions.TokensAreRedeemedOnce | services/auth/internal/repository/token.go:79-100 | No token is redeemed twice, and each later token of a login was paid for with the one before |
| Sessions.RedeemedTokenIsRefused | services/auth/internal/service/auth.go:186-193 | A redeemed token presented again is invalid |
| Sessions.OverForGood | services/auth/internal/service/auth.go:178-201 | A session without a live token and without a call about to mint one never comes back |
| Sessions.LogoutEndsSession | services/auth/internal/service/auth.go:178-201 | Logout with any token of a session succeeds, and ends the session exactly if no refresh is between its two steps and no other token of the session is live |
| Sessions.NewestTokenIsTheLiveOne | services/auth/internal/service/auth.go:178-235 | In reachable states no token of a session but its newest is live |
| Sessions.LogoutDuringRefresh | services/auth/internal/service/auth.go:178-201 | A run in which a logout between the two steps of a refresh succeeds and the session goes on with the refreshed token |
| Sessions.LogoutWithReplacedToken | services/auth/internal/service/auth.go:178-201 | A run in which a logout with an already replaced token succeeds and the newer token stays live |
| AuthService.Service.GenerateTokenPair | services/auth/internal/service/auth.go:214-235 | Stores the new token for the user and returns it |
| AuthService.Service.RefreshToken | services/auth/internal/service/auth.go:186-201 | Replaces a live token by a new one for the same user; otherwise fails and changes nothing |
| AuthService.Service.Logout | services/auth/internal/service/auth.go:178-184 | Removes the token and no other |
| AuthService.RotationAlone | services/auth/internal/service/auth.go:186-235 | The two interleaved steps of an undisturbed refresh do what the method does and stay within the login |
| RateLimit.WindowAdmitsItsFirstCalls | services/auth/internal/ratelimit/ratelimit.go:51-65 | Over any run a call is admitted exactly if fewer than limit calls came before it in its window |
| RateLimit.AllowedInAnyInterval | services/auth/internal/ratelimit/ratelimit.go:51-65 | A bound on the admissions in any interval of any length, wherever it starts, over any run |
| RateLimit.AllowedInOneWindowLength | services/auth/internal/ratelimit/ratelimit.go:51-65 | At most 2 * limit - 1 in any half-open interval of one window length |
| RateLimit.AllowedInClosedInterval | services/auth/internal/ratelimit/ratelimit.go:51-65 | At most 2 * limit with both ends counted |
| RateLimit.AllowedInConfiguredWindow | services/auth/internal/ratelimit/ratelimit.go:51-59 | In one window as configured at most 2 * limit - 1, 2 * limit or 3 * limit - 1 calls pass, for a fraction of a second of zero, one or more milliseconds |
| RateLimit.ConfiguredBoundIsReached | services/auth/internal/ratelimit/ratelimit.go:51-59 | For every configuration some run lets exactly that many through |
| RateLimit.WholeSecondsKeepTheBound | services/auth/internal/ratelimit/ratelimit.go:51-59 | The bound of one window holds as configured in every run exactly if the window is a whole number of seconds |
| RateLimit.BoundIsReached | services/auth/internal/ratelimit/ratelimit.go:51-65 | For every limit, window and length some run and interval reach that bound, so it is sharp |
| RateLimit.Store.IncrWithExpiry | services/shared/pkg/valkey/scripts.go:5-11 | The script as one step on the counter; no counter is ever left without an expiry, other keys do not change |
| RateLimit.Limiter.Allow | services/auth/internal/ratelimit/ratelimit.go:51-65 | Admits exactly up to the limit and counts refused calls too |
| MessageContent.DecodesExactlyIfSelected | services/message/internal/repository/postgres.go:59-127 | Decoding gives the stored content exactly if the type selects the content's own decoder |
| MessageContent.WrittenDocumentsDecode | services/message/internal/repository/postgres.go:80-127 | A document that marshalContent wrote decodes without an error under every type |
| MessageContent.AcceptedExactlyIfAcceptable | services/message/internal/handler/message.go:66-187 | Which pairs of type and content a request may have |
| MessageContent.ContentSurvives | services/message/internal/handler/mapper.go:40-137 | From request over service type and column back to the response, type and every content field survive; a deleted message shows no content |
| MessageContent.PreviewShowsTheRequest | services/message/internal/repository/postgres.go:20-57 | A reply preview shows text, file name and mime type of what was sent, and nothing of a deleted message |
| MessageStore.ListingIsSorted | services/message/internal/repository/postgres.go:191-213 | The listing is strictly descending and holds exactly the live rows of the room below the bound |
| MessageStore.SortedIsUnique | services/message/internal/repository/postgres.go:191-213 | There is no other descending listing of the same rows |
| MessageStore.ListingBelow | services/message/internal/repository/postgres.go:199-206 | Bounding by a listed row gives exactly the rest of the listing |
| MessageStore.PageIsPrefix | services/message/internal/repository/postgres.go:177-274 | A page carries the first limit rows of the listing, and a cursor exactly if there are more |
| MessageStore.Repository.CreateMessage | services/message/internal/repository/postgres.go:137-175 | Appends one row with the marshalled content and returns the message, without a reply preview; ids stay unique |
| MessageStore.Repository.SoftDeleteMessage | services/message/internal/repository/postgres.go:335-350 | Marks the row if it is live, and otherwise reports not found |
| MessageStore.Repository.GetMessageByID | services/message/internal/repository/postgres.go:276-333 | The row with its preview, deleted or not, or the decoding error |
| MessageStore.Repository.GetMessagesByRoomID | services/message/internal/repository/postgres.go:177-274 | The row loop and the cut compute the page, with the first decoding error ending it |
| MessagePaging.CursorSurvives | services/message/internal/repository/postgres.go:191-206 | A cursor stays usable with the same key while rows are inserted and deleted, its own included |
| MessagePaging.WalkDescends | services/message/internal/repository/postgres.go:177-274 | The pages of any walk, ended or not, together descend strictly, so nothing comes twice, whatever changes between the pages |
| MessagePaging.WalkMissesNothing | services/message/internal/repository/postgres.go:177-274 | A message that stayed live throughout was received when the walk ends |
| MessagePaging.WalkInventsNothing | services/message/internal/repository/postgres.go:177-274 | Every received message was a live row of the room when its page was read |
| MessagePaging.QuietWalk | services/message/internal/repository/postgres.go:266-273 | Without changes the walk ends and yields exactly the listing, in max(1, n / limit rounded up) pages |
| MessagePaging.QuietWalkIsTheOnlyOne | services/message/internal/repository/postgres.go:177-274 | Whatever a client reads without changes is the beginning of that walk, so no walk is longer or different |
| MessagePaging.CeilDivCovers | services/message/internal/repository/postgres.go:266-273 | The page count covers all rows and one page fewer would not |
| MessageProtocol.SendAlone | services/message/internal/service/message.go:53-87 | The steps of an undisturbed send add one row for the request exactly if it is sendable |
| MessageProtocol.DeleteAlone | services/message/internal/service/message.go:154-181 | The steps of an undisturbed deletion mark the message exactly if it is deletable, and otherwise give the first failing check as the reason |
| MessageProtocol.DeletionIsAnswered | services/message/internal/handler/message.go:300-309 | For an undisturbed deletion: "not found" exactly if the message never existed, "permission denied" exactly for a member who is not the sender, an internal error for a non-member or an already deleted message |
| MessageProtocol.DeletionIsAnsweredInAnyRun | services/message/internal/handler/message.go:300-309 | In every interleaving the answer of a deletion whose own steps work, by what these steps saw: an internal error exactly if the caller was no member when asked or the message was deleted by the time of the update |
| MessageProtocol.DeletionsRace | services/message/internal/service/message.go:154-181 | From every reachable state with a live message a run without failures in which its sender deletes it twice and the second answer is an internal error |
| MessageProtocol.RepliesNameEarlierMessages | services/message/internal/service/message.go:62-87 | In every reachable state each reply names an earlier message of the same room |
| MessageProtocol.ReplyPathsGoBack | services/message/internal/service/message.go:62-87 | Following replies goes strictly back and stays in the room, so every chain is finite and without a cycle |
| MessageProtocol.ReadsShowTheRequest | services/message/internal/handler/message.go:66-187 | Every stored message reads back with the type and content of the request it was sent with, in any run |
| MessageProtocol.OnlySendersDelete | services/message/internal/service/message.go:154-181 | A deleted message was deleted on its sender's request, in any run |
| MessageProtocol.WalkDuringARun | services/message/internal/repository/postgres.go:177-274 | The walk results hold for the tables that runs of sends and deletions produce: descent for any walk, completeness once it has ended |
| MessageProtocol.PageReadsNeverFail | services/message/internal/repository/postgres.go:240-243 | In any run no page read fails on decoding, and a returned cursor is valid later |
| MessageService.Service.SendMessage | services/message/internal/service/message.go:53-110 | Succeeds exactly if sendable, adds exactly one row for the request and returns it without preview, and publishes it to the members if they can be read and the broker accepts; otherwise changes and publishes nothing |
| MessageService.Service.DeleteMessage | services/message/internal/service/message.go:154-181 | Succeeds exactly if the message is live, readable and the requester a member and its sender, and marks that message only; else the first failing check is the error, the repository's own one for a deleted message |
| MessageService.Service.GetMessages | services/message/internal/service/message.go:112-132 | For members only: the first rows of the listing below the cursor, each with all its fields and its preview, and a cursor exactly if there are more |
| Users.FirstInsertDecides | services/user/internal/repository/user.go:46-88 | In any run a user was inserted at most once and has that insert's username, which no other insert used |
| Users.UsernameIsForGood | services/user/internal/repository/user.go:168-210 | Once there, a user stays and keeps the username, profile updates included |
| Users.VerdictsAreRight | services/user/internal/nats/subscriber.go:60-96 | In any run Ack means the user exists, and Term is sent exactly for malformed payloads |
| Users.RedeliveryIsAcknowledged | services/user/internal/service/user.go:48-54 | A delivery for a user who exists when it starts, and whose own statements work, ends in Ack after at most eight of them, in every interleaving |
| Users.NakExactlyIf | services/user/internal/service/user.go:34-64 | In every interleaving a delivery whose own statements work ends in Nak exactly if the id or the chosen name was inserted after its check, or all three names were taken when checked |
| Users.RaceHappens | services/user/internal/repository/user.go:46-88 | From any state in which a user is missing, an event delivered twice can end in one Ack and one Nak without a failing statement |
| Users.RaceFromTheStart | services/user/internal/repository/user.go:63-85 | Such a run from the empty table |
| Users.DeliverySettles | services/user/internal/service/user.go:34-64 | Eight statements settle a delivery, whatever others do and whatever fails |
| Users.AloneCreatesOnce | services/user/internal/service/user.go:34-64 | An undisturbed delivery is acknowledged exactly if the user was there or one of three names was free; delivering it again changes nothing |
| Users.Repository.CreateUser | services/user/internal/repository/user.go:46-88 | Inserts exactly if id and username are free, the id being checked first |
| Users.Service.CreateUser | services/user/internal/service/user.go:34-64 | The retry loop returns the existing row or creates one under the first free name |
| Users.Subscriber.HandleMessage | services/user/internal/nats/subscriber.go:60-96 | Table and verdict are those of the delivery's steps in a row |
| Retry.WithRetry | services/message/internal/client/room.go:81-116 | Stops at the first round that does not continue, with that round's outcome or the cancellation; one direct call without delays |
| Retry.StoppedMeans | services/message/internal/client/room.go:81-116 | At most one call per delay, only retryable failures before the last call, exactly the delays between the calls waited out and never the last one |
| Retry.StoppedOnce | services/message/internal/client/room.go:81-116 | Result, calls and waits are determined by the calls' outcomes and the cancellation |

## Left out

- Accounts, password hashing, access tokens and the sign-in checks: a sign-in either is turned away or opens a login.
- The event that Register publishes after its change; nothing in the modelled state depends on it.
- RoomEventLog.LogIsReliableExactlyIfNeverStale: is about steps that work; an event whose publication fails is lost, as the code logs.
- SQL text, JSON bytes, gRPC, HTTP, NATS and Valkey protocols: a query is the row set it selects, JSON is named fields.
- Slice aliasing in the hub: the in-place cut is modelled on sequences; no second reference to a slice is kept across it.
- Running code of the hub's goroutine after its context is cancelled, and of the goroutines that close slow connections.
- The three pumps' loops are steps of a machine, not Dafny loops, since they run concurrently.
- The order in which rows of a room's members come back: recipients are sets, and rows have each user once.
- Timestamps other than a message's created_at; editing of messages, which no call does.
- Page limits below one: requests carry 1 to 100, checked before the service is called.
- GetRoom, GetUserRooms, GetUser, GetUsers, avatar and bio: lookups and fields with nothing to add to the results.
- How often the broker redelivers, and when: deliveries are arbitrary.
- RoomProtocol.DirectRoomsAreFrozen: says nothing about a room that has been deleted, since ids are never reused.
- Users.DeliverySettles: bounds a delivery's own statements, not the time until a redelivery succeeds.
