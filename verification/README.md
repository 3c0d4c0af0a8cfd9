# Collaborative editor core: room broker and session store

This project models two parts of the backend of a collaborative code editor, and proves
properties of the model.

**The real-time room broker** (`backend/socket/socketServer.js`) keeps two process-wide maps:
- a registry of rooms, each with its shared code, language, members and cursors;
- an index from user id to that user's latest socket.

Clients send `join-room`, `code-change`, `language-change`, `cursor-move`,
`analysis-started` and `leave-room`, and their socket can disconnect. Node runs the
synchronous part of a handler to completion before any other event is handled. The handlers
for `code-change`, `language-change`, `cursor-move` and `analysis-started` are wholly
synchronous. `join-room` and `leave-room` make all their state changes and emits before their
first `await`, the activity-log write (socketServer.js:77, :126 and :169). After that write
nothing observable happens except console output. So modelling each of these handlers as one
atomic step is exact. `disconnect` awaits between rooms (socketServer.js:135); see the
`Broker.HandleDisconnect` line under "Left out". Each handler is modelled as a pure step
function. It takes the state and returns three things:
- the new state;
- the messages it emits, each with the set of sockets it reaches;
- the activity-log records it appends.

The clock and the random draw behind a member's colour come in as an `Env` value. When the
last member leaves, the broker starts a five-minute timer that re-checks the room and deletes
it if it is still empty. The model keeps these timers as a table of pending checks. A separate
`FireEviction` input stands for a timer going off.

**The in-memory session store** (`backend/utils/sessionManager.js`) maps session ids to
session records. It supports creation, lookup, invalidation, listing a user's sessions,
cleanup, and statistics. Expiry is lazy: an expired session stays stored until a lookup, a
listing or a cleanup finds it. The store's operations take the current time. Creation also
takes the fresh id it is to use.

Both components are built on JavaScript `Map`, whose iteration order is insertion order.
That order shows up in three places:
- the member list of a `room-state` snapshot;
- the room order of the disconnect loop;
- the order of a user's listed sessions.

`OrderedMaps.OMap` therefore pairs a Dafny `map` with the key order. Overwriting a key keeps
its position, a new key goes to the end, and deleting a key drops it from the order.

Files:
- `ordered_maps.dfy` — the insertion-ordered map.
- `palette.dfy` — the twelve-colour palette and the random colour choice.
- `broker.dfy` — the broker's state, events and handlers, and the dispatch `Step`.
- `broker_properties.dfy` — properties that span several handlers or steps:
  - the no-leak invariant;
  - who receives what;
  - last write wins;
  - eviction safety;
  - a two-user run from the first join to the room's eviction.
- `sessions.dfy` — the session store, its passes over the store, and their properties.

## Behaviour of the code worth knowing

- **The joiner is in its own snapshot.** `room.users.set` (socketServer.js:49) runs before
  the `room-state` emit (:59), so the snapshot's member list includes the joiner itself. In a
  two-user run, Alice's snapshot lists Alice, and Bob's lists Alice and then Bob
  (`BrokerProperties.AliceJoins`, `BrokerProperties.BobSeesAliceAndHimself`).
- **A room can be deleted less than five minutes after it last emptied.** The timer's re-check
  (:161) looks only at the member count when it fires, and no timer is ever cancelled. Take a
  room that empties, is re-joined, and empties again: the first timer deletes it, less than
  five minutes after the second emptying (`BrokerProperties.EarlierTimerEvictsReemptiedRoom`).
- **Leaving drops the user's index entry unconditionally.** `userSockets.delete(userId)` (:152)
  runs even when the entry points at another socket of the same user that is still in the
  room (`BrokerProperties.LeaveDropsIndexOfStillConnectedUser`).
- **Room events do not check membership.** `code-change`, `language-change` and `cursor-move`
  (:87-88, :96-97, :105-106) need only an existing room; the sender does not have to be a
  member of it. `analysis-started` (:117-122) does not look the room up at all.
- **The join error emit is unreachable.** The `catch` at :79-82 would send `error` to the
  joiner. Inside the `try`, only `saveRoomActivity` (:77) awaits anything that can fail, and
  it catches its own errors (:183-185). So the `error` emit never happens.

## Model

| member | source | states |
|---|---|---|
| Palette.ColorIndex | backend/socket/socketServer.js:194 | the scaled random draw, rounded down, is a valid palette position with index ≤ 12·rand < index + 1 |
| Palette.RandomColor | backend/socket/socketServer.js:188-195 | the colour handed to a joiner is always one of the twelve palette colours |
| Palette.EveryColorReachable | backend/socket/socketServer.js:189-194 | every palette colour is produced by some random draw in [0, 1) |
| Broker.Init | backend/socket/socketServer.js:7-9 | the broker starts with no rooms, no user index entries and no timers |
| Broker.Others | backend/socket/socketServer.js:68 | `socket.to(roomId)` reaches exactly the registry room's members other than the sender; in the model a room the registry does not hold reaches nobody (socket.io's per-socket rooms are left out, see below) |
| Broker.Snapshot | backend/socket/socketServer.js:62-65 | the snapshot lists every member once, in join order, each paired with its socket id |
| Broker.CreateOrGet | backend/socket/socketServer.js:37-47 | an absent room is created with empty code, `javascript`, no members and no cursors, and is appended to the registry; an existing room is returned untouched; no other room changes |
| Broker.Join | backend/socket/socketServer.js:33-83 | the joiner is registered with its user id, name, join time and a palette colour; re-joining overwrites only that socket's entry; the index points the user at this socket; an existing room keeps its code and language; only the joined room changes; the snapshot goes to the joiner and `user-joined` to the other members; one `joined` log record |
| Broker.ChangeCode | backend/socket/socketServer.js:86-92 | on an existing room, only that room's code changes, replaced by the payload, and `code-update` reaches every member but the sender; an unknown room is a complete no-op |
| Broker.ChangeLanguage | backend/socket/socketServer.js:95-101 | on an existing room, only its language changes and `language-update` reaches the other members; an unknown room is a no-op |
| Broker.MoveCursor | backend/socket/socketServer.js:104-114 | on an existing room, only the sender's cursor is overwritten; code, language, members and other cursors stay; `cursor-update` reaches the other members; an unknown room is a no-op |
| Broker.StartAnalysis | backend/socket/socketServer.js:117-122 | never changes state; `user-analyzing` goes to the other members of the registry room, and in the model to nobody when the registry has no such room (see `Broker.Others` under "Left out") |
| Broker.Leave | backend/socket/socketServer.js:145-173 | for a member: its entry and cursor go, the user's index entry is deleted, `user-left` reaches the remaining members, a check due five minutes later is scheduled exactly when the room became empty, one `left` record; the remaining members keep their join order; no room appears or disappears; for a non-member: a complete no-op |
| Broker.LeaveRooms | backend/socket/socketServer.js:147-151 | a member's leave removes it from that room and leaves every other room and every room's code and language as they were |
| Broker.LeaveIfMember | backend/socket/socketServer.js:133-136 | one iteration of the disconnect loop leaves the socket outside that room, keeps the registry's room order, and writes a log record exactly when the socket was a member |
| Broker.LeaveIfMemberMembership | backend/socket/socketServer.js:132-136 | one iteration of the disconnect loop takes the socket out of that room and changes its membership nowhere else |
| Broker.LeaveIfMemberIndex | backend/socket/socketServer.js:134-135 | one iteration of the disconnect loop drops exactly the index entry of the user id the socket joined that room with |
| Broker.LeaveAll | backend/socket/socketServer.js:132-137 | the disconnect loop keeps the registry's room order, and every record it logs is a `left` record for a room it visited |
| Broker.LeaveAllRoomsEffect | backend/socket/socketServer.js:132-137 | the disconnect loop over the registry's room order removes the socket from every room it visits and changes nothing else in the registry |
| Broker.LeaveAllIndexEffect | backend/socket/socketServer.js:132-137 | the disconnect loop drops exactly the index entries of the user ids the socket had in the visited rooms |
| Broker.LeaveAllPendingEffect | backend/socket/socketServer.js:132-137 | the disconnect loop only appends eviction checks and never sends anything to the disconnecting socket |
| Broker.HandleDisconnect | backend/socket/socketServer.js:130-138 | after a disconnect the socket is in no room; every room keeps its code and language and loses only that member; no room appears or disappears; nothing is sent to the departed socket; the user index loses exactly the user ids the socket had joined its rooms with; the checks appended are the per-room evictions in the registry's room order, and the messages are the per-room `user-left` notices in that order (see the next four rows) |
| Broker.DisconnectEvictionsMeaning | backend/socket/socketServer.js:132-166 | each per-room eviction is for a visited room the socket was alone in, due five minutes from now, and every such room gets one |
| Broker.DisconnectNoticesMeaning | backend/socket/socketServer.js:132-157 | each per-room notice is the `user-left` with the socket's name sent to the other members of a visited room it belonged to, and every such room gets one; none reaches the socket itself |
| Broker.LeaveAllSchedules | backend/socket/socketServer.js:132-137 | the disconnect loop appends exactly the per-room evictions, in room order, to the pending checks |
| Broker.LeaveAllNotifies | backend/socket/socketServer.js:132-137 | the disconnect loop emits exactly the per-room `user-left` notices, in room order |
| Broker.FirstPending | backend/socket/socketServer.js:160-165 | the timer that goes off is the earliest pending check for that room |
| Broker.EvictIfEmpty | backend/socket/socketServer.js:161-164 | the room is deleted if and only if it exists and has no members at that moment; other rooms are untouched |
| Broker.Fire | backend/socket/socketServer.js:159-166 | the fired check leaves the table; the room survives unless it is empty at fire time; a room without a pending check is unaffected; nothing is emitted |
| Broker.Step | backend/socket/socketServer.js:29-138 | every input keeps the registry's ordered maps well formed |
| BrokerProperties.StepKeepsNoLeak | backend/socket/socketServer.js:145-166 | every step keeps the invariant that each empty room has an eviction check pending |
| BrokerProperties.RunKeepsNoLeak | backend/socket/socketServer.js:29-166 | the no-leak invariant holds after any sequence of inputs |
| BrokerProperties.JoinKeepsNoLeak | backend/socket/socketServer.js:33-83 | a join leaves no empty room without a pending check |
| BrokerProperties.LeaveKeepsNoLeak | backend/socket/socketServer.js:145-166 | a leave that empties its room schedules a check for it, and other rooms keep theirs |
| BrokerProperties.LeaveAllKeepsNoLeak | backend/socket/socketServer.js:130-138 | the disconnect loop keeps the no-leak invariant |
| BrokerProperties.FireKeepsNoLeak | backend/socket/socketServer.js:159-166 | a fired check never leaves another empty room without its check |
| BrokerProperties.ChangeCodeKeepsNoLeak | backend/socket/socketServer.js:86-92 | a code change keeps the no-leak invariant |
| BrokerProperties.ChangeLanguageKeepsNoLeak | backend/socket/socketServer.js:95-101 | a language change keeps the no-leak invariant |
| BrokerProperties.MoveCursorKeepsNoLeak | backend/socket/socketServer.js:104-114 | a cursor move keeps the no-leak invariant |
| BrokerProperties.OnlyRoomChangedKeepsNoLeak | backend/socket/socketServer.js:86-114 | an edit that keeps a room's members keeps the no-leak invariant |
| BrokerProperties.ReceivedAppend | backend/socket/socketServer.js:59-73 | messages of two emits reach a socket in emission order |
| BrokerProperties.JoinerMessages | backend/socket/socketServer.js:59-66 | the joiner receives exactly one message: the room's code, language and member list, and the list contains the joiner |
| BrokerProperties.JoinMessagesToOthers | backend/socket/socketServer.js:68-73 | every other member receives exactly `user-joined` with the joiner's colour; a non-member receives nothing |
| BrokerProperties.NoSelfEcho | backend/socket/socketServer.js:86-122 | the sender of a code, language, cursor or analysis event receives nothing from it |
| BrokerProperties.LastWriteWins | backend/socket/socketServer.js:86-92 | after two code changes the room holds the second one's code, and the last update every other member received is the second one |
| BrokerProperties.LeaveMessages | backend/socket/socketServer.js:154-157 | each remaining member receives exactly `user-left` with the leaver's name; nobody else, the leaver included, receives anything |
| BrokerProperties.LeaveSchedulesOnlyWhenEmpty | backend/socket/socketServer.js:159-166 | a member's leave adds a pending check if and only if it empties the room, and that check is for this room and due five minutes later |
| BrokerProperties.LastLeaveSchedules | backend/socket/socketServer.js:150-166 | the last member's leave empties the room, keeps its code and language, and appends its check |
| BrokerProperties.JoinEmptyRoom | backend/socket/socketServer.js:37-56 | joining an empty existing room makes the joiner its only member, keeps code and language, and schedules nothing |
| BrokerProperties.FirstPendingAfter | backend/socket/socketServer.js:160-165 | among timers for a room, the one scheduled first goes off first |
| BrokerProperties.RejoinDuringGraceKeepsRoom | backend/socket/socketServer.js:159-166 | a rejoin between the last leave and the timer keeps the room, its code, its language and the new member |
| BrokerProperties.NoRejoinEvictsRoom | backend/socket/socketServer.js:159-166 | without a rejoin, the timer scheduled by the last leave deletes the room |
| BrokerProperties.EarlierTimerEvictsReemptiedRoom | backend/socket/socketServer.js:159-166 | a room emptied, re-joined and emptied again is deleted by the first timer, due less than five minutes after the last emptying |
| BrokerProperties.LeaveDropsIndexOfStillConnectedUser | backend/socket/socketServer.js:152 | a leave deletes the user's index entry even when it points at another socket still in the room |
| BrokerProperties.DisconnectLeavesEveryRoom | backend/socket/socketServer.js:130-138 | after a disconnect the socket is a member of no room |
| BrokerProperties.ReceivedIncludes | backend/socket/socketServer.js:154-157 | a message addressed to a socket is among the events that socket receives |
| BrokerProperties.DisconnectNotifiesCoMembers | backend/socket/socketServer.js:130-157 | every other member of each room the socket was in receives `user-left` with its name |
| BrokerProperties.DisconnectIsSilentToSelf | backend/socket/socketServer.js:130-157 | the disconnecting socket receives nothing |
| BrokerProperties.DisconnectSchedulesEmptiedRooms | backend/socket/socketServer.js:130-166 | a disconnect keeps the existing checks and appends only checks due five minutes from now for rooms the socket was alone in, one for each such room |
| BrokerProperties.DisconnectFromOnlyRoom | backend/socket/socketServer.js:130-138 | disconnecting from the only room is exactly leaving it with the user id the socket joined with |
| BrokerProperties.JoinMemberOrder | backend/socket/socketServer.js:49-54 | a new member goes to the end of the member order; a socket that joins again keeps its place |
| BrokerProperties.SnapshotAppend | backend/socket/socketServer.js:62-65 | the snapshot after a new member joins is the previous snapshot followed by the new member |
| BrokerProperties.JoinAppendsToSnapshot | backend/socket/socketServer.js:49-65 | when a newcomer joins an existing room, the snapshot it is sent is the previous member snapshot followed by the newcomer |
| BrokerProperties.AliceJoins | backend/socket/socketServer.js:33-83 | the first join of "R1" creates it, and Alice's snapshot is empty code, `javascript` and just Alice |
| BrokerProperties.BobJoins | backend/socket/socketServer.js:33-83 | after Bob joins, "R1" lists Alice and then Bob, and nothing is scheduled |
| BrokerProperties.BobSnapshot | backend/socket/socketServer.js:59-66 | after Bob joins, the member snapshot is Alice and then Bob |
| BrokerProperties.BobSeesAliceAndHimself | backend/socket/socketServer.js:59-66 | Bob's snapshot is empty code, `javascript`, Alice and then Bob |
| BrokerProperties.AliceHearsBobJoin | backend/socket/socketServer.js:68-73 | Alice receives `user-joined` for Bob with his colour |
| BrokerProperties.BobEdits | backend/socket/socketServer.js:86-92 | Bob's code change reaches Alice, not Bob, and the room holds Bob's code |
| BrokerProperties.AliceHearsBobLeave | backend/socket/socketServer.js:130-157 | Bob's disconnect sends Alice `user-left` for Bob |
| BrokerProperties.BobDisconnects | backend/socket/socketServer.js:130-166 | after Bob's disconnect Alice is alone in the room and no check is scheduled |
| BrokerProperties.AliceDisconnects | backend/socket/socketServer.js:130-166 | Alice's disconnect empties the room and schedules one check five minutes later, which deletes the room |
| BrokerProperties.AliceAndBob | backend/socket/socketServer.js:33-166 | the whole two-user run ends, after the grace period, with "R1" gone |
| Sessions.CreateSession | backend/utils/sessionManager.js:16-29 | exactly one new entry under the returned fresh id, at the end of the order, holding the user, token and id, created now and expiring the lifetime later; every other entry unchanged |
| Sessions.GetSession | backend/utils/sessionManager.js:36-48 | a session is returned if and only if it is stored and not strictly past its expiry, and then the store is unchanged; an unknown id changes nothing; an expired entry is removed and nothing else |
| Sessions.InvalidateSession | backend/utils/sessionManager.js:55-57 | reports true if and only if the id was stored; afterwards it is absent, every other entry is unchanged, and the other ids keep their order |
| Sessions.Live | backend/utils/sessionManager.js:67-71 | the surviving ids are exactly the stored ids whose session has not expired, in the original order, without repeats |
| Sessions.Purge | backend/utils/sessionManager.js:67-71 | the purged store holds exactly the unexpired entries, unchanged and in their original order |
| Sessions.PurgeRest | backend/utils/sessionManager.js:88-93 | the rest of a purging pass keeps exactly the entries whose id it does not visit or whose session it finds unexpired, each unchanged |
| Sessions.PurgePass | backend/utils/sessionManager.js:67-71 | deleting expired entries one at a time while iterating gives the purged store |
| Sessions.GetUserSessions | backend/utils/sessionManager.js:64-79 | the store ends up purged of every expired entry of any user, and the result lists the user's unexpired sessions in store order |
| Sessions.MatchingMeans | backend/utils/sessionManager.js:73-75 | a session is listed if and only if it is stored, belongs to the user and has not expired |
| Sessions.CleanupExpiredSessions | backend/utils/sessionManager.js:85-96 | the store ends up purged, and the count returned is the number of entries removed |
| Sessions.LiveOrExpired | backend/utils/sessionManager.js:88-92 | every stored id is either kept or counted, so kept plus counted is the store size |
| Sessions.CountOf | backend/utils/sessionManager.js:108-113 | a user's count is at most the number of sessions, and positive exactly when the user has a session |
| Sessions.GetSessionStats | backend/utils/sessionManager.js:102-116 | the total is the store size; the per-user table has an entry exactly for the users with a stored session, expired or not; each entry is that user's number of sessions; the entries add up to the total |
| Sessions.TalliedStore | backend/utils/sessionManager.js:108-113 | counting every session into an empty table yields one entry per user holding its number of sessions, and entries that add up to the store size |
| Sessions.Tally | backend/utils/sessionManager.js:109-112 | counting a session adds one to its user's count, starting from zero for a new user who goes to the end of the table; other counts and the order of known users stay |
| Sessions.TallyStep | backend/utils/sessionManager.js:109-112 | counting one more session keeps every count right and their sum equal to the sessions seen |
| Sessions.SumValuesUpdate | backend/utils/sessionManager.js:112 | replacing one count changes the sum of counts by the difference |
| Sessions.InvalidateUndoesCreate | backend/utils/sessionManager.js:16-57 | invalidating a session right after creating it restores the store exactly and reports true |
| Sessions.GetFindsCreated | backend/utils/sessionManager.js:16-48 | a created session is returned unchanged by every lookup up to and including its expiry instant |
| Sessions.GetDropsExpired | backend/utils/sessionManager.js:16-48 | after its expiry instant a created session is not returned, and the lookup restores the store as it was before the creation |
| Sessions.PurgeIdempotent | backend/utils/sessionManager.js:85-96 | purging twice at the same instant is purging once |
| Sessions.CleanupTwice | backend/utils/sessionManager.js:85-96 | a second cleanup at the same instant removes nothing and returns 0 |
| Sessions.ListingCleansLikeCleanup | backend/utils/sessionManager.js:64-96 | listing a user's sessions leaves the store exactly as a cleanup at the same instant would |

## Left out

- Socket.io server construction, CORS and transports (`initializeSocket` setup, `getIO`): transport plumbing. `socket.to(roomId)` is modelled as the room's members minus the sender, and `socket.join` / `socket.leave` as the registry's member maps.
- `Broker.Others` (and with it `Broker.StartAnalysis`, `Broker.Join` and the other broadcasts): socket.io also puts every socket in a private room named by its own id, and socket ids are visible to clients in the `room-state`, `user-joined`, `cursor-update` and `user-left` payloads (socketServer.js:62-64, :69, :109, :155). A client that sends an event whose `roomId` is another socket's id therefore reaches that socket in the source, for example `analysis-started` at :117-121 or `user-joined` at :68. The model knows only the registry's rooms and sends such a broadcast to nobody.
- The activity log (`saveRoomActivity`, the `CollaborationLog` model and its database write): each handler returns the record it would write, and the log never feeds back into room state. The database write and its swallowed errors are not modelled.
- The join handler's `error` emit: its only trigger after the state changes would be the log write, which catches its own errors, so no path of the model reaches it.
- Console logging: no effect on state or messages.
- `Broker.HandleDisconnect`: the source awaits the log write after each room's leave, so other events may interleave between rooms. The model runs the whole disconnect as one step, over the room order taken at its start. Leaves never remove a room, so that order visits the same rooms.
- Time: each handler call reads the clock once (`Env.now`). The session store's listing and cleanup likewise use one `now` for the whole pass; the source reads the clock anew on every iteration.
- Dates: `createdAt` and `expiresAt` are integer milliseconds. JavaScript `Date` objects and invalid dates are not modelled.
- `Sessions.CreateSession`: an omitted (`undefined`) lifetime is `None` and gets the 24-hour default. The default at sessionManager.js:16 does not apply to an explicit `null`: `Date.now() + null` is `Date.now()`, so such a session expires at once. `null` and other non-numeric lifetimes are not modelled.
- `setTimeout` itself: timers are the pending-check table, and firing is an explicit input. Timers for the same room fire in scheduling order, as equal-delay timers do.
- `uuidv4`: creation takes the id to use, required to be fresh.
- `Sessions.GetSessionStats`: the source's per-user table is a plain object, which lists integer-like keys before others. The model keeps the table in first-seen order, and its contract does not speak about key order. The table is also a plain object literal (sessionManager.js:105), so it inherits `Object.prototype`. For a user id such as `constructor`, `toString`, `valueOf` or `hasOwnProperty`, the test at :109 sees an inherited function, which is truthy. The 0-initialisation is skipped and the `++` at :112 stores NaN. For `__proto__`, the `++` goes through the prototype setter and no entry appears at all. For such ids the source breaks both "one entry per user with a session" and "the counts add up to the total". The model treats every user id as an ordinary key, so its contract does not hold for these ids. The one caller passes a database object id as the user id (`authController.js`), so these names do not arise there.
- `Sessions.GetUserSessions`, `Sessions.CleanupExpiredSessions`: the source deletes entries while iterating the live map. The model iterates the key order taken at the start. Each step deletes only the entry just visited, so both visit the same entries in the same order.
- Analysis, authentication, routes, database models and the frontend (`analysisController.js`, `authController.js`, `authMiddleware.js`, `secretManager.js`, `routes/*.js`, `server.js`, `model/*.js`, `frontend/`): outside the modelled core, and mostly external service calls and wiring.
