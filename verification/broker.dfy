/**
 The real-time room broker of `backend/socket/socketServer.js`.

 The broker keeps a process-wide registry of rooms (code, language, members, cursors) and an
 index from user id to the most recent socket of that user. Node runs the synchronous part
 of a handler to completion before any other event. Join and leave make every state change
 and emit before their first `await`, the activity-log write, and the other handlers do not
 await at all. So each handler is a step function from the current state to a new state plus
 the messages it emits and the activity-log records it appends. The disconnect handler
 awaits between rooms; the model runs it as one step. The clock and the random number
 behind a member's colour come in as `Env`.
 The delayed eviction of an empty room is a table of pending checks (`State.pending`) and a
 separate `FireEviction` input that stands for the timer going off.
 */
module Broker {
  import opened OrderedMaps
  import Palette

  type RoomId = string
  type SocketId = string
  type UserId = string

  /** A client-supplied value that the broker stores and forwards without looking inside. */
  type Payload = string

  /** The language of a freshly created room. */
  const DefaultLanguage: string := "javascript"

  /** How long an empty room is kept before the eviction check runs: five minutes, in ms. */
  const EvictionGraceMs: int := 5 * 60 * 1000

  /** A member's presence record, stored under its socket id in `Room.users`. */
  datatype User = User(userId: UserId, userName: string, joinedAt: int, color: string)

  datatype Cursor = Cursor(position: Payload, selection: Payload)

  datatype Room = Room(
    code: string,
    language: string,
    users: OMap<SocketId, User>,
    cursors: map<SocketId, Cursor>,
    createdAt: int)

  /** A scheduled re-check of `roomId`, due `EvictionGraceMs` after the room became empty. */
  datatype Eviction = Eviction(roomId: RoomId, dueAt: int)

  datatype State = State(
    rooms: OMap<RoomId, Room>,
    userSockets: map<UserId, SocketId>,
    pending: seq<Eviction>)

  /** One entry of the member list in a `room-state` snapshot: the socket id with its record. */
  datatype Member = Member(socketId: SocketId, user: User)

  /** The messages the broker emits. */
  datatype ServerEvent =
    | RoomState(code: string, language: string, users: seq<Member>)
    | UserJoined(socketId: SocketId, userId: UserId, userName: string, color: string)
    | CodeUpdate(code: string, userId: UserId)
    | LanguageUpdate(language: string)
    | CursorUpdate(socketId: SocketId, position: Payload, selection: Payload)
    | UserAnalyzing(socketId: SocketId, analysisType: Payload)
    | UserLeft(socketId: SocketId, userName: string)

  /** One emit call: the event and the sockets it reaches. */
  datatype Outbound = Outbound(to: set<SocketId>, event: ServerEvent)

  datatype Action = Joined | Left

  /** A record handed to the activity log; the log never feeds back into room state. */
  datatype Activity = Activity(roomId: RoomId, userId: UserId, action: Action)

  /** The events a client socket may send. */
  datatype ClientEvent =
    | JoinRoom(roomId: RoomId, userId: UserId, userName: string)
    | CodeChange(roomId: RoomId, code: string, userId: UserId)
    | LanguageChange(roomId: RoomId, language: string)
    | CursorMove(roomId: RoomId, position: Payload, selection: Payload)
    | AnalysisStarted(roomId: RoomId, analysisType: Payload)
    | LeaveRoom(roomId: RoomId, userId: UserId)
    | Disconnect

  /** An input to the broker: a client event on a socket, or an eviction timer going off. */
  datatype Input =
    | Client(socket: SocketId, event: ClientEvent)
    | FireEviction(roomId: RoomId)

  /** What the environment supplies to a step: the clock and a draw of the random source. */
  datatype Env = Env(now: int, rand: real)

  datatype StepResult = StepResult(state: State, out: seq<Outbound>, log: seq<Activity>)

  /** The broker when the process starts: no rooms, no users, no timers. */
  function Init(): (s: State)
    ensures Valid(s) && s.rooms.entries == map[] && s.userSockets == map[] && s.pending == []
  {
    State(Empty(), map[], [])
  }

  /** The ordered maps of the state are well formed. */
  ghost predicate Valid(s: State) {
    && s.rooms.Valid()
    && forall r :: r in s.rooms.entries ==> s.rooms.entries[r].users.Valid()
  }

  /** `sid` is a member of room `roomId`. */
  predicate IsMember(s: State, roomId: RoomId, sid: SocketId) {
    s.rooms.Has(roomId) && s.rooms.Get(roomId).users.Has(sid)
  }

  /** The member records of room `roomId`; none if the room does not exist. */
  function MembersOf(s: State, roomId: RoomId): map<SocketId, User> {
    if s.rooms.Has(roomId) then s.rooms.Get(roomId).users.entries else map[]
  }

  /**
   The sockets `socket.to(roomId)` reaches, as far as the registry tells: the room's members
   other than the sender. Socket.io's own per-socket rooms are not part of the model.
   */
  function Others(s: State, roomId: RoomId, sid: SocketId): (to: set<SocketId>)
    ensures sid !in to
    ensures forall x :: x in to <==> x != sid && IsMember(s, roomId, x)
  {
    if s.rooms.Has(roomId) then s.rooms.Get(roomId).users.entries.Keys - {sid} else {}
  }

  /** The events that reach socket `sid`, in emission order. */
  function Received(out: seq<Outbound>, sid: SocketId): (evs: seq<ServerEvent>)
    ensures |evs| <= |out|
    ensures (forall o :: o in out ==> sid !in o.to) ==> evs == []
  {
    if out == [] then []
    else (if sid in out[0].to then [out[0].event] else []) + Received(out[1..], sid)
  }

  /** Registries `a` and `b` agree on every room except `roomId`. */
  ghost predicate SameExcept(a: OMap<RoomId, Room>, b: OMap<RoomId, Room>, roomId: RoomId) {
    forall r :: r != roomId ==>
      && (r in a.entries <==> r in b.entries)
      && (r in a.entries ==> a.entries[r] == b.entries[r])
  }

  /** `t` is `s` with room `roomId` (which exists in both) replaced by `room` and nothing else. */
  ghost predicate OnlyRoomChanged(s: State, t: State, roomId: RoomId, room: Room) {
    && t.rooms.keys == s.rooms.keys
    && t.rooms.Has(roomId)
    && t.rooms.Get(roomId) == room
    && SameExcept(s.rooms, t.rooms, roomId)
    && t.userSockets == s.userSockets
    && t.pending == s.pending
  }

  /** Replace an existing room in place. */
  function PutRoom(s: State, roomId: RoomId, room: Room): (t: State)
    requires Valid(s) && s.rooms.Has(roomId) && room.users.Valid()
    ensures Valid(t)
    ensures OnlyRoomChanged(s, t, roomId, room)
  {
    s.(rooms := s.rooms.Set(roomId, room))
  }

  /** The `room-state` member list: the room's users in insertion order with their socket ids. */
  function Snapshot(users: OMap<SocketId, User>): (ms: seq<Member>)
    requires users.Valid()
    ensures |ms| == |users.keys|
    ensures forall i :: 0 <= i < |ms| ==>
      ms[i].socketId == users.keys[i] && ms[i].user == users.entries[users.keys[i]]
  {
    SnapshotOf(users.keys, users.entries)
  }

  function SnapshotOf(ks: seq<SocketId>, m: map<SocketId, User>): (ms: seq<Member>)
    requires forall k :: k in ks ==> k in m
    ensures |ms| == |ks|
    ensures forall i :: 0 <= i < |ms| ==> ms[i].socketId == ks[i] && ms[i].user == m[ks[i]]
  {
    if ks == [] then [] else [Member(ks[0], m[ks[0]])] + SnapshotOf(ks[1..], m)
  }

  // ---------------------------------------------------------------- room registry

  /** A room as the first join creates it. */
  function NewRoom(now: int): Room {
    Room("", DefaultLanguage, Empty(), map[], now)
  }

  /**
   Create-or-get: an absent room is created empty with the default language and appended to
   the registry; an existing room is left exactly as it is.
   */
  function CreateOrGet(rooms: OMap<RoomId, Room>, roomId: RoomId, now: int): (r: OMap<RoomId, Room>)
    requires rooms.Valid()
    ensures r.Valid() && r.Has(roomId)
    ensures rooms.Has(roomId) ==> r == rooms
    ensures !rooms.Has(roomId) ==>
      && r.keys == rooms.keys + [roomId]
      && r.Get(roomId).code == ""
      && r.Get(roomId).language == DefaultLanguage
      && r.Get(roomId).users.Valid()
      && r.Get(roomId).users.entries == map[]
      && r.Get(roomId).cursors == map[]
      && r.Get(roomId).createdAt == now
    ensures SameExcept(rooms, r, roomId)
  {
    if rooms.Has(roomId) then rooms else rooms.Set(roomId, NewRoom(now))
  }

  // ---------------------------------------------------------------- handlers

  /**
   `join-room`: create or get the room, register the socket as a member with a palette colour,
   point the user's index entry at this socket, send the snapshot (which already lists the
   joiner) to the joiner alone and `user-joined` to every other member, and log the join.
   */
  function Join(s: State, sid: SocketId, roomId: RoomId, userId: UserId, userName: string, env: Env): (r: StepResult)
    requires Valid(s) && Palette.IsRandom(env.rand)
    ensures Valid(r.state)
    ensures r.state.rooms.Has(roomId)
    ensures s.rooms.Has(roomId) ==>
      && r.state.rooms.keys == s.rooms.keys
      && r.state.rooms.Get(roomId).code == s.rooms.Get(roomId).code
      && r.state.rooms.Get(roomId).language == s.rooms.Get(roomId).language
      && r.state.rooms.Get(roomId).cursors == s.rooms.Get(roomId).cursors
      && r.state.rooms.Get(roomId).createdAt == s.rooms.Get(roomId).createdAt
    ensures !s.rooms.Has(roomId) ==>
      && r.state.rooms.keys == s.rooms.keys + [roomId]
      && r.state.rooms.Get(roomId).code == ""
      && r.state.rooms.Get(roomId).language == DefaultLanguage
      && r.state.rooms.Get(roomId).cursors == map[]
      && r.state.rooms.Get(roomId).createdAt == env.now
    ensures var users := r.state.rooms.Get(roomId).users;
      && users.Has(sid)
      && users.Get(sid).userId == userId
      && users.Get(sid).userName == userName
      && users.Get(sid).joinedAt == env.now
      && users.Get(sid).color in Palette.Colors
      && users.entries == MembersOf(s, roomId)[sid := users.Get(sid)]
    ensures SameExcept(s.rooms, r.state.rooms, roomId)
    ensures r.state.userSockets == s.userSockets[userId := sid]
    ensures r.state.pending == s.pending
    ensures |r.out| == 2
    ensures r.out[0].to == {sid}
    ensures r.out[0].event == RoomState(
      r.state.rooms.Get(roomId).code,
      r.state.rooms.Get(roomId).language,
      Snapshot(r.state.rooms.Get(roomId).users))
    ensures r.out[1].to == Others(s, roomId, sid)
    ensures r.out[1].event ==
      UserJoined(sid, userId, userName, r.state.rooms.Get(roomId).users.Get(sid).color)
    ensures r.log == [Activity(roomId, userId, Joined)]
  {
    var rooms := CreateOrGet(s.rooms, roomId, env.now);
    var room := rooms.Get(roomId);
    var user := User(userId, userName, env.now, Palette.RandomColor(env.rand));
    var room' := room.(users := room.users.Set(sid, user));
    var s' := State(rooms.Set(roomId, room'), s.userSockets[userId := sid], s.pending);
    StepResult(
      s',
      [ Outbound({sid}, RoomState(room'.code, room'.language, Snapshot(room'.users))),
        Outbound(room'.users.entries.Keys - {sid}, UserJoined(sid, userId, userName, user.color)) ],
      [Activity(roomId, userId, Joined)])
  }

  /**
   `code-change`: on an existing room, replace the code wholesale and send `code-update` to
   every member but the sender (membership of the sender is not checked); on an unknown
   room, do nothing at all.
   */
  function ChangeCode(s: State, sid: SocketId, roomId: RoomId, code: string, userId: UserId): (r: StepResult)
    requires Valid(s)
    ensures Valid(r.state)
    ensures !s.rooms.Has(roomId) ==> r == StepResult(s, [], [])
    ensures s.rooms.Has(roomId) ==>
      && OnlyRoomChanged(s, r.state, roomId, s.rooms.Get(roomId).(code := code))
      && r.out == [Outbound(Others(s, roomId, sid), CodeUpdate(code, userId))]
      && r.log == []
  {
    if !s.rooms.Has(roomId) then StepResult(s, [], [])
    else
      var room := s.rooms.Get(roomId);
      StepResult(PutRoom(s, roomId, room.(code := code)),
                 [Outbound(Others(s, roomId, sid), CodeUpdate(code, userId))], [])
  }

  /**
   `language-change`: on an existing room, replace the language and send `language-update`
   to every member but the sender; on an unknown room, do nothing.
   */
  function ChangeLanguage(s: State, sid: SocketId, roomId: RoomId, language: string): (r: StepResult)
    requires Valid(s)
    ensures Valid(r.state)
    ensures !s.rooms.Has(roomId) ==> r == StepResult(s, [], [])
    ensures s.rooms.Has(roomId) ==>
      && OnlyRoomChanged(s, r.state, roomId, s.rooms.Get(roomId).(language := language))
      && r.out == [Outbound(Others(s, roomId, sid), LanguageUpdate(language))]
      && r.log == []
  {
    if !s.rooms.Has(roomId) then StepResult(s, [], [])
    else
      var room := s.rooms.Get(roomId);
      StepResult(PutRoom(s, roomId, room.(language := language)),
                 [Outbound(Others(s, roomId, sid), LanguageUpdate(language))], [])
  }

  /**
   `cursor-move`: on an existing room, overwrite the sender's cursor only (whether or not the
   sender is a member) and send `cursor-update` to every other member; on an unknown room,
   do nothing.
   */
  function MoveCursor(s: State, sid: SocketId, roomId: RoomId, position: Payload, selection: Payload): (r: StepResult)
    requires Valid(s)
    ensures Valid(r.state)
    ensures !s.rooms.Has(roomId) ==> r == StepResult(s, [], [])
    ensures s.rooms.Has(roomId) ==>
      var room := s.rooms.Get(roomId);
      && OnlyRoomChanged(s, r.state, roomId, room.(cursors := room.cursors[sid := Cursor(position, selection)]))
      && r.out == [Outbound(Others(s, roomId, sid), CursorUpdate(sid, position, selection))]
      && r.log == []
  {
    if !s.rooms.Has(roomId) then StepResult(s, [], [])
    else
      var room := s.rooms.Get(roomId);
      var room' := room.(cursors := room.cursors[sid := Cursor(position, selection)]);
      StepResult(PutRoom(s, roomId, room'),
                 [Outbound(Others(s, roomId, sid), CursorUpdate(sid, position, selection))], [])
  }

  /**
   `analysis-started`: a pure notification. The room is not looked up, so the broadcast is
   emitted even for a room the registry does not hold, where the model sends it to nobody.
   */
  function StartAnalysis(s: State, sid: SocketId, roomId: RoomId, analysisType: Payload): (r: StepResult)
    ensures r.state == s && r.log == []
    ensures r.out == [Outbound(Others(s, roomId, sid), UserAnalyzing(sid, analysisType))]
    ensures !s.rooms.Has(roomId) ==> r.out[0].to == {}
  {
    StepResult(s, [Outbound(Others(s, roomId, sid), UserAnalyzing(sid, analysisType))], [])
  }

  /**
   `handleUserLeave`: when the room exists and `sid` is a member, drop the member and its
   cursor, delete the index entry of `userId` whatever socket it points to, send `user-left`
   to the remaining members, schedule an eviction check if the room is now empty, and log
   the leave. Otherwise nothing happens.
   */
  function Leave(s: State, sid: SocketId, roomId: RoomId, userId: UserId, now: int): (r: StepResult)
    requires Valid(s)
    ensures Valid(r.state)
    ensures !IsMember(s, roomId, sid) ==> r == StepResult(s, [], [])
    ensures IsMember(s, roomId, sid) ==>
      var room := s.rooms.Get(roomId);
      && r.state.rooms.keys == s.rooms.keys
      && r.state.rooms.Has(roomId)
      && RoomAfterLeave(room, r.state.rooms.Get(roomId), sid, true)
      && r.state.rooms.Get(roomId).users.keys == Without(room.users.keys, sid)
      && SameExcept(s.rooms, r.state.rooms, roomId)
      && r.state.userSockets == s.userSockets - {userId}
      && r.out == [Outbound(Others(s, roomId, sid), UserLeft(sid, room.users.Get(sid).userName))]
      && (room.users.entries.Keys == {sid} ==>
            r.state.pending == s.pending + [Eviction(roomId, now + EvictionGraceMs)])
      && (room.users.entries.Keys != {sid} ==> r.state.pending == s.pending)
      && r.log == [Activity(roomId, userId, Left)]
  {
    if !IsMember(s, roomId, sid) then StepResult(s, [], [])
    else
      var room := s.rooms.Get(roomId);
      var user := room.users.Get(sid);
      var room' := room.(users := room.users.Delete(sid), cursors := room.cursors - {sid});
      var empty := room'.users.Size() == 0;
      assert empty <==> room.users.entries.Keys == {sid};
      var pending := if empty then s.pending + [Eviction(roomId, now + EvictionGraceMs)] else s.pending;
      var t := PutRoom(s, roomId, room').(userSockets := s.userSockets - {userId}, pending := pending);
      StepResult(t, [Outbound(Others(s, roomId, sid), UserLeft(sid, user.userName))],
                 [Activity(roomId, userId, Left)])
  }

  /** The user ids that socket `sid` is registered under in the rooms listed in `ks`. */
  function UsersOf(s: State, sid: SocketId, ks: seq<RoomId>): set<UserId> {
    set roomId | roomId in ks && IsMember(s, roomId, sid) :: s.rooms.Get(roomId).users.Get(sid).userId
  }

  /**
   Room `b` is room `a` after `sid` left it (when `visited`) or untouched (otherwise): the
   shared code, language and creation time never change.
   */
  ghost predicate RoomAfterLeave(a: Room, b: Room, sid: SocketId, visited: bool) {
    && b.code == a.code
    && b.language == a.language
    && b.createdAt == a.createdAt
    && (visited ==> b.users.entries == a.users.entries - {sid})
    && (visited && sid in a.users.entries ==> b.cursors == a.cursors - {sid})
    && (!visited || sid !in a.users.entries ==> b == a)
  }

  /** Registry `b` is registry `a` after `sid` left every room listed in `ks`. */
  ghost predicate RoomsAfterLeave(a: OMap<RoomId, Room>, b: OMap<RoomId, Room>, sid: SocketId, ks: seq<RoomId>) {
    && b.keys == a.keys
    && (forall roomId :: roomId in a.entries <==> roomId in b.entries)
    && forall roomId :: roomId in a.entries ==>
         RoomAfterLeave(a.entries[roomId], b.entries[roomId], sid, roomId in ks)
  }

  /**
   One iteration of the `disconnect` loop: if `sid` is a member of `roomId`, leave it with
   the member's own user id; otherwise do nothing.
   */
  function LeaveIfMember(s: State, sid: SocketId, roomId: RoomId, now: int): (r: StepResult)
    requires Valid(s)
    ensures Valid(r.state)
    ensures !IsMember(r.state, roomId, sid)
    ensures r.state.rooms.keys == s.rooms.keys
    ensures IsMember(s, roomId, sid) <==> r.log != []
  {
    if IsMember(s, roomId, sid)
    then Leave(s, sid, roomId, s.rooms.Get(roomId).users.Get(sid).userId, now)
    else StepResult(s, [], [])
  }

  /** A registry where `sid` is a member of none of the rooms `ks` is its own after-leave state. */
  lemma RoomsAfterLeaveUnchanged(rooms: OMap<RoomId, Room>, sid: SocketId, ks: seq<RoomId>)
    requires forall x :: x in ks && x in rooms.entries ==> sid !in rooms.entries[x].users.entries
    ensures RoomsAfterLeave(rooms, rooms, sid, ks)
  {
    forall x | x in rooms.entries
      ensures RoomAfterLeave(rooms.entries[x], rooms.entries[x], sid, x in ks)
    {
      if x in ks {
        assert rooms.entries[x].users.entries - {sid} == rooms.entries[x].users.entries;
      }
    }
  }

  /** A leave by a member changes the registry exactly as one iteration of `disconnect` should. */
  lemma LeaveRooms(s: State, sid: SocketId, roomId: RoomId, userId: UserId, now: int)
    requires Valid(s) && IsMember(s, roomId, sid)
    ensures RoomsAfterLeave(s.rooms, Leave(s, sid, roomId, userId, now).state.rooms, sid, [roomId])
  {
    var t := Leave(s, sid, roomId, userId, now).state;
    forall x | x in s.rooms.entries
      ensures RoomAfterLeave(s.rooms.entries[x], t.rooms.entries[x], sid, x in [roomId])
    {
      if x != roomId {
        assert t.rooms.entries[x] == s.rooms.entries[x];
      }
    }
  }

  /** One iteration of the `disconnect` loop removes `sid` from `roomId` and changes no other room. */
  lemma LeaveIfMemberRooms(s: State, sid: SocketId, roomId: RoomId, now: int)
    requires Valid(s)
    ensures RoomsAfterLeave(s.rooms, LeaveIfMember(s, sid, roomId, now).state.rooms, sid, [roomId])
  {
    if IsMember(s, roomId, sid) {
      LeaveRooms(s, sid, roomId, s.rooms.Get(roomId).users.Get(sid).userId, now);
    } else {
      RoomsAfterLeaveUnchanged(s.rooms, sid, [roomId]);
    }
  }

  /** After one iteration of the `disconnect` loop, `sid` is in `roomId` no more and elsewhere as before. */
  lemma LeaveIfMemberMembership(s: State, sid: SocketId, roomId: RoomId, now: int)
    requires Valid(s)
    ensures var t := LeaveIfMember(s, sid, roomId, now).state;
      && !IsMember(t, roomId, sid)
      && (forall x :: x != roomId ==> (IsMember(t, x, sid) <==> IsMember(s, x, sid)))
      && (forall x :: x != roomId && IsMember(s, x, sid) && IsMember(t, x, sid) ==>
            t.rooms.Get(x).users.Get(sid).userId == s.rooms.Get(x).users.Get(sid).userId)
  {
    var t := LeaveIfMember(s, sid, roomId, now).state;
    if IsMember(s, roomId, sid) {
      assert SameExcept(s.rooms, t.rooms, roomId);
    }
  }

  /** One iteration of the `disconnect` loop drops exactly the member's own index entry. */
  lemma LeaveIfMemberIndex(s: State, sid: SocketId, roomId: RoomId, now: int)
    requires Valid(s)
    ensures LeaveIfMember(s, sid, roomId, now).state.userSockets == s.userSockets - UsersOf(s, sid, [roomId])
  {
    if IsMember(s, roomId, sid) {
      assert UsersOf(s, sid, [roomId]) == {s.rooms.Get(roomId).users.Get(sid).userId};
    } else {
      assert UsersOf(s, sid, [roomId]) == {};
      assert s.userSockets - {} == s.userSockets;
    }
  }

  /** `q'` is `q` with checks appended at the end. */
  ghost predicate Extends(q': seq<Eviction>, q: seq<Eviction>) {
    |q| <= |q'| && q'[..|q|] == q
  }

  /** One iteration of the `disconnect` loop only appends eviction checks and never messages `sid`. */
  lemma LeaveIfMemberPending(s: State, sid: SocketId, roomId: RoomId, now: int)
    requires Valid(s)
    ensures var r := LeaveIfMember(s, sid, roomId, now);
      && Extends(r.state.pending, s.pending)
      && (forall o :: o in r.out ==> sid !in o.to)
  {
    var r := LeaveIfMember(s, sid, roomId, now);
    if IsMember(s, roomId, sid) {
      assert r.state.pending[..|s.pending|] == s.pending;
      forall o | o in r.out ensures sid !in o.to {
        assert o == r.out[0];
      }
    }
  }

  /**
   The body of the `disconnect` loop over the rooms listed in `ks`: for each room that has
   `sid` as a member, apply the leave with the member's own user id. Leaves never remove a
   room, so iterating over the key order taken at the start visits every room.
   */
  function LeaveAll(s: State, sid: SocketId, ks: seq<RoomId>, now: int): (r: StepResult)
    requires Valid(s)
    decreases ks
    ensures Valid(r.state)
    ensures r.state.rooms.keys == s.rooms.keys
    ensures forall a :: a in r.log ==> a.action == Left && a.roomId in ks
  {
    if ks == [] then StepResult(s, [], [])
    else
      var first := LeaveIfMember(s, sid, ks[0], now);
      var rest := LeaveAll(first.state, sid, ks[1..], now);
      StepResult(rest.state, first.out + rest.out, first.log + rest.log)
  }

  /**
   The `disconnect` loop over `ks` takes `sid` out of every listed room and changes nothing
   else in the registry: no room appears or disappears, and code and language stay.
   */
  lemma {:induction false} LeaveAllRoomsEffect(s: State, sid: SocketId, ks: seq<RoomId>, now: int)
    requires Valid(s)
    decreases ks
    ensures RoomsAfterLeave(s.rooms, LeaveAll(s, sid, ks, now).state.rooms, sid, ks)
  {
    if ks == [] {
      RoomsAfterLeaveUnchanged(s.rooms, sid, ks);
    } else {
      var first := LeaveIfMember(s, sid, ks[0], now);
      LeaveIfMemberRooms(s, sid, ks[0], now);
      LeaveAllRoomsEffect(first.state, sid, ks[1..], now);
      LeaveAllRooms(s.rooms, first.state.rooms, LeaveAll(first.state, sid, ks[1..], now).state.rooms, sid, ks);
    }
  }

  /** The `disconnect` loop over `ks` drops the index entries of exactly the user ids `sid` had there. */
  lemma {:induction false} LeaveAllIndexEffect(s: State, sid: SocketId, ks: seq<RoomId>, now: int)
    requires Valid(s)
    decreases ks
    ensures LeaveAll(s, sid, ks, now).state.userSockets == s.userSockets - UsersOf(s, sid, ks)
  {
    if ks == [] {
      assert UsersOf(s, sid, ks) == {};
    } else {
      var first := LeaveIfMember(s, sid, ks[0], now);
      var rest := LeaveAll(first.state, sid, ks[1..], now);
      LeaveIfMemberMembership(s, sid, ks[0], now);
      LeaveIfMemberIndex(s, sid, ks[0], now);
      LeaveAllIndexEffect(first.state, sid, ks[1..], now);
      LeaveAllUsers(s, first.state, sid, ks);
      MinusTwice(s.userSockets, UsersOf(s, sid, [ks[0]]), UsersOf(first.state, sid, ks[1..]));
    }
  }

  /** Removing two sets of keys one after the other removes their union. */
  lemma MinusTwice(m: map<UserId, SocketId>, a: set<UserId>, b: set<UserId>)
    ensures (m - a) - b == m - (a + b)
  {
  }

  /** The `disconnect` loop over `ks` only appends eviction checks and never messages `sid`. */
  lemma {:induction false} LeaveAllPendingEffect(s: State, sid: SocketId, ks: seq<RoomId>, now: int)
    requires Valid(s)
    decreases ks
    ensures var r := LeaveAll(s, sid, ks, now);
      && Extends(r.state.pending, s.pending)
      && forall o :: o in r.out ==> sid !in o.to
  {
    if ks != [] {
      var first := LeaveIfMember(s, sid, ks[0], now);
      var rest := LeaveAll(first.state, sid, ks[1..], now);
      LeaveIfMemberPending(s, sid, ks[0], now);
      LeaveAllPendingEffect(first.state, sid, ks[1..], now);
      assert rest.state.pending[..|s.pending|] == first.state.pending[..|s.pending|];
    }
  }

  /** Leaving the first room and then the rest is leaving all rooms of `ks`. */
  lemma LeaveAllRooms(a: OMap<RoomId, Room>, b: OMap<RoomId, Room>, c: OMap<RoomId, Room>, sid: SocketId, ks: seq<RoomId>)
    requires ks != []
    requires RoomsAfterLeave(a, b, sid, [ks[0]])
    requires RoomsAfterLeave(b, c, sid, ks[1..])
    requires ks[0] in b.entries ==> sid !in b.entries[ks[0]].users.entries
    ensures RoomsAfterLeave(a, c, sid, ks)
  {
    forall roomId | roomId in a.entries
      ensures RoomAfterLeave(a.entries[roomId], c.entries[roomId], sid, roomId in ks)
    {
      assert roomId in ks <==> roomId == ks[0] || roomId in ks[1..];
      assert RoomAfterLeave(a.entries[roomId], b.entries[roomId], sid, roomId == ks[0]);
      assert RoomAfterLeave(b.entries[roomId], c.entries[roomId], sid, roomId in ks[1..]);
    }
  }

  /** The index entries dropped by the first leave and by the rest add up. */
  lemma LeaveAllUsers(s: State, t: State, sid: SocketId, ks: seq<RoomId>)
    requires ks != []
    requires !IsMember(t, ks[0], sid)
    requires forall x :: x != ks[0] ==> (IsMember(t, x, sid) <==> IsMember(s, x, sid))
    requires forall x :: x != ks[0] && IsMember(s, x, sid) && IsMember(t, x, sid) ==>
      t.rooms.Get(x).users.Get(sid).userId == s.rooms.Get(x).users.Get(sid).userId
    ensures UsersOf(s, sid, ks) == UsersOf(s, sid, [ks[0]]) + UsersOf(t, sid, ks[1..])
  {
    assert forall x :: x in ks <==> x == ks[0] || x in ks[1..];
  }

  /** `sid` is the one and only member of room `roomId`, so its leave empties the room. */
  predicate OnlyMember(s: State, roomId: RoomId, sid: SocketId) {
    IsMember(s, roomId, sid) && s.rooms.Get(roomId).users.entries.Keys == {sid}
  }

  /** The check the leave of room `roomId` schedules: one if `sid` is its only member, else none. */
  function EvictionFor(s: State, sid: SocketId, roomId: RoomId, now: int): seq<Eviction> {
    if OnlyMember(s, roomId, sid) then [Eviction(roomId, now + EvictionGraceMs)] else []
  }

  /** The notice the leave of room `roomId` sends: one if `sid` is a member, else none. */
  function NoticeFor(s: State, sid: SocketId, roomId: RoomId): seq<Outbound> {
    if IsMember(s, roomId, sid) then [LeftNotice(s, sid, roomId)] else []
  }

  /**
   The eviction checks a disconnect of `sid` schedules, read off the registry before the
   disconnect: one per room of `ks` that `sid` alone occupies, due five minutes later, in the
   order of `ks`.
   */
  function DisconnectEvictions(s: State, sid: SocketId, ks: seq<RoomId>, now: int): seq<Eviction>
    decreases ks
  {
    if ks == [] then []
    else
      EvictionFor(s, sid, ks[0], now) + DisconnectEvictions(s, sid, ks[1..], now)
  }

  /** The `user-left` notice for `sid` leaving room `roomId`, to the room's other members. */
  function LeftNotice(s: State, sid: SocketId, roomId: RoomId): Outbound
    requires IsMember(s, roomId, sid)
  {
    Outbound(Others(s, roomId, sid), UserLeft(sid, s.rooms.Get(roomId).users.Get(sid).userName))
  }

  /**
   The messages a disconnect of `sid` sends, read off the registry before the disconnect: one
   `user-left` per room of `ks` that has `sid` as a member, in the order of `ks`.
   */
  function DisconnectNotices(s: State, sid: SocketId, ks: seq<RoomId>): seq<Outbound>
    decreases ks
  {
    if ks == [] then []
    else
      NoticeFor(s, sid, ks[0]) + DisconnectNotices(s, sid, ks[1..])
  }

  /**
   The planned checks are exactly one per room of `ks` that `sid` alone occupies, each due
   five minutes after the disconnect.
   */
  lemma {:induction false} DisconnectEvictionsMeaning(s: State, sid: SocketId, ks: seq<RoomId>, now: int)
    ensures var q := DisconnectEvictions(s, sid, ks, now);
      && (forall e :: e in q ==> e.roomId in ks && OnlyMember(s, e.roomId, sid) && e.dueAt == now + EvictionGraceMs)
      && (forall x :: x in ks && OnlyMember(s, x, sid) ==> Eviction(x, now + EvictionGraceMs) in q)
    decreases ks
  {
    if ks != [] {
      DisconnectEvictionsMeaning(s, sid, ks[1..], now);
      assert forall x :: x in ks <==> x == ks[0] || x in ks[1..];
    }
  }

  /**
   The planned notices are exactly one `user-left` per room of `ks` that has `sid` as a
   member, and none of them reaches `sid`.
   */
  lemma {:induction false} DisconnectNoticesMeaning(s: State, sid: SocketId, ks: seq<RoomId>)
    ensures var out := DisconnectNotices(s, sid, ks);
      && (forall o :: o in out ==> sid !in o.to)
      && (forall x :: x in ks && IsMember(s, x, sid) ==> LeftNotice(s, sid, x) in out)
      && (forall o :: o in out ==> exists x :: x in ks && IsMember(s, x, sid) && o == LeftNotice(s, sid, x))
    decreases ks
  {
    if ks != [] {
      var out := DisconnectNotices(s, sid, ks);
      DisconnectNoticesMeaning(s, sid, ks[1..]);
      assert forall x :: x in ks <==> x == ks[0] || x in ks[1..];
      forall o | o in out ensures exists x :: x in ks && IsMember(s, x, sid) && o == LeftNotice(s, sid, x) {
        if o in NoticeFor(s, sid, ks[0]) {
          assert ks[0] in ks;
        } else {
          assert o in DisconnectNotices(s, sid, ks[1..]);
        }
      }
    }
  }

  /** The plan of a disconnect over `ks` depends only on the rooms listed in `ks`. */
  lemma {:induction false} DisconnectPlanFrame(s: State, t: State, sid: SocketId, ks: seq<RoomId>, now: int)
    requires forall x :: x in ks ==>
      && (x in s.rooms.entries <==> x in t.rooms.entries)
      && (x in s.rooms.entries ==> s.rooms.entries[x] == t.rooms.entries[x])
    ensures DisconnectEvictions(t, sid, ks, now) == DisconnectEvictions(s, sid, ks, now)
    ensures DisconnectNotices(t, sid, ks) == DisconnectNotices(s, sid, ks)
    decreases ks
  {
    if ks != [] {
      assert forall x :: x in ks[1..] ==> x in ks;
      DisconnectPlanFrame(s, t, sid, ks[1..], now);
      RoomPlanFrame(s, t, sid, ks[0], now);
    }
  }

  /** The eviction and notice planned for one room depend on that room's entry only. */
  lemma RoomPlanFrame(s: State, t: State, sid: SocketId, roomId: RoomId, now: int)
    requires roomId in s.rooms.entries <==> roomId in t.rooms.entries
    requires roomId in s.rooms.entries ==> s.rooms.entries[roomId] == t.rooms.entries[roomId]
    ensures EvictionFor(t, sid, roomId, now) == EvictionFor(s, sid, roomId, now)
    ensures NoticeFor(t, sid, roomId) == NoticeFor(s, sid, roomId)
  {
  }

  /** One iteration of the `disconnect` loop schedules and sends what the plan says for its room. */
  lemma LeaveIfMemberPlan(s: State, sid: SocketId, roomId: RoomId, now: int)
    requires Valid(s)
    ensures var first := LeaveIfMember(s, sid, roomId, now);
      && first.state.pending == s.pending + EvictionFor(s, sid, roomId, now)
      && first.out == NoticeFor(s, sid, roomId)
  {
  }

  /** The plan for the rooms after the first is not changed by the first iteration. */
  lemma LeaveIfMemberKeepsPlan(s: State, sid: SocketId, ks: seq<RoomId>, now: int)
    requires Valid(s) && Distinct(ks) && ks != []
    ensures var t := LeaveIfMember(s, sid, ks[0], now).state;
      && DisconnectEvictions(t, sid, ks[1..], now) == DisconnectEvictions(s, sid, ks[1..], now)
      && DisconnectNotices(t, sid, ks[1..]) == DisconnectNotices(s, sid, ks[1..])
  {
    var t := LeaveIfMember(s, sid, ks[0], now).state;
    DistinctTail(ks);
    if IsMember(s, ks[0], sid) {
      assert SameExcept(s.rooms, t.rooms, ks[0]);
    }
    DisconnectPlanFrame(s, t, sid, ks[1..], now);
  }

  /** Appending `h` and then `tail` appends `h + tail`. */
  lemma AppendInTwoSteps<T>(p0: seq<T>, p1: seq<T>, p2: seq<T>, h: seq<T>, tail: seq<T>)
    requires p1 == p0 + h && p2 == p1 + tail
    ensures p2 == p0 + (h + tail)
  {
  }

  /** The `disconnect` loop over distinct rooms `ks` appends exactly the planned eviction checks. */
  lemma {:induction false} LeaveAllSchedules(s: State, sid: SocketId, ks: seq<RoomId>, now: int)
    requires Valid(s) && Distinct(ks)
    ensures LeaveAll(s, sid, ks, now).state.pending == s.pending + DisconnectEvictions(s, sid, ks, now)
    decreases ks
  {
    if ks != [] {
      var first := LeaveIfMember(s, sid, ks[0], now);
      DistinctTail(ks);
      var h := EvictionFor(s, sid, ks[0], now);
      var tail := DisconnectEvictions(s, sid, ks[1..], now);
      assert DisconnectEvictions(s, sid, ks, now) == h + tail;
      assert LeaveAll(s, sid, ks, now).state == LeaveAll(first.state, sid, ks[1..], now).state;
      assert LeaveAll(first.state, sid, ks[1..], now).state.pending == first.state.pending + tail by {
        LeaveAllSchedules(first.state, sid, ks[1..], now);
        LeaveIfMemberKeepsPlan(s, sid, ks, now);
      }
      assert first.state.pending == s.pending + h by {
        LeaveIfMemberPlan(s, sid, ks[0], now);
      }
      AppendInTwoSteps(s.pending, first.state.pending, LeaveAll(first.state, sid, ks[1..], now).state.pending, h, tail);
    }
  }

  /** The `disconnect` loop over distinct rooms `ks` sends exactly the planned notices, in room order. */
  lemma {:induction false} LeaveAllNotifies(s: State, sid: SocketId, ks: seq<RoomId>, now: int)
    requires Valid(s) && Distinct(ks)
    ensures LeaveAll(s, sid, ks, now).out == DisconnectNotices(s, sid, ks)
    decreases ks
  {
    if ks != [] {
      var first := LeaveIfMember(s, sid, ks[0], now);
      DistinctTail(ks);
      var h := NoticeFor(s, sid, ks[0]);
      var tail := DisconnectNotices(s, sid, ks[1..]);
      assert DisconnectNotices(s, sid, ks) == h + tail;
      assert LeaveAll(s, sid, ks, now).out == first.out + LeaveAll(first.state, sid, ks[1..], now).out;
      assert LeaveAll(first.state, sid, ks[1..], now).out == tail by {
        LeaveAllNotifies(first.state, sid, ks[1..], now);
        LeaveIfMemberKeepsPlan(s, sid, ks, now);
      }
      assert first.out == h by {
        LeaveIfMemberPlan(s, sid, ks[0], now);
      }
    }
  }

  /** `disconnect`: leave every room that has `sid` as a member, in registry order. */
  function HandleDisconnect(s: State, sid: SocketId, now: int): (r: StepResult)
    requires Valid(s)
    ensures Valid(r.state)
    ensures forall roomId :: roomId in s.rooms.entries <==> roomId in r.state.rooms.entries
    ensures forall roomId :: roomId in r.state.rooms.entries ==>
      && sid !in r.state.rooms.entries[roomId].users.entries
      && r.state.rooms.entries[roomId].users.entries == s.rooms.entries[roomId].users.entries - {sid}
      && r.state.rooms.entries[roomId].code == s.rooms.entries[roomId].code
      && r.state.rooms.entries[roomId].language == s.rooms.entries[roomId].language
    ensures forall o :: o in r.out ==> sid !in o.to
    ensures r.state.pending == s.pending + DisconnectEvictions(s, sid, s.rooms.keys, now)
    ensures r.out == DisconnectNotices(s, sid, s.rooms.keys)
    ensures r.state.userSockets == s.userSockets - UsersOf(s, sid, s.rooms.keys)
  {
    LeaveAllRoomsEffect(s, sid, s.rooms.keys, now);
    LeaveAllIndexEffect(s, sid, s.rooms.keys, now);
    LeaveAllPendingEffect(s, sid, s.rooms.keys, now);
    LeaveAllSchedules(s, sid, s.rooms.keys, now);
    LeaveAllNotifies(s, sid, s.rooms.keys, now);
    LeaveAll(s, sid, s.rooms.keys, now)
  }

  // ---------------------------------------------------------------- eviction

  /** Some eviction check for `roomId` is waiting to fire. */
  predicate HasPending(q: seq<Eviction>, roomId: RoomId) {
    exists i :: 0 <= i < |q| && q[i].roomId == roomId
  }

  /** The earliest pending check for `roomId`: the timer that goes off first. */
  function FirstPending(q: seq<Eviction>, roomId: RoomId): (i: nat)
    requires HasPending(q, roomId)
    ensures i < |q| && q[i].roomId == roomId
    ensures forall j :: 0 <= j < i ==> q[j].roomId != roomId
  {
    if q[0].roomId == roomId then 0
    else
      assert HasPending(q[1..], roomId) by {
        var i :| 0 <= i < |q| && q[i].roomId == roomId;
        assert q[1..][i - 1] == q[i];
      }
      1 + FirstPending(q[1..], roomId)
  }

  /** The re-check inside the timer: delete `roomId` only if it exists and has no members. */
  function EvictIfEmpty(rooms: OMap<RoomId, Room>, roomId: RoomId): (r: OMap<RoomId, Room>)
    requires rooms.Valid()
    ensures r.Valid()
    ensures SameExcept(rooms, r, roomId)
    ensures r.Has(roomId) <==> rooms.Has(roomId) && rooms.Get(roomId).users.entries != map[]
    ensures r.Has(roomId) ==> r.Get(roomId) == rooms.Get(roomId)
  {
    if rooms.Has(roomId) && rooms.Get(roomId).users.entries == map[] then rooms.Delete(roomId) else rooms
  }

  /**
   The eviction timer of `roomId` goes off: its check leaves the table, and the room is
   deleted only if it still exists and has no members at that moment. A room that has
   members again, or whose timer is not pending, is kept unchanged; no other room is touched.
   */
  function Fire(s: State, roomId: RoomId): (r: StepResult)
    requires Valid(s)
    ensures Valid(r.state)
    ensures r.out == [] && r.log == []
    ensures r.state.userSockets == s.userSockets
    ensures !HasPending(s.pending, roomId) ==> r.state == s
    ensures HasPending(s.pending, roomId) ==>
      var i := FirstPending(s.pending, roomId);
      && r.state.pending == s.pending[..i] + s.pending[i + 1..]
      && r.state.rooms == EvictIfEmpty(s.rooms, roomId)
    ensures SameExcept(s.rooms, r.state.rooms, roomId)
    ensures r.state.rooms.Has(roomId) <==>
      s.rooms.Has(roomId) && !(HasPending(s.pending, roomId) && s.rooms.Get(roomId).users.entries == map[])
    ensures r.state.rooms.Has(roomId) ==> r.state.rooms.Get(roomId) == s.rooms.Get(roomId)
  {
    if !HasPending(s.pending, roomId) then StepResult(s, [], [])
    else
      var i := FirstPending(s.pending, roomId);
      var t := State(EvictIfEmpty(s.rooms, roomId), s.userSockets, s.pending[..i] + s.pending[i + 1..]);
      assert forall x :: x in t.rooms.entries ==> x in s.rooms.entries && t.rooms.entries[x] == s.rooms.entries[x];
      StepResult(t, [], [])
  }

  /** Every empty room has an eviction check waiting, so no empty room stays forever. */
  ghost predicate NoLeak(s: State) {
    forall r :: r in s.rooms.entries && s.rooms.entries[r].users.entries == map[] ==>
      HasPending(s.pending, r)
  }

  // ---------------------------------------------------------------- dispatch

  /** The broker's step function: route an input to its handler. */
  function Step(s: State, input: Input, env: Env): (r: StepResult)
    requires Valid(s) && Palette.IsRandom(env.rand)
    ensures Valid(r.state)
  {
    match input
    case FireEviction(roomId) => Fire(s, roomId)
    case Client(sid, event) =>
      match event
      case JoinRoom(roomId, userId, userName) => Join(s, sid, roomId, userId, userName, env)
      case CodeChange(roomId, code, userId) => ChangeCode(s, sid, roomId, code, userId)
      case LanguageChange(roomId, language) => ChangeLanguage(s, sid, roomId, language)
      case CursorMove(roomId, position, selection) => MoveCursor(s, sid, roomId, position, selection)
      case AnalysisStarted(roomId, analysisType) => StartAnalysis(s, sid, roomId, analysisType)
      case LeaveRoom(roomId, userId) => Leave(s, sid, roomId, userId, env.now)
      case Disconnect => HandleDisconnect(s, sid, env.now)
  }
}
