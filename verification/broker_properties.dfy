/**
 Properties of the room broker that relate several handlers or several steps: the
 no-leak invariant every step keeps, who receives which message, last-write-wins on code,
 eviction safety when a room is re-joined within the grace period, the surprising cases of
 the eviction re-check and of the user index, and a two-user run from join to eviction.
 */
module BrokerProperties {
  import opened OrderedMaps
  import opened Broker
  import Palette

  // ---------------------------------------------------------------- the no-leak invariant

  /** A change to one room that keeps its member map keeps every empty room's check pending. */
  lemma OnlyRoomChangedKeepsNoLeak(s: State, t: State, roomId: RoomId, room: Room)
    requires s.rooms.Has(roomId) && room.users.entries == s.rooms.Get(roomId).users.entries
    requires OnlyRoomChanged(s, t, roomId, room)
    requires NoLeak(s)
    ensures NoLeak(t)
  {
    forall x | x in t.rooms.entries && t.rooms.entries[x].users.entries == map[]
      ensures HasPending(t.pending, x)
    {
      assert x in s.rooms.entries && s.rooms.entries[x].users.entries == map[];
    }
  }

  /** A join leaves the joined room non-empty and every other room as it was. */
  lemma JoinKeepsNoLeak(s: State, sid: SocketId, roomId: RoomId, userId: UserId, userName: string, env: Env)
    requires Valid(s) && Palette.IsRandom(env.rand) && NoLeak(s)
    ensures NoLeak(Join(s, sid, roomId, userId, userName, env).state)
  {
    var t := Join(s, sid, roomId, userId, userName, env).state;
    forall x | x in t.rooms.entries && t.rooms.entries[x].users.entries == map[]
      ensures HasPending(t.pending, x)
    {
      assert x != roomId;
      assert x in s.rooms.entries && s.rooms.entries[x].users.entries == map[];
    }
  }

  /** A leave that empties its room schedules a check for it; other rooms keep theirs. */
  lemma LeaveKeepsNoLeak(s: State, sid: SocketId, roomId: RoomId, userId: UserId, now: int)
    requires Valid(s) && NoLeak(s)
    ensures NoLeak(Leave(s, sid, roomId, userId, now).state)
  {
    var t := Leave(s, sid, roomId, userId, now).state;
    if IsMember(s, roomId, sid) {
      forall x | x in t.rooms.entries && t.rooms.entries[x].users.entries == map[]
        ensures HasPending(t.pending, x)
      {
        if x == roomId {
          assert s.rooms.Get(roomId).users.entries.Keys == {sid};
          assert t.pending[|t.pending| - 1].roomId == roomId;
        } else {
          assert x in s.rooms.entries && s.rooms.entries[x].users.entries == map[];
          var i :| 0 <= i < |s.pending| && s.pending[i].roomId == x;
          assert t.pending[i] == s.pending[i];
        }
      }
    }
  }

  /** The `disconnect` loop keeps the invariant, one leave at a time. */
  lemma {:induction false} LeaveAllKeepsNoLeak(s: State, sid: SocketId, ks: seq<RoomId>, now: int)
    requires Valid(s) && NoLeak(s)
    decreases ks
    ensures NoLeak(LeaveAll(s, sid, ks, now).state)
  {
    if ks != [] {
      if IsMember(s, ks[0], sid) {
        LeaveKeepsNoLeak(s, sid, ks[0], s.rooms.Get(ks[0]).users.Get(sid).userId, now);
      }
      LeaveAllKeepsNoLeak(LeaveIfMember(s, sid, ks[0], now).state, sid, ks[1..], now);
    }
  }

  /** A fired check either deletes its (empty) room or leaves it; other rooms keep their checks. */
  lemma FireKeepsNoLeak(s: State, roomId: RoomId)
    requires Valid(s) && NoLeak(s)
    ensures NoLeak(Fire(s, roomId).state)
  {
    var t := Fire(s, roomId).state;
    if HasPending(s.pending, roomId) {
      var i := FirstPending(s.pending, roomId);
      forall x | x in t.rooms.entries && t.rooms.entries[x].users.entries == map[]
        ensures HasPending(t.pending, x)
      {
        assert x != roomId;
        assert x in s.rooms.entries && s.rooms.entries[x].users.entries == map[];
        var j :| 0 <= j < |s.pending| && s.pending[j].roomId == x;
        if j < i {
          assert t.pending[j] == s.pending[j];
        } else {
          assert t.pending[j - 1] == s.pending[j];
        }
      }
    }
  }

  /** Editing one room's code, language or cursor leaves membership and pending checks alone. */
  lemma ChangeCodeKeepsNoLeak(s: State, sid: SocketId, roomId: RoomId, code: string, userId: UserId)
    requires Valid(s) && NoLeak(s)
    ensures NoLeak(ChangeCode(s, sid, roomId, code, userId).state)
  {
    if s.rooms.Has(roomId) {
      OnlyRoomChangedKeepsNoLeak(s, ChangeCode(s, sid, roomId, code, userId).state, roomId,
        s.rooms.Get(roomId).(code := code));
    }
  }

  lemma ChangeLanguageKeepsNoLeak(s: State, sid: SocketId, roomId: RoomId, language: string)
    requires Valid(s) && NoLeak(s)
    ensures NoLeak(ChangeLanguage(s, sid, roomId, language).state)
  {
    if s.rooms.Has(roomId) {
      OnlyRoomChangedKeepsNoLeak(s, ChangeLanguage(s, sid, roomId, language).state, roomId,
        s.rooms.Get(roomId).(language := language));
    }
  }

  lemma MoveCursorKeepsNoLeak(s: State, sid: SocketId, roomId: RoomId, position: Payload, selection: Payload)
    requires Valid(s) && NoLeak(s)
    ensures NoLeak(MoveCursor(s, sid, roomId, position, selection).state)
  {
    if s.rooms.Has(roomId) {
      var room := s.rooms.Get(roomId);
      OnlyRoomChangedKeepsNoLeak(s, MoveCursor(s, sid, roomId, position, selection).state, roomId,
        room.(cursors := room.cursors[sid := Cursor(position, selection)]));
    }
  }

  /**
   Every step keeps the invariant that each empty room has an eviction check pending: an
   empty room is never left in the registry without a timer that will re-check it.
   */
  lemma StepKeepsNoLeak(s: State, input: Input, env: Env)
    requires Valid(s) && Palette.IsRandom(env.rand) && NoLeak(s)
    ensures NoLeak(Step(s, input, env).state)
  {
    match input
    case FireEviction(roomId) => FireKeepsNoLeak(s, roomId);
    case Client(sid, event) =>
      match event
      case JoinRoom(roomId, userId, userName) => JoinKeepsNoLeak(s, sid, roomId, userId, userName, env);
      case CodeChange(roomId, code, userId) => ChangeCodeKeepsNoLeak(s, sid, roomId, code, userId);
      case LanguageChange(roomId, language) => ChangeLanguageKeepsNoLeak(s, sid, roomId, language);
      case CursorMove(roomId, position, selection) => MoveCursorKeepsNoLeak(s, sid, roomId, position, selection);
      case AnalysisStarted(_, _) =>
      case LeaveRoom(roomId, userId) => LeaveKeepsNoLeak(s, sid, roomId, userId, env.now);
      case Disconnect => LeaveAllKeepsNoLeak(s, sid, s.rooms.keys, env.now);
  }

  /** The invariant holds from the start and after any run of steps. */
  lemma {:induction false} RunKeepsNoLeak(s: State, inputs: seq<Input>, envs: seq<Env>)
    requires Valid(s) && NoLeak(s)
    requires |envs| == |inputs| && forall i :: 0 <= i < |envs| ==> Palette.IsRandom(envs[i].rand)
    decreases |inputs|
    ensures Valid(Run(s, inputs, envs)) && NoLeak(Run(s, inputs, envs))
  {
    if inputs != [] {
      StepKeepsNoLeak(s, inputs[0], envs[0]);
      RunKeepsNoLeak(Step(s, inputs[0], envs[0]).state, inputs[1..], envs[1..]);
    }
  }

  /** The state after feeding `inputs` one at a time, each with its environment. */
  function Run(s: State, inputs: seq<Input>, envs: seq<Env>): (t: State)
    requires Valid(s)
    requires |envs| == |inputs| && forall i :: 0 <= i < |envs| ==> Palette.IsRandom(envs[i].rand)
    decreases |inputs|
    ensures Valid(t)
  {
    if inputs == [] then s
    else Run(Step(s, inputs[0], envs[0]).state, inputs[1..], envs[1..])
  }

  // ---------------------------------------------------------------- who receives what

  /** Messages of two consecutive steps reach a socket in order. */
  lemma {:induction false} ReceivedAppend(a: seq<Outbound>, b: seq<Outbound>, sid: SocketId)
    ensures Received(a + b, sid) == Received(a, sid) + Received(b, sid)
  {
    if a == [] {
      assert a + b == b;
    } else {
      var head := if sid in a[0].to then [a[0].event] else [];
      assert (a + b)[1..] == a[1..] + b;
      ReceivedAppend(a[1..], b, sid);
      assert Received(a + b, sid) == head + Received(a[1..] + b, sid);
    }
  }

  /** The joiner alone gets `room-state`, and its member list already contains the joiner. */
  lemma JoinerMessages(s: State, sid: SocketId, roomId: RoomId, userId: UserId, userName: string, env: Env)
    requires Valid(s) && Palette.IsRandom(env.rand)
    ensures var r := Join(s, sid, roomId, userId, userName, env);
      var room := r.state.rooms.Get(roomId);
      && Received(r.out, sid) == [RoomState(room.code, room.language, Snapshot(room.users))]
      && exists i :: 0 <= i < |Snapshot(room.users)| && Snapshot(room.users)[i] == Member(sid, room.users.Get(sid))
  {
    var r := Join(s, sid, roomId, userId, userName, env);
    var room := r.state.rooms.Get(roomId);
    assert r.out[1..][1..] == [];
    assert sid in room.users.keys;
    var i :| 0 <= i < |room.users.keys| && room.users.keys[i] == sid;
    assert Snapshot(room.users)[i] == Member(sid, room.users.Get(sid));
  }

  /**
   Every other current member of the room gets `user-joined` with the joiner's colour and
   nothing else; a socket that is not a member hears nothing.
   */
  lemma JoinMessagesToOthers(s: State, sid: SocketId, roomId: RoomId, userId: UserId, userName: string, env: Env, x: SocketId)
    requires Valid(s) && Palette.IsRandom(env.rand) && x != sid
    ensures var r := Join(s, sid, roomId, userId, userName, env);
      && (IsMember(s, roomId, x) ==>
            Received(r.out, x) == [UserJoined(sid, userId, userName, r.state.rooms.Get(roomId).users.Get(sid).color)])
      && (!IsMember(s, roomId, x) ==> Received(r.out, x) == [])
  {
    var r := Join(s, sid, roomId, userId, userName, env);
    assert r.out[1..][1..] == [];
  }

  /**
   No self-echo: the sender of `code-change`, `language-change`, `cursor-move` or
   `analysis-started` receives nothing from its own event.
   */
  lemma NoSelfEcho(s: State, sid: SocketId, event: ClientEvent, env: Env)
    requires Valid(s) && Palette.IsRandom(env.rand)
    requires event.CodeChange? || event.LanguageChange? || event.CursorMove? || event.AnalysisStarted?
    ensures Received(Step(s, Client(sid, event), env).out, sid) == []
  {
  }

  /**
   Last write wins: after `code-change(A)` and then `code-change(B)` on an existing room the
   room holds B's code, and the last code update every other member received is B's.
   */
  lemma LastWriteWins(s: State, a: SocketId, b: SocketId, roomId: RoomId,
                      codeA: string, userA: UserId, codeB: string, userB: UserId, x: SocketId)
    requires Valid(s) && s.rooms.Has(roomId)
    requires x != b && IsMember(s, roomId, x)
    ensures var r1 := ChangeCode(s, a, roomId, codeA, userA);
      var r2 := ChangeCode(r1.state, b, roomId, codeB, userB);
      && r2.state.rooms.Get(roomId).code == codeB
      && Received(r2.out, x) == [CodeUpdate(codeB, userB)]
      && var seen := Received(r1.out + r2.out, x);
         |seen| > 0 && seen[|seen| - 1] == CodeUpdate(codeB, userB)
  {
    var r1 := ChangeCode(s, a, roomId, codeA, userA);
    var r2 := ChangeCode(r1.state, b, roomId, codeB, userB);
    assert IsMember(r1.state, roomId, x);
    ReceivedAppend(r1.out, r2.out, x);
  }

  // ---------------------------------------------------------------- eviction

  /**
   The last member's leave schedules exactly one eviction check, due five minutes later,
   and a non-last member's leave schedules none.
   */
  lemma LeaveSchedulesOnlyWhenEmpty(s: State, sid: SocketId, roomId: RoomId, userId: UserId, now: int)
    requires Valid(s) && IsMember(s, roomId, sid)
    ensures var t := Leave(s, sid, roomId, userId, now).state;
      && (t.rooms.Get(roomId).users.entries == map[] <==> |t.pending| == |s.pending| + 1)
      && (t.rooms.Get(roomId).users.entries == map[] ==>
            t.pending[|s.pending|] == Eviction(roomId, now + EvictionGraceMs))
  {
    var t := Leave(s, sid, roomId, userId, now).state;
    var users := s.rooms.Get(roomId).users.entries;
    assert t.rooms.Get(roomId).users.entries == users - {sid};
    if users.Keys == {sid} {
      assert users - {sid} == map[];
    } else {
      var y :| y in users.Keys && y != sid;
      assert y in users - {sid};
    }
  }

  /** The last member's leave empties the room and appends its check at the end of the table. */
  lemma LastLeaveSchedules(s: State, sid: SocketId, roomId: RoomId, userId: UserId, now: int)
    requires Valid(s)
    requires IsMember(s, roomId, sid) && s.rooms.Get(roomId).users.entries.Keys == {sid}
    ensures var t := Leave(s, sid, roomId, userId, now).state;
      && t.rooms.Has(roomId)
      && t.rooms.Get(roomId).users.entries == map[]
      && t.rooms.Get(roomId).code == s.rooms.Get(roomId).code
      && t.rooms.Get(roomId).language == s.rooms.Get(roomId).language
      && t.pending == s.pending + [Eviction(roomId, now + EvictionGraceMs)]
  {
    var t := Leave(s, sid, roomId, userId, now).state;
    assert t.rooms.Get(roomId).users.entries == s.rooms.Get(roomId).users.entries - {sid};
  }

  /** A join into an empty room makes the joiner its only member and schedules nothing. */
  lemma JoinEmptyRoom(s: State, sid: SocketId, roomId: RoomId, userId: UserId, userName: string, env: Env)
    requires Valid(s) && Palette.IsRandom(env.rand)
    requires s.rooms.Has(roomId) && s.rooms.Get(roomId).users.entries == map[]
    ensures var t := Join(s, sid, roomId, userId, userName, env).state;
      && IsMember(t, roomId, sid)
      && t.rooms.Get(roomId).users.entries.Keys == {sid}
      && t.rooms.Get(roomId).code == s.rooms.Get(roomId).code
      && t.rooms.Get(roomId).language == s.rooms.Get(roomId).language
      && t.pending == s.pending
  {
  }

  /** The first check for `roomId` in a table extended past checks of other rooms. */
  lemma {:induction false} FirstPendingAfter(q: seq<Eviction>, e: Eviction, rest: seq<Eviction>)
    requires !HasPending(q, e.roomId)
    ensures HasPending(q + [e] + rest, e.roomId)
    ensures FirstPending(q + [e] + rest, e.roomId) == |q|
    decreases |q|
  {
    var full := q + [e] + rest;
    assert full[|q|] == e;
    if q != [] {
      assert full[0] == q[0];
      assert full[1..] == q[1..] + [e] + rest;
      assert !HasPending(q[1..], e.roomId) by {
        forall i | 0 <= i < |q[1..]| ensures q[1..][i].roomId != e.roomId {
          assert q[1..][i] == q[i + 1];
        }
      }
      FirstPendingAfter(q[1..], e, rest);
    }
  }

  /**
   Rejoin during the grace period: the last member leaves (scheduling a check), someone
   joins the room again before the check fires, and the check then keeps the room with its
   code and language.
   */
  lemma RejoinDuringGraceKeepsRoom(s: State, sid: SocketId, roomId: RoomId, userId: UserId, now: int,
                                   sid2: SocketId, userId2: UserId, userName2: string, env: Env)
    requires Valid(s) && Palette.IsRandom(env.rand)
    requires IsMember(s, roomId, sid) && s.rooms.Get(roomId).users.entries.Keys == {sid}
    ensures var s1 := Leave(s, sid, roomId, userId, now).state;
      var s2 := Join(s1, sid2, roomId, userId2, userName2, env).state;
      var s3 := Fire(s2, roomId).state;
      && HasPending(s1.pending, roomId)
      && s3.rooms.Has(roomId)
      && s3.rooms.Get(roomId).code == s.rooms.Get(roomId).code
      && s3.rooms.Get(roomId).language == s.rooms.Get(roomId).language
      && IsMember(s3, roomId, sid2)
  {
    var s1 := Leave(s, sid, roomId, userId, now).state;
    LastLeaveSchedules(s, sid, roomId, userId, now);
    assert s1.pending[|s.pending|].roomId == roomId;
    JoinEmptyRoom(s1, sid2, roomId, userId2, userName2, env);
  }

  /** Without a rejoin, the check scheduled by the last leave deletes the room. */
  lemma NoRejoinEvictsRoom(s: State, sid: SocketId, roomId: RoomId, userId: UserId, now: int)
    requires Valid(s)
    requires IsMember(s, roomId, sid) && s.rooms.Get(roomId).users.entries.Keys == {sid}
    ensures var s1 := Leave(s, sid, roomId, userId, now).state;
      !Fire(s1, roomId).state.rooms.Has(roomId)
  {
    var s1 := Leave(s, sid, roomId, userId, now).state;
    LastLeaveSchedules(s, sid, roomId, userId, now);
    assert s1.pending[|s.pending|].roomId == roomId;
  }

  /**
   The eviction re-check looks only at the member count when the timer fires, so a room
   that was emptied, re-joined and emptied again is deleted by the FIRST timer, which is
   due five minutes after the first emptying and so less than five minutes after the last.
   */
  lemma EarlierTimerEvictsReemptiedRoom(s: State, sid: SocketId, roomId: RoomId, userId: UserId,
                                        t0: int, env: Env, t2: int)
    requires Valid(s) && Palette.IsRandom(env.rand)
    requires IsMember(s, roomId, sid) && s.rooms.Get(roomId).users.entries.Keys == {sid}
    requires !HasPending(s.pending, roomId)
    requires t0 < env.now < t2
    ensures var s3 := Leave(Join(Leave(s, sid, roomId, userId, t0).state, sid, roomId, userId, "", env).state,
                             sid, roomId, userId, t2).state;
      && HasPending(s3.pending, roomId)
      && s3.pending[FirstPending(s3.pending, roomId)].dueAt == t0 + EvictionGraceMs < t2 + EvictionGraceMs
      && !Fire(s3, roomId).state.rooms.Has(roomId)
  {
    var s1 := Leave(s, sid, roomId, userId, t0).state;
    LastLeaveSchedules(s, sid, roomId, userId, t0);
    var s2 := Join(s1, sid, roomId, userId, "", env).state;
    JoinEmptyRoom(s1, sid, roomId, userId, "", env);
    var s3 := Leave(s2, sid, roomId, userId, t2).state;
    LastLeaveSchedules(s2, sid, roomId, userId, t2);
    var e0 := Eviction(roomId, t0 + EvictionGraceMs);
    assert s3.pending == s.pending + [e0] + [Eviction(roomId, t2 + EvictionGraceMs)];
    FirstPendingAfter(s.pending, e0, [Eviction(roomId, t2 + EvictionGraceMs)]);
  }

  // ---------------------------------------------------------------- the user index

  /**
   The leave deletes the user's index entry even when it points at another socket of the
   same user that is still in the room, so the index then has no entry for a connected user.
   */
  lemma LeaveDropsIndexOfStillConnectedUser(s: State, a: SocketId, b: SocketId, roomId: RoomId, userId: UserId, now: int)
    requires Valid(s) && a != b
    requires IsMember(s, roomId, a) && IsMember(s, roomId, b)
    requires userId in s.userSockets && s.userSockets[userId] == b
    ensures var t := Leave(s, a, roomId, userId, now).state;
      && userId !in t.userSockets
      && IsMember(t, roomId, b)
  {
  }

  /** After a disconnect the socket is a member of no room. */
  lemma DisconnectLeavesEveryRoom(s: State, sid: SocketId, now: int, roomId: RoomId)
    requires Valid(s)
    ensures !IsMember(HandleDisconnect(s, sid, now).state, roomId, sid)
  {
  }

  /** A message addressed to `sid` shows up among the events `sid` receives. */
  lemma {:induction false} ReceivedIncludes(out: seq<Outbound>, sid: SocketId, o: Outbound)
    requires o in out && sid in o.to
    ensures o.event in Received(out, sid)
  {
    if out[0] != o {
      ReceivedIncludes(out[1..], sid, o);
    }
  }

  /** Every socket still in a room the disconnecting socket was in hears that it left, by name. */
  lemma DisconnectNotifiesCoMembers(s: State, sid: SocketId, roomId: RoomId, y: SocketId, now: int)
    requires Valid(s) && IsMember(s, roomId, sid) && IsMember(s, roomId, y) && y != sid
    ensures UserLeft(sid, s.rooms.Get(roomId).users.Get(sid).userName) in Received(HandleDisconnect(s, sid, now).out, y)
  {
    DisconnectNoticesMeaning(s, sid, s.rooms.keys);
    ReceivedIncludes(HandleDisconnect(s, sid, now).out, y, LeftNotice(s, sid, roomId));
  }

  /** A disconnect never notifies the disconnecting socket itself. */
  lemma DisconnectIsSilentToSelf(s: State, sid: SocketId, now: int)
    requires Valid(s)
    ensures Received(HandleDisconnect(s, sid, now).out, sid) == []
  {
    DisconnectNoticesMeaning(s, sid, s.rooms.keys);
  }

  /**
   The checks a disconnect appends are for rooms the socket was alone in, each due one
   grace period from now, and every such room gets one.
   */
  lemma DisconnectSchedulesEmptiedRooms(s: State, sid: SocketId, roomId: RoomId, now: int)
    requires Valid(s)
    ensures var q := HandleDisconnect(s, sid, now).state.pending;
      && q[..|s.pending|] == s.pending
      && (forall e :: e in q[|s.pending|..] ==> OnlyMember(s, e.roomId, sid) && e.dueAt == now + EvictionGraceMs)
      && (OnlyMember(s, roomId, sid) ==> Eviction(roomId, now + EvictionGraceMs) in q[|s.pending|..])
  {
    var q := HandleDisconnect(s, sid, now).state.pending;
    var added := DisconnectEvictions(s, sid, s.rooms.keys, now);
    assert q[..|s.pending|] == s.pending && q[|s.pending|..] == added;
    DisconnectEvictionsMeaning(s, sid, s.rooms.keys, now);
  }

  // ---------------------------------------------------------------- an end-to-end run

  /** A disconnect from the only room a socket is in is the leave of that room. */
  lemma DisconnectFromOnlyRoom(s: State, sid: SocketId, roomId: RoomId, now: int)
    requires Valid(s) && s.rooms.keys == [roomId] && IsMember(s, roomId, sid)
    ensures HandleDisconnect(s, sid, now) == Leave(s, sid, roomId, s.rooms.Get(roomId).users.Get(sid).userId, now)
  {
    var first := LeaveIfMember(s, sid, roomId, now);
    assert s.rooms.keys[1..] == [];
    assert LeaveAll(first.state, sid, [], now) == StepResult(first.state, [], []);
    assert first.out + [] == first.out && first.log + [] == first.log;
  }

  /** The registry holds only room "R1", with `members` in join order, `code`, and no pending check. */
  ghost predicate OnlyR1(s: State, members: seq<SocketId>, code: string) {
    && Valid(s)
    && s.rooms.keys == ["R1"]
    && s.rooms.Get("R1").users.keys == members
    && s.rooms.Get("R1").code == code
    && s.pending == []
  }

  /**
   The member order of a room is join order: a new member goes to the end, and a socket
   that joins again keeps its place.
   */
  lemma JoinMemberOrder(s: State, sid: SocketId, roomId: RoomId, userId: UserId, userName: string, env: Env)
    requires Valid(s) && Palette.IsRandom(env.rand)
    ensures var users := Join(s, sid, roomId, userId, userName, env).state.rooms.Get(roomId).users;
      var before := if s.rooms.Has(roomId) then s.rooms.Get(roomId).users.keys else [];
      && (sid in before ==> users.keys == before)
      && (sid !in before ==> users.keys == before + [sid])
  {
  }

  /** The snapshot after a new member joins is the snapshot before, followed by the joiner. */
  lemma SnapshotAppend(a: OMap<SocketId, User>, b: OMap<SocketId, User>, sid: SocketId)
    requires a.Valid() && b.Valid() && b.keys == a.keys + [sid]
    requires forall k :: k in a.entries ==> k in b.entries && b.entries[k] == a.entries[k]
    ensures Snapshot(b) == Snapshot(a) + [Member(sid, b.Get(sid))]
  {
    var sa, sb := Snapshot(a), Snapshot(b);
    var want := sa + [Member(sid, b.Get(sid))];
    assert |sb| == |want|;
    forall i | 0 <= i < |sb| ensures sb[i] == want[i] {
      if i < |sa| {
        var k := a.keys[i];
        assert b.keys[i] == k && k in a.entries;
        assert sb[i] == Member(k, b.entries[k]) && want[i] == sa[i] == Member(k, a.entries[k]);
      } else {
        assert b.keys[i] == sid;
      }
    }
  }

  /** Alice joins the unused room "R1" and sees herself, alone, in its member list. */
  lemma AliceJoins(env: Env)
    requires Palette.IsRandom(env.rand)
    ensures var r := Join(Init(), "sA", "R1", "uA", "Alice", env);
      var alice := r.state.rooms.Get("R1").users.Get("sA");
      && Received(r.out, "sA") == [RoomState("", DefaultLanguage, [Member("sA", alice)])]
      && OnlyR1(r.state, ["sA"], "")
      && r.state.rooms.Get("R1").language == DefaultLanguage
  {
    var r := Join(Init(), "sA", "R1", "uA", "Alice", env);
    JoinerMessages(Init(), "sA", "R1", "uA", "Alice", env);
    JoinMemberOrder(Init(), "sA", "R1", "uA", "Alice", env);
    var users := r.state.rooms.Get("R1").users;
    assert Snapshot(Empty<SocketId, User>()) == [];
    SnapshotAppend(Empty(), users, "sA");
    assert Snapshot(users) == [Member("sA", users.Get("sA"))];
  }

  /** Bob joins after Alice; the room lists Alice and then Bob. */
  lemma BobJoins(s: State, env: Env)
    requires Palette.IsRandom(env.rand) && OnlyR1(s, ["sA"], "")
    ensures var r := Join(s, "sB", "R1", "uB", "Bob", env);
      && OnlyR1(r.state, ["sA", "sB"], "")
      && r.state.rooms.Get("R1").users.Get("sB").userName == "Bob"
  {
    var r := Join(s, "sB", "R1", "uB", "Bob", env);
    assert r.state.rooms.Get("R1").users.keys == ["sA", "sB"] by {
      assert "sA" in s.rooms.Get("R1").users.keys;
      JoinMemberOrder(s, "sB", "R1", "uB", "Bob", env);
    }
  }

  /** A newcomer to an existing room is appended to the room's member snapshot. */
  lemma JoinAppendsToSnapshot(s: State, sid: SocketId, roomId: RoomId, userId: UserId, userName: string, env: Env)
    requires Valid(s) && Palette.IsRandom(env.rand)
    requires s.rooms.Has(roomId) && !IsMember(s, roomId, sid)
    ensures var after := Join(s, sid, roomId, userId, userName, env).state.rooms.Get(roomId).users;
      Snapshot(after) == Snapshot(s.rooms.Get(roomId).users) + [Member(sid, after.Get(sid))]
  {
    var before := s.rooms.Get(roomId).users;
    var after := Join(s, sid, roomId, userId, userName, env).state.rooms.Get(roomId).users;
    assert after.keys == before.keys + [sid] by {
      JoinMemberOrder(s, sid, roomId, userId, userName, env);
    }
    SnapshotAppend(before, after, sid);
  }

  /** After Bob joins, the room's member snapshot is Alice followed by Bob. */
  lemma BobSnapshot(s: State, env: Env)
    requires Palette.IsRandom(env.rand) && OnlyR1(s, ["sA"], "")
    ensures var after := Join(s, "sB", "R1", "uB", "Bob", env).state.rooms.Get("R1").users;
      Snapshot(after) == [Member("sA", s.rooms.Get("R1").users.Get("sA")), Member("sB", after.Get("sB"))]
  {
    var before := s.rooms.Get("R1").users;
    assert "sA" in before.keys && "sB" !in before.keys;
    assert Snapshot(before) == [Member("sA", before.Get("sA"))];
    JoinAppendsToSnapshot(s, "sB", "R1", "uB", "Bob", env);
  }

  /** Bob's `room-state` lists Alice and then himself, with the room's empty code and default language. */
  lemma BobSeesAliceAndHimself(s: State, env: Env)
    requires Palette.IsRandom(env.rand)
    requires OnlyR1(s, ["sA"], "") && s.rooms.Get("R1").language == DefaultLanguage
    ensures var r := Join(s, "sB", "R1", "uB", "Bob", env);
      var alice := s.rooms.Get("R1").users.Get("sA");
      var bob := r.state.rooms.Get("R1").users.Get("sB");
      Received(r.out, "sB") == [RoomState("", DefaultLanguage, [Member("sA", alice), Member("sB", bob)])]
  {
    BobSnapshot(s, env);
    JoinerMessages(s, "sB", "R1", "uB", "Bob", env);
  }

  /** When Bob joins, Alice hears that he joined, with his colour. */
  lemma AliceHearsBobJoin(s: State, env: Env)
    requires Palette.IsRandom(env.rand) && OnlyR1(s, ["sA"], "")
    ensures var r := Join(s, "sB", "R1", "uB", "Bob", env);
      Received(r.out, "sA") == [UserJoined("sB", "uB", "Bob", r.state.rooms.Get("R1").users.Get("sB").color)]
  {
    assert "sA" in s.rooms.Get("R1").users.keys;
    JoinMessagesToOthers(s, "sB", "R1", "uB", "Bob", env, "sA");
  }

  /** Bob's code change reaches Alice and not Bob, and the room now holds Bob's code. */
  lemma BobEdits(s: State)
    requires OnlyR1(s, ["sA", "sB"], "")
    ensures var r := ChangeCode(s, "sB", "R1", "print(1)", "uB");
      && Received(r.out, "sA") == [CodeUpdate("print(1)", "uB")]
      && Received(r.out, "sB") == []
      && OnlyR1(r.state, ["sA", "sB"], "print(1)")
      && r.state.rooms.Get("R1").users == s.rooms.Get("R1").users
  {
    assert "sA" in s.rooms.Get("R1").users.keys;
    assert Others(s, "R1", "sB") == {"sA"};
  }

  /**
   A leave tells every remaining member that `sid` left, under the name it joined with,
   and tells nobody else, the leaver included.
   */
  lemma LeaveMessages(s: State, sid: SocketId, roomId: RoomId, userId: UserId, now: int, x: SocketId)
    requires Valid(s) && IsMember(s, roomId, sid)
    ensures var out := Leave(s, sid, roomId, userId, now).out;
      && (x != sid && IsMember(s, roomId, x) ==>
            Received(out, x) == [UserLeft(sid, s.rooms.Get(roomId).users.Get(sid).userName)])
      && (x == sid || !IsMember(s, roomId, x) ==> Received(out, x) == [])
  {
    var out := Leave(s, sid, roomId, userId, now).out;
    assert out[1..] == [];
  }

  /** Bob's disconnect tells Alice that he left. */
  lemma AliceHearsBobLeave(s: State, code: string, now: int)
    requires OnlyR1(s, ["sA", "sB"], code) && s.rooms.Get("R1").users.Get("sB").userName == "Bob"
    ensures Received(HandleDisconnect(s, "sB", now).out, "sA") == [UserLeft("sB", "Bob")]
  {
    assert "sA" in s.rooms.Get("R1").users.keys && "sB" in s.rooms.Get("R1").users.keys;
    DisconnectFromOnlyRoom(s, "sB", "R1", now);
    LeaveMessages(s, "sB", "R1", s.rooms.Get("R1").users.Get("sB").userId, now, "sA");
  }

  /** After Bob's disconnect Alice is alone in the room and no eviction is scheduled. */
  lemma BobDisconnects(s: State, code: string, now: int)
    requires OnlyR1(s, ["sA", "sB"], code)
    ensures var r := HandleDisconnect(s, "sB", now);
      && r.state.rooms.Get("R1").users.Size() == 1
      && OnlyR1(r.state, ["sA"], code)
  {
    var users := s.rooms.Get("R1").users;
    assert "sA" in users.keys && "sB" in users.keys;
    DisconnectFromOnlyRoom(s, "sB", "R1", now);
    assert users.entries.Keys != {"sB"};
    assert Without(["sA", "sB"], "sB") == ["sA"];
  }

  /**
   Alice's disconnect empties the room and schedules one check five minutes later; when it
   fires, nobody has rejoined and the room is deleted with its code and language.
   */
  lemma AliceDisconnects(s: State, code: string, now: int)
    requires OnlyR1(s, ["sA"], code)
    ensures var r := HandleDisconnect(s, "sA", now);
      && r.state.rooms.Get("R1").users.Size() == 0
      && r.state.pending == [Eviction("R1", now + EvictionGraceMs)]
      && !Fire(r.state, "R1").state.rooms.Has("R1")
  {
    var users := s.rooms.Get("R1").users;
    assert "sA" in users.keys;
    assert users.entries.Keys == {"sA"};
    DisconnectFromOnlyRoom(s, "sA", "R1", now);
    LastLeaveSchedules(s, "sA", "R1", users.Get("sA").userId, now);
    var t := HandleDisconnect(s, "sA", now).state;
    assert t.pending[0].roomId == "R1";
    assert FirstPending(t.pending, "R1") == 0;
  }

  /** The whole run: after both disconnects and the grace period, "R1" is gone. */
  lemma AliceAndBob(envA: Env, envB: Env, t3: int, t4: int)
    requires Palette.IsRandom(envA.rand) && Palette.IsRandom(envB.rand)
    ensures var s2 := Join(Join(Init(), "sA", "R1", "uA", "Alice", envA).state, "sB", "R1", "uB", "Bob", envB).state;
      var s3 := ChangeCode(s2, "sB", "R1", "print(1)", "uB").state;
      var s5 := HandleDisconnect(HandleDisconnect(s3, "sB", t3).state, "sA", t4).state;
      !Fire(s5, "R1").state.rooms.Has("R1")
  {
    AliceJoins(envA);
    var s1 := Join(Init(), "sA", "R1", "uA", "Alice", envA).state;
    BobJoins(s1, envB);
    var s2 := Join(s1, "sB", "R1", "uB", "Bob", envB).state;
    BobEdits(s2);
    var s3 := ChangeCode(s2, "sB", "R1", "print(1)", "uB").state;
    BobDisconnects(s3, "print(1)", t3);
    AliceDisconnects(HandleDisconnect(s3, "sB", t3).state, "print(1)", t4);
  }
}
