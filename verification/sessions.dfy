/**
 The in-memory session store: a map from session id to the session record, iterated in
 insertion order. Expiry is lazy: an expired session stays in the store until a lookup,
 a per-user listing or a cleanup pass finds it. A session is expired only strictly after
 its expiry instant, so it is still valid at that very millisecond.

 The clock (`Date.now()`) and the id generator (`uuidv4()`) are inputs: every operation
 takes the current time `now`, and creation takes the id it is to use.
 */
module Sessions {
  import opened OrderedMaps

  type SessionId = string
  type UserId = string

  /**
   An optional value. For a session lifetime, `None` is an omitted (`undefined`) argument;
   an explicit `null` or any other non-numeric lifetime is not part of the model.
   */
  datatype Option<T> = None | Some(value: T)

  /** Lifetime of a session when the caller gives none: twenty-four hours, in milliseconds. */
  const DefaultTtlMs: int := 24 * 60 * 60 * 1000

  /** A session record; instants are milliseconds since the epoch. */
  datatype Session = Session(userId: UserId, token: string, sessionId: SessionId, createdAt: int, expiresAt: int)

  type Store = OMap<SessionId, Session>

  /** `now > expiresAt`: strictly past the expiry instant. */
  predicate Expired(s: Session, now: int) {
    now > s.expiresAt
  }

  /** The store is a well-formed ordered map and each record carries its own key as its id. */
  ghost predicate Valid(store: Store) {
    && store.Valid()
    && forall id :: id in store.entries ==> store.entries[id].sessionId == id
  }

  // ---------------------------------------------------------------- create / get / invalidate

  /** The lifetime used for a creation call: the given one, or the default when it is omitted. */
  function TtlOf(expiresInMs: Option<int>): int {
    if expiresInMs.Some? then expiresInMs.value else DefaultTtlMs
  }

  datatype Created = Created(store: Store, sessionId: SessionId)

  /**
   `createSession`: store a new session under the fresh id `freshId`, created now and
   expiring `expiresInMs` later (24 hours when the argument is omitted), and return the id.
   The new entry goes to the end of the iteration order and no other entry changes.
   */
  function CreateSession(store: Store, userId: UserId, token: string, expiresInMs: Option<int>,
                         freshId: SessionId, now: int): (r: Created)
    requires Valid(store) && !store.Has(freshId)
    ensures Valid(r.store)
    ensures r.sessionId == freshId
    ensures r.store.keys == store.keys + [freshId]
    ensures r.store.Has(freshId)
    ensures var s := r.store.Get(freshId);
      && s.userId == userId && s.token == token && s.sessionId == freshId
      && s.createdAt == now
      && (expiresInMs.None? ==> s.expiresAt == now + 24 * 60 * 60 * 1000)
      && (expiresInMs.Some? ==> s.expiresAt == now + expiresInMs.value)
    ensures forall id :: id != freshId ==>
      (id in r.store.entries <==> id in store.entries) &&
      (id in store.entries ==> r.store.entries[id] == store.entries[id])
  {
    var s := Session(userId, token, freshId, now, now + TtlOf(expiresInMs));
    Created(store.Set(freshId, s), freshId)
  }

  datatype Lookup = Lookup(store: Store, session: Option<Session>)

  /**
   `getSession`: the stored session if it exists and has not expired (the store is left
   alone); nothing if the id is unknown; nothing if it has expired, in which case the entry
   is removed.
   */
  function GetSession(store: Store, id: SessionId, now: int): (r: Lookup)
    requires Valid(store)
    ensures Valid(r.store)
    ensures r.session.Some? <==> id in store.entries && !Expired(store.entries[id], now)
    ensures r.session.Some? ==> r.session.value == store.entries[id] && r.store == store
    ensures id !in store.entries ==> r.store == store
    ensures id in store.entries && Expired(store.entries[id], now) ==>
      r.store.entries == store.entries - {id} && r.store.keys == Without(store.keys, id)
  {
    if !store.Has(id) then Lookup(store, None)
    else
      var session := store.Get(id);
      if now > session.expiresAt then Lookup(store.Delete(id), None)
      else Lookup(store, Some(session))
  }

  datatype Removed = Removed(store: Store, removed: bool)

  /** `invalidateSession`: delete the entry; report whether there was one. */
  function InvalidateSession(store: Store, id: SessionId): (r: Removed)
    requires Valid(store)
    ensures Valid(r.store)
    ensures r.removed <==> id in store.entries
    ensures r.store.entries == store.entries - {id}
    ensures r.store.keys == Without(store.keys, id)
    ensures !r.removed ==> r.store == store
  {
    Removed(store.Delete(id), store.Has(id))
  }

  // ---------------------------------------------------------------- passes over the store

  /** The ids of `ks` that are stored in `m` with a session that has not expired, in the order of `ks`. */
  function Live(ks: seq<SessionId>, m: map<SessionId, Session>, now: int): (r: seq<SessionId>)
    ensures forall k :: k in r <==> k in ks && k in m && !Expired(m[k], now)
    ensures Subsequence(r, ks)
    ensures |r| <= |ks|
    ensures Distinct(ks) ==> Distinct(r)
    decreases |ks|
  {
    if ks == [] then []
    else
      var last := ks[|ks| - 1];
      var init := Live(ks[..|ks| - 1], m, now);
      assert forall k :: k in ks <==> k in ks[..|ks| - 1] || k == last;
      assert Distinct(ks) ==> last !in ks[..|ks| - 1];
      if last in m && !Expired(m[last], now) then
        assert (init + [last])[..|init|] == init;
        init + [last]
      else
        assert init != [] ==> init[|init| - 1] != last;
        init
  }

  /** The store with every expired entry removed; the others keep their order. */
  function Purge(store: Store, now: int): (r: Store)
    requires Valid(store)
    ensures Valid(r)
    ensures r.keys == Live(store.keys, store.entries, now)
    ensures forall id :: id in r.entries <==> id in store.entries && !Expired(store.entries[id], now)
    ensures forall id :: id in r.entries ==> r.entries[id] == store.entries[id]
  {
    OMap(Live(store.keys, store.entries, now),
         map id | id in store.entries && !Expired(store.entries[id], now) :: store.entries[id])
  }

  /** The live sessions of `userId` stored in `m` under `ks`, in the order of `ks`. */
  function Matching(ks: seq<SessionId>, m: map<SessionId, Session>, userId: UserId, now: int): (r: seq<Session>)
    ensures forall s :: s in r <==>
      exists k :: k in ks && k in m && m[k] == s && s.userId == userId && !Expired(s, now)
    decreases |ks|
  {
    if ks == [] then []
    else
      var last := ks[|ks| - 1];
      var init := Matching(ks[..|ks| - 1], m, userId, now);
      assert forall k :: k in ks <==> k in ks[..|ks| - 1] || k == last;
      if last in m && !Expired(m[last], now) && m[last].userId == userId then init + [m[last]] else init
  }

  /** The survivors among the first `i + 1` ids: those among the first `i`, then the next if live. */
  lemma LiveNext(ks: seq<SessionId>, m: map<SessionId, Session>, now: int, i: nat)
    requires i < |ks| && ks[i] in m
    ensures Expired(m[ks[i]], now) ==> Live(ks[..i + 1], m, now) == Live(ks[..i], m, now)
    ensures !Expired(m[ks[i]], now) ==> Live(ks[..i + 1], m, now) == Live(ks[..i], m, now) + [ks[i]]
  {
    assert ks[..i + 1][..i] == ks[..i];
    assert ks[..i + 1][i] == ks[i];
  }

  /**
   The key order after the first `i` ids of `ks` have been visited: the live ones among
   them, then all the ids not visited yet.
   */
  function Visited(ks: seq<SessionId>, m: map<SessionId, Session>, now: int, i: nat): seq<SessionId>
    requires i <= |ks|
  {
    Live(ks[..i], m, now) + ks[i..]
  }

  /** Visiting a live id leaves the order as it was. */
  lemma VisitedKeep(ks: seq<SessionId>, m: map<SessionId, Session>, now: int, i: nat)
    requires i < |ks| && ks[i] in m && !Expired(m[ks[i]], now)
    ensures Visited(ks, m, now, i + 1) == Visited(ks, m, now, i)
  {
    LiveNext(ks, m, now, i);
    var prefix := Live(ks[..i], m, now);
    assert ks[i..] == [ks[i]] + ks[i + 1..];
    assert prefix + [ks[i]] + ks[i + 1..] == prefix + ks[i..];
  }

  /** Visiting an expired id removes exactly that id from the order. */
  lemma VisitedDrop(ks: seq<SessionId>, m: map<SessionId, Session>, now: int, i: nat)
    requires Distinct(ks) && i < |ks| && ks[i] in m && Expired(m[ks[i]], now)
    ensures Visited(ks, m, now, i + 1) == Without(Visited(ks, m, now, i), ks[i])
  {
    var prefix, k, rest := Live(ks[..i], m, now), ks[i], ks[i + 1..];
    assert Visited(ks, m, now, i + 1) == prefix + rest by {
      LiveNext(ks, m, now, i);
    }
    assert Visited(ks, m, now, i) == prefix + [k] + rest by {
      assert ks[i..] == [k] + rest;
    }
    assert k !in prefix && k !in rest by {
      assert k !in ks[..i];
      forall j | i + 1 <= j < |ks| ensures ks[j] != k { }
    }
    WithoutMiddle(prefix, k, rest);
  }

  /**
   `cur` is the store after the first `i` ids of the order `ks` have been visited: the
   visited ids survive only if live, the unvisited ones are all still there, and every
   entry is an original one.
   */
  ghost predicate PurgedUpTo(cur: Store, ks: seq<SessionId>, m: map<SessionId, Session>, now: int, i: nat)
    requires i <= |ks|
  {
    && cur.Valid()
    && cur.keys == Visited(ks, m, now, i)
    && forall id :: id in cur.entries ==> id in m && cur.entries[id] == m[id]
  }

  /** The matches among the first `i + 1` ids: those among the first `i`, then the next if it matches. */
  lemma MatchingNext(ks: seq<SessionId>, m: map<SessionId, Session>, userId: UserId, now: int, i: nat)
    requires i < |ks| && ks[i] in m
    ensures Matching(ks[..i + 1], m, userId, now) ==
      Matching(ks[..i], m, userId, now) + (if !Expired(m[ks[i]], now) && m[ks[i]].userId == userId then [m[ks[i]]] else [])
  {
    assert ks[..i + 1][..i] == ks[..i];
    assert ks[..i + 1][i] == ks[i];
  }

  /** Visiting an expired id deletes it. */
  lemma PurgedStepDrop(cur: Store, ks: seq<SessionId>, m: map<SessionId, Session>, now: int, i: nat)
    requires Distinct(ks) && i < |ks| && ks[i] in m
    requires PurgedUpTo(cur, ks, m, now, i) && Expired(m[ks[i]], now)
    ensures PurgedUpTo(cur.Delete(ks[i]), ks, m, now, i + 1)
  {
    VisitedDrop(ks, m, now, i);
  }

  /** Visiting a live id keeps it. */
  lemma PurgedStepKeep(cur: Store, ks: seq<SessionId>, m: map<SessionId, Session>, now: int, i: nat)
    requires i < |ks| && ks[i] in m
    requires PurgedUpTo(cur, ks, m, now, i) && !Expired(m[ks[i]], now)
    ensures PurgedUpTo(cur, ks, m, now, i + 1)
  {
    VisitedKeep(ks, m, now, i);
  }

  /** Once every id has been visited, the store is the purge of the original. */
  lemma PurgedAll(store: Store, cur: Store, now: int)
    requires Valid(store) && PurgedUpTo(cur, store.keys, store.entries, now, |store.keys|)
    ensures cur == Purge(store, now)
  {
    assert store.keys[..|store.keys|] == store.keys;
    assert store.keys[|store.keys|..] == [];
    assert cur.keys == Live(store.keys, store.entries, now);
    PurgeUnique(store, cur, now);
  }

  /**
   The rest of a purging pass: visit the ids `ks` in order, deleting from `cur` each one
   whose session in `m` (the store as the pass found it) has expired.
   */
  function PurgeRest(cur: Store, ks: seq<SessionId>, m: map<SessionId, Session>, now: int): (r: Store)
    requires cur.Valid()
    ensures r.Valid()
    ensures forall k :: k in r.entries <==> k in cur.entries && !(k in ks && k in m && Expired(m[k], now))
    ensures forall k :: k in r.entries ==> r.entries[k] == cur.entries[k]
    decreases |ks|
  {
    if ks == [] then cur
    else
      var next := if ks[0] in m && Expired(m[ks[0]], now) then cur.Delete(ks[0]) else cur;
      PurgeRest(next, ks[1..], m, now)
  }

  /** The rest of the purge pass, one turn unrolled: drop the next id if its session has expired. */
  lemma PurgeRestNext(cur: Store, ks: seq<SessionId>, m: map<SessionId, Session>, now: int, i: nat)
    requires cur.Valid() && i < |ks| && ks[i] in m
    ensures Expired(m[ks[i]], now) ==>
      PurgeRest(cur, ks[i..], m, now) == PurgeRest(cur.Delete(ks[i]), ks[i + 1..], m, now)
    ensures !Expired(m[ks[i]], now) ==>
      PurgeRest(cur, ks[i..], m, now) == PurgeRest(cur, ks[i + 1..], m, now)
  {
    assert ks[i..][0] == ks[i] && ks[i..][1..] == ks[i + 1..];
  }

  /** The rest of the pass from a store visited up to `i` ends with every id visited. */
  lemma {:induction false} PurgeRestFrom(cur: Store, ks: seq<SessionId>, m: map<SessionId, Session>, now: int, i: nat)
    requires Distinct(ks) && i <= |ks| && (forall k :: k in ks ==> k in m)
    requires PurgedUpTo(cur, ks, m, now, i)
    ensures PurgedUpTo(PurgeRest(cur, ks[i..], m, now), ks, m, now, |ks|)
    decreases |ks| - i
  {
    if i < |ks| {
      assert ks[i..][0] == ks[i] && ks[i..][1..] == ks[i + 1..];
      assert ks[i] in m;
      if Expired(m[ks[i]], now) {
        PurgedStepDrop(cur, ks, m, now, i);
        PurgeRestFrom(cur.Delete(ks[i]), ks, m, now, i + 1);
      } else {
        PurgedStepKeep(cur, ks, m, now, i);
        PurgeRestFrom(cur, ks, m, now, i + 1);
      }
    }
  }

  /** A whole pass over the store's own order is the purge. */
  lemma PurgePass(store: Store, now: int)
    requires Valid(store)
    ensures PurgeRest(store, store.keys, store.entries, now) == Purge(store, now)
  {
    assert store.keys[0..] == store.keys && store.keys[..0] == [];
    assert PurgedUpTo(store, store.keys, store.entries, now, 0);
    PurgeRestFrom(store, store.keys, store.entries, now, 0);
    PurgedAll(store, PurgeRest(store, store.keys, store.entries, now), now);
  }

  /**
   `getUserSessions`: walk the whole store in order, deleting every expired session
   (whoever it belongs to) and collecting the live sessions of `userId`.
   */
  method GetUserSessions(store: Store, userId: UserId, now: int) returns (store': Store, sessions: seq<Session>)
    requires Valid(store)
    ensures store' == Purge(store, now)
    ensures sessions == Matching(store.keys, store.entries, userId, now)
  {
    ghost var ks, m := store.keys, store.entries;
    store' := store;
    sessions := [];
    var i := 0;
    while i < |store.keys|
      invariant 0 <= i <= |ks|
      invariant store'.Valid()
      invariant PurgeRest(store', ks[i..], m, now) == PurgeRest(store, ks, m, now)
      invariant sessions == Matching(ks[..i], m, userId, now)
    {
      var id := store.keys[i];
      var session := store.Get(id);
      PurgeRestNext(store', ks, m, now, i);
      MatchingNext(ks, m, userId, now, i);
      if now > session.expiresAt {
        store' := store'.Delete(id);
      } else if session.userId == userId {
        sessions := sessions + [session];
      }
      i := i + 1;
    }
    assert ks[i..] == [] && ks[..i] == ks;
    PurgePass(store, now);
  }

  /** The sessions listed for a user are exactly its live sessions in the store. */
  lemma MatchingMeans(store: Store, userId: UserId, now: int)
    requires Valid(store)
    ensures forall s :: s in Matching(store.keys, store.entries, userId, now) <==>
      s in store.entries.Values && s.userId == userId && !Expired(s, now)
  {
    forall s | s in store.entries.Values && s.userId == userId && !Expired(s, now)
      ensures s in Matching(store.keys, store.entries, userId, now)
    {
      var k :| k in store.entries && store.entries[k] == s;
      assert k in store.keys;
    }
  }

  /** A store with the purged order and no entries beyond the original ones is the purge. */
  lemma PurgeUnique(store: Store, r: Store, now: int)
    requires Valid(store) && r.Valid()
    requires r.keys == Live(store.keys, store.entries, now)
    requires forall id :: id in r.entries ==> id in store.entries && r.entries[id] == store.entries[id]
    ensures r == Purge(store, now)
  {
    var p := Purge(store, now);
    assert r.entries == p.entries by {
      forall id ensures id in r.entries <==> id in p.entries {
        assert id in r.entries <==> id in r.keys;
      }
    }
  }

  datatype Cleaned = Cleaned(store: Store, count: nat)

  /** How many of the ids `ks` are stored in `m` with an expired session. */
  function ExpiredIn(ks: seq<SessionId>, m: map<SessionId, Session>, now: int): nat
    decreases |ks|
  {
    if ks == [] then 0
    else
      var last := ks[|ks| - 1];
      ExpiredIn(ks[..|ks| - 1], m, now) + (if last in m && Expired(m[last], now) then 1 else 0)
  }

  /** The expired among the first `i + 1` ids: those among the first `i`, and the next if expired. */
  lemma ExpiredNext(ks: seq<SessionId>, m: map<SessionId, Session>, now: int, i: nat)
    requires i < |ks| && ks[i] in m
    ensures ExpiredIn(ks[..i + 1], m, now) == ExpiredIn(ks[..i], m, now) + (if Expired(m[ks[i]], now) then 1 else 0)
  {
    assert ks[..i + 1][..i] == ks[..i];
    assert ks[..i + 1][i] == ks[i];
  }

  /** Over stored ids, each is either live or expired. */
  lemma {:induction false} LiveOrExpired(ks: seq<SessionId>, m: map<SessionId, Session>, now: int)
    requires forall k :: k in ks ==> k in m
    ensures |Live(ks, m, now)| + ExpiredIn(ks, m, now) == |ks|
    decreases |ks|
  {
    if ks != [] {
      var init := ks[..|ks| - 1];
      assert forall k :: k in init ==> k in ks;
      LiveOrExpired(init, m, now);
    }
  }

  /** `cleanupExpiredSessions`: delete every expired session and count the deletions. */
  method CleanupExpiredSessions(store: Store, now: int) returns (r: Cleaned)
    requires Valid(store)
    ensures r.store == Purge(store, now)
    ensures r.count == |store.entries| - |r.store.entries|
  {
    ghost var ks, m := store.keys, store.entries;
    var store' := store;
    var count := 0;
    var i := 0;
    while i < |store.keys|
      invariant 0 <= i <= |ks|
      invariant store'.Valid()
      invariant PurgeRest(store', ks[i..], m, now) == PurgeRest(store, ks, m, now)
      invariant count == ExpiredIn(ks[..i], m, now)
    {
      var id := store.keys[i];
      var session := store.Get(id);
      PurgeRestNext(store', ks, m, now, i);
      ExpiredNext(ks, m, now, i);
      if now > session.expiresAt {
        store' := store'.Delete(id);
        count := count + 1;
      }
      i := i + 1;
    }
    assert ks[i..] == [] && ks[..i] == ks;
    assert store' == Purge(store, now) by {
      PurgePass(store, now);
    }
    assert count == |store.entries| - |store'.entries| by {
      LiveOrExpired(ks, m, now);
      assert |store.entries| == store.Size() == |ks|;
      assert |store'.entries| == store'.Size() == |store'.keys|;
    }
    r := Cleaned(store', count);
  }

  // ---------------------------------------------------------------- statistics

  /** How many of `vs` belong to `userId`. */
  function CountOf(vs: seq<Session>, userId: UserId): (n: nat)
    ensures n <= |vs|
    ensures n > 0 <==> exists j :: 0 <= j < |vs| && vs[j].userId == userId
    decreases |vs|
  {
    if vs == [] then 0
    else
      var init := vs[..|vs| - 1];
      assert forall j :: 0 <= j < |init| ==> init[j] == vs[j];
      CountOf(init, userId) + (if vs[|vs| - 1].userId == userId then 1 else 0)
  }

  /** The sum of a sequence of counts. */
  function Sum(xs: seq<int>): int
    decreases |xs|
  {
    if xs == [] then 0 else xs[0] + Sum(xs[1..])
  }

  datatype Stats = Stats(totalSessions: nat, sessionsByUser: OMap<UserId, int>)

  /** `byUser` has an entry exactly for the users of the first `i` sessions of `vs`. */
  ghost predicate UsersUpTo(byUser: OMap<UserId, int>, vs: seq<Session>, i: nat) {
    forall u :: byUser.Has(u) <==> exists j :: 0 <= j < i && j < |vs| && vs[j].userId == u
  }

  /** Each entry of `byUser` is its user's number of sessions among the first `i` of `vs`. */
  ghost predicate CountsUpTo(byUser: OMap<UserId, int>, vs: seq<Session>, i: nat)
    requires i <= |vs|
  {
    forall u :: byUser.Has(u) ==> byUser.Get(u) == CountOf(vs[..i], u)
  }

  /** `byUser` holds the per-user counts of the first `i` sessions of `vs`, and they add up to `i`. */
  ghost predicate CountedUpTo(byUser: OMap<UserId, int>, vs: seq<Session>, i: nat)
    requires i <= |vs|
  {
    && byUser.Valid()
    && UsersUpTo(byUser, vs, i)
    && CountsUpTo(byUser, vs, i)
    && Sum(byUser.Values()) == i
  }

  /** One turn of the counting loop: start the user's counter at 0 if absent, then add one. */
  function Tally(byUser: OMap<UserId, int>, u: UserId): (r: OMap<UserId, int>)
    requires byUser.Valid()
    ensures r.Valid()
    ensures r.entries == byUser.entries[u := (if byUser.Has(u) then byUser.Get(u) else 0) + 1]
    ensures byUser.Has(u) ==> r.keys == byUser.keys
    ensures !byUser.Has(u) ==> r.keys == byUser.keys + [u]
  {
    var started := if !byUser.Has(u) then byUser.Set(u, 0) else byUser;
    started.Set(u, started.Get(u) + 1)
  }

  /** The count of `u` among the first `i + 1` sessions. */
  lemma CountNext(vs: seq<Session>, i: nat, u: UserId)
    requires i < |vs|
    ensures CountOf(vs[..i + 1], u) == CountOf(vs[..i], u) + (if vs[i].userId == u then 1 else 0)
  {
    assert vs[..i + 1][..i] == vs[..i];
  }

  /** Counting the next session adds one to the sum of the counts. */
  lemma TallySum(byUser: OMap<UserId, int>, u: UserId)
    requires byUser.Valid()
    ensures Tally(byUser, u).Valid()
    ensures Sum(Tally(byUser, u).Values()) == Sum(byUser.Values()) + 1
  {
    var started := if !byUser.Has(u) then byUser.Set(u, 0) else byUser;
    if !byUser.Has(u) {
      SumSetNew(byUser, u, 0);
    }
    SumSetExisting(started, u, started.Get(u) + 1);
  }

  /** Counting the next session records its user and adds one to that user's count only. */
  lemma TallyEntries(byUser: OMap<UserId, int>, u: UserId)
    requires byUser.Valid()
    ensures forall w :: Tally(byUser, u).Has(w) <==> byUser.Has(w) || w == u
    ensures Tally(byUser, u).Get(u) == (if byUser.Has(u) then byUser.Get(u) else 0) + 1
    ensures forall w :: w != u && byUser.Has(w) ==> Tally(byUser, u).Get(w) == byUser.Get(w)
  {
  }

  /** Counting the next session records exactly the users seen so far. */
  lemma TallyUsers(byUser: OMap<UserId, int>, vs: seq<Session>, i: nat)
    requires i < |vs| && byUser.Valid()
    requires forall u :: byUser.Has(u) <==> exists j :: 0 <= j < i && vs[j].userId == u
    ensures forall u :: Tally(byUser, vs[i].userId).Has(u) <==> exists j :: 0 <= j < i + 1 && vs[j].userId == u
  {
    TallyEntries(byUser, vs[i].userId);
    forall u | exists j :: 0 <= j < i + 1 && vs[j].userId == u
      ensures Tally(byUser, vs[i].userId).Has(u)
    {
      var j :| 0 <= j < i + 1 && vs[j].userId == u;
      if j < i {
        assert byUser.Has(u);
      }
    }
  }

  /** Counting the next session keeps every user's count equal to its number of sessions so far. */
  lemma TallyCounts(byUser: OMap<UserId, int>, vs: seq<Session>, i: nat)
    requires i < |vs| && byUser.Valid()
    requires forall u :: byUser.Has(u) <==> exists j :: 0 <= j < i && vs[j].userId == u
    requires forall u :: byUser.Has(u) ==> byUser.Get(u) == CountOf(vs[..i], u)
    ensures forall u :: Tally(byUser, vs[i].userId).Has(u) ==>
      Tally(byUser, vs[i].userId).Get(u) == CountOf(vs[..i + 1], u)
  {
    var r := Tally(byUser, vs[i].userId);
    TallyEntries(byUser, vs[i].userId);
    forall u | r.Has(u) ensures r.Get(u) == CountOf(vs[..i + 1], u) {
      CountNext(vs, i, u);
    }
  }

  /** Counting the next session keeps the counts right and their sum equal to the sessions seen. */
  lemma TallyStep(byUser: OMap<UserId, int>, vs: seq<Session>, i: nat)
    requires i < |vs| && CountedUpTo(byUser, vs, i)
    ensures CountedUpTo(Tally(byUser, vs[i].userId), vs, i + 1)
  {
    var r := Tally(byUser, vs[i].userId);
    assert Sum(r.Values()) == i + 1 by { TallySum(byUser, vs[i].userId); }
    assert UsersUpTo(r, vs, i + 1) by { TallyUsers(byUser, vs, i); }
    assert CountsUpTo(r, vs, i + 1) by { TallyCounts(byUser, vs, i); }
  }

  /** After all sessions, the counted users are exactly the store's users. */
  lemma CountedAll(byUser: OMap<UserId, int>, store: Store)
    requires Valid(store) && CountedUpTo(byUser, store.Values(), |store.keys|)
    ensures forall u :: byUser.Has(u) <==> exists id :: id in store.entries && store.entries[id].userId == u
    ensures forall u :: byUser.Has(u) ==> byUser.Get(u) == CountOf(store.Values(), u)
  {
    var vs := store.Values();
    assert vs[..|vs|] == vs;
    forall u | byUser.Has(u) ensures exists id :: id in store.entries && store.entries[id].userId == u {
      var j :| 0 <= j < |vs| && vs[j].userId == u;
      assert store.keys[j] in store.entries;
    }
    forall u | exists id :: id in store.entries && store.entries[id].userId == u ensures byUser.Has(u) {
      var id :| id in store.entries && store.entries[id].userId == u;
      var j :| 0 <= j < |store.keys| && store.keys[j] == id;
      assert vs[j].userId == u;
    }
  }

  /** The rest of the counting loop: count the sessions `vs` one after the other into `byUser`. */
  function TallyRest(byUser: OMap<UserId, int>, vs: seq<Session>): (r: OMap<UserId, int>)
    requires byUser.Valid()
    ensures r.Valid()
    decreases |vs|
  {
    if vs == [] then byUser else TallyRest(Tally(byUser, vs[0].userId), vs[1..])
  }

  /** The rest of the counting loop, one turn unrolled. */
  lemma TallyRestNext(byUser: OMap<UserId, int>, vs: seq<Session>, i: nat)
    requires i < |vs| && byUser.Valid()
    ensures TallyRest(byUser, vs[i..]) == TallyRest(Tally(byUser, vs[i].userId), vs[i + 1..])
  {
    assert vs[i..][0] == vs[i] && vs[i..][1..] == vs[i + 1..];
  }

  /** Counting the rest of the sessions from a correct count of the first `i` gives the full count. */
  lemma {:induction false} TallyRestFrom(byUser: OMap<UserId, int>, vs: seq<Session>, i: nat)
    requires i <= |vs| && CountedUpTo(byUser, vs, i)
    ensures CountedUpTo(TallyRest(byUser, vs[i..]), vs, |vs|)
    decreases |vs| - i
  {
    if i < |vs| {
      assert vs[i..][0] == vs[i] && vs[i..][1..] == vs[i + 1..];
      TallyStep(byUser, vs, i);
      TallyRestFrom(Tally(byUser, vs[i].userId), vs, i + 1);
    }
  }

  /** Counting every session of the store, starting from no counts, gives the per-user counts. */
  lemma TalliedStore(store: Store)
    requires Valid(store)
    ensures var byUser := TallyRest(Empty(), store.Values());
      && (forall u :: byUser.Has(u) <==> exists id :: id in store.entries && store.entries[id].userId == u)
      && (forall u :: byUser.Has(u) ==> byUser.Get(u) == CountOf(store.Values(), u))
      && Sum(byUser.Values()) == |store.entries|
  {
    var vs := store.Values();
    var byUser := TallyRest(Empty(), vs);
    assert vs[0..] == vs && vs[..0] == [];
    assert CountedUpTo(Empty(), vs, 0);
    TallyRestFrom(Empty(), vs, 0);
    CountedAll(byUser, store);
    assert store.Size() == |vs|;
  }

  /**
   `getSessionStats`: the store's size and, per user, the number of its sessions, counting
   expired sessions that have not been purged yet. The store is only read.
   */
  method GetSessionStats(store: Store) returns (stats: Stats)
    requires Valid(store)
    ensures stats.totalSessions == |store.entries|
    ensures stats.sessionsByUser.Valid()
    ensures forall u :: stats.sessionsByUser.Has(u) <==>
      exists id :: id in store.entries && store.entries[id].userId == u
    ensures forall u :: stats.sessionsByUser.Has(u) ==>
      stats.sessionsByUser.Get(u) == CountOf(store.Values(), u)
    ensures Sum(stats.sessionsByUser.Values()) == stats.totalSessions
  {
    var vs := store.Values();
    var byUser: OMap<UserId, int> := Empty();
    var i := 0;
    while i < |vs|
      invariant 0 <= i <= |vs|
      invariant byUser.Valid()
      invariant TallyRest(byUser, vs[i..]) == TallyRest(Empty(), vs)
    {
      var u := vs[i].userId;
      TallyRestNext(byUser, vs, i);
      byUser := Tally(byUser, u);
      i := i + 1;
    }
    assert vs[i..] == [];
    TalliedStore(store);
    stats := Stats(store.Size(), byUser);
  }

  /** The sum after appending one count. */
  lemma {:induction false} SumAppend(xs: seq<int>, x: int)
    ensures Sum(xs + [x]) == Sum(xs) + x
    decreases |xs|
  {
    if xs != [] {
      assert (xs + [x])[1..] == xs[1..] + [x];
      SumAppend(xs[1..], x);
    }
  }

  /** Inserting a new key with count `v` adds `v` to the sum. */
  lemma SumSetNew(om: OMap<UserId, int>, k: UserId, v: int)
    requires om.Valid() && !om.Has(k)
    ensures Sum(om.Set(k, v).Values()) == Sum(om.Values()) + v
  {
    var r := om.Set(k, v);
    assert r.Values() == om.Values() + [v] by {
      forall i | 0 <= i < |r.keys| ensures r.Values()[i] == (om.Values() + [v])[i] {
        if i < |om.keys| {
          assert om.keys[i] != k;
        }
      }
    }
    SumAppend(om.Values(), v);
  }

  /** Overwriting the count of an existing key changes the sum by the difference. */
  lemma SumSetExisting(om: OMap<UserId, int>, k: UserId, v: int)
    requires om.Valid() && om.Has(k)
    ensures Sum(om.Set(k, v).Values()) == Sum(om.Values()) - om.Get(k) + v
  {
    SumValuesUpdate(om.keys, om.entries, k, v);
  }

  /** Values stored under keys other than `k` do not see an update of `k`. */
  lemma ValuesOfUntouched(ks: seq<UserId>, m: map<UserId, int>, k: UserId, v: int)
    requires k !in ks && forall x :: x in ks ==> x in m
    ensures ValuesOf(ks, m[k := v]) == ValuesOf(ks, m)
  {
    var a, b := ValuesOf(ks, m[k := v]), ValuesOf(ks, m);
    assert forall i :: 0 <= i < |ks| ==> a[i] == b[i];
  }

  /** Over distinct keys containing `k`, replacing `k`'s value changes the sum by the difference. */
  lemma {:induction false} SumValuesUpdate(ks: seq<UserId>, m: map<UserId, int>, k: UserId, v: int)
    requires Distinct(ks) && k in ks && forall x :: x in ks ==> x in m
    ensures Sum(ValuesOf(ks, m[k := v])) == Sum(ValuesOf(ks, m)) - m[k] + v
    decreases |ks|
  {
    var m' := m[k := v];
    DistinctTail(ks);
    assert Sum(ValuesOf(ks, m')) == m'[ks[0]] + Sum(ValuesOf(ks[1..], m')) by {
      assert ValuesOf(ks, m')[1..] == ValuesOf(ks[1..], m');
    }
    assert Sum(ValuesOf(ks, m)) == m[ks[0]] + Sum(ValuesOf(ks[1..], m)) by {
      assert ValuesOf(ks, m)[1..] == ValuesOf(ks[1..], m);
    }
    if ks[0] == k {
      ValuesOfUntouched(ks[1..], m, k, v);
    } else {
      assert k in ks[1..] by {
        var j :| 0 <= j < |ks| && ks[j] == k;
        assert ks[1..][j - 1] == k;
      }
      SumValuesUpdate(ks[1..], m, k, v);
    }
  }

  // ---------------------------------------------------------------- properties

  /** Invalidating a session right after creating it gives back the store as it was. */
  lemma InvalidateUndoesCreate(store: Store, userId: UserId, token: string, expiresInMs: Option<int>,
                               freshId: SessionId, now: int)
    requires Valid(store) && !store.Has(freshId)
    ensures var c := CreateSession(store, userId, token, expiresInMs, freshId, now);
      InvalidateSession(c.store, c.sessionId) == Removed(store, true)
  {
    var c := CreateSession(store, userId, token, expiresInMs, freshId, now);
    assert freshId !in store.keys;
    WithoutMiddle(store.keys, freshId, []);
    assert store.keys + [freshId] + [] == store.keys + [freshId];
    assert store.keys + [] == store.keys;
    assert c.store.entries - {freshId} == store.entries;
  }

  /**
   A created session is returned by every lookup up to and including its expiry instant,
   and the lookup leaves the store alone.
   */
  lemma GetFindsCreated(store: Store, userId: UserId, token: string, expiresInMs: Option<int>,
                        freshId: SessionId, now: int, later: int)
    requires Valid(store) && !store.Has(freshId)
    requires later <= now + TtlOf(expiresInMs)
    ensures var c := CreateSession(store, userId, token, expiresInMs, freshId, now);
      var r := GetSession(c.store, freshId, later);
      && r.session == Some(Session(userId, token, freshId, now, now + TtlOf(expiresInMs)))
      && r.store == c.store
  {
  }

  /** After its expiry instant a created session is gone, and the lookup removes it. */
  lemma GetDropsExpired(store: Store, userId: UserId, token: string, expiresInMs: Option<int>,
                        freshId: SessionId, now: int, later: int)
    requires Valid(store) && !store.Has(freshId)
    requires later > now + TtlOf(expiresInMs)
    ensures var c := CreateSession(store, userId, token, expiresInMs, freshId, now);
      GetSession(c.store, freshId, later) == Lookup(store, None)
  {
    var c := CreateSession(store, userId, token, expiresInMs, freshId, now);
    WithoutMiddle(store.keys, freshId, []);
    assert store.keys + [freshId] + [] == store.keys + [freshId];
    assert store.keys + [] == store.keys;
    assert c.store.entries - {freshId} == store.entries;
  }

  /** Purging twice at the same instant is purging once. */
  lemma PurgeIdempotent(store: Store, now: int)
    requires Valid(store)
    ensures Purge(Purge(store, now), now) == Purge(store, now)
  {
    var p := Purge(store, now);
    LiveOfLive(store.keys, store.entries, p.entries, now);
    PurgeUnique(p, p, now);
  }

  /** Filtering an already filtered order again keeps it. */
  lemma {:induction false} LiveOfLive(ks: seq<SessionId>, m: map<SessionId, Session>,
                                      m': map<SessionId, Session>, now: int)
    requires forall k :: k in Live(ks, m, now) ==> k in m' && m'[k] == m[k]
    ensures Live(Live(ks, m, now), m', now) == Live(ks, m, now)
    decreases |ks|
  {
    if ks != [] {
      var init := ks[..|ks| - 1];
      var last := ks[|ks| - 1];
      LiveOfLive(init, m, m', now);
      if last in m && !Expired(m[last], now) {
        var l := Live(init, m, now);
        assert (l + [last])[..|l + [last]| - 1] == l;
      }
    }
  }

  /** A second cleanup at the same instant finds nothing to remove. */
  method CleanupTwice(store: Store, now: int) returns (first: Cleaned, second: Cleaned)
    requires Valid(store)
    ensures second.store == first.store
    ensures second.count == 0
  {
    first := CleanupExpiredSessions(store, now);
    second := CleanupExpiredSessions(first.store, now);
    PurgeIdempotent(store, now);
  }

  /** Listing a user's sessions leaves the store exactly as a cleanup at that instant would. */
  method ListingCleansLikeCleanup(store: Store, userId: UserId, now: int) returns (listed: Store, cleaned: Cleaned)
    requires Valid(store)
    ensures listed == cleaned.store
    ensures cleaned.store.entries.Keys <= store.entries.Keys
  {
    var sessions;
    listed, sessions := GetUserSessions(store, userId, now);
    cleaned := CleanupExpiredSessions(store, now);
  }
}
