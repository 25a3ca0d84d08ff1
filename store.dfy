/**
 * The record store: a profile table keyed by `userId` and a session table
 * keyed by (`userId`, `sessionId`), each user's sessions forming one
 * partition ordered by session id. The service's operations are the methods
 * and functions of `RecordStore`.
 */
module Store {
  import opened Wrappers
  import opened Types
  import opened Attributes
  import opened UpdateExpr
  import opened Partition
  import opened Cursor

  /** Why a store call is rejected (the service call then throws). */
  datatype StoreError =
    | ConditionFailed   // the conditional put found an item under the key
    | InvalidLimit      // a query `Limit` below 1
    | InvalidStartKey   // a cursor that does not decode to a key of this query

  /** A page of a user's sessions and the cursor that resumes after it. */
  datatype SessionPage = SessionPage(sessions: seq<FastingSession>, nextToken: Option<string>)

  class RecordStore {
    var profiles: map<string, UserProfile>
    var sessions: map<string, seq<FastingSession>>

    /** Each profile sits under its own id; each partition is well formed. */
    predicate Valid()
      reads this
    {
      && (forall u :: u in profiles ==> profiles[u].userId == u)
      && (forall u :: u in sessions ==> WellFormed(u, sessions[u]))
    }

    /** The partition of `userId`; empty when the user has no sessions. */
    function Part(userId: string): (ps: seq<FastingSession>)
      reads this
      ensures Valid() ==> WellFormed(userId, ps)
    {
      if userId in sessions then sessions[userId] else []
    }

    constructor()
      ensures Valid() && profiles == map[] && sessions == map[]
    {
      profiles := map[];
      sessions := map[];
    }

    // ---------------------------------------------------------- profiles

    /** Puts `profile` only if no profile is stored under its id; otherwise fails and changes nothing. */
    method CreateUserProfile(profile: UserProfile) returns (r: Result<(), StoreError>)
      requires Valid()
      modifies this
      ensures Valid()
      ensures r.Ok? <==> profile.userId !in old(profiles)
      ensures r.Ok? ==> profiles == old(profiles)[profile.userId := profile]
      ensures r.Err? ==> r.error == ConditionFailed && profiles == old(profiles)
      ensures sessions == old(sessions)
    {
      if profile.userId in profiles {
        r := Err(ConditionFailed);
      } else {
        profiles := profiles[profile.userId := profile];
        r := Ok(());
      }
    }

    /** The profile stored under `userId`, or none. */
    function GetUserProfile(userId: string): (r: Option<UserProfile>)
      reads this
      ensures r.Some? <==> userId in profiles
      ensures r.Some? ==> r.value == profiles[userId]
      ensures r.Some? && Valid() ==> r.value.userId == userId
    {
      if userId in profiles then Some(profiles[userId]) else None
    }

    /**
     * Applies an update object to the stored profile: every attribute with a
     * defined entry takes its value, `updatedAt` takes `now` whatever the
     * object says, every other attribute keeps its value; returns the whole
     * new item.
     */
    method UpdateUserProfile(userId: string, entries: seq<Entry>, now: Timestamp) returns (r: UserProfile)
      requires Valid() && userId in profiles
      requires DistinctKeys(entries)
      requires forall e :: e in entries && e.value.Some? ==> ProfileSettable((e.key, e.value.value))
      modifies this
      ensures Valid()
      ensures profiles == old(profiles)[userId := r] && sessions == old(sessions)
      ensures r.userId == userId
      ensures forall name :: ProfileAttr(r, name) == AfterUpdate(entries, now, name, ProfileAttr(old(profiles[userId]), name))
    {
      var plan := BuildUpdate(entries, now);
      var item := profiles[userId];
      ProfileUpdate(item, entries, now);
      r := SetProfileAll(item, Assignments(plan));
      profiles := profiles[userId := r];
    }

    // ---------------------------------------------------------- sessions

    /** Puts `session` under (`userId`, `sessionId`), replacing any item with that key. */
    method CreateFastingSession(session: FastingSession)
      requires Valid()
      modifies this
      ensures Valid()
      ensures profiles == old(profiles)
      ensures sessions == old(sessions)[session.userId := Put(old(Part(session.userId)), session)]
      ensures GetFastingSession(session.sessionId, session.userId) == Some(session)
      ensures forall u, id :: (u, id) != (session.userId, session.sessionId) ==>
                GetFastingSession(id, u) == old(GetFastingSession(id, u))
    {
      var u := session.userId;
      var ps := Part(u);
      PutSpec(u, ps, session);
      sessions := sessions[u := Put(ps, session)];
    }

    /** The session stored under (`userId`, `sessionId`): a session of another user is never returned. */
    function GetFastingSession(sessionId: string, userId: string): (r: Option<FastingSession>)
      reads this
      ensures r.Some? ==> r.value.sessionId == sessionId && r.value in Part(userId)
      ensures r.Some? && Valid() ==> r.value.userId == userId
      ensures r.None? ==> forall x :: x in Part(userId) ==> x.sessionId != sessionId
    {
      Find(Part(userId), sessionId)
    }

    /**
     * The active-session lookup. The query stops after one item of the
     * partition before the status filter is applied, so it returns the first
     * session when that one is active, and none otherwise.
     */
    function GetActiveFastingSession(userId: string): (r: Option<FastingSession>)
      reads this
      ensures r.Some? ==> r.value.status == Active && r.value in Part(userId)
      ensures r.Some? && Valid() ==> r.value.userId == userId
      ensures r.Some? <==> |Part(userId)| > 0 && Part(userId)[0].status == Active
      ensures r.Some? ==> r.value == Part(userId)[0]
    {
      FirstActive(Part(userId))
    }

    /**
     * Applies an update object to the stored session, as for profiles:
     * defined entries are set, `updatedAt` becomes `now`, the key and every
     * other attribute stay; returns the whole new item.
     */
    method UpdateFastingSession(sessionId: string, userId: string, entries: seq<Entry>, now: Timestamp)
      returns (r: FastingSession)
      requires Valid() && GetFastingSession(sessionId, userId).Some?
      requires DistinctKeys(entries)
      requires forall e :: e in entries && e.value.Some? ==> SessionSettable((e.key, e.value.value))
      modifies this
      ensures Valid()
      ensures profiles == old(profiles)
      ensures sessions == old(sessions)[userId := Put(old(Part(userId)), r)]
      ensures r.sessionId == sessionId && r.userId == userId
      ensures GetFastingSession(sessionId, userId) == Some(r)
      ensures forall u, id :: (u, id) != (userId, sessionId) ==>
                GetFastingSession(id, u) == old(GetFastingSession(id, u))
      ensures forall name :: SessionAttr(r, name) ==
                AfterUpdate(entries, now, name, SessionAttr(old(GetFastingSession(sessionId, userId)).value, name))
    {
      var item := GetFastingSession(sessionId, userId).value;
      var plan := BuildUpdate(entries, now);
      SessionUpdate(item, entries, now);
      r := SetSessionAll(item, Assignments(plan));
      var ps := Part(userId);
      PutSpec(userId, ps, r);
      sessions := sessions[userId := Put(ps, r)];
    }

    // ---------------------------------------------------------- listing

    /**
     * Where a listing starts: no cursor (or an empty one) starts at the
     * highest session id; a cursor must decode to a key of this user's
     * partition, and the listing resumes below it.
     */
    function StartOf(userId: string, nextToken: Option<string>): (r: Result<Option<string>, StoreError>)
      ensures r.Ok? && r.value.Some? ==>
                nextToken.Some? && DecodeToken(nextToken.value) == Some(SessionKey(r.value.value, userId))
      ensures nextToken.None? || nextToken.value == "" ==> r == Ok(None)
    {
      if nextToken.None? || nextToken.value == "" then Ok(None)
      else
        match DecodeToken(nextToken.value)
        case None => Err(InvalidStartKey)
        case Some(k) => if k.userId == userId then Ok(Some(k.sessionId)) else Err(InvalidStartKey)
    }

    /**
     * One page of the user's sessions, highest session id first: at most
     * `limit` of them, and a cursor exactly when the page is full.
     */
    function ListFastingSessions(userId: string, limit: int, nextToken: Option<string>): (r: Result<SessionPage, StoreError>)
      reads this
      ensures r.Err? <==> limit < 1 || StartOf(userId, nextToken).Err?
      ensures r.Ok? ==> |r.value.sessions| <= limit
      ensures r.Ok? ==> (r.value.nextToken.Some? <==> |r.value.sessions| == limit)
      ensures r.Ok? && Valid() ==>
                && Descending(r.value.sessions)
                && (forall x :: x in r.value.sessions ==> x in Part(userId) && x.userId == userId)
    {
      if limit < 1 then Err(InvalidLimit)
      else
        var start := StartOf(userId, nextToken);
        if start.Err? then Err(start.error)
        else
          var p := Query(Part(userId), limit, start.value);
          QueryItems(userId, Part(userId), limit, start.value);
          var token := if p.lastKey.Some? then Some(EncodeToken(SessionKey(p.lastKey.value.0, p.lastKey.value.1))) else None;
          Ok(SessionPage(p.items, token))
    }

    // ---------------------------------------------------------- statistics

    /**
     * The completed-session totals: the number of completed sessions, timed
     * or not, and the hours summed over those that have an end time.
     */
    method GetFastingStats(userId: string) returns (totalFastingHours: real, completedSessions: nat)
      ensures completedSessions == CountCompleted(Part(userId))
      ensures totalFastingHours == HoursSum(CompletedItems(Part(userId)))
      ensures completedSessions == 0 ==> totalFastingHours == 0.0
    {
      var items := CompletedItems(Part(userId));
      CompletedCount(Part(userId));
      completedSessions := |items|;
      totalFastingHours := 0.0;
      for i := 0 to |items|
        invariant totalFastingHours == HoursSum(items[..i])
      {
        var s := items[i];
        if s.endTime.Some? {
          totalFastingHours := totalFastingHours + HoursBetween(s.startTime, s.endTime.value);
        }
        assert items[..i + 1][..i] == items[..i];
      }
      assert items[..|items|] == items;
    }
  }

  // ------------------------------------------------------------ update lemmas

  /** Applying the builder's plan to a profile: every assignment fits, and each attribute ends as `AfterUpdate` says. */
  lemma ProfileUpdate(item: UserProfile, entries: seq<Entry>, now: Timestamp)
    requires DistinctKeys(entries)
    requires forall e :: e in entries && e.value.Some? ==> ProfileSettable((e.key, e.value.value))
    ensures Bound(Plan(entries, now))
    ensures forall i :: 0 <= i < |Assignments(Plan(entries, now))| ==> ProfileSettable(Assignments(Plan(entries, now))[i])
    ensures forall name :: ProfileAttr(SetProfileAll(item, Assignments(Plan(entries, now))), name)
                         == AfterUpdate(entries, now, name, ProfileAttr(item, name))
    ensures SetProfileAll(item, Assignments(Plan(entries, now))).userId == item.userId
  {
    ProfileAssignmentsFit(entries, now);
    var sets := Assignments(Plan(entries, now));
    var r := SetProfileAll(item, sets);
    forall name ensures ProfileAttr(r, name) == AfterUpdate(entries, now, name, ProfileAttr(item, name)) {
      ProfileAttrAfter(item, entries, now, name);
    }
    ProfileKeyKept(item, entries, now);
  }

  /** No defined entry can supply the key attribute, so the plan leaves it as it was. */
  lemma ProfileKeyKept(item: UserProfile, entries: seq<Entry>, now: Timestamp)
    requires DistinctKeys(entries) && Bound(Plan(entries, now))
    requires forall e :: e in entries && e.value.Some? ==> ProfileSettable((e.key, e.value.value))
    requires forall i :: 0 <= i < |Assignments(Plan(entries, now))| ==> ProfileSettable(Assignments(Plan(entries, now))[i])
    ensures SetProfileAll(item, Assignments(Plan(entries, now))).userId == item.userId
  {
    NotSupplied(entries, "userId");
    ProfileAttrAfter(item, entries, now, "userId");
  }

  /** Every assignment of the builder's plan fits a profile when every defined entry does. */
  lemma ProfileAssignmentsFit(entries: seq<Entry>, now: Timestamp)
    requires DistinctKeys(entries)
    requires forall e :: e in entries && e.value.Some? ==> ProfileSettable((e.key, e.value.value))
    ensures Bound(Plan(entries, now))
    ensures forall i :: 0 <= i < |Assignments(Plan(entries, now))| ==> ProfileSettable(Assignments(Plan(entries, now))[i])
  {
    PlanAssignments(entries, now);
    var sets := Assignments(Plan(entries, now));
    var d := Defined(entries);
    DefinedMembers(entries);
    forall i | 0 <= i < |sets| ensures ProfileSettable(sets[i]) {
      if i < |d| {
        assert d[i] in d;
      }
    }
  }

  /** One attribute of a profile after the builder's plan is applied. */
  lemma ProfileAttrAfter(item: UserProfile, entries: seq<Entry>, now: Timestamp, name: string)
    requires DistinctKeys(entries) && Bound(Plan(entries, now))
    requires forall i :: 0 <= i < |Assignments(Plan(entries, now))| ==> ProfileSettable(Assignments(Plan(entries, now))[i])
    ensures ProfileAttr(SetProfileAll(item, Assignments(Plan(entries, now))), name)
         == AfterUpdate(entries, now, name, ProfileAttr(item, name))
  {
    SetProfileAllAttr(item, Assignments(Plan(entries, now)), name);
    PlanEffect(entries, now, name);
  }

  /** Applying the builder's plan to a session: every assignment fits, each attribute ends as `AfterUpdate` says, and the key stays. */
  lemma SessionUpdate(item: FastingSession, entries: seq<Entry>, now: Timestamp)
    requires DistinctKeys(entries)
    requires forall e :: e in entries && e.value.Some? ==> SessionSettable((e.key, e.value.value))
    ensures Bound(Plan(entries, now))
    ensures forall i :: 0 <= i < |Assignments(Plan(entries, now))| ==> SessionSettable(Assignments(Plan(entries, now))[i])
    ensures forall name :: SessionAttr(SetSessionAll(item, Assignments(Plan(entries, now))), name)
                         == AfterUpdate(entries, now, name, SessionAttr(item, name))
    ensures SetSessionAll(item, Assignments(Plan(entries, now))).sessionId == item.sessionId
    ensures SetSessionAll(item, Assignments(Plan(entries, now))).userId == item.userId
  {
    SessionAssignmentsFit(entries, now);
    var sets := Assignments(Plan(entries, now));
    var r := SetSessionAll(item, sets);
    forall name ensures SessionAttr(r, name) == AfterUpdate(entries, now, name, SessionAttr(item, name)) {
      SessionAttrAfter(item, entries, now, name);
    }
    SessionKeyKept(item, entries, now);
  }

  /** No defined entry can supply either key attribute, so the plan leaves both as they were. */
  lemma SessionKeyKept(item: FastingSession, entries: seq<Entry>, now: Timestamp)
    requires DistinctKeys(entries) && Bound(Plan(entries, now))
    requires forall e :: e in entries && e.value.Some? ==> SessionSettable((e.key, e.value.value))
    requires forall i :: 0 <= i < |Assignments(Plan(entries, now))| ==> SessionSettable(Assignments(Plan(entries, now))[i])
    ensures SetSessionAll(item, Assignments(Plan(entries, now))).sessionId == item.sessionId
    ensures SetSessionAll(item, Assignments(Plan(entries, now))).userId == item.userId
  {
    NotSupplied(entries, "sessionId");
    SessionAttrAfter(item, entries, now, "sessionId");
    NotSupplied(entries, "userId");
    SessionAttrAfter(item, entries, now, "userId");
  }

  /** An attribute that no defined entry names is not supplied. */
  lemma NotSupplied(entries: seq<Entry>, name: string)
    requires DistinctKeys(entries)
    requires forall e :: e in entries && e.value.Some? ==> e.key != name
    ensures Supplied(entries, name).None?
  {
    SuppliedValue(entries, name);
  }

  /** Every assignment of the builder's plan fits a session when every defined entry does. */
  lemma SessionAssignmentsFit(entries: seq<Entry>, now: Timestamp)
    requires DistinctKeys(entries)
    requires forall e :: e in entries && e.value.Some? ==> SessionSettable((e.key, e.value.value))
    ensures Bound(Plan(entries, now))
    ensures forall i :: 0 <= i < |Assignments(Plan(entries, now))| ==> SessionSettable(Assignments(Plan(entries, now))[i])
  {
    PlanAssignments(entries, now);
    var sets := Assignments(Plan(entries, now));
    var d := Defined(entries);
    DefinedMembers(entries);
    forall i | 0 <= i < |sets| ensures SessionSettable(sets[i]) {
      if i < |d| {
        assert d[i] in d;
      }
    }
  }

  /** One attribute of a session after the builder's plan is applied. */
  lemma SessionAttrAfter(item: FastingSession, entries: seq<Entry>, now: Timestamp, name: string)
    requires DistinctKeys(entries) && Bound(Plan(entries, now))
    requires forall i :: 0 <= i < |Assignments(Plan(entries, now))| ==> SessionSettable(Assignments(Plan(entries, now))[i])
    ensures SessionAttr(SetSessionAll(item, Assignments(Plan(entries, now))), name)
         == AfterUpdate(entries, now, name, SessionAttr(item, name))
  {
    SetSessionAllAttr(item, Assignments(Plan(entries, now)), name);
    PlanEffect(entries, now, name);
  }

  // ------------------------------------------------------------ paging lemmas

  lemma PrefixOfConcat(a: seq<FastingSession>, b: seq<FastingSession>, c: seq<FastingSession>, b': seq<FastingSession>)
    requires a + b == c && b' <= b
    ensures a + b' <= c
  {
    assert c[..|a| + |b'|] == a + b';
  }

  /** A full page's cursor is accepted by the listing and resumes after the page's last session. */
  lemma CursorOfFullPage(store: RecordStore, userId: string, limit: int, start: Option<string>)
    requires store.Valid() && limit >= 1
    requires Query(store.Part(userId), limit, start).lastKey.Some?
    ensures var q := Query(store.Part(userId), limit, start);
      store.StartOf(userId, Some(EncodeToken(SessionKey(q.lastKey.value.0, q.lastKey.value.1))))
        == Ok(Some(q.lastKey.value.0))
  {
    var ps := store.Part(userId);
    var q := Query(ps, limit, start);
    var k := SessionKey(q.lastKey.value.0, q.lastKey.value.1);
    DecodeEncodeToken(k);
    QueryItems(userId, ps, limit, start);
    assert q.items[limit - 1] in q.items;
  }

  /** The page a listing returns, spelled out once for the paging proofs. */
  lemma ListPage(store: RecordStore, userId: string, limit: int, nextToken: Option<string>)
    requires limit >= 1 && store.StartOf(userId, nextToken).Ok?
    ensures var q := Query(store.Part(userId), limit, store.StartOf(userId, nextToken).value);
      store.ListFastingSessions(userId, limit, nextToken)
        == Ok(SessionPage(q.items, if q.lastKey.Some? then Some(EncodeToken(SessionKey(q.lastKey.value.0, q.lastKey.value.1))) else None))
  {
  }

  /**
   * Following a cursor continues the listing where the page stopped: the
   * cursor is accepted, and the two pages together are the next sessions of
   * the listing, with none repeated and none skipped.
   */
  lemma ListResume(store: RecordStore, userId: string, limit: int, nextToken: Option<string>)
    requires store.Valid()
    requires store.ListFastingSessions(userId, limit, nextToken).Ok?
    requires store.ListFastingSessions(userId, limit, nextToken).value.nextToken.Some?
    ensures var p1 := store.ListFastingSessions(userId, limit, nextToken).value;
      var p2 := store.ListFastingSessions(userId, limit, p1.nextToken);
      && p2.Ok?
      && p1.sessions + p2.value.sessions <= From(Reverse(store.Part(userId)), store.StartOf(userId, nextToken).value)
  {
    var ps := store.Part(userId);
    var start := store.StartOf(userId, nextToken).value;
    var q := Query(ps, limit, start);
    ListPage(store, userId, limit, nextToken);
    var kid := q.lastKey.value.0;
    var token := EncodeToken(SessionKey(kid, q.lastKey.value.1));
    CursorOfFullPage(store, userId, limit, start);
    ListPage(store, userId, limit, Some(token));
    var q2 := Query(ps, limit, Some(kid));
    assert store.ListFastingSessions(userId, limit, Some(token)).value.sessions == q2.items;
    assert WellFormed(userId, ps);
    QueryResume(userId, ps, limit, start);
    QueryPrefix(ps, limit, Some(kid));
    PrefixOfConcat(q.items, From(Reverse(ps), Some(kid)), From(Reverse(ps), start), q2.items);
  }
}
