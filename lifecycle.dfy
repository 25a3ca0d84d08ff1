/**
 * Whole request sequences against one fresh store, as a client drives the
 * handlers: onboarding, starting and ending a fast, reading the statistics.
 */
module Lifecycle {
  import opened Wrappers
  import opened Types
  import opened Validation
  import opened Response
  import opened Auth
  import opened Partition
  import opened Store
  import Onboarding
  import StartFast
  import EndFast
  import GetStats

  /** Onboarding a user twice into an empty store: the first creates the profile, the second is refused. */
  method OnboardTwice(store: RecordStore, headers: map<string, string>, reply: ProviderReply, body: RequestBody, now: Timestamp)
    returns (first: HttpResponse, second: HttpResponse)
    requires store.Valid() && store.profiles == map[] && store.sessions == map[]
    requires Authenticated(headers, reply).Some?
    requires ParseBody(body).Some? && ValidateOnboarding(ParseBody(body).value).Ok?
    modifies store
    ensures store.Valid() && store.sessions == map[] && Authenticated(headers, reply).value.sub in store.profiles
    ensures first.statusCode == 200
    ensures second == ErrorResponse("User profile already exists", 409)
  {
    first := Onboarding.Handler(store, headers, reply, body, now);
    second := Onboarding.Handler(store, headers, reply, body, now);
  }

  /** Starting twice with no session yet: the first start stores one active session, the second is refused. */
  method StartTwice(store: RecordStore, headers: map<string, string>, reply: ProviderReply, body: RequestBody,
                    now: Timestamp, sessionId: string, otherId: string)
    returns (first: HttpResponse, second: HttpResponse)
    requires store.Valid() && Authenticated(headers, reply).Some?
    requires Authenticated(headers, reply).value.sub in store.profiles
    requires store.Part(Authenticated(headers, reply).value.sub) == []
    requires ParseBody(body).Some? && ValidateStartFast(ParseBody(body).value).Ok?
    modifies store
    ensures store.Valid() && Authenticated(headers, reply).value.sub in store.profiles
    ensures store.Part(Authenticated(headers, reply).value.sub) ==
      [StartFast.NewSession(sessionId, Authenticated(headers, reply).value.sub, now,
                            ValidateStartFast(ParseBody(body).value).value.targetHours)]
    ensures first.statusCode == 200
    ensures second == ErrorResponse("User is already fasting", 409)
  {
    first := StartFast.Handler(store, headers, reply, body, now, sessionId);
    second := StartFast.Handler(store, headers, reply, body, now, otherId);
  }

  /** Ending the only session twice: the first end completes it, the second is refused. */
  method EndTwice(store: RecordStore, headers: map<string, string>, reply: ProviderReply, body: RequestBody,
                  now: Timestamp, s: FastingSession)
    returns (first: HttpResponse, second: HttpResponse)
    requires store.Valid() && Authenticated(headers, reply).Some?
    requires store.Part(Authenticated(headers, reply).value.sub) == [s] && s.status == Active
    requires ParseBody(body).Some? && ValidateEndFast(ParseBody(body).value) == Ok(s.sessionId)
    modifies store
    ensures store.Valid() && store.profiles == old(store.profiles)
    ensures store.Part(Authenticated(headers, reply).value.sub) == [EndFast.Ended(s, now)]
    ensures first.statusCode == 200
    ensures second == ErrorResponse("Session is not active", 400)
  {
    first := EndFast.Handler(store, headers, reply, body, now);
    second := EndFast.Handler(store, headers, reply, body, now);
  }

  /**
   * The lookup's blind spot reached through the handlers alone: when the
   * partition's first session is completed and a later one is still active,
   * a new start is admitted and the user ends up with two active sessions.
   */
  method SecondConcurrentFast(store: RecordStore, headers: map<string, string>, reply: ProviderReply, body: RequestBody,
                              now: Timestamp, done: FastingSession, running: FastingSession, freshId: string)
    returns (resp: HttpResponse)
    requires store.Valid() && Authenticated(headers, reply).Some?
    requires Authenticated(headers, reply).value.sub in store.profiles
    requires store.Part(Authenticated(headers, reply).value.sub) == [done, running]
    requires done.status == Completed && running.status == Active && freshId != running.sessionId
    requires ParseBody(body).Some? && ValidateStartFast(ParseBody(body).value).Ok?
    modifies store
    ensures resp.statusCode == 200
    ensures !AtMostOneActive(store.Part(Authenticated(headers, reply).value.sub))
  {
    var sub := Authenticated(headers, reply).value.sub;
    var before := store.Part(sub);
    assert running in before;
    resp := StartFast.Handler(store, headers, reply, body, now, freshId);
    var s := StartFast.NewSession(freshId, sub, now, ValidateStartFast(ParseBody(body).value).value.targetHours);
    assert store.Part(sub) == Put(before, s);
    PutSecondActive(sub, before, s, running);
  }

  /** The statistics over a partition holding one running session: fasting since its start, nothing completed. */
  lemma StatsWhileFasting(store: RecordStore, profile: UserProfile, sub: string, s: FastingSession, now: Timestamp)
    requires store.Valid() && store.Part(sub) == [s] && s.status == Active
    ensures var st := GetStats.StatsOf(store, profile, sub, now);
      st.isCurrentlyFasting && st.completedSessions == 0 && st.hoursSinceStarted == Some(HoursBetween(s.startTime, now))
  {
    assert [s][..0] == [];
    assert CountCompleted([s]) == 0;
  }

  /** The statistics over a partition holding one ended session: not fasting, one completed session of its length. */
  lemma StatsAfterFast(store: RecordStore, profile: UserProfile, sub: string, e: FastingSession, now: Timestamp)
    requires store.Valid() && store.Part(sub) == [e] && e.status == Completed && e.endTime.Some?
    ensures var st := GetStats.StatsOf(store, profile, sub, now);
      !st.isCurrentlyFasting && st.completedSessions == 1 && st.totalFastingHours == HoursBetween(e.startTime, e.endTime.value)
  {
    assert [e][..0] == [];
    assert CompletedItems([e]) == [e];
    assert CountCompleted([e]) == 1;
    assert HoursSum([e]) == HoursBetween(e.startTime, e.endTime.value);
  }

  /**
   * A user onboards (a second onboarding is refused), starts a fast (a
   * second start is refused while it runs), sees it in the statistics, ends
   * it (a second end is refused), and then sees one completed session
   * whose hours are the time between start and end.
   */
  method Journey(headers: map<string, string>, reply: ProviderReply,
                 profileBody: RequestBody, startBody: RequestBody, endBody: RequestBody,
                 sessionId: string, otherId: string, t0: Timestamp, t1: Timestamp, t2: Timestamp, t3: Timestamp, t4: Timestamp)
    returns (onboarded: HttpResponse, reOnboarded: HttpResponse, started: HttpResponse, restarted: HttpResponse,
             during: HttpResponse, ended: HttpResponse, reEnded: HttpResponse, after: HttpResponse)
    requires Authenticated(headers, reply).Some?
    requires ParseBody(profileBody).Some? && ValidateOnboarding(ParseBody(profileBody).value).Ok?
    requires ParseBody(startBody).Some? && ValidateStartFast(ParseBody(startBody).value).Ok?
    requires ParseBody(endBody).Some? && ValidateEndFast(ParseBody(endBody).value) == Ok(sessionId)
    ensures onboarded.statusCode == 200
    ensures reOnboarded == ErrorResponse("User profile already exists", 409)
    ensures started.statusCode == 200
    ensures restarted == ErrorResponse("User is already fasting", 409)
    ensures during.statusCode == 200 && during.body.data.Some? && during.body.data.value.StatsData?
    ensures var st := during.body.data.value.stats;
      st.isCurrentlyFasting && st.completedSessions == 0 && st.hoursSinceStarted == Some(HoursBetween(t1, t2))
    ensures ended.statusCode == 200
    ensures reEnded == ErrorResponse("Session is not active", 400)
    ensures after.statusCode == 200 && after.body.data.Some? && after.body.data.value.StatsData?
    ensures var st := after.body.data.value.stats;
      !st.isCurrentlyFasting && st.completedSessions == 1 && st.totalFastingHours == HoursBetween(t1, t3)
  {
    var sub := Authenticated(headers, reply).value.sub;
    var store := new RecordStore();
    onboarded, reOnboarded := OnboardTwice(store, headers, reply, profileBody, t0);
    var target := ValidateStartFast(ParseBody(startBody).value).value.targetHours;
    var s := StartFast.NewSession(sessionId, sub, t1, target);
    started, restarted := StartTwice(store, headers, reply, startBody, t1, sessionId, otherId);
    during := GetStats.Handler(store, headers, reply, t2);
    StatsWhileFasting(store, store.profiles[sub], sub, s, t2);
    ended, reEnded := EndTwice(store, headers, reply, endBody, t3, s);
    after := GetStats.Handler(store, headers, reply, t4);
    StatsAfterFast(store, store.profiles[sub], sub, EndFast.Ended(s, t3), t4);
  }
}
