/**
 * The start-fast handler: an authenticated user with a profile and no
 * active session (as the store's lookup sees it) starts a new active
 * session, optionally with a target length in hours.
 */
module StartFast {
  import opened Wrappers
  import opened Types
  import opened Validation
  import opened Response
  import opened Auth
  import opened Partition
  import opened Store

  /** The session a start at `now` creates. */
  function NewSession(sessionId: string, userId: string, now: Timestamp, targetHours: Option<real>): (s: FastingSession)
    ensures s.status == Active && s.endTime.None?
    ensures s.startTime == now && s.createdAt == now && s.updatedAt == now
  {
    FastingSession(sessionId, userId, now, None, targetHours, Active, now, now)
  }

  /** Every check the handler makes before it creates the session passes. */
  predicate Admits(store: RecordStore, headers: map<string, string>, reply: ProviderReply, body: RequestBody)
    reads store
  {
    var user := Authenticated(headers, reply);
    && user.Some?
    && store.GetUserProfile(user.value.sub).Some?
    && store.GetActiveFastingSession(user.value.sub).None?
    && ParseBody(body).Some?
    && ValidateStartFast(ParseBody(body).value).Ok?
  }

  /** Stores the new session of a start the lookup admitted. */
  method Begin(store: RecordStore, sub: string, session: FastingSession)
    requires store.Valid() && session.userId == sub && session.status == Active
    requires store.GetActiveFastingSession(sub).None?
    modifies store
    ensures store.Valid()
    ensures store.profiles == old(store.profiles)
    ensures store.sessions == old(store.sessions)[sub := Put(old(store.Part(sub)), session)]
    ensures store.GetFastingSession(session.sessionId, sub) == Some(session)
    ensures forall u, id :: (u, id) != (sub, session.sessionId) ==> store.GetFastingSession(id, u) == old(store.GetFastingSession(id, u))
    ensures old(OnlyFirstActive(store.Part(sub))) ==> AtMostOneActive(store.Part(sub))
  {
    ghost var before := store.Part(sub);
    if OnlyFirstActive(before) {
      FirstActiveExact(before);
      PutOnlyActive(sub, before, session);
    }
    store.CreateFastingSession(session);
    assert store.Part(sub) == Put(before, session);
  }

  /**
   * Handles one start-fast request. The checks run in the handler's order:
   * authentication, profile, active session, body syntax, body schema. Only
   * when all pass is a session stored, under the fresh id, and nothing else
   * in the store changes; when the lookup saw every active session (none
   * past the partition's first), the user then has exactly one.
   */
  method Handler(store: RecordStore, headers: map<string, string>, reply: ProviderReply, body: RequestBody,
                 now: Timestamp, freshId: string)
    returns (resp: HttpResponse)
    requires store.Valid()
    modifies store
    ensures store.Valid() && Consistent(resp)
    ensures store.profiles == old(store.profiles)
    ensures resp.statusCode == 200 <==> old(Admits(store, headers, reply, body))
    ensures !old(Admits(store, headers, reply, body)) ==> store.sessions == old(store.sessions)
    ensures Authenticated(headers, reply).None? ==> resp == UnauthorizedResponse()
    ensures Authenticated(headers, reply).Some? ==>
      var sub := Authenticated(headers, reply).value.sub;
      && (old(store.GetUserProfile(sub)).None? ==> resp == NotFoundResponse())
      && (old(store.GetUserProfile(sub)).Some? && old(store.GetActiveFastingSession(sub)).Some? ==>
            resp == ErrorResponse("User is already fasting", 409))
      && (old(store.GetUserProfile(sub)).Some? && old(store.GetActiveFastingSession(sub)).None? ==>
            && (ParseBody(body).None? ==> resp == ErrorResponse("Invalid JSON body", 400))
            && (ParseBody(body).Some? && ValidateStartFast(ParseBody(body).value).Err? ==>
                  resp == ValidationErrorResponse(FormatIssues(ValidateStartFast(ParseBody(body).value).error))))
    ensures old(Admits(store, headers, reply, body)) ==>
      var sub := Authenticated(headers, reply).value.sub;
      var s := NewSession(freshId, sub, now, ValidateStartFast(ParseBody(body).value).value.targetHours);
      && resp == SuccessResponse(SessionData(s), Some("Fasting session started successfully"))
      && store.sessions == old(store.sessions)[sub := Put(old(store.Part(sub)), s)]
      && store.GetFastingSession(freshId, sub) == Some(s)
      && (forall u, id :: (u, id) != (sub, freshId) ==> store.GetFastingSession(id, u) == old(store.GetFastingSession(id, u)))
      && (old(OnlyFirstActive(store.Part(sub))) ==> AtMostOneActive(store.Part(sub)))
  {
    var user := AuthenticateRequest(headers, reply);
    if user.None? {
      return UnauthorizedResponse();
    }
    var sub := user.value.sub;
    var profile := store.GetUserProfile(sub);
    if profile.None? {
      return NotFoundResponse();
    }
    var active := store.GetActiveFastingSession(sub);
    if active.Some? {
      return ErrorResponse("User is already fasting", 409);
    }
    var json := ParseBody(body);
    if json.None? {
      return ErrorResponse("Invalid JSON body", 400);
    }
    var input := ValidateStartFast(json.value);
    if input.Err? {
      return ValidationErrorResponse(FormatIssues(input.error));
    }
    var session := NewSession(freshId, sub, now, input.value.targetHours);
    Begin(store, sub, session);
    resp := SuccessResponse(SessionData(session), Some("Fasting session started successfully"));
  }
}
