/**
 * The end-fast handler: the owner of an active session ends it, which marks
 * it completed and records the end time.
 */
module EndFast {
  import opened Wrappers
  import opened Types
  import opened Attributes
  import opened UpdateExpr
  import opened Validation
  import opened Response
  import opened Auth
  import opened Partition
  import opened Store

  /** The update the handler sends: end time and status, and `updatedAt` (which the store sets again). */
  function EndEntries(now: Timestamp): (es: seq<Entry>)
    ensures DistinctKeys(es)
    ensures forall e :: e in es && e.value.Some? ==> SessionSettable((e.key, e.value.value))
  {
    [Entry("endTime", Some(Instant(now))), Entry("status", Some(Status(Completed))), Entry("updatedAt", Some(Instant(now)))]
  }

  /** A session as ending it at `now` leaves it. */
  function Ended(s: FastingSession, now: Timestamp): FastingSession {
    s.(endTime := Some(now), status := Completed, updatedAt := now)
  }

  /** Applying the end update changes exactly the end time, the status and `updatedAt`. */
  lemma EndEffect(s: FastingSession, r: FastingSession, now: Timestamp)
    requires forall name :: SessionAttr(r, name) == AfterUpdate(EndEntries(now), now, name, SessionAttr(s, name))
    ensures r == Ended(s, now)
  {
    var es := EndEntries(now);
    forall name ensures SessionAttr(r, name) == SessionAttr(Ended(s, now), name) {
      SuppliedValue(es, name);
      if name == "endTime" {
        assert Entry("endTime", Some(Instant(now))) in es;
      } else if name == "status" {
        assert Entry("status", Some(Status(Completed))) in es;
      } else if name != "updatedAt" {
        assert forall e :: e in es ==> e.key != name;
      }
    }
    SessionByAttrs(r, Ended(s, now));
  }

  /** Every check the handler makes before it updates the session passes. */
  predicate Admits(store: RecordStore, headers: map<string, string>, reply: ProviderReply, body: RequestBody)
    reads store
  {
    var user := Authenticated(headers, reply);
    && user.Some?
    && ParseBody(body).Some?
    && ValidateEndFast(ParseBody(body).value).Ok?
    && store.GetFastingSession(ValidateEndFast(ParseBody(body).value).value, user.value.sub).Some?
    && store.GetFastingSession(ValidateEndFast(ParseBody(body).value).value, user.value.sub).value.status == Active
  }

  /**
   * Handles one end-fast request. The checks run in the handler's order:
   * authentication, body syntax, body schema, the session's existence under
   * the caller's id, its status. Only when all pass is the session replaced
   * by its ended form; a session of another user is never found, so never
   * ended, and nothing else in the store changes.
   */
  method Handler(store: RecordStore, headers: map<string, string>, reply: ProviderReply, body: RequestBody, now: Timestamp)
    returns (resp: HttpResponse)
    requires store.Valid()
    modifies store
    ensures store.Valid() && Consistent(resp)
    ensures store.profiles == old(store.profiles)
    ensures resp.statusCode == 200 <==> old(Admits(store, headers, reply, body))
    ensures !old(Admits(store, headers, reply, body)) ==> store.sessions == old(store.sessions)
    ensures Authenticated(headers, reply).None? ==> resp == UnauthorizedResponse()
    ensures Authenticated(headers, reply).Some? ==>
      var sub := Authenticated(headers, reply).value.sub;
      && (ParseBody(body).None? ==> resp == ErrorResponse("Invalid JSON body", 400))
      && (ParseBody(body).Some? && ValidateEndFast(ParseBody(body).value).Err? ==>
            resp == ValidationErrorResponse(FormatIssues(ValidateEndFast(ParseBody(body).value).error)))
      && (ParseBody(body).Some? && ValidateEndFast(ParseBody(body).value).Ok? ==>
            var found := old(store.GetFastingSession(ValidateEndFast(ParseBody(body).value).value, sub));
            && (found.None? ==> resp == NotFoundResponse())
            && (found.Some? && found.value.status != Active ==> resp == ErrorResponse("Session is not active", 400)))
    ensures old(Admits(store, headers, reply, body)) ==>
      var sub := Authenticated(headers, reply).value.sub;
      var sid := ValidateEndFast(ParseBody(body).value).value;
      var ended := Ended(old(store.GetFastingSession(sid, sub)).value, now);
      && resp == SuccessResponse(SessionData(ended), Some("Fasting session ended successfully"))
      && store.sessions == old(store.sessions)[sub := Put(old(store.Part(sub)), ended)]
      && store.GetFastingSession(sid, sub) == Some(ended)
      && (forall u, id :: (u, id) != (sub, sid) ==> store.GetFastingSession(id, u) == old(store.GetFastingSession(id, u)))
  {
    var user := AuthenticateRequest(headers, reply);
    if user.None? {
      return UnauthorizedResponse();
    }
    var sub := user.value.sub;
    var json := ParseBody(body);
    if json.None? {
      return ErrorResponse("Invalid JSON body", 400);
    }
    var input := ValidateEndFast(json.value);
    if input.Err? {
      return ValidationErrorResponse(FormatIssues(input.error));
    }
    var sessionId := input.value;
    var session := store.GetFastingSession(sessionId, sub);
    if session.None? {
      return NotFoundResponse();
    }
    if session.value.status != Active {
      return ErrorResponse("Session is not active", 400);
    }
    var updated := store.UpdateFastingSession(sessionId, sub, EndEntries(now), now);
    EndEffect(session.value, updated, now);
    resp := SuccessResponse(SessionData(updated), Some("Fasting session ended successfully"));
  }
}
