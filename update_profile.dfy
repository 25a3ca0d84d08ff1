/**
 * The profile-update handler: an authenticated user with a profile changes
 * any of target weight, diseases and current weight.
 */
module UpdateProfile {
  import opened Wrappers
  import opened Types
  import opened Attributes
  import opened UpdateExpr
  import opened Validation
  import opened Response
  import opened Auth
  import opened Store

  /** The update object the validated body becomes, members in schema order; an absent member has no value. */
  function ChangeEntries(c: UpdateProfileRequest): (es: seq<Entry>)
    ensures DistinctKeys(es)
    ensures forall e :: e in es && e.value.Some? ==> ProfileSettable((e.key, e.value.value))
  {
    [Entry("targetWeight", if c.targetWeight.Some? then Some(Number(c.targetWeight.value)) else None),
     Entry("diseases", if c.diseases.Some? then Some(TextList(c.diseases.value)) else None),
     Entry("currentWeight", if c.currentWeight.Some? then Some(Number(c.currentWeight.value)) else None)]
  }

  /** A profile after an update at `now`: each supplied member replaced, `updatedAt` set, all else kept. */
  function Updated(p: UserProfile, c: UpdateProfileRequest, now: Timestamp): UserProfile {
    p.(targetWeight := if c.targetWeight.Some? then c.targetWeight else p.targetWeight,
       diseases := c.diseases.GetOr(p.diseases),
       currentWeight := if c.currentWeight.Some? then c.currentWeight else p.currentWeight,
       updatedAt := now)
  }

  /** Applying the change entries changes exactly the supplied members and `updatedAt`. */
  lemma UpdateEffect(p: UserProfile, r: UserProfile, c: UpdateProfileRequest, now: Timestamp)
    requires forall name :: ProfileAttr(r, name) == AfterUpdate(ChangeEntries(c), now, name, ProfileAttr(p, name))
    ensures r == Updated(p, c, now)
  {
    var es := ChangeEntries(c);
    assert r.targetWeight == (if c.targetWeight.Some? then c.targetWeight else p.targetWeight) by {
      assert ProfileAttr(r, "targetWeight") == AfterUpdate(es, now, "targetWeight", ProfileAttr(p, "targetWeight"));
      AfterUpdateNamed(es, now, "targetWeight", ProfileAttr(p, "targetWeight"), es[0].value);
    }
    assert r.diseases == c.diseases.GetOr(p.diseases) by {
      assert ProfileAttr(r, "diseases") == AfterUpdate(es, now, "diseases", ProfileAttr(p, "diseases"));
      AfterUpdateNamed(es, now, "diseases", ProfileAttr(p, "diseases"), es[1].value);
    }
    assert r.currentWeight == (if c.currentWeight.Some? then c.currentWeight else p.currentWeight) by {
      assert ProfileAttr(r, "currentWeight") == AfterUpdate(es, now, "currentWeight", ProfileAttr(p, "currentWeight"));
      AfterUpdateNamed(es, now, "currentWeight", ProfileAttr(p, "currentWeight"), es[2].value);
    }
    assert r.updatedAt == now by {
      assert ProfileAttr(r, "updatedAt") == AfterUpdate(es, now, "updatedAt", ProfileAttr(p, "updatedAt"));
    }
    assert r.userId == p.userId by { Kept(p, r, c, now, "userId"); }
    assert r.email == p.email by { Kept(p, r, c, now, "email"); }
    assert r.name == p.name by { Kept(p, r, c, now, "name"); }
    assert r.dateOfBirth == p.dateOfBirth by { Kept(p, r, c, now, "dateOfBirth"); }
    assert r.fastingGoals == p.fastingGoals by { Kept(p, r, c, now, "fastingGoals"); }
    assert r.createdAt == p.createdAt by { Kept(p, r, c, now, "createdAt"); }
  }

  /** An attribute the change entries do not name has the same value before and after. */
  lemma Kept(p: UserProfile, r: UserProfile, c: UpdateProfileRequest, now: Timestamp, name: string)
    requires forall name :: ProfileAttr(r, name) == AfterUpdate(ChangeEntries(c), now, name, ProfileAttr(p, name))
    requires name in {"userId", "email", "name", "dateOfBirth", "fastingGoals", "createdAt"}
    ensures ProfileAttr(r, name) == ProfileAttr(p, name)
  {
    AfterUpdateUnnamed(ChangeEntries(c), now, name, ProfileAttr(p, name));
  }

  /** Every check the handler makes before it updates the profile passes. */
  predicate Admits(store: RecordStore, headers: map<string, string>, reply: ProviderReply, body: RequestBody)
    reads store
  {
    var user := Authenticated(headers, reply);
    && user.Some?
    && ParseBody(body).Some?
    && ValidateUpdateProfile(ParseBody(body).value).Ok?
    && store.GetUserProfile(user.value.sub).Some?
  }

  /**
   * Handles one profile update. The checks run in the handler's order:
   * authentication, body syntax, body schema, existing profile. Only when all
   * pass does the caller's profile change, to its updated form; no other
   * profile and no session changes.
   */
  method Handler(store: RecordStore, headers: map<string, string>, reply: ProviderReply, body: RequestBody, now: Timestamp)
    returns (resp: HttpResponse)
    requires store.Valid()
    modifies store
    ensures store.Valid() && Consistent(resp)
    ensures store.sessions == old(store.sessions)
    ensures resp.statusCode == 200 <==> old(Admits(store, headers, reply, body))
    ensures !old(Admits(store, headers, reply, body)) ==> store.profiles == old(store.profiles)
    ensures Authenticated(headers, reply).None? ==> resp == UnauthorizedResponse()
    ensures Authenticated(headers, reply).Some? ==>
      var sub := Authenticated(headers, reply).value.sub;
      && (ParseBody(body).None? ==> resp == ErrorResponse("Invalid JSON body", 400))
      && (ParseBody(body).Some? && ValidateUpdateProfile(ParseBody(body).value).Err? ==>
            resp == ValidationErrorResponse(FormatIssues(ValidateUpdateProfile(ParseBody(body).value).error)))
      && (ParseBody(body).Some? && ValidateUpdateProfile(ParseBody(body).value).Ok? && old(store.GetUserProfile(sub)).None? ==>
            resp == NotFoundResponse())
    ensures old(Admits(store, headers, reply, body)) ==>
      var sub := Authenticated(headers, reply).value.sub;
      var p := Updated(old(store.profiles[sub]), ValidateUpdateProfile(ParseBody(body).value).value, now);
      && resp == SuccessResponse(ProfileData(p), Some("Profile updated successfully"))
      && store.profiles == old(store.profiles)[sub := p]
  {
    var user := AuthenticateRequest(headers, reply);
    if user.None? {
      return UnauthorizedResponse();
    }
    var sub := user.value.sub;
    var json := ParseBody(body);
    if json.None? {
      return ErrorResponse("Invalid JSON body", 400);
    }
    var input := ValidateUpdateProfile(json.value);
    if input.Err? {
      return ValidationErrorResponse(FormatIssues(input.error));
    }
    var existing := store.GetUserProfile(sub);
    if existing.None? {
      return NotFoundResponse();
    }
    var updated := store.UpdateUserProfile(sub, ChangeEntries(input.value), now);
    UpdateEffect(existing.value, updated, input.value, now);
    resp := SuccessResponse(ProfileData(updated), Some("Profile updated successfully"));
  }
}
