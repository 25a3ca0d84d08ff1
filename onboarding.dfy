/**
 * The onboarding handler: an authenticated user without a profile creates
 * one from a validated body; the id and email come from the identity
 * provider, never from the body.
 */
module Onboarding {
  import opened Wrappers
  import opened Types
  import opened Validation
  import opened Response
  import opened Auth
  import opened Store

  /** The profile onboarding stores: no target weight yet, both timestamps `now`. */
  function NewProfile(user: CognitoUser, input: OnboardingRequest, now: Timestamp): (p: UserProfile)
    ensures p.userId == user.sub && p.email == user.email
    ensures p.targetWeight.None? && p.createdAt == now && p.updatedAt == now
  {
    UserProfile(user.sub, user.email, input.name, input.dateOfBirth, input.currentWeight, None,
                input.diseases, input.fastingGoals, now, now)
  }

  /** Every check the handler makes before it creates the profile passes. */
  predicate Admits(store: RecordStore, headers: map<string, string>, reply: ProviderReply, body: RequestBody)
    reads store
  {
    var user := Authenticated(headers, reply);
    && user.Some?
    && ParseBody(body).Some?
    && ValidateOnboarding(ParseBody(body).value).Ok?
    && store.GetUserProfile(user.value.sub).None?
  }

  /**
   * Handles one onboarding request. The checks run in the handler's order:
   * authentication, body syntax, body schema, no existing profile. Only when
   * all pass is a profile stored, and no other profile and no session
   * changes; an existing profile is never overwritten.
   */
  method Handler(store: RecordStore, headers: map<string, string>, reply: ProviderReply, body: RequestBody, now: Timestamp)
    returns (resp: HttpResponse)
    requires store.Valid()
    modifies store
    ensures store.Valid() && Consistent(resp)
    ensures store.sessions == old(store.sessions)
    ensures resp.statusCode == 200 <==> old(Admits(store, headers, reply, body))
    ensures !old(Admits(store, headers, reply, body)) ==> store.profiles == old(store.profiles)
    ensures Authenticated(headers, reply).None? ==> resp == UnauthorizedResponse()
    ensures Authenticated(headers, reply).Some? ==>
      var sub := Authenticated(headers, reply).value.sub;
      && (ParseBody(body).None? ==> resp == ErrorResponse("Invalid JSON body", 400))
      && (ParseBody(body).Some? && ValidateOnboarding(ParseBody(body).value).Err? ==>
            resp == ValidationErrorResponse(FormatIssues(ValidateOnboarding(ParseBody(body).value).error)))
      && (ParseBody(body).Some? && ValidateOnboarding(ParseBody(body).value).Ok? && old(store.GetUserProfile(sub)).Some? ==>
            resp == ErrorResponse("User profile already exists", 409))
    ensures old(Admits(store, headers, reply, body)) ==>
      var user := Authenticated(headers, reply).value;
      var p := NewProfile(user, ValidateOnboarding(ParseBody(body).value).value, now);
      && resp == SuccessResponse(ProfileData(p), Some("User profile created successfully"))
      && store.profiles == old(store.profiles)[user.sub := p]
  {
    var user := AuthenticateRequest(headers, reply);
    if user.None? {
      return UnauthorizedResponse();
    }
    var json := ParseBody(body);
    if json.None? {
      return ErrorResponse("Invalid JSON body", 400);
    }
    var input := ValidateOnboarding(json.value);
    if input.Err? {
      return ValidationErrorResponse(FormatIssues(input.error));
    }
    var existing := store.GetUserProfile(user.value.sub);
    if existing.Some? {
      return ErrorResponse("User profile already exists", 409);
    }
    var profile := NewProfile(user.value, input.value, now);
    var _ := store.CreateUserProfile(profile);
    resp := SuccessResponse(ProfileData(profile), Some("User profile created successfully"));
  }
}
