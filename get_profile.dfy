/**
 * The profile handler: an authenticated user reads back their own profile.
 */
module GetProfile {
  import opened Wrappers
  import opened Types
  import opened Response
  import opened Auth
  import opened Store

  /**
   * Handles one profile request: authentication, then the lookup under the
   * caller's own id. The profile returned is always the caller's, never
   * another user's.
   */
  function Handler(store: RecordStore, headers: map<string, string>, reply: ProviderReply): (resp: HttpResponse)
    reads store
    requires store.Valid()
    ensures Consistent(resp)
    ensures resp.statusCode == 200 <==>
      Authenticated(headers, reply).Some? && Authenticated(headers, reply).value.sub in store.profiles
    ensures Authenticated(headers, reply).None? ==> resp == UnauthorizedResponse()
    ensures Authenticated(headers, reply).Some? && Authenticated(headers, reply).value.sub !in store.profiles ==>
      resp == NotFoundResponse()
    ensures resp.statusCode == 200 ==>
      resp.body.data.Some? && resp.body.data.value.ProfileData? && resp.body.message.None?
    ensures resp.statusCode == 200 ==>
      var sub := Authenticated(headers, reply).value.sub;
      var p := resp.body.data.value.profile;
      p == store.profiles[sub] && p.userId == sub
  {
    var user := Authenticated(headers, reply);
    if user.None? then UnauthorizedResponse()
    else
      var profile := store.GetUserProfile(user.value.sub);
      if profile.None? then NotFoundResponse()
      else SuccessResponse(ProfileData(profile.value), None)
  }
}
