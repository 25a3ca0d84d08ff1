/**
 * The statistics handler: for an authenticated user with a profile, the
 * current fast (as the store's active-session lookup sees it), how long it
 * has run and how much of its target is left, the profile's target weight
 * and diseases, and the totals over completed sessions. It changes nothing.
 */
module GetStats {
  import opened Wrappers
  import opened Types
  import opened Response
  import opened Auth
  import opened Partition
  import opened Store

  /**
   * The statistics for a profile, the active session if any, the completed
   * totals, at time `now`. A target counts only when it is present and not
   * zero (the source tests it for truth); the time left never goes below zero.
   */
  function ComputeStats(profile: UserProfile, active: Option<FastingSession>, total: real, count: nat, now: Timestamp)
    : (st: FastingStats)
    ensures st.isCurrentlyFasting <==> active.Some?
    ensures st.currentSession == active
    ensures st.hoursSinceStarted.Some? <==> active.Some?
    ensures active.Some? ==> st.hoursSinceStarted.value * (MillisPerHour as real) == (now - active.value.startTime) as real
    ensures st.hoursRemaining.Some? <==> active.Some? && active.value.targetHours.Some? && active.value.targetHours.value != 0.0
    ensures st.hoursRemaining.Some? ==>
      && st.hoursRemaining.value >= 0.0
      && st.hoursRemaining.value >= active.value.targetHours.value - st.hoursSinceStarted.value
      && (st.hoursRemaining.value == 0.0 <==> st.hoursSinceStarted.value >= active.value.targetHours.value)
      && (st.hoursRemaining.value > 0.0 ==>
            st.hoursRemaining.value + st.hoursSinceStarted.value == active.value.targetHours.value)
    ensures st.targetWeight == profile.targetWeight && st.diseases == profile.diseases
    ensures st.totalFastingHours == total && st.completedSessions == count
  {
    var since: Option<real> := if active.Some? then Some(HoursBetween(active.value.startTime, now)) else None;
    var remaining: Option<real> :=
      if active.Some? && active.value.targetHours.Some? && active.value.targetHours.value != 0.0 then
        var left := active.value.targetHours.value - since.value;
        Some(if left > 0.0 then left else 0.0)
      else None;
    FastingStats(active.Some?, active, since, remaining, profile.targetWeight, profile.diseases, total, count)
  }

  /** The statistics the handler reports for `userId`, from the store as it stands. */
  function StatsOf(store: RecordStore, profile: UserProfile, userId: string, now: Timestamp): (st: FastingStats)
    reads store
    ensures st.completedSessions == CountCompleted(store.Part(userId))
    ensures st.totalFastingHours == HoursSum(CompletedItems(store.Part(userId)))
    ensures st.currentSession == store.GetActiveFastingSession(userId)
  {
    var part := store.Part(userId);
    ComputeStats(profile, store.GetActiveFastingSession(userId), HoursSum(CompletedItems(part)), CountCompleted(part), now)
  }

  /**
   * Handles one statistics request: authentication, then the profile, then
   * the statistics computed from the store as it stands. Nothing changes.
   */
  function Handler(store: RecordStore, headers: map<string, string>, reply: ProviderReply, now: Timestamp)
    : (resp: HttpResponse)
    reads store
    requires store.Valid()
    ensures Consistent(resp)
    ensures resp.statusCode == 200 <==>
      Authenticated(headers, reply).Some? && store.GetUserProfile(Authenticated(headers, reply).value.sub).Some?
    ensures Authenticated(headers, reply).None? ==> resp == UnauthorizedResponse()
    ensures Authenticated(headers, reply).Some? && store.GetUserProfile(Authenticated(headers, reply).value.sub).None? ==>
      resp == NotFoundResponse()
    ensures resp.statusCode == 200 ==>
      var sub := Authenticated(headers, reply).value.sub;
      resp == SuccessResponse(StatsData(StatsOf(store, store.GetUserProfile(sub).value, sub, now)), None)
  {
    var user := Authenticated(headers, reply);
    if user.None? then UnauthorizedResponse()
    else
      var profile := store.GetUserProfile(user.value.sub);
      if profile.None? then NotFoundResponse()
      else SuccessResponse(StatsData(StatsOf(store, profile.value, user.value.sub, now)), None)
  }

  /**
   * What the reported statistics mean for the stored sessions: one completed
   * session counted per completed item; and, whenever only the partition's
   * first session can be active, a fast reported exactly when one is active.
   */
  lemma StatsMeaning(store: RecordStore, profile: UserProfile, userId: string, now: Timestamp)
    requires store.Valid()
    ensures var st := StatsOf(store, profile, userId, now);
      && st.completedSessions == |CompletedItems(store.Part(userId))|
      && (forall x :: x in CompletedItems(store.Part(userId)) <==> x in store.Part(userId) && x.status == Completed)
      && (OnlyFirstActive(store.Part(userId)) ==>
            (st.isCurrentlyFasting <==> exists x :: x in store.Part(userId) && x.status == Active))
  {
    var part := store.Part(userId);
    CompletedCount(part);
    CompletedMembers(part);
    if OnlyFirstActive(part) {
      FirstActiveExact(part);
    }
  }
}
