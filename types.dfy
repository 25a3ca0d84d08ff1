/**
 * The record types of the fasting backend: user profiles, fasting sessions,
 * derived statistics, the API envelope and the identity provider's user.
 * Timestamps are integer milliseconds since the epoch (the source stores ISO
 * strings); weights and hours are exact reals.
 */
module Types {
  import opened Wrappers

  type Timestamp = int

  /** The five fasting goals a profile may list. */
  datatype FastingGoal = WeightLoss | Detox | MentalClarity | Religious | Other

  /** The wire spelling of a goal. */
  function GoalName(g: FastingGoal): (s: string)
    ensures |s| > 0
  {
    match g
    case WeightLoss => "weight_loss"
    case Detox => "detox"
    case MentalClarity => "mental_clarity"
    case Religious => "religious"
    case Other => "other"
  }

  /** Reads a goal back from its wire spelling; anything else is not a goal. */
  function GoalFromName(s: string): (r: Option<FastingGoal>)
    ensures r.Some? ==> GoalName(r.value) == s
    ensures forall g: FastingGoal :: GoalName(g) == s ==> r == Some(g)
  {
    if s == "weight_loss" then Some(WeightLoss)
    else if s == "detox" then Some(Detox)
    else if s == "mental_clarity" then Some(MentalClarity)
    else if s == "religious" then Some(Religious)
    else if s == "other" then Some(Other)
    else None
  }

  /** A session is in exactly one of these three states. */
  datatype SessionStatus = Active | Completed | Cancelled

  datatype UserProfile = UserProfile(
    userId: string,
    email: string,
    name: string,
    dateOfBirth: string,
    currentWeight: Option<real>,
    targetWeight: Option<real>,
    diseases: seq<string>,
    fastingGoals: seq<FastingGoal>,
    createdAt: Timestamp,
    updatedAt: Timestamp)

  datatype FastingSession = FastingSession(
    sessionId: string,
    userId: string,
    startTime: Timestamp,
    endTime: Option<Timestamp>,
    targetHours: Option<real>,
    status: SessionStatus,
    createdAt: Timestamp,
    updatedAt: Timestamp)

  /** A validated onboarding body; `diseases` is empty when the body has none. */
  datatype OnboardingRequest = OnboardingRequest(
    name: string,
    dateOfBirth: string,
    currentWeight: Option<real>,
    diseases: seq<string>,
    fastingGoals: seq<FastingGoal>)

  /** A validated profile update; each member is present only when the body supplied it. */
  datatype UpdateProfileRequest = UpdateProfileRequest(
    targetWeight: Option<real>,
    diseases: Option<seq<string>>,
    currentWeight: Option<real>)

  /** A validated start-fast body. */
  datatype StartFastRequest = StartFastRequest(targetHours: Option<real>)

  /** Derived on demand by the statistics handler, never stored. */
  datatype FastingStats = FastingStats(
    isCurrentlyFasting: bool,
    currentSession: Option<FastingSession>,
    hoursSinceStarted: Option<real>,
    hoursRemaining: Option<real>,
    targetWeight: Option<real>,
    diseases: seq<string>,
    totalFastingHours: real,
    completedSessions: nat)

  /** The identity provider's view of the caller. */
  datatype CognitoUser = CognitoUser(
    sub: string,
    email: string,
    emailVerified: bool,
    name: Option<string>,
    givenName: Option<string>,
    familyName: Option<string>,
    picture: Option<string>)

  /** The `data` member of a response envelope, one alternative per handler shape. */
  datatype Payload =
    | ProfileData(profile: UserProfile)
    | SessionData(session: FastingSession)
    | StatsData(stats: FastingStats)
    | PageData(sessions: seq<FastingSession>, nextToken: Option<string>)
    | ErrorsData(errors: seq<string>)

  /** The JSON envelope every handler answers with; absent members are omitted. */
  datatype ApiResponse = ApiResponse(
    success: bool,
    data: Option<Payload>,
    error: Option<string>,
    message: Option<string>)

  /** Milliseconds in one hour. */
  const MillisPerHour: int := 1000 * 60 * 60

  /** The hours elapsed from `start` to `end`, as an exact fraction (negative when end < start). */
  function HoursBetween(start: Timestamp, end: Timestamp): (h: real)
    ensures h * (MillisPerHour as real) == (end - start) as real
    ensures h >= 0.0 <==> start <= end
  {
    (end - start) as real / MillisPerHour as real
  }
}
