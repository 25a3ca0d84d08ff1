# Fasting backend — a verified model in Dafny

This project models the core of a serverless fasting-tracker backend. Seven
HTTP handlers serve an authenticated user:

- **onboarding**: create a profile;
- **updateProfile**: change it;
- **getProfile**: read it back;
- **startFast**: start a fasting session;
- **endFast**: end a session;
- **getStats**: statistics over the user's sessions;
- **listSessions**: a page of the user's sessions.

The handlers share the following pieces, each with its own module:

- a record service over two tables: profiles keyed by `userId`, and sessions keyed by (`userId`, `sessionId`);
- the update-expression builder that service uses;
- bearer-token authentication against an identity provider;
- the request schemas;
- the response envelope.

Modules, one per source file or concern:

| module | file | models |
|---|---|---|
| `Types` | types.dfy | the record types: profile, session, goal, statistics, envelope, identity-provider user |
| `Response` | response.dfy | the envelope constructors and the headers every answer carries |
| `Auth` | auth.dfy | token extraction, the attribute fold that builds the user, request authentication |
| `Validation` | validation.dfy | the request schemas as predicates, the checkers that report issues, and the `path: message` formatting |
| `NumberParse` | parse_int.dfy | `parseInt` of the listing's `limit` query parameter |
| `Attributes`, `UpdateExpr` | attributes.dfy, update_expr.dfy | item attributes and the `SET` expression builder with its effect on an item |
| `Partition` | partition.dfy | one user's session partition: key lookup, put, the limited query with a start key, and the completed totals |
| `Utf8`, `Base64`, `Cursor` | utf8.dfy, base64.dfy, cursor.dfy | the listing cursor: the last key as JSON text, then UTF-8, then base64 (section 4 of RFC 4648) |
| `Store` | store.dfy | the record service as a class `RecordStore` whose two tables are fields the methods update |
| `StartFast`, `EndFast`, `Onboarding`, `UpdateProfile` | start_fast.dfy, end_fast.dfy, onboarding.dfy, update_profile.dfy | the four handlers that write, as methods that modify the store |
| `GetStats`, `ListSessions`, `GetProfile` | get_stats.dfy, list_sessions.dfy, get_profile.dfy | the three read-only handlers, as functions that read the store |
| `Lifecycle` | lifecycle.dfy | request sequences through several handlers |

Values are represented as follows:

- Timestamps are integer milliseconds; hours and weights are exact reals.
- A handler gets the request headers, the identity provider's reply for the token, and the body. The body is absent, malformed JSON, or a parsed JSON value.
- Where the source reads the clock, the handler takes `now`; where it generates a UUID, it takes `freshId`.

Every handler checks in the same order as the source. Its contract states:

- the exact response on each failing branch;
- that the status is 200 exactly when every check passes;
- the store's whole new state.

Every response is `Consistent`: the default headers are present; `success` holds exactly for status 200; failures carry an error and no message.

Where the code does something other than its comments or names suggest, the model follows the code:

- **Listing order.** Sessions are listed in descending session-id order, the table's sort key. The comment `// Most recent first` at src/utils/dynamodb.ts:135 suggests recency, but the sort key is the session id, a random UUID.
- **Active-session lookup.** The lookup sets a query limit of one before a status filter, so it inspects only the partition's first session. `GetActiveFastingSession` returns that session when it is active and none otherwise. Two consequences:
  - `StartFast.Handler` guarantees at most one active session only under `OnlyFirstActive`.
  - `Lifecycle.SecondConcurrentFast` shows a second active session being admitted.
- **Hours since start.** `hoursSinceStarted` is not clamped at zero. Only `hoursRemaining` is clamped.
- **Completed totals.** `completedSessions` counts every completed session. `totalFastingHours` sums only those with an end time.

## Model

| member | source | states |
|---|---|---|
| Types.GoalFromName | src/types/index.ts:25 | a text is read back as a goal exactly when it is that goal's wire spelling |
| Types.HoursBetween | src/utils/dynamodb.ts:172-174 | the hours times 3 600 000 equal the millisecond difference between end and start |
| Response.CreateResponse | src/utils/response.ts:4-20 | status and envelope are kept; the headers are the four defaults plus the caller's, and the caller's value wins on a shared name |
| Response.OverrideHeader | src/utils/response.ts:11-17 | a caller header with a default's name replaces that default and adds nothing else |
| Response.SuccessResponse | src/utils/response.ts:22-28 | status 200, `success`, the given data and message, no error, default headers |
| Response.ErrorResponse | src/utils/response.ts:30-35 | failure with the given error text and status; no data, no message |
| Response.UnauthorizedResponse | src/utils/response.ts:37-42 | 401 with error "Unauthorized" |
| Response.ForbiddenResponse | src/utils/response.ts:44-49 | 403 with error "Forbidden" |
| Response.NotFoundResponse | src/utils/response.ts:51-56 | 404 with error "Not found" |
| Response.ValidationErrorResponse | src/utils/response.ts:58-64 | 400 with error "Validation failed" and the error list, in order, as `data.errors` |
| Response.InternalErrorResponse | src/lambda/listSessions/index.ts:37-40 | 500 with error "Internal server error", the answer of a handler whose store call threw |
| Auth.AuthHeader | src/utils/auth.ts:55 | the `Authorization` header when present and non-empty, otherwise the `authorization` header if any |
| Auth.ExtractTokenFromHeaders | src/utils/auth.ts:54-60 | a token exactly when the header starts with "Bearer " (case-sensitive), and then the header is "Bearer " followed by the token |
| Auth.ExtractBearer | src/utils/auth.ts:56-59 | round trip: a header built as "Bearer " + t yields t |
| Auth.LowerCaseSchemeRejected | src/utils/auth.ts:56 | "bearer " in lower case yields no token |
| Auth.LastValue | src/utils/auth.ts:21-45 | an attribute of a name has a value exactly when some attribute carries that name |
| Auth.GetUserFromToken | src/utils/auth.ts:7-52 | no user exactly when the provider call fails; otherwise the field-by-field loop builds `UserFromAttributes` of the list (a missing list counts as empty) |
| Auth.AuthenticateRequest | src/utils/auth.ts:62-69 | the user is `Authenticated(headers, reply)`; a user is only ever produced from a token |
| Auth.NoAttributes | src/utils/auth.ts:15-19 | the starting user: empty `sub` and `email`, unverified, no optional fields |
| Auth.LaterWins | src/utils/auth.ts:21-45 | a later attribute of the same name overwrites an earlier one |
| Auth.UnknownIgnored | src/utils/auth.ts:22-44 | an attribute with an unrecognised name changes nothing |
| Auth.VerifiedOnlyByTrue | src/utils/auth.ts:29-31 | the email counts as verified exactly when the value is "true" |
| Auth.MissingSubIsEmpty | src/utils/auth.ts:23-25 | a `sub` attribute without a value sets `sub` to "" |
| Auth.NoTokenNoUser | src/utils/auth.ts:63-66 | without a token there is no user, whatever the provider would answer |
| Validation.ParseBody | src/lambda/startFast/index.ts:33-38 | a malformed body is the only parse failure; an absent body reads as the empty object |
| Validation.MatchesDateShape | src/schemas/validation.ts:5 | the anchored left-to-right date pattern accepts exactly four digits, '-', two digits, '-', two digits |
| Validation.BoundedString | src/schemas/validation.ts:4 | accepted exactly when a string whose UTF-16 length is within the bounds; every issue is about the member |
| Validation.DateString | src/schemas/validation.ts:5 | accepted exactly when a string of the date shape |
| Validation.OptionalPositive | src/schemas/validation.ts:6 | accepted exactly when absent or a number above zero; absent stays absent |
| Validation.StringArray | src/schemas/validation.ts:7 | accepted exactly when an array of strings, keeping them in order; issues name the offending index |
| Validation.GoalArray | src/schemas/validation.ts:8 | accepted exactly when a non-empty array of goal spellings, keeping the goals in order |
| Validation.ValidateOnboarding | src/schemas/validation.ts:3-9 | accepted exactly when `OnboardingValid`; the request carries the five members, diseases defaulting to none; the issues are about those members, or a single one for a body that is not an object |
| Validation.ValidateUpdateProfile | src/schemas/validation.ts:11-15 | accepted exactly when `UpdateProfileValid`; keeps only the three updatable members that are present |
| Validation.ValidateStartFast | src/schemas/validation.ts:17-19 | accepted exactly when an object whose `targetHours`, if present, is a number above zero |
| Validation.ValidateEndFast | src/schemas/validation.ts:21-23 | accepted exactly when an object with a non-empty string `sessionId`, which is returned |
| Validation.ValidateListSessions | src/schemas/validation.ts:33-37 | accepted exactly when the user id is non-empty and the limit is a number in 1..100; at most one issue each about `userId` and `limit` |
| Validation.FormatIssues | src/lambda/startFast/index.ts:42 | one message per issue, in order, each being the issue's formatted text |
| Validation.FormatMember | src/lambda/startFast/index.ts:42 | an issue about member k reads "k: message" |
| Validation.FormatElement | src/lambda/startFast/index.ts:42 | an issue about element n of member k reads "k.n: message" |
| Validation.FormatTopLevel | src/lambda/startFast/index.ts:42 | an issue about the whole body reads ": message", with an empty path |
| Validation.NotAnObjectRefused | src/schemas/validation.ts:3-23 | every body that is JSON but not an object is refused by all four body schemas with the one issue "Expected object, received <type>" at the empty path |
| Validation.GoalElementExample | src/schemas/validation.ts:8 | example: an unknown goal in the list is reported at its index with the enum message |
| Validation.ListExample | src/schemas/validation.ts:33-37 | example: an empty user id and a zero limit give two issues, `userId` first |
| NumberParse.ParseDecimalPrefix | src/lambda/listSessions/index.ts:19 | `parseInt` reads decimal text followed by a non-digit back as its number |
| NumberParse.ParseNegative | src/lambda/listSessions/index.ts:19 | a leading minus negates the number |
| NumberParse.ParseSkipsSpace | src/lambda/listSessions/index.ts:19 | leading white space does not change the result |
| NumberParse.ParseNoDigits | src/lambda/listSessions/index.ts:19 | when, after leading white space and an optional sign, the text is empty or does not start with a decimal digit, the result is NaN |
| NumberParse.ParseHexNoDigits | src/lambda/listSessions/index.ts:19 | a "0x" or "0X" prefix with no hexadecimal digit after it is NaN |
| NumberParse.ParseHex | src/lambda/listSessions/index.ts:19 | "0x" or "0X" followed by digits reads those digits in base 16 |
| NumberParse.HexDigitsValue | src/lambda/listSessions/index.ts:19 | example: hexadecimal digits are read in either case: "1f" and "1F" are both 31 |
| UpdateExpr.BuildUpdate | src/utils/dynamodb.ts:36-50 | the loop fills the clause list and both placeholder maps exactly as `Plan` describes |
| UpdateExpr.PlanClauses | src/utils/dynamodb.ts:40-48 | one clause `#k = :k` per defined entry, in entry order, then `#updatedAt = :updatedAt` last; an undefined entry gives no clause |
| UpdateExpr.PlanNames | src/utils/dynamodb.ts:43-49 | each `#k` is bound to `k`, and nothing else is bound |
| UpdateExpr.PlanValues | src/utils/dynamodb.ts:44-50 | each `:k` is bound to its value, `:updatedAt` to `now`, and nothing else is bound |
| UpdateExpr.DuplicateUpdatedAt | src/utils/dynamodb.ts:40-50 | a supplied `updatedAt` yields two `#updatedAt` clauses, the builder's last |
| UpdateExpr.PlanEffect | src/utils/dynamodb.ts:52-59 | applying the plan leaves each attribute at `now` for `updatedAt`, else at its supplied value, else unassigned |
| Cursor.DecodeEncodeToken | src/utils/dynamodb.ts:139-149 | round trip: a cursor produced for a last key decodes back to that key |
| Base64.DecodeEncode | src/utils/dynamodb.ts:148 | base64 decoding inverts encoding |
| Utf8.DecodeEncode | src/utils/dynamodb.ts:148 | UTF-8 decoding inverts encoding |
| Partition.PutSpec | src/utils/dynamodb.ts:65-70 | a put keeps the partition well formed, stores the item under its key, and every other key finds what it found before |
| Partition.PutMembers | src/utils/dynamodb.ts:65-70 | after a put the partition holds the new session and every stored session with another id, and nothing else |
| Partition.FindIff | src/utils/dynamodb.ts:72-79 | in a well-formed partition, lookup by a session's id finds it exactly when it is stored |
| Partition.FirstActive | src/utils/dynamodb.ts:81-94 | a session is found exactly when the partition's first session is active, and the session found is that first one |
| Partition.FirstActiveMisses | src/utils/dynamodb.ts:85-90 | an active session behind a non-active first one is not found |
| Partition.FirstActiveExact | src/utils/dynamodb.ts:81-94 | when no session after the first is active, the lookup finds none exactly when none is active |
| Partition.PutOnlyActive | src/lambda/startFast/index.ts:27-60 | putting one active session into a partition with none leaves it the only active one |
| Partition.QueryItems | src/utils/dynamodb.ts:129-143 | a page is descending, holds only the user's sessions below the start key, and is a prefix of what remains after the start key |
| Partition.QueryResume | src/utils/dynamodb.ts:143-149 | a full page followed by the rest after its last key is exactly everything after the start key |
| Partition.CompletedMembers | src/utils/dynamodb.ts:157-165 | the filtered query returns exactly the completed sessions |
| Partition.CompletedCount | src/utils/dynamodb.ts:167 | the count is one per completed item, timed or not |
| Partition.HoursSumMillis | src/utils/dynamodb.ts:170-177 | the hour total equals the millisecond total over the timed items divided by 3 600 000 |
| Partition.HoursSumNonNegative | src/utils/dynamodb.ts:170-177 | the hour total is never negative when no timed session ends before it starts |
| Store.RecordStore.CreateUserProfile | src/utils/dynamodb.ts:18-24 | stores the profile only when none exists under its id; otherwise fails with `ConditionFailed` and changes nothing |
| Store.RecordStore.GetUserProfile | src/utils/dynamodb.ts:26-33 | the profile stored under the id, or none |
| Store.RecordStore.UpdateUserProfile | src/utils/dynamodb.ts:35-62 | each attribute ends as `AfterUpdate` says; the key is kept, sessions are untouched, and the whole new item is returned |
| Store.RecordStore.CreateFastingSession | src/utils/dynamodb.ts:65-70 | the partition becomes `Put` of the session; it is found under its key, and every other key is unchanged |
| Store.RecordStore.GetFastingSession | src/utils/dynamodb.ts:72-79 | found only in the given user's partition, with the given id; another user's session is never returned |
| Store.RecordStore.GetActiveFastingSession | src/utils/dynamodb.ts:81-94 | none, or an active session of this user; a session is found exactly when the user's first session by sort key is active, and it is that session |
| Store.RecordStore.UpdateFastingSession | src/utils/dynamodb.ts:96-123 | as for profiles; the key is kept, and every other session is unchanged |
| Store.ProfileUpdate | src/utils/dynamodb.ts:35-62 | the builder's assignments all fit a profile, each attribute ends as `AfterUpdate` says, and the user id is kept |
| Store.SessionUpdate | src/utils/dynamodb.ts:96-123 | the builder's assignments all fit a session, each attribute ends as `AfterUpdate` says, and both key parts are kept |
| Store.RecordStore.StartOf | src/utils/dynamodb.ts:139-141 | an absent or empty cursor starts at the top; an accepted cursor decodes to a key of this user |
| Store.RecordStore.ListFastingSessions | src/utils/dynamodb.ts:125-151 | fails exactly for a limit below 1 or an unusable cursor; otherwise at most `limit` sessions of this user, descending, with a cursor exactly when the page is full |
| Store.CursorOfFullPage | src/utils/dynamodb.ts:139-149 | the cursor of a full page is accepted and resumes after that page's last session |
| Store.ListResume | src/utils/dynamodb.ts:139-149 | following a page's cursor continues exactly where the page stopped |
| Store.RecordStore.GetFastingStats | src/utils/dynamodb.ts:153-180 | the loop's total is the hour sum over the completed, timed items; the count is one per completed item; no completed items gives (0, 0) |
| StartFast.NewSession | src/lambda/startFast/index.ts:50-58 | active, no end time, started, created and updated at `now` |
| StartFast.Begin | src/lambda/startFast/index.ts:60 | the admitted session is stored under its id and nothing else changes; when only the partition's first session could be active, the user afterwards has exactly one active session |
| StartFast.Handler | src/lambda/startFast/index.ts:12-67 | 401 / 404 / 409 "User is already fasting" / 400 "Invalid JSON body" / 400 validation, in that order, with no write; success stores exactly the new session and changes nothing else; keeps one active session when only the first can be active |
| EndFast.EndEffect | src/lambda/endFast/index.ts:46-50 | the update sets the end time and status, refreshes `updatedAt`, and keeps every other field |
| EndFast.Handler | src/lambda/endFast/index.ts:10-57 | 401 / 400 JSON / 400 validation / 404 (including another user's session) / 400 "Session is not active", with no write; success replaces exactly that session by its ended form |
| Onboarding.NewProfile | src/lambda/onboarding/index.ts:42-52 | id and email come from the identity provider, with no target weight and both timestamps `now` |
| Onboarding.Handler | src/lambda/onboarding/index.ts:11-61 | 401 / 400 JSON / 400 validation / 409 "User profile already exists", with no write; success stores exactly the new profile |
| UpdateProfile.ChangeEntries | src/lambda/updateProfile/index.ts:39 | the update object has distinct keys, each settable on a profile |
| UpdateProfile.UpdateEffect | src/lambda/updateProfile/index.ts:39 | the supplied members are replaced and `updatedAt` refreshed; all else is kept |
| UpdateProfile.Handler | src/lambda/updateProfile/index.ts:10-46 | 401 / 400 JSON / 400 validation / 404, with no write; success replaces exactly the caller's profile by its updated form |
| GetStats.ComputeStats | src/lambda/getStats/index.ts:30-53 | fasting exactly when a session is active; hours since start are (now − start) / 3 600 000; hours remaining are present only for a non-zero target, never negative, and zero exactly once the target is reached; profile and totals are copied |
| GetStats.StatsOf | src/lambda/getStats/index.ts:25-28 | the totals are the store's completed count and hour sum, and the session is the active lookup's |
| GetStats.StatsMeaning | src/lambda/getStats/index.ts:28-45 | one count per completed session; fasting reported exactly when a session is active, whenever only the first can be |
| GetStats.Handler | src/lambda/getStats/index.ts:10-60 | 401, then 404, otherwise 200 with the statistics and no message; reads only |
| ListSessions.LimitOf | src/lambda/listSessions/index.ts:19 | 20 when the parameter is absent or empty, `parseInt` of it otherwise |
| ListSessions.NextTokenOf | src/lambda/listSessions/index.ts:20 | the cursor is passed on unchanged when present |
| ListSessions.DecimalLimit | src/lambda/listSessions/index.ts:19-26 | a decimal limit from 1 to 100 is accepted as that number |
| ListSessions.LimitTooLarge | src/lambda/listSessions/index.ts:19-31 | a decimal limit above 100 is refused with one issue about `limit` |
| ListSessions.Handler | src/lambda/listSessions/index.ts:10-41 | 401 / 400 validation / 500 for a cursor the store refuses, each exactly when its check fails; otherwise 200 with the store's page for the caller, the limit and the cursor |
| ListSessions.PageShape | src/lambda/listSessions/index.ts:34-36 | a listed page holds at most `limit` (≤ 100) of the caller's own sessions, newest id first, with a cursor exactly when it is full |
| ListSessions.ListedAreFound | src/lambda/listSessions/index.ts:34 | every listed session is what a lookup under the caller's id finds |
| GetProfile.Handler | src/lambda/getProfile/index.ts:9-28 | 401, then 404, otherwise 200 with the caller's stored profile unchanged |
| Lifecycle.OnboardTwice | src/lambda/onboarding/index.ts:36-39 | a second onboarding is refused with 409 |
| Lifecycle.StartTwice | src/lambda/startFast/index.ts:27-30 | a second start while fasting is refused with 409 |
| Lifecycle.EndTwice | src/lambda/endFast/index.ts:40-42 | ending the same session twice gives 200, then 400 "Session is not active" |
| Lifecycle.SecondConcurrentFast | src/utils/dynamodb.ts:81-94 | with a completed first session and an active later one, a new start succeeds and leaves two active sessions |
| Lifecycle.Journey | src/lambda/getStats/index.ts:28-52 | onboard, start, read stats, end, read stats: one completed session whose hours are the time between start and end |

## Left out

- The AWS SDK calls are replaced by the in-memory `RecordStore`. The identity provider's lookup is replaced by its reply, given as a parameter. Network failures of either are not modelled: the catch-all 500 answers appear only where the model has an error of its own (an unusable listing cursor). Other failures of the real store that reach the catch-all 500 are not modelled either; the empty key below is one.
- StartFast.Handler, Onboarding.Handler: DocumentClient marshalling of `undefined` values is not modelled. `startFast` without `targetHours` and onboarding without `currentWeight` write an item holding `undefined`. The DocumentClient, built with default options, refuses such an item, so the put throws and the source answers 500. The model stores the field as absent and answers 200.
- StartFast.Handler, GetStats.Handler: `status` is a reserved word in the DynamoDB expression language and is used unescaped in two filters. DynamoDB refuses both queries, so startFast (for any user with a profile) and getStats throw and the source answers 500. The model gives those filters their intended meaning and answers as the code evidently intends.
- EndFast.Handler: the DynamoDB rule that two clauses may not set the same path is not modelled. The end-fast update supplies `updatedAt`, and the builder adds its own (`UpdateExpr.DuplicateUpdatedAt` exhibits the pair). DynamoDB refuses such an update, so every endFast that passes its checks throws and the source answers 500. The model applies the clauses in order, the later winning, and answers 200.
- Store.RecordStore.UpdateUserProfile, Store.RecordStore.UpdateFastingSession: require the item to exist. An update on a missing key would create one; every handler checks existence first.
- Store.RecordStore.GetFastingStats: a query result is taken whole. The 1 MB page limit of a single query is not modelled.
- `parseInt` goes through double precision. Integers are exact here; this makes no difference, because limits above 100 are refused.
- The store's rejection of an empty key value is not modelled. A provider reply with no `sub` gives the user id "" (`Auth.MissingSubIsEmpty`). DynamoDB refuses "" as a key, so each handler's first store call throws and the handler answers 500. The model's store accepts "" like any other id: onboarding answers 200 and stores a profile under "", and the other handlers answer as for any user (404 when no profile or session is stored under "").
- Node's lenient base64 decoding of arbitrary text is not modelled. Decoding is exact on canonical text, and anything else is an unusable cursor (500).
- Cursor.ParseKeyJson: reads the cursor's JSON only in the exact form `KeyJson` writes, `{"sessionId":"…","userId":"…"}`, with no white space. `JSON.parse` also accepts the members in the other order, or with white space between tokens, and the listing then resumes; the model answers 500 for such a cursor. The model also assumes the member order of the cursor it writes: in the source that order is whatever `JSON.stringify` gives for the store's last evaluated key.
- Clock reads are the `now` parameter. Timestamps are milliseconds, not ISO strings.
- Onboarding.Handler: onboarding reads the clock twice, for `createdAt` and `updatedAt`; the model uses one instant for both.
- EndFast.Handler: endFast reads the clock twice. The handler's reading (src/lambda/endFast/index.ts:45) sets `endTime` and the supplied `updatedAt`; the update builder then reads the clock again (src/utils/dynamodb.ts:111) and that later reading is bound to `:updatedAt`. The model uses one instant for both, so it stores `endTime == updatedAt == now`, where the source's `updatedAt` may be later than its `endTime`.
- UUID generation is the `freshId` parameter. A colliding id would overwrite a session, as the unconditional put does.
- JSON parsing of bodies and the JSON text of responses are not modelled: a body is already a value or malformed, and a response body is the envelope value. Numbers are exact reals.
- StartFast.Handler, Onboarding.Handler, UpdateProfile.Handler: numbers the DocumentClient refuses are not modelled. `JSON.parse` turns an overflowing literal such as `1e400` into `Infinity`, which passes `positive()`, and the DocumentClient with default options refuses `Infinity` and any number above 2^53 − 1. For such a `targetHours`, `currentWeight` or `targetWeight` the store call throws and the source answers 500; the model treats the number as an exact real, stores it and answers 200.
- Zod's messages are modelled for the checks the schemas make. Zod's ordering within one member and its union or enum wording beyond the goals enum are simplified.
- Concurrent invocations, and the check-then-act races they open in startFast and onboarding, are not modelled. Calls are sequential.
- Logging is not modelled. The unused `getStatsSchema` and `getSessionSchema` are not modelled. `forbiddenResponse` is modelled but no handler uses it.
