/**
 * The request schemas: what each handler accepts from a parsed JSON body (or,
 * for the session listing, from its query parameters), the value it keeps,
 * and the issues it reports otherwise. Issues follow the schema validator's
 * conventions: fields in schema order, a path of member names and array
 * indices, the validator's own wording unless the schema gives a message.
 * Members the schema does not name are dropped; optional members that are
 * absent stay absent.
 */
module Validation {
  import opened Wrappers
  import opened Strings
  import opened Types

  /** A value `JSON.parse` can produce. A repeated member name keeps its last value. */
  datatype Json =
    | JNull
    | JBool(b: bool)
    | JNumber(n: real)
    | JString(s: string)
    | JArray(items: seq<Json>)
    | JObject(members: map<string, Json>)

  /** The request body a handler receives: absent or empty, text that is not JSON, or JSON text and its value. */
  datatype RequestBody = NoBody | Malformed | Parsed(value: Json)

  /** `JSON.parse(event.body || '{}')`: an absent or empty body reads as the empty object. */
  function ParseBody(b: RequestBody): (r: Option<Json>)
    ensures r.None? <==> b.Malformed?
    ensures b.NoBody? ==> r == Some(JObject(map[]))
    ensures b.Parsed? ==> r == Some(b.value)
  {
    match b
    case NoBody => Some(JObject(map[]))
    case Malformed => None
    case Parsed(j) => Some(j)
  }

  /** One step of an issue's path: a member name or an array index. */
  datatype PathItem = Key(name: string) | Index(index: nat)

  datatype Issue = Issue(path: seq<PathItem>, message: string)

  /** The type name an issue reports for a value of the wrong type. */
  function TypeName(j: Json): (s: string)
    ensures |s| > 0
  {
    match j
    case JNull => "null"
    case JBool(_) => "boolean"
    case JNumber(_) => "number"
    case JString(_) => "string"
    case JArray(_) => "array"
    case JObject(_) => "object"
  }

  function Mismatch(expected: string, received: string): string {
    "Expected " + expected + ", received " + received
  }

  /** The five goal spellings as the enum schema lists them in its messages. */
  const GoalChoices: string := "'weight_loss' | 'detox' | 'mental_clarity' | 'religious' | 'other'"

  /** A member of a parsed object, if present. */
  function Member(members: map<string, Json>, key: string): (v: Option<Json>)
    ensures v.Some? <==> key in members
    ensures v.Some? ==> v.value == members[key]
  {
    if key in members then Some(members[key]) else None
  }

  // ------------------------------------------------------------ string facts

  /** The length JavaScript reports for a string: UTF-16 code units, two for a character outside the basic plane. */
  function Utf16Length(s: string): (n: nat)
    ensures |s| <= n <= 2 * |s|
    ensures n == 0 <==> s == []
  {
    if s == [] then 0 else (if s[0] as int >= 0x1_0000 then 2 else 1) + Utf16Length(s[1..])
  }

  /** The date shape the onboarding schema demands: four digits, '-', two digits, '-', two digits, nothing else. */
  predicate IsDateShape(s: string) {
    && |s| == 10
    && s[4] == '-' && s[7] == '-'
    && (forall i :: 0 <= i < 10 && i != 4 && i != 7 ==> IsDigit(s[i]))
  }

  /** What is left after exactly `n` leading decimal digits, if `s` starts with that many. */
  function SkipDigits(s: string, n: nat): (r: Option<string>)
    ensures r.Some? <==> n <= |s| && forall i :: 0 <= i < n ==> IsDigit(s[i])
    ensures r.Some? ==> r.value == s[n..]
  {
    if n == 0 then Some(s)
    else if s == [] || !IsDigit(s[0]) then None
    else
      match SkipDigits(s[1..], n - 1)
      case None => None
      case Some(rest) => Some(rest)
  }

  /** What is left after one `c`, if `s` starts with it. */
  function SkipChar(s: string, c: char): (r: Option<string>)
    ensures r.Some? <==> |s| > 0 && s[0] == c
    ensures r.Some? ==> r.value == s[1..]
  {
    if |s| > 0 && s[0] == c then Some(s[1..]) else None
  }

  /**
   * The anchored pattern "four digits, '-', two digits, '-', two digits" run
   * left to right, with the end anchor matching only at the very end.
   */
  function MatchesDate(s: string): bool {
    match SkipDigits(s, 4)
    case None => false
    case Some(s1) =>
      match SkipChar(s1, '-')
      case None => false
      case Some(s2) =>
        match SkipDigits(s2, 2)
        case None => false
        case Some(s3) =>
          match SkipChar(s3, '-')
          case None => false
          case Some(s4) =>
            match SkipDigits(s4, 2)
            case None => false
            case Some(s5) => s5 == []
  }

  /** The left-to-right match accepts exactly the strings of the date shape. */
  lemma MatchesDateShape(s: string)
    ensures MatchesDate(s) <==> IsDateShape(s)
  {
    if IsDateShape(s) {
      assert s[4..][1..] == s[5..];
      assert s[5..][2..] == s[7..];
      assert s[7..][1..] == s[8..];
      assert s[8..][2..] == [];
      assert forall i :: 0 <= i < 2 ==> s[5..][i] == s[5 + i];
      assert forall i :: 0 <= i < 2 ==> s[8..][i] == s[8 + i];
    }
    if MatchesDate(s) {
      var s1 := s[4..];
      var s3 := s1[1..][2..];
      var s5 := s3[1..][2..];
      assert s5 == [];
      assert forall i :: 0 <= i < 2 ==> s1[1..][i] == s[5 + i];
      assert forall i :: 0 <= i < 2 ==> s3[1..][i] == s[8 + i];
    }
  }

  // ------------------------------------------------------------ field schemas

  /** The issues of a failed check, none for a passed one. */
  function IssuesOf<T>(r: Result<T, seq<Issue>>): seq<Issue> {
    if r.Err? then r.error else []
  }

  /** Every issue is about member `key` of the body. */
  predicate AllAbout(issues: seq<Issue>, key: string) {
    forall i :: 0 <= i < |issues| ==> |issues[i].path| >= 1 && issues[i].path[0] == Key(key)
  }

  /** Every issue is about one of the members `keys`. */
  predicate AboutOneOf(issues: seq<Issue>, keys: seq<string>) {
    forall i :: 0 <= i < |issues| ==> |issues[i].path| >= 1 && issues[i].path[0].Key? && issues[i].path[0].name in keys
  }

  lemma AllAboutAppend(a: seq<Issue>, b: seq<Issue>, key: string)
    requires AllAbout(a, key) && AllAbout(b, key)
    ensures AllAbout(a + b, key)
  {
    forall i | 0 <= i < |a + b| ensures |(a + b)[i].path| >= 1 && (a + b)[i].path[0] == Key(key) {
      if i >= |a| {
        assert (a + b)[i] == b[i - |a|];
      }
    }
  }

  lemma AboutOneOfAppend(a: seq<Issue>, b: seq<Issue>, keys: seq<string>)
    requires AboutOneOf(a, keys) && AboutOneOf(b, keys)
    ensures AboutOneOf(a + b, keys)
  {
    forall i | 0 <= i < |a + b| ensures |(a + b)[i].path| >= 1 && (a + b)[i].path[0].Key? && (a + b)[i].path[0].name in keys {
      if i >= |a| {
        assert (a + b)[i] == b[i - |a|];
      }
    }
  }

  lemma AboutKey(a: seq<Issue>, key: string, keys: seq<string>)
    requires AllAbout(a, key) && key in keys
    ensures AboutOneOf(a, keys)
  {
  }

  /**
   * A required string member with a minimum UTF-16 length and an optional
   * maximum, each with the schema's own message.
   */
  function BoundedString(key: string, v: Option<Json>, min: nat, minMessage: string, max: Option<(nat, string)>)
    : (r: Result<string, seq<Issue>>)
    ensures r.Ok? <==> v.Some? && v.value.JString? && min <= Utf16Length(v.value.s)
                       && (max.Some? ==> Utf16Length(v.value.s) <= max.value.0)
    ensures r.Ok? ==> r.value == v.value.s
    ensures r.Err? ==> |r.error| > 0 && AllAbout(r.error, key)
  {
    if v.None? then Err([Issue([Key(key)], "Required")])
    else if !v.value.JString? then Err([Issue([Key(key)], Mismatch("string", TypeName(v.value)))])
    else
      var n := Utf16Length(v.value.s);
      var issues := (if n < min then [Issue([Key(key)], minMessage)] else [])
                    + (if max.Some? && n > max.value.0 then [Issue([Key(key)], max.value.1)] else []);
      if issues == [] then Ok(v.value.s) else Err(issues)
  }

  /** The required date-of-birth member. */
  function DateString(key: string, v: Option<Json>): (r: Result<string, seq<Issue>>)
    ensures r.Ok? <==> v.Some? && v.value.JString? && IsDateShape(v.value.s)
    ensures r.Ok? ==> r.value == v.value.s
    ensures r.Err? ==> |r.error| > 0 && AllAbout(r.error, key)
  {
    if v.None? then Err([Issue([Key(key)], "Required")])
    else if !v.value.JString? then Err([Issue([Key(key)], Mismatch("string", TypeName(v.value)))])
    else
      MatchesDateShape(v.value.s);
      if MatchesDate(v.value.s) then Ok(v.value.s)
      else Err([Issue([Key(key)], "Date must be in YYYY-MM-DD format")])
  }

  /** An optional positive number member; absent stays absent. */
  function OptionalPositive(key: string, v: Option<Json>): (r: Result<Option<real>, seq<Issue>>)
    ensures r.Ok? <==> v.None? || (v.value.JNumber? && v.value.n > 0.0)
    ensures r.Ok? ==> r.value == if v.Some? then Some(v.value.n) else None
    ensures r.Err? ==> |r.error| == 1 && AllAbout(r.error, key)
  {
    if v.None? then Ok(None)
    else if !v.value.JNumber? then Err([Issue([Key(key)], Mismatch("number", TypeName(v.value)))])
    else if v.value.n <= 0.0 then Err([Issue([Key(key)], "Number must be greater than 0")])
    else Ok(Some(v.value.n))
  }

  predicate IsStringArray(j: Json) {
    j.JArray? && forall i :: 0 <= i < |j.items| ==> j.items[i].JString?
  }

  /** A string spelling one of the five goals. */
  predicate IsGoal(j: Json) {
    j.JString? && GoalFromName(j.s).Some?
  }

  predicate IsGoalArray(j: Json) {
    && j.JArray? && |j.items| >= 1
    && forall i :: 0 <= i < |j.items| ==> IsGoal(j.items[i])
  }

  /** `ss` holds the strings of `items`, in order. */
  predicate StringsOf(ss: seq<string>, items: seq<Json>) {
    |ss| == |items| && forall i :: 0 <= i < |items| ==> items[i].JString? && ss[i] == items[i].s
  }

  /** `gs` holds the goals `items` spell, in order. */
  predicate GoalsOf(gs: seq<FastingGoal>, items: seq<Json>) {
    |gs| == |items| && forall i :: 0 <= i < |items| ==> items[i] == JString(GoalName(gs[i]))
  }

  /** The issues of the first `n` elements of a string array, in index order. */
  function StringItemIssues(key: string, items: seq<Json>, n: nat): (r: seq<Issue>)
    requires n <= |items|
    ensures r == [] <==> forall i :: 0 <= i < n ==> items[i].JString?
    ensures AllAbout(r, key)
  {
    if n == 0 then []
    else
      var tail := if items[n - 1].JString? then [] else [Issue([Key(key), Index(n - 1)], Mismatch("string", TypeName(items[n - 1])))];
      AllAboutAppend(StringItemIssues(key, items, n - 1), tail, key);
      StringItemIssues(key, items, n - 1) + tail
  }

  /** An array-of-strings member that is present. */
  function StringArray(key: string, j: Json): (r: Result<seq<string>, seq<Issue>>)
    ensures r.Ok? <==> IsStringArray(j)
    ensures r.Ok? ==> StringsOf(r.value, j.items)
    ensures r.Err? ==> |r.error| > 0 && AllAbout(r.error, key)
  {
    if !j.JArray? then Err([Issue([Key(key)], Mismatch("array", TypeName(j)))])
    else
      var issues := StringItemIssues(key, j.items, |j.items|);
      if issues == [] then Ok(seq(|j.items|, i requires 0 <= i < |j.items| => j.items[i].s))
      else Err(issues)
  }

  /** The issue of one element of the goals array, if it is not a goal. */
  function GoalIssue(key: string, i: nat, j: Json): (r: Option<Issue>)
    ensures r.None? <==> IsGoal(j)
    ensures r.Some? ==> r.value.path == [Key(key), Index(i)]
  {
    if !j.JString? then Some(Issue([Key(key), Index(i)], Mismatch(GoalChoices, TypeName(j))))
    else if GoalFromName(j.s).None? then
      Some(Issue([Key(key), Index(i)], "Invalid enum value. Expected " + GoalChoices + ", received '" + j.s + "'"))
    else None
  }

  /** The issues of the first `n` elements of the goals array, in index order. */
  function GoalItemIssues(key: string, items: seq<Json>, n: nat): (r: seq<Issue>)
    requires n <= |items|
    ensures r == [] <==> forall i :: 0 <= i < n ==> IsGoal(items[i])
    ensures AllAbout(r, key)
  {
    if n == 0 then []
    else
      var prev := GoalItemIssues(key, items, n - 1);
      var last := GoalIssue(key, n - 1, items[n - 1]);
      var tail := if last.Some? then [last.value] else [];
      AllAboutAppend(prev, tail, key);
      AllGoalsStep(items, n);
      assert prev + tail == [] <==> prev == [] && last.None?;
      prev + tail
  }

  /** The first `n` elements are goals exactly when the first `n - 1` are and the last of them is. */
  lemma AllGoalsStep(items: seq<Json>, n: nat)
    requires 0 < n <= |items|
    ensures (forall i :: 0 <= i < n ==> IsGoal(items[i])) <==>
            (forall i :: 0 <= i < n - 1 ==> IsGoal(items[i])) && IsGoal(items[n - 1])
  {
  }

  /** The required, non-empty goals member. */
  function GoalArray(key: string, v: Option<Json>): (r: Result<seq<FastingGoal>, seq<Issue>>)
    ensures r.Ok? <==> v.Some? && IsGoalArray(v.value)
    ensures r.Ok? ==> GoalsOf(r.value, v.value.items)
    ensures r.Err? ==> |r.error| > 0 && AllAbout(r.error, key)
  {
    if v.None? then Err([Issue([Key(key)], "Required")])
    else if !v.value.JArray? then Err([Issue([Key(key)], Mismatch("array", TypeName(v.value)))])
    else if |v.value.items| < 1 then Err([Issue([Key(key)], "At least one fasting goal is required")])
    else
      var items := v.value.items;
      var issues := GoalItemIssues(key, items, |items|);
      if issues == [] then Ok(seq(|items|, i requires 0 <= i < |items| => GoalFromName(items[i].s).value))
      else Err(issues)
  }

  /** A body that is not an object fails with one issue at the empty path. */
  function NotAnObject(body: Json): seq<Issue> {
    [Issue([], Mismatch("object", TypeName(body)))]
  }

  // ------------------------------------------------------------ onboarding

  /** The members the onboarding schema names, in schema order. */
  const OnboardingKeys: seq<string> := ["name", "dateOfBirth", "currentWeight", "diseases", "fastingGoals"]

  lemma OnboardingIssues(a: seq<Issue>, b: seq<Issue>, c: seq<Issue>, d: seq<Issue>, e: seq<Issue>)
    requires AllAbout(a, "name") && AllAbout(b, "dateOfBirth") && AllAbout(c, "currentWeight")
    requires AllAbout(d, "diseases") && AllAbout(e, "fastingGoals")
    ensures AboutOneOf(a + b + c + d + e, OnboardingKeys)
  {
    AboutKey(a, "name", OnboardingKeys);
    AboutKey(b, "dateOfBirth", OnboardingKeys);
    AboutKey(c, "currentWeight", OnboardingKeys);
    AboutKey(d, "diseases", OnboardingKeys);
    AboutKey(e, "fastingGoals", OnboardingKeys);
    AboutOneOfAppend(a, b, OnboardingKeys);
    AboutOneOfAppend(a + b, c, OnboardingKeys);
    AboutOneOfAppend(a + b + c, d, OnboardingKeys);
    AboutOneOfAppend(a + b + c + d, e, OnboardingKeys);
  }

  /** The onboarding schema as a condition on the body. */
  predicate OnboardingValid(body: Json) {
    && body.JObject?
    && var m := body.members;
    && "name" in m && m["name"].JString? && 1 <= Utf16Length(m["name"].s) <= 100
    && "dateOfBirth" in m && m["dateOfBirth"].JString? && IsDateShape(m["dateOfBirth"].s)
    && ("currentWeight" in m ==> m["currentWeight"].JNumber? && m["currentWeight"].n > 0.0)
    && ("diseases" in m ==> IsStringArray(m["diseases"]))
    && "fastingGoals" in m && IsGoalArray(m["fastingGoals"])
  }

  /**
   * Checks an onboarding body. It is accepted exactly when it meets the
   * schema; the request keeps the five schema members (diseases default to
   * none); otherwise every issue is about one of those members, or the body
   * is not an object.
   */
  function ValidateOnboarding(body: Json): (r: Result<OnboardingRequest, seq<Issue>>)
    ensures r.Ok? <==> OnboardingValid(body)
    ensures r.Ok? ==> var m := body.members;
      && r.value.name == m["name"].s
      && r.value.dateOfBirth == m["dateOfBirth"].s
      && r.value.currentWeight == (if "currentWeight" in m then Some(m["currentWeight"].n) else None)
      && (if "diseases" in m then StringsOf(r.value.diseases, m["diseases"].items) else r.value.diseases == [])
      && GoalsOf(r.value.fastingGoals, m["fastingGoals"].items)
    ensures r.Err? ==> |r.error| > 0
    ensures r.Err? && !body.JObject? ==> r.error == NotAnObject(body)
    ensures r.Err? && body.JObject? ==> AboutOneOf(r.error, OnboardingKeys)
  {
    if !body.JObject? then Err(NotAnObject(body))
    else
      var m := body.members;
      var name := BoundedString("name", Member(m, "name"), 1, "Name is required", Some((100, "Name too long")));
      var dob := DateString("dateOfBirth", Member(m, "dateOfBirth"));
      var weight := OptionalPositive("currentWeight", Member(m, "currentWeight"));
      var diseases := if "diseases" in m then StringArray("diseases", m["diseases"]) else Ok([]);
      var goals := GoalArray("fastingGoals", Member(m, "fastingGoals"));
      if name.Ok? && dob.Ok? && weight.Ok? && diseases.Ok? && goals.Ok? then
        Ok(OnboardingRequest(name.value, dob.value, weight.value, diseases.value, goals.value))
      else
        OnboardingIssues(IssuesOf(name), IssuesOf(dob), IssuesOf(weight), IssuesOf(diseases), IssuesOf(goals));
        Err(IssuesOf(name) + IssuesOf(dob) + IssuesOf(weight) + IssuesOf(diseases) + IssuesOf(goals))
  }

  // ------------------------------------------------------------ profile update

  /** The profile-update schema as a condition on the body. */
  predicate UpdateProfileValid(body: Json) {
    && body.JObject?
    && var m := body.members;
    && ("targetWeight" in m ==> m["targetWeight"].JNumber? && m["targetWeight"].n > 0.0)
    && ("diseases" in m ==> IsStringArray(m["diseases"]))
    && ("currentWeight" in m ==> m["currentWeight"].JNumber? && m["currentWeight"].n > 0.0)
  }

  /**
   * Checks a profile-update body: accepted exactly when it meets the schema,
   * keeping the three updatable members that are present and nothing else.
   */
  function ValidateUpdateProfile(body: Json): (r: Result<UpdateProfileRequest, seq<Issue>>)
    ensures r.Ok? <==> UpdateProfileValid(body)
    ensures r.Ok? ==> var m := body.members;
      && r.value.targetWeight == (if "targetWeight" in m then Some(m["targetWeight"].n) else None)
      && (r.value.diseases.Some? <==> "diseases" in m)
      && ("diseases" in m ==> StringsOf(r.value.diseases.value, m["diseases"].items))
      && r.value.currentWeight == (if "currentWeight" in m then Some(m["currentWeight"].n) else None)
    ensures r.Err? ==> |r.error| > 0
    ensures r.Err? && !body.JObject? ==> r.error == NotAnObject(body)
    ensures r.Err? && body.JObject? ==> forall i :: 0 <= i < |r.error| ==>
              |r.error[i].path| >= 1 && r.error[i].path[0] in [Key("targetWeight"), Key("diseases"), Key("currentWeight")]
  {
    if !body.JObject? then Err(NotAnObject(body))
    else
      var m := body.members;
      var target := OptionalPositive("targetWeight", Member(m, "targetWeight"));
      var diseases: Result<Option<seq<string>>, seq<Issue>> :=
        if "diseases" in m then
          (var d := StringArray("diseases", m["diseases"]); if d.Ok? then Ok(Some(d.value)) else Err(d.error))
        else Ok(None);
      var current := OptionalPositive("currentWeight", Member(m, "currentWeight"));
      if target.Ok? && diseases.Ok? && current.Ok? then
        Ok(UpdateProfileRequest(target.value, diseases.value, current.value))
      else
        Err(IssuesOf(target) + IssuesOf(diseases) + IssuesOf(current))
  }

  // ------------------------------------------------------------ fasting sessions

  /** Checks a start-fast body: only an optional positive `targetHours` is kept. */
  function ValidateStartFast(body: Json): (r: Result<StartFastRequest, seq<Issue>>)
    ensures r.Ok? <==> (body.JObject? &&
      ("targetHours" in body.members ==> body.members["targetHours"].JNumber? && body.members["targetHours"].n > 0.0))
    ensures r.Ok? ==> (r.value.targetHours ==
      if "targetHours" in body.members then Some(body.members["targetHours"].n) else None)
    ensures r.Err? && !body.JObject? ==> r.error == NotAnObject(body)
    ensures r.Err? && body.JObject? ==> |r.error| == 1 && AllAbout(r.error, "targetHours")
  {
    if !body.JObject? then Err(NotAnObject(body))
    else
      var t := OptionalPositive("targetHours", Member(body.members, "targetHours"));
      if t.Ok? then Ok(StartFastRequest(t.value)) else Err(t.error)
  }

  /** Checks an end-fast body: a non-empty string `sessionId` is required. */
  function ValidateEndFast(body: Json): (r: Result<string, seq<Issue>>)
    ensures r.Ok? <==> body.JObject? && "sessionId" in body.members
                       && body.members["sessionId"].JString? && body.members["sessionId"].s != []
    ensures r.Ok? ==> r.value == body.members["sessionId"].s
    ensures r.Err? && !body.JObject? ==> r.error == NotAnObject(body)
    ensures r.Err? && body.JObject? ==> |r.error| > 0 && AllAbout(r.error, "sessionId")
  {
    if !body.JObject? then Err(NotAnObject(body))
    else BoundedString("sessionId", Member(body.members, "sessionId"), 1, "Session ID is required", None)
  }

  // ------------------------------------------------------------ session listing

  /**
   * Checks the listing's query: the caller's id must be non-empty and the
   * limit a number (None stands for NaN) in 1..100; any cursor string is
   * accepted. Issues come in the order userId, limit.
   */
  function ValidateListSessions(userId: string, limit: Option<int>, nextToken: Option<string>): (r: Result<int, seq<Issue>>)
    ensures r.Ok? <==> userId != [] && limit.Some? && 0 < limit.value <= 100
    ensures r.Ok? ==> r.value == limit.value
    ensures r.Err? ==> forall i :: 0 <= i < |r.error| ==> r.error[i].path in [[Key("userId")], [Key("limit")]]
    ensures r.Err? ==> 1 <= |r.error| <= 2
  {
    var id := BoundedString("userId", Some(JString(userId)), 1, "User ID is required", None);
    var lim: Result<int, seq<Issue>> :=
      if limit.None? then Err([Issue([Key("limit")], Mismatch("number", "nan"))])
      else if limit.value <= 0 then Err([Issue([Key("limit")], "Number must be greater than 0")])
      else if limit.value > 100 then Err([Issue([Key("limit")], "Number must be less than or equal to 100")])
      else Ok(limit.value);
    if id.Ok? && lim.Ok? then Ok(lim.value) else Err(IssuesOf(id) + IssuesOf(lim))
  }

  // ------------------------------------------------------------ messages

  function PathText(p: PathItem): string {
    match p
    case Key(k) => k
    case Index(i) => NatToString(i)
  }

  function PathTexts(path: seq<PathItem>): (texts: seq<string>)
    ensures |texts| == |path|
  {
    if path == [] then [] else [PathText(path[0])] + PathTexts(path[1..])
  }

  /** An issue as the handlers report it: the path joined with '.', then ": " and the message. */
  function FormatIssue(issue: Issue): (s: string)
    ensures |s| >= 2 + |issue.message|
    ensures s[|s| - |issue.message|..] == issue.message
  {
    Join(PathTexts(issue.path), ".") + ": " + issue.message
  }

  function FormatIssues(issues: seq<Issue>): (msgs: seq<string>)
    ensures |msgs| == |issues|
    ensures forall i :: 0 <= i < |issues| ==> msgs[i] == FormatIssue(issues[i])
  {
    seq(|issues|, i requires 0 <= i < |issues| => FormatIssue(issues[i]))
  }

  /** An issue about a whole body is reported with an empty path before the separator. */
  lemma FormatTopLevel(m: string)
    ensures FormatIssue(Issue([], m)) == ": " + m
  {
  }

  /** An issue about a member is reported as the member name, ": " and the message. */
  lemma FormatMember(k: string, m: string)
    ensures FormatIssue(Issue([Key(k)], m)) == k + ": " + m
  {
    assert PathTexts([Key(k)]) == [k] + PathTexts([]);
  }

  /** An issue about an array element is reported as the member name, '.', the index, ": " and the message. */
  lemma FormatElement(k: string, n: nat, m: string)
    ensures FormatIssue(Issue([Key(k), Index(n)], m)) == k + "." + NatToString(n) + ": " + m
  {
    var path := [Key(k), Index(n)];
    assert path[1..] == [Index(n)];
    assert PathTexts([Index(n)]) == [NatToString(n)] + PathTexts([]);
    assert PathTexts(path) == [k, NatToString(n)];
    assert [k, NatToString(n)][1..] == [NatToString(n)];
  }

  // ------------------------------------------------------------ examples

  /**
   * A body that is JSON but not an object is refused by every body schema
   * with one issue at the empty path naming the value's type.
   */
  lemma NotAnObjectRefused(body: Json)
    requires !body.JObject?
    ensures var issues := [Issue([], Mismatch("object", TypeName(body)))];
      && ValidateOnboarding(body) == Err(issues)
      && ValidateUpdateProfile(body) == Err(issues)
      && ValidateStartFast(body) == Err(issues)
      && ValidateEndFast(body) == Err(issues)
  {
    assert !OnboardingValid(body) && !UpdateProfileValid(body);
  }

  /** An element of the goals list that is not a goal is reported at its index. */
  lemma GoalElementExample()
    ensures GoalArray("fastingGoals", Some(JArray([JString("detox"), JString("keto")])))
         == Err([Issue([Key("fastingGoals"), Index(1)], "Invalid enum value. Expected " + GoalChoices + ", received '" + "keto" + "'")])
  {
    var items := [JString("detox"), JString("keto")];
    var issue := Issue([Key("fastingGoals"), Index(1)], "Invalid enum value. Expected " + GoalChoices + ", received '" + "keto" + "'");
    assert GoalFromName("detox").Some? && GoalFromName("keto").None?;
    assert GoalItemIssues("fastingGoals", items, 1) == [];
    assert GoalIssue("fastingGoals", 1, items[1]) == Some(issue);
    assert GoalItemIssues("fastingGoals", items, 2) == [] + [issue];
    assert [] + [issue] == [issue];
  }

  /** The listing reports an empty caller id before a zero limit. */
  lemma ListExample()
    ensures ValidateListSessions("", Some(0), None)
         == Err([Issue([Key("userId")], "User ID is required"), Issue([Key("limit")], "Number must be greater than 0")])
  {
    var a := Issue([Key("userId")], "User ID is required");
    var b := Issue([Key("limit")], "Number must be greater than 0");
    assert Utf16Length("") == 0;
    assert [a] + [] == [a];
    assert BoundedString("userId", Some(JString("")), 1, "User ID is required", None) == Err([a]);
    assert [a] + [b] == [a, b];
  }
}
