/**
 * The session-listing handler: one page of the caller's sessions, newest
 * session id first, resumable through the opaque `nextToken` cursor.
 */
module ListSessions {
  import opened Wrappers
  import opened Strings
  import opened Types
  import opened Partition
  import opened Validation
  import opened Response
  import opened Auth
  import opened NumberParse
  import opened Store

  /** The page size used when the query gives none. */
  const DefaultLimit: int := 20

  /**
   * The page size the query asks for: a present, non-empty `limit` is read
   * with `parseInt` (`None` standing for NaN); otherwise the default.
   */
  function LimitOf(query: map<string, string>): (r: Option<int>)
    ensures "limit" !in query || query["limit"] == "" ==> r == Some(DefaultLimit)
    ensures "limit" in query && query["limit"] != "" ==> r == ParseInt(query["limit"])
  {
    if "limit" in query && query["limit"] != "" then ParseInt(query["limit"]) else Some(DefaultLimit)
  }

  /** The cursor the query carries, if any. */
  function NextTokenOf(query: map<string, string>): (r: Option<string>)
    ensures r.Some? <==> "nextToken" in query
    ensures r.Some? ==> r.value == query["nextToken"]
  {
    if "nextToken" in query then Some(query["nextToken"]) else None
  }

  /** A limit written in decimal between 1 and 100 is accepted as that number. */
  lemma DecimalLimit(userId: string, query: map<string, string>, n: nat)
    requires userId != [] && 1 <= n <= 100
    requires "limit" in query && query["limit"] == NatToString(n)
    ensures ValidateListSessions(userId, LimitOf(query), NextTokenOf(query)) == Ok(n)
  {
    ParseDecimalPrefix(n, []);
    assert NatToString(n) + [] == NatToString(n);
  }

  /** A limit written in decimal above 100 is refused, with one issue about the limit. */
  lemma LimitTooLarge(userId: string, query: map<string, string>, n: nat)
    requires userId != [] && n > 100
    requires "limit" in query && query["limit"] == NatToString(n)
    ensures ValidateListSessions(userId, LimitOf(query), NextTokenOf(query))
      == Err([Issue([Key("limit")], "Number must be less than or equal to 100")])
  {
    ParseDecimalPrefix(n, []);
    assert NatToString(n) + [] == NatToString(n);
    assert LimitOf(query) == Some(n as int);
    var id := BoundedString("userId", Some(JString(userId)), 1, "User ID is required", None);
    assert id.Ok? by {
      assert Utf16Length(userId) >= 1;
    }
    assert IssuesOf(id) == [];
    var issue := Issue([Key("limit")], "Number must be less than or equal to 100");
    assert [] + [issue] == [issue];
  }

  /** Every check the handler makes before it lists passes, and the store accepts the cursor. */
  predicate Admits(store: RecordStore, headers: map<string, string>, reply: ProviderReply, query: map<string, string>)
    reads store
  {
    var user := Authenticated(headers, reply);
    && user.Some?
    && ValidateListSessions(user.value.sub, LimitOf(query), NextTokenOf(query)).Ok?
    && store.ListFastingSessions(user.value.sub, LimitOf(query).value, NextTokenOf(query)).Ok?
  }

  /**
   * Handles one listing request: authentication, then the query's limit and
   * cursor, then the store's page. A cursor the store cannot use is an
   * internal error.
   */
  function Handler(store: RecordStore, headers: map<string, string>, reply: ProviderReply, query: map<string, string>)
    : (resp: HttpResponse)
    reads store
    requires store.Valid()
    ensures Consistent(resp)
    ensures resp.statusCode == 200 <==> Admits(store, headers, reply, query)
    ensures Authenticated(headers, reply).None? ==> resp == UnauthorizedResponse()
    ensures Authenticated(headers, reply).Some? ==>
      var sub := Authenticated(headers, reply).value.sub;
      var v := ValidateListSessions(sub, LimitOf(query), NextTokenOf(query));
      && (v.Err? ==> resp == ValidationErrorResponse(FormatIssues(v.error)))
      && (v.Ok? && store.ListFastingSessions(sub, v.value, NextTokenOf(query)).Err? ==> resp == InternalErrorResponse())
    ensures resp.statusCode == 200 ==>
      var sub := Authenticated(headers, reply).value.sub;
      var limit := LimitOf(query).value;
      var page := store.ListFastingSessions(sub, limit, NextTokenOf(query)).value;
      resp == SuccessResponse(PageData(page.sessions, page.nextToken), None)
  {
    var user := Authenticated(headers, reply);
    if user.None? then UnauthorizedResponse()
    else
      var sub := user.value.sub;
      var nextToken := NextTokenOf(query);
      var valid := ValidateListSessions(sub, LimitOf(query), nextToken);
      if valid.Err? then ValidationErrorResponse(FormatIssues(valid.error))
      else
        var result := store.ListFastingSessions(sub, valid.value, nextToken);
        if result.Err? then InternalErrorResponse()
        else SuccessResponse(PageData(result.value.sessions, result.value.nextToken), None)
  }

  /**
   * A listed page holds only the caller's sessions, newest id first, no more
   * than the limit (itself at most 100), and carries a cursor exactly when it
   * is full.
   */
  lemma PageShape(store: RecordStore, headers: map<string, string>, reply: ProviderReply, query: map<string, string>)
    requires store.Valid()
    requires Handler(store, headers, reply, query).statusCode == 200
    ensures var sub := Authenticated(headers, reply).value.sub;
      var limit := LimitOf(query).value;
      var page := store.ListFastingSessions(sub, limit, NextTokenOf(query)).value;
      && Handler(store, headers, reply, query).body.data == Some(PageData(page.sessions, page.nextToken))
      && |page.sessions| <= limit <= 100
      && (page.nextToken.Some? <==> |page.sessions| == limit)
      && Descending(page.sessions)
      && (forall x :: x in page.sessions ==> x.userId == sub && x in store.Part(sub))
  {
  }

  /** Every listed session is the one the store finds under the caller's id and its own session id. */
  lemma ListedAreFound(store: RecordStore, headers: map<string, string>, reply: ProviderReply, query: map<string, string>)
    requires store.Valid()
    requires Handler(store, headers, reply, query).statusCode == 200
    ensures var sub := Authenticated(headers, reply).value.sub;
      forall x :: x in Handler(store, headers, reply, query).body.data.value.sessions ==>
        store.GetFastingSession(x.sessionId, sub) == Some(x)
  {
    var sub := Authenticated(headers, reply).value.sub;
    var page := store.ListFastingSessions(sub, LimitOf(query).value, NextTokenOf(query)).value;
    forall x | x in page.sessions
      ensures store.GetFastingSession(x.sessionId, sub) == Some(x)
    {
      FindIff(sub, store.Part(sub), x);
    }
  }
}
