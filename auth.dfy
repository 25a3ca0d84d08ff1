/**
 * Request authentication: the bearer token is taken from the request's
 * authorization header, and the identity provider's reply for that token
 * becomes the caller. The provider call itself is outside the model; its
 * reply (a failure, or the user's attribute list) is a parameter.
 */
module Auth {
  import opened Wrappers
  import opened Strings
  import opened Types

  /** One user attribute as the provider lists it; the value may be missing. */
  datatype Attribute = Attribute(name: string, value: Option<string>)

  /** The provider's answer to a user lookup: the call failed, or the attribute list (which may itself be missing). */
  datatype ProviderReply = ProviderFailure | UserAttributes(attributes: Option<seq<Attribute>>)

  // ------------------------------------------------------------ headers

  /** The authorization header: the capitalised name when it is present and non-empty, else the lower-case one. */
  function AuthHeader(headers: map<string, string>): (h: Option<string>)
    ensures "Authorization" in headers && headers["Authorization"] != "" ==> h == Some(headers["Authorization"])
    ensures !("Authorization" in headers && headers["Authorization"] != "") ==>
              h == (if "authorization" in headers then Some(headers["authorization"]) else None)
  {
    if "Authorization" in headers && headers["Authorization"] != "" then Some(headers["Authorization"])
    else if "authorization" in headers then Some(headers["authorization"])
    else None
  }

  const Scheme: string := "Bearer "

  /** The text after "Bearer " in the authorization header; none when the header is missing, empty or has another scheme. */
  function ExtractTokenFromHeaders(headers: map<string, string>): (t: Option<string>)
    ensures t.Some? <==> AuthHeader(headers).Some? && StartsWith(AuthHeader(headers).value, Scheme)
    ensures t.Some? ==> AuthHeader(headers) == Some(Scheme + t.value)
  {
    var h := AuthHeader(headers);
    if h.None? || h.value == "" || !StartsWith(h.value, Scheme) then None
    else
      assert h.value == h.value[..7] + h.value[7..];
      Some(h.value[7..])
  }

  /** A header built as "Bearer " followed by a token gives that token back. */
  lemma ExtractBearer(headers: map<string, string>, token: string)
    requires "Authorization" in headers && headers["Authorization"] == Scheme + token
    ensures ExtractTokenFromHeaders(headers) == Some(token)
  {
    assert (Scheme + token)[..7] == Scheme;
    assert (Scheme + token)[7..] == token;
  }

  /** The scheme is matched case-sensitively: "bearer " is not accepted. */
  lemma LowerCaseSchemeRejected(token: string)
    ensures ExtractTokenFromHeaders(map["Authorization" := "bearer " + token]) == None
  {
    var h := "bearer " + token;
    assert h[0] == 'b';
  }

  // ------------------------------------------------------------ attributes

  /** The value of the last attribute named `name`: none when no attribute has that name. */
  function LastValue(attrs: seq<Attribute>, name: string): (r: Option<Option<string>>)
    ensures r.Some? <==> exists i :: 0 <= i < |attrs| && attrs[i].name == name
    decreases |attrs|
  {
    if attrs == [] then None
    else if attrs[|attrs| - 1].name == name then Some(attrs[|attrs| - 1].value)
    else
      var r := LastValue(attrs[..|attrs| - 1], name);
      assert forall i :: 0 <= i < |attrs| - 1 ==> attrs[..|attrs| - 1][i] == attrs[i];
      r
  }

  /** A required text field: the last value, or "" when missing. */
  function TextOf(v: Option<Option<string>>): string {
    if v.Some? && v.value.Some? then v.value.value else ""
  }

  /** An optional field: the last value, which may itself be missing. */
  function OptionalOf(v: Option<Option<string>>): Option<string> {
    if v.Some? then v.value else None
  }

  /**
   * The user the attribute list describes: each known field takes the value
   * of the last attribute with its name; `sub` and `email` default to "",
   * the verification flag holds only for the value "true", other names are
   * ignored.
   */
  function UserFromAttributes(attrs: seq<Attribute>): CognitoUser {
    CognitoUser(
      TextOf(LastValue(attrs, "sub")),
      TextOf(LastValue(attrs, "email")),
      LastValue(attrs, "email_verified") == Some(Some("true")),
      OptionalOf(LastValue(attrs, "name")),
      OptionalOf(LastValue(attrs, "given_name")),
      OptionalOf(LastValue(attrs, "family_name")),
      OptionalOf(LastValue(attrs, "picture")))
  }

  /** The caller the request identifies, if any: a bearer token, non-empty, and a reply the provider gave for it. */
  function Authenticated(headers: map<string, string>, reply: ProviderReply): Option<CognitoUser> {
    var token := ExtractTokenFromHeaders(headers);
    if token.None? || token.value == "" || reply.ProviderFailure? then None
    else Some(UserFromAttributes(reply.attributes.GetOr([])))
  }

  /**
   * Builds the user from the provider's reply, one attribute at a time, as
   * the lookup does; a failed call gives no user.
   */
  method GetUserFromToken(reply: ProviderReply) returns (user: Option<CognitoUser>)
    ensures reply.ProviderFailure? <==> user.None?
    ensures reply.UserAttributes? ==> user == Some(UserFromAttributes(reply.attributes.GetOr([])))
  {
    if reply.ProviderFailure? {
      return None;
    }
    var attrs := reply.attributes.GetOr([]);
    var u := CognitoUser("", "", false, None, None, None, None);
    for i := 0 to |attrs|
      invariant u == UserFromAttributes(attrs[..i])
    {
      var a := attrs[i];
      assert attrs[..i + 1] == attrs[..i] + [a];
      UserSnoc(attrs[..i], a);
      if a.name == "sub" {
        u := u.(sub := a.value.GetOr(""));
      } else if a.name == "email" {
        u := u.(email := a.value.GetOr(""));
      } else if a.name == "email_verified" {
        u := u.(emailVerified := a.value == Some("true"));
      } else if a.name == "name" {
        u := u.(name := a.value);
      } else if a.name == "given_name" {
        u := u.(givenName := a.value);
      } else if a.name == "family_name" {
        u := u.(familyName := a.value);
      } else if a.name == "picture" {
        u := u.(picture := a.value);
      }
    }
    assert attrs[..|attrs|] == attrs;
    user := Some(u);
  }

  /** One more attribute changes only the field it names, to its value. */
  lemma LastValueSnoc(attrs: seq<Attribute>, a: Attribute, name: string)
    ensures LastValue(attrs + [a], name) == if a.name == name then Some(a.value) else LastValue(attrs, name)
  {
    assert (attrs + [a])[..|attrs|] == attrs;
  }

  /** The user after one more attribute: the field that attribute names takes its value. */
  lemma UserSnoc(attrs: seq<Attribute>, a: Attribute)
    ensures var u := UserFromAttributes(attrs);
      UserFromAttributes(attrs + [a]) ==
        if a.name == "sub" then u.(sub := a.value.GetOr(""))
        else if a.name == "email" then u.(email := a.value.GetOr(""))
        else if a.name == "email_verified" then u.(emailVerified := a.value == Some("true"))
        else if a.name == "name" then u.(name := a.value)
        else if a.name == "given_name" then u.(givenName := a.value)
        else if a.name == "family_name" then u.(familyName := a.value)
        else if a.name == "picture" then u.(picture := a.value)
        else u
  {
    LastValueSnoc(attrs, a, "sub");
    LastValueSnoc(attrs, a, "email");
    LastValueSnoc(attrs, a, "email_verified");
    LastValueSnoc(attrs, a, "name");
    LastValueSnoc(attrs, a, "given_name");
    LastValueSnoc(attrs, a, "family_name");
    LastValueSnoc(attrs, a, "picture");
  }

  /** Authenticates a request: no token (or an empty one) gives no user without asking the provider. */
  method AuthenticateRequest(headers: map<string, string>, reply: ProviderReply) returns (user: Option<CognitoUser>)
    ensures user == Authenticated(headers, reply)
    ensures user.Some? ==> ExtractTokenFromHeaders(headers).Some?
  {
    var token := ExtractTokenFromHeaders(headers);
    if token.None? || token.value == "" {
      return None;
    }
    user := GetUserFromToken(reply);
  }

  // ------------------------------------------------------------ properties

  /** With no attributes the user has the defaults: empty ids, unverified, no optional fields. */
  lemma NoAttributes()
    ensures UserFromAttributes([]) == CognitoUser("", "", false, None, None, None, None)
  {
  }

  /** A later attribute of the same name wins over every earlier one. */
  lemma LaterWins(attrs: seq<Attribute>, v: string)
    ensures UserFromAttributes(attrs + [Attribute("sub", Some(v))]).sub == v
    ensures UserFromAttributes(attrs + [Attribute("email", Some(v))]).email == v
    ensures UserFromAttributes(attrs + [Attribute("name", Some(v))]).name == Some(v)
  {
    var s := attrs + [Attribute("sub", Some(v))];
    var e := attrs + [Attribute("email", Some(v))];
    var n := attrs + [Attribute("name", Some(v))];
    assert s[|s| - 1].name == "sub";
    assert e[|e| - 1].name == "email";
    assert n[|n| - 1].name == "name";
  }

  /** An attribute the lookup does not know changes nothing. */
  lemma UnknownIgnored(attrs: seq<Attribute>, a: Attribute)
    requires a.name !in ["sub", "email", "email_verified", "name", "given_name", "family_name", "picture"]
    ensures UserFromAttributes(attrs + [a]) == UserFromAttributes(attrs)
  {
    assert (attrs + [a])[..|attrs|] == attrs;
  }

  /** Only the exact value "true" marks the email as verified. */
  lemma VerifiedOnlyByTrue(attrs: seq<Attribute>, v: Option<string>)
    ensures UserFromAttributes(attrs + [Attribute("email_verified", v)]).emailVerified <==> v == Some("true")
  {
    var s := attrs + [Attribute("email_verified", v)];
    assert s[|s| - 1].name == "email_verified";
  }

  /** A missing value for `sub` resets it to "", even after a present one. */
  lemma MissingSubIsEmpty(attrs: seq<Attribute>)
    ensures UserFromAttributes(attrs + [Attribute("sub", None)]).sub == ""
  {
    var s := attrs + [Attribute("sub", None)];
    assert s[|s| - 1].name == "sub";
  }

  /** A request without a usable bearer token is never authenticated, whatever the provider would say. */
  lemma NoTokenNoUser(headers: map<string, string>, reply: ProviderReply)
    requires ExtractTokenFromHeaders(headers).None?
    ensures Authenticated(headers, reply).None?
  {
  }
}
