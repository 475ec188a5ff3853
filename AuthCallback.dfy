/**
 * The OAuth callback page (src/app/auth/callback/page.tsx): from the `token`
 * and `error` query parameters, decide what to hand to the auth store's
 * `setAuth` and where to navigate. `atob` followed by `JSON.parse` and
 * `encodeURIComponent` are parameters the model does not interpret.
 */
module AuthCallback {
  import opened Optional
  import opened Text
  import opened Js

  /** The user record passed to `setAuth`. */
  datatype User = User(id: string, email: Value, name: Value, avatarUrl: Value)

  /** One `setAuth(user, token)` call; `user` is None for `setAuth(null, token)`. */
  datatype AuthCall = AuthCall(user: Option<User>, token: string)

  /** What the effect does: at most one `setAuth`, then one `router.push`, possibly after a delay. */
  datatype Effect = Effect(setAuth: Option<AuthCall>, push: string, delayMs: nat)

  /** Delay before leaving the page after a successful sign-in. */
  const SuccessDelayMs: nat := 1500

  /** base64url to base64 (section 5 of RFC 4648): '-' becomes '+', '_' becomes '/'. */
  function Base64UrlToBase64(s: string): (r: string)
    ensures |r| == |s|
    ensures forall i :: 0 <= i < |s| ==>
      r[i] == (if s[i] == '-' then '+' else if s[i] == '_' then '/' else s[i])
  {
    if s == [] then []
    else [if s[0] == '-' then '+' else if s[0] == '_' then '/' else s[0]] + Base64UrlToBase64(s[1..])
  }

  /**
   * `segment` is the second '.'-separated segment of `token`: it starts right
   * after the first '.', at index i, holds no '.', and runs to the end of the
   * token or to the next '.'.
   */
  predicate SecondSegmentAt(token: string, i: int, segment: string)
  {
    0 <= i < |token| && token[i] == '.' && '.' !in token[..i] && '.' !in segment &&
    i + 1 + |segment| <= |token| && token[i + 1..i + 1 + |segment|] == segment &&
    (i + 1 + |segment| == |token| || token[i + 1 + |segment|] == '.')
  }

  /** A token has at most one second segment. */
  lemma SecondSegmentUnique(token: string, i: int, a: string, j: int, b: string)
    requires SecondSegmentAt(token, i, a) && SecondSegmentAt(token, j, b)
    ensures i == j && a == b
  {
  }

  /** The JWS payload: the second '.'-separated segment (section 7.1 of RFC 7515), if there is one. */
  function PayloadSegment(token: string): (r: Option<string>)
    ensures r.Some? <==> '.' in token
    ensures r.Some? ==> exists i :: SecondSegmentAt(token, i, r.value)
  {
    SplitHasSecond(token, '.');
    var parts := Split(token, '.');
    if |parts| >= 2 then
      SplitSecondPlace(token, '.');
      assert SecondSegmentAt(token, |parts[0]|, parts[1]);
      Some(parts[1])
    else None
  }

  /** The payload of a header.payload.signature token is the middle part. */
  lemma PayloadOfThreeParts(header: string, payload: string, signature: string)
    requires '.' !in header && '.' !in payload
    ensures PayloadSegment(header + "." + payload + "." + signature) == Some(payload)
  {
    var token := header + "." + payload + "." + signature;
    assert token[..|header|] == header;
    assert token[|header| + 1..|header| + 1 + |payload|] == payload;
    assert SecondSegmentAt(token, |header|, payload);
    var i :| SecondSegmentAt(token, i, PayloadSegment(token).value);
    SecondSegmentUnique(token, i, PayloadSegment(token).value, |header|, payload);
  }

  /** The user built from the claims; None where reading a claim throws (a null payload). */
  function UserFromClaims(payload: Value): Option<User>
  {
    match (Member(payload, "sub"), Member(payload, "user_id"), Member(payload, "id"))
    case (Some(sub), Some(userId), Some(id)) =>
      Some(User(
        ToText(Or(Or(sub, userId), id)),
        Or(Member(payload, "email").value, Str("")),
        Or(Member(payload, "name").value, Str("Analyst")),
        Member(payload, "avatar_url").value))
    case _ => None
  }

  /**
   * The try block: split, map to base64, decode and parse, build the user.
   * None stands for any exception, which the catch block turns into
   * `setAuth(null, token)`.
   */
  function DecodeUser(token: string, decode: string -> Option<Value>): Option<User>
  {
    match PayloadSegment(token)
    case None => None   // `undefined.replace` throws
    case Some(segment) =>
      match decode(Base64UrlToBase64(segment))
      case None => None
      case Some(payload) => UserFromClaims(payload)
  }

  /** The `useEffect` decision. */
  function Decide(token: Option<string>, error: Option<string>,
                  decode: string -> Option<Value>, encode: string -> string): Effect
  {
    if error.Some? && error.value != "" then
      Effect(None, "/login?error=" + encode(error.value), 0)
    else if token.Some? && token.value != "" then
      match DecodeUser(token.value, decode)
      case Some(user) => Effect(Some(AuthCall(Some(user), token.value)), "/", SuccessDelayMs)
      case None => Effect(Some(AuthCall(None, token.value)), "/", 0)
    else
      Effect(None, "/login", 0)
  }

  /** A non-empty `error` wins over any token: back to login with the error, and no `setAuth`. */
  lemma ErrorWins(token: Option<string>, e: string, decode: string -> Option<Value>, encode: string -> string)
    requires e != ""
    ensures Decide(token, Some(e), decode, encode) == Effect(None, "/login?error=" + encode(e), 0)
  {
  }

  /** Without a token (absent or empty) and without an error: to login, auth store untouched. */
  lemma NoTokenGoesToLogin(token: Option<string>, error: Option<string>,
                           decode: string -> Option<Value>, encode: string -> string)
    requires token.None? || token.value == ""
    requires error.None? || error.value == ""
    ensures Decide(token, error, decode, encode) == Effect(None, "/login", 0)
  {
  }

  /**
   * With a token and no error, `setAuth` receives exactly that token, and the
   * page goes home; the user is null exactly when decoding failed.
   */
  lemma TokenBranch(t: string, error: Option<string>, decode: string -> Option<Value>, encode: string -> string)
    requires t != ""
    requires error.None? || error.value == ""
    ensures var effect := Decide(Some(t), error, decode, encode);
      && effect.setAuth.Some?
      && effect.setAuth.value.token == t
      && effect.push == "/"
      && (effect.setAuth.value.user.None? <==> DecodeUser(t, decode).None?)
      && (effect.delayMs == SuccessDelayMs <==> DecodeUser(t, decode).Some?)
  {
  }

  /** A token with no '.' cannot be decoded, whatever `atob`/`JSON.parse` would do. */
  lemma NoDotFails(t: string, decode: string -> Option<Value>)
    requires '.' !in t
    ensures DecodeUser(t, decode).None?
  {
  }

  /** The claim fallbacks: id from the first truthy of sub, user_id, id; email "" and name "Analyst" by default. */
  lemma ClaimDefaults(fields: map<string, Value>)
    ensures var u := UserFromClaims(Obj(fields));
      var get := (k: string) => if k in fields then fields[k] else Undefined;
      && u.Some?
      && (Truthy(get("sub")) ==> u.value.id == ToText(get("sub")))
      && (!Truthy(get("sub")) && Truthy(get("user_id")) ==> u.value.id == ToText(get("user_id")))
      && (!Truthy(get("sub")) && !Truthy(get("user_id")) ==> u.value.id == ToText(get("id")))
      && (!Truthy(get("email")) ==> u.value.email == Str(""))
      && (Truthy(get("email")) ==> u.value.email == get("email"))
      && (!Truthy(get("name")) ==> u.value.name == Str("Analyst"))
      && (Truthy(get("name")) ==> u.value.name == get("name"))
      && u.value.avatarUrl == get("avatar_url")
  {
  }

  /** With no identifying claim at all, the id is the text "undefined". */
  lemma MissingIdIsUndefinedText()
    ensures UserFromClaims(Obj(map[])) == Some(User("undefined", Str(""), Str("Analyst"), Undefined))
  {
  }

  /** A payload that parses to null throws on the first claim read, so the token is stored without a user. */
  lemma NullPayloadFails(t: string, decode: string -> Option<Value>)
    requires '.' in t
    requires decode(Base64UrlToBase64(PayloadSegment(t).value)) == Some(Null)
    ensures DecodeUser(t, decode).None?
  {
  }

  /** The effect runner: the auth store sink and the router history. */
  class CallbackEnvironment {
    var authCalls: seq<AuthCall>
    var pushes: seq<(string, nat)>

    constructor ()
      ensures authCalls == [] && pushes == []
    {
      authCalls := [];
      pushes := [];
    }

    /** Runs the effect once: records the `setAuth` call, if any, and the navigation. */
    method Run(token: Option<string>, error: Option<string>,
               decode: string -> Option<Value>, encode: string -> string)
      modifies this
      ensures var effect := Decide(token, error, decode, encode);
        && authCalls == old(authCalls) + (if effect.setAuth.Some? then [effect.setAuth.value] else [])
        && pushes == old(pushes) + [(effect.push, effect.delayMs)]
    {
      var effect := Decide(token, error, decode, encode);
      if effect.setAuth.Some? {
        authCalls := authCalls + [effect.setAuth.value];
      }
      pushes := pushes + [(effect.push, effect.delayMs)];
    }
  }
}
