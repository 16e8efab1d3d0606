/**
 * The environment-file models: URL validation, the OAuth2 and NTLM auth
 * configurations, environment sections and environment files. A JSON
 * object is a `Value` dictionary; a typed model is a record that exists
 * only once its checks pass.
 */
module EnvFiles {
  import opened Results
  import opened Text
  import opened Dicts
  import opened OpenApi

  datatype EnvError =
    | InvalidUrl(url: string)
    | MissingField(field: string)
    | WrongType(field: string)
    | TooShort(field: string)                 // `min_length=1`
    | NotAllowed(field: string)               // a value outside a `Literal[...]`
    | GrantRequirement(grant: Grant, field: string)
    | PkceMethodMissing
    | PkceMethodInvalid
    | JwtMissingParts
    | JwtHeaderMalformed
    | JwtAlgInvalid
    | JwtTypInvalid
    | JwtPayloadNotADict
    | JwtClaimNotInt(claim: string)
    | CustomParamNoValue(key: string)
    | CustomParamBadUse(key: string)
    | NtlmPasswordMissing
    | NtlmUsernameMissing
    | BadVariableKey(key: string)
    | BadVariableValue(key: string)
    | ExtraNotADict(key: string)
    | InvalidSection(key: string, cause: EnvError)

  // ---------------------------------------------------------------------
  // validate_url: the pattern, matched with `re.match`, `re.IGNORECASE`
  // ---------------------------------------------------------------------

  /** `[A-Z0-9]` under IGNORECASE. */
  predicate LabelEnd(c: char) {
    IsAlnum(c)
  }

  /** `[A-Z0-9](?:[A-Z0-9-]{0,61}[A-Z0-9])?`: one domain label. */
  predicate IsLabel(t: string) {
    && 1 <= |t| <= 63
    && LabelEnd(t[0]) && LabelEnd(t[|t| - 1])
    && forall i :: 0 <= i < |t| ==> LabelEnd(t[i]) || t[i] == '-'
  }

  predicate AllLetters(t: string) {
    forall i :: 0 <= i < |t| ==> IsAsciiLetter(t[i])
  }

  /** `[A-Z]{2,6}\.?`: the top-level label, with an optional final dot. */
  predicate IsTld(t: string) {
    || (2 <= |t| <= 6 && AllLetters(t))
    || (3 <= |t| <= 7 && t[|t| - 1] == '.' && AllLetters(t[..|t| - 1]))
  }

  /** `(?:label\.)+tld`: one or more labels, each followed by a dot, then the top-level label. */
  predicate IsDomain(t: string)
    decreases |t|
  {
    exists k :: 0 < k < |t| && t[k] == '.' && IsLabel(t[..k]) && (IsTld(t[k + 1..]) || IsDomain(t[k + 1..]))
  }

  predicate AllDigits(t: string) {
    forall i :: 0 <= i < |t| ==> IsDigit(t[i])
  }

  /** `\d{1,3}`. */
  predicate IsOctet(t: string) {
    1 <= |t| <= 3 && AllDigits(t)
  }

  /** `\d{1,3}\.\d{1,3}\.\d{1,3}\.\d{1,3}`. */
  predicate IsDottedQuad(t: string) {
    exists a, b, c :: 0 < a < b < c < |t| && t[a] == '.' && t[b] == '.' && t[c] == '.'
      && IsOctet(t[..a]) && IsOctet(t[a + 1..b]) && IsOctet(t[b + 1..c]) && IsOctet(t[c + 1..])
  }

  /** The host alternatives: a domain, `localhost`, `127.0.0.1`, or a dotted quad. */
  predicate IsHost(t: string) {
    IsDomain(t) || Lower(t) == "localhost" || t == "127.0.0.1" || IsDottedQuad(t)
  }

  /** `(?::\d+)?`. */
  predicate IsPort(t: string) {
    t == "" || (|t| >= 2 && t[0] == ':' && AllDigits(t[1..]))
  }

  /** `(?:/?|[/?]\S+)?`. */
  predicate IsPathPart(t: string) {
    || t == "" || t == "/"
    || (|t| >= 2 && (t[0] == '/' || t[0] == '?') && forall i :: 1 <= i < |t| ==> !IsSpace(t[i]))
  }

  /** What `$` lets end the match: the rest, or the rest but a final newline. */
  predicate IsPathAtEnd(t: string) {
    IsPathPart(t) || (|t| > 0 && t[|t| - 1] == '\n' && IsPathPart(t[..|t| - 1]))
  }

  /** Host, port and path, in that order, make up all of `s`. */
  predicate IsAuthorityAndPath(s: string) {
    exists i, j :: 0 < i <= j <= |s| && IsHost(s[..i]) && IsPort(s[i..j]) && IsPathAtEnd(s[j..])
  }

  /** `^https?://` under IGNORECASE, then the rest. */
  predicate UrlMatches(v: string) {
    || (|v| >= 7 && Lower(v[..7]) == "http://" && IsAuthorityAndPath(v[7..]))
    || (|v| >= 8 && Lower(v[..8]) == "https://" && IsAuthorityAndPath(v[8..]))
  }

  /** `validate_url`: `None` passes, a string passes only if the pattern matches it. */
  function ValidateUrl(value: Option<string>): (r: Result<Option<string>, EnvError>)
    ensures r.Ok? <==> value.None? || UrlMatches(value.value)
    ensures r.Ok? ==> r.value == value
    ensures r.Err? ==> r.error == InvalidUrl(value.value)
  {
    if value.None? then Ok(None)
    else if UrlMatches(value.value) then Ok(value)
    else Err(InvalidUrl(value.value))
  }

  /** An accepted URL starts with `http`, in any case, and has a host after `://`. */
  lemma AcceptedUrlShape(v: string)
    requires UrlMatches(v)
    ensures |v| > 7 && Lower(v[..4]) == "http"
  {
    if |v| >= 7 && Lower(v[..7]) == "http://" && IsAuthorityAndPath(v[7..]) {
      assert forall i :: 0 <= i < 4 ==> Lower(v[..4])[i] == Lower(v[..7])[i];
    } else {
      assert forall i :: 0 <= i < 4 ==> Lower(v[..4])[i] == Lower(v[..8])[i];
    }
  }

  /** `https://` followed by a host, port and path is accepted. */
  lemma HttpsAccepted(rest: string)
    requires IsAuthorityAndPath(rest)
    ensures UrlMatches("https://" + rest)
  {
    var v := "https://" + rest;
    assert v[..8] == "https://" && v[8..] == rest;
    assert Lower(v[..8]) == "https://";
  }

  /** A host, a port and a path, in that order, make an authority-and-path. */
  lemma AuthorityOfParts(host: string, port: string, path: string)
    requires host != "" && IsHost(host) && IsPort(port) && IsPathAtEnd(path)
    ensures IsAuthorityAndPath(host + port + path)
  {
    var s := host + port + path;
    var i, j := |host|, |host| + |port|;
    assert s[..i] == host && s[i..j] == port && s[j..] == path;
  }

  /** A label, a dot and a top-level label or a domain make a domain. */
  lemma DomainOfParts(lbl: string, rest: string)
    requires IsLabel(lbl) && (IsTld(rest) || IsDomain(rest))
    ensures IsDomain(lbl + "." + rest)
  {
    var t := lbl + "." + rest;
    var k := |lbl|;
    assert t[k] == '.' && t[..k] == lbl && t[k + 1..] == rest;
  }

  /** `https://`, a label, a dot, a domain or top-level label, a port and a path make an accepted URL. */
  lemma DomainUrlAccepted(lbl: string, rest: string, port: string, path: string)
    requires IsLabel(lbl) && (IsTld(rest) || IsDomain(rest))
    requires IsPort(port) && IsPathAtEnd(path)
    ensures UrlMatches("https://" + (lbl + "." + rest + port + path))
  {
    DomainOfParts(lbl, rest);
    AuthorityOfParts(lbl + "." + rest, port, path);
    HttpsAccepted(lbl + "." + rest + port + path);
  }

  /** An `ftp://` URL is rejected. */
  lemma FtpRejected(rest: string)
    ensures !UrlMatches("ftp://" + rest)
  {
    var v := "ftp://" + rest;
    if |v| >= 7 {
      assert Lower(v[..7])[0] == 'f';
    }
  }

  /** A scheme with nothing after it is rejected. */
  lemma SchemeAloneRejected()
    ensures !UrlMatches("http://") && !UrlMatches("https://")
  {
    assert "http://"[7..] == "";
    assert "https://"[8..] == "";
    assert "https://"[7..] == "/";
  }

  /** `http://localhost:8080` is accepted. */
  lemma LocalhostWithPortAccepted()
    ensures UrlMatches("http://localhost:8080")
  {
    var v := "http://localhost:8080";
    var s := v[7..];
    assert s == "localhost:8080";
    assert Lower(s[..9]) == "localhost";
    assert IsPort(s[9..14]);
    assert IsPathAtEnd(s[14..]);
    assert Lower(v[..7]) == "http://";
  }

  /** `$` also matches before a final newline, so a URL followed by one newline passes. */
  lemma TrailingNewlineAccepted()
    ensures UrlMatches("http://localhost\n")
  {
    var v := "http://localhost\n";
    var s := v[7..];
    assert Lower(s[..9]) == "localhost";
    assert IsPort(s[9..9]);
    assert s[9..] == "\n";
    assert IsPathAtEnd(s[9..]);
    assert Lower(v[..7]) == "http://";
  }

  // ---------------------------------------------------------------------
  // OAuth2Auth
  // ---------------------------------------------------------------------

  /** The `grant_type` literals. */
  datatype Grant = AuthorizationCode | ClientCredentials | DeviceAuthorization | Implicit | Password

  function GrantLabel(g: Grant): string {
    match g
    case AuthorizationCode => "Authorization Code"
    case ClientCredentials => "Client Credentials"
    case DeviceAuthorization => "Device Authorization"
    case Implicit => "Implicit"
    case Password => "Password"
  }

  /** The literal a label names, if it names one. */
  function GrantOf(name: string): (r: Option<Grant>)
    ensures r.Some? ==> GrantLabel(r.value) == name
  {
    if name == "Authorization Code" then Some(AuthorizationCode)
    else if name == "Client Credentials" then Some(ClientCredentials)
    else if name == "Device Authorization" then Some(DeviceAuthorization)
    else if name == "Implicit" then Some(Implicit)
    else if name == "Password" then Some(Password)
    else None
  }

  /** Every grant is named by its label, and by nothing else. */
  lemma GrantLabelRoundTrip(g: Grant)
    ensures GrantOf(GrantLabel(g)) == Some(g)
  {
  }

  /** An `OAuth2Auth` whose fields have passed their type checks. */
  datatype OAuth2Auth = OAuth2Auth(
    typeName: string,
    grant: Grant,
    authUrl: Option<string>,
    tokenUrl: string,
    redirectUrl: Option<string>,
    revokeUrl: Option<string>,
    clientId: string,
    clientSecret: Option<string>,
    deviceAuthUrl: Option<string>,
    responseType: Option<string>,
    clientCredentials: string,
    pkce: Value,                 // `bool | dict | None`
    assertion: Option<string>,
    jwt: Value,                  // `dict | None`
    scope: Option<string>,
    expiresIn: int,
    acquireAutomatically: bool,
    username: Option<string>,
    password: Option<string>,
    customRequestParameters: Value,   // `dict | None`
    useIdToken: bool)

  /** `not x` for an optional string. */
  predicate Blank(x: Option<string>) {
    x.None? || x.value == ""
  }

  /** The per-grant requirements of `validate_oauth2`, first failure reported. */
  function CheckGrant(a: OAuth2Auth): (r: Result<(), EnvError>)
    ensures r.Ok? <==> GrantSatisfied(a)
  {
    match a.grant
    case AuthorizationCode =>
      if Blank(a.authUrl) then Err(GrantRequirement(a.grant, "Auth URL"))
      else if a.tokenUrl == "" then Err(GrantRequirement(a.grant, "Token URL"))
      else Ok(())
    case ClientCredentials =>
      if a.tokenUrl == "" then Err(GrantRequirement(a.grant, "Token URL"))
      else if Blank(a.clientSecret) then Err(GrantRequirement(a.grant, "Client Secret"))
      else Ok(())
    case DeviceAuthorization =>
      if Blank(a.deviceAuthUrl) then Err(GrantRequirement(a.grant, "Device Auth URL"))
      else if a.tokenUrl == "" then Err(GrantRequirement(a.grant, "Token URL"))
      else Ok(())
    case Implicit =>
      if Blank(a.authUrl) then Err(GrantRequirement(a.grant, "Auth URL")) else Ok(())
    case Password =>
      if Blank(a.username) || Blank(a.password) then Err(GrantRequirement(a.grant, "Username and Password"))
      else Ok(())
  }

  /** The fields each grant type needs, as a table. */
  ghost predicate GrantSatisfied(a: OAuth2Auth) {
    && (a.grant == AuthorizationCode ==> !Blank(a.authUrl) && a.tokenUrl != "")
    && (a.grant == ClientCredentials ==> a.tokenUrl != "" && !Blank(a.clientSecret))
    && (a.grant == DeviceAuthorization ==> !Blank(a.deviceAuthUrl) && a.tokenUrl != "")
    && (a.grant == Implicit ==> !Blank(a.authUrl))
    && (a.grant == Password ==> !Blank(a.username) && !Blank(a.password))
  }

  /** `response_type` defaults to `code` (Authorization Code) or `token` (Implicit) when unset. */
  function DefaultResponseType(a: OAuth2Auth): (r: OAuth2Auth)
    ensures r == a.(responseType := r.responseType)
    ensures !Blank(a.responseType) ==> r == a
    ensures Blank(a.responseType) && a.grant == AuthorizationCode ==> r.responseType == Some("code")
    ensures Blank(a.responseType) && a.grant == Implicit ==> r.responseType == Some("token")
    ensures a.grant != AuthorizationCode && a.grant != Implicit ==> r == a
  {
    if (a.grant == AuthorizationCode || a.grant == Implicit) && Blank(a.responseType) then
      a.(responseType := Some(if a.grant == AuthorizationCode then "code" else "token"))
    else a
  }

  /** A dictionary's entries, or none for a value that is not one. */
  function Entries(v: Value): seq<(string, Value)> {
    if v.VDict? then v.entries else []
  }

  /** `key in d` for a dict value. */
  predicate HasKey(v: Value, key: string) {
    v.VDict? && key in Keys(v.entries)
  }

  /** `d[key]` for a dict value holding `key`. */
  function At(v: Value, key: string): Value
    requires HasKey(v, key)
  {
    Get(v.entries, key).value
  }

  /** A PKCE dict names its method, `Plain` or `S256`; `True`, `False` and `None` need nothing. */
  function CheckPkce(pkce: Value): (r: Result<(), EnvError>)
    ensures r.Ok? <==> !pkce.VDict? || (HasKey(pkce, "Code Challenge Method")
                                        && At(pkce, "Code Challenge Method") in [VStr("Plain"), VStr("S256")])
  {
    if !pkce.VDict? then Ok(())
    else if !HasKey(pkce, "Code Challenge Method") then Err(PkceMethodMissing)
    else if At(pkce, "Code Challenge Method") !in [VStr("Plain"), VStr("S256")] then Err(PkceMethodInvalid)
    else Ok(())
  }

  /** `isinstance(v, int)`; a `bool` is an `int` in Python. */
  predicate IsPyInt(v: Value) {
    v.VInt? || v.VBool?
  }

  /** A non-empty JWT dict has a well-formed Header and Payload. */
  function CheckJwt(jwt: Value): (r: Result<(), EnvError>)
    ensures r.Ok? <==> !Truthy(jwt) || JwtWellFormed(jwt)
  {
    if !Truthy(jwt) then Ok(())
    else if !HasKey(jwt, "Header") || !HasKey(jwt, "Payload") then Err(JwtMissingParts)
    else
      var header := At(jwt, "Header");
      if !HasKey(header, "alg") || !HasKey(header, "typ") then Err(JwtHeaderMalformed)
      else if At(header, "alg") !in [VStr("RS256"), VStr("HS256")] then Err(JwtAlgInvalid)
      else if At(header, "typ") != VStr("JWT") then Err(JwtTypInvalid)
      else
        var payload := At(jwt, "Payload");
        if !payload.VDict? then Err(JwtPayloadNotADict)
        else if HasKey(payload, "exp") && !IsPyInt(At(payload, "exp")) then Err(JwtClaimNotInt("exp"))
        else if HasKey(payload, "iat") && !IsPyInt(At(payload, "iat")) then Err(JwtClaimNotInt("iat"))
        else Ok(())
  }

  /** The JWT rules, each stated on its own. */
  ghost predicate JwtWellFormed(jwt: Value) {
    && HasKey(jwt, "Header") && HasKey(jwt, "Payload")
    && HasKey(At(jwt, "Header"), "alg") && HasKey(At(jwt, "Header"), "typ")
    && At(At(jwt, "Header"), "alg") in [VStr("RS256"), VStr("HS256")]
    && At(At(jwt, "Header"), "typ") == VStr("JWT")
    && At(jwt, "Payload").VDict?
    && (HasKey(At(jwt, "Payload"), "exp") ==> IsPyInt(At(At(jwt, "Payload"), "exp")))
    && (HasKey(At(jwt, "Payload"), "iat") ==> IsPyInt(At(At(jwt, "Payload"), "iat")))
  }

  const AllowedUses: seq<Value> := [VStr("Everywhere"), VStr("In Auth Request"), VStr("In Token Request")]

  /** One custom request parameter: a dict value needs `Value` and an allowed `Use`. */
  predicate CustomParamOk(v: Value) {
    v.VDict? ==> HasKey(v, "Value") && (HasKey(v, "Use") ==> At(v, "Use") in AllowedUses)
  }

  /** The custom request parameters, in order, the first bad one reported. */
  function CheckCustomParams(params: seq<(string, Value)>): (r: Result<(), EnvError>)
    ensures r.Ok? <==> forall i :: 0 <= i < |params| ==> CustomParamOk(params[i].1)
    ensures r.Err? ==> exists i :: 0 <= i < |params| && !CustomParamOk(params[i].1)
                         && r.error in {CustomParamNoValue(params[i].0), CustomParamBadUse(params[i].0)}
    decreases |params|
  {
    if |params| == 0 then Ok(())
    else
      var v := params[0].1;
      if v.VDict? && !HasKey(v, "Value") then Err(CustomParamNoValue(params[0].0))
      else if v.VDict? && HasKey(v, "Use") && At(v, "Use") !in AllowedUses then Err(CustomParamBadUse(params[0].0))
      else
        var rest := CheckCustomParams(params[1..]);
        assert rest.Err? ==> exists i :: 0 <= i < |params| && !CustomParamOk(params[i].1)
                               && rest.error in {CustomParamNoValue(params[i].0), CustomParamBadUse(params[i].0)} by {
          if rest.Err? {
            var i :| 0 <= i < |params[1..]| && !CustomParamOk(params[1..][i].1)
                     && rest.error in {CustomParamNoValue(params[1..][i].0), CustomParamBadUse(params[1..][i].0)};
            assert params[i + 1] == params[1..][i];
          }
        }
        rest
  }

  /**
   * `validate_oauth2`: the grant requirements, the response-type default,
   * then the PKCE, JWT and custom-parameter rules.
   */
  function ValidateOAuth2(a: OAuth2Auth): (r: Result<OAuth2Auth, EnvError>)
    ensures r.Ok? <==> GrantSatisfied(a) && CheckPkce(a.pkce).Ok? && CheckJwt(a.jwt).Ok?
                       && (Truthy(a.customRequestParameters) ==> CheckCustomParams(Entries(a.customRequestParameters)).Ok?)
    ensures r.Ok? ==> r.value == DefaultResponseType(a)
  {
    var _ :- CheckGrant(a);
    var b := DefaultResponseType(a);
    var _ :- CheckPkce(a.pkce);
    var _ :- CheckJwt(a.jwt);
    var _ :- if Truthy(a.customRequestParameters) then CheckCustomParams(Entries(a.customRequestParameters)) else Ok(());
    Ok(b)
  }

  /** Validation only ever fills the response type, and a second run changes nothing. */
  lemma ValidateOAuth2Idempotent(a: OAuth2Auth)
    requires ValidateOAuth2(a).Ok?
    ensures ValidateOAuth2(ValidateOAuth2(a).value) == ValidateOAuth2(a)
  {
  }

  // ---------------------------------------------------------------------
  // Building an OAuth2Auth from a JSON object (`OAuth2Auth(**cfg)`)
  // ---------------------------------------------------------------------

  /** `str | None` with default `None`. */
  function OptStr(cfg: Dict<string, Value>, key: string): (r: Result<Option<string>, EnvError>)
    ensures r.Ok? && r.value.Some? ==> Get(cfg, key) == Some(VStr(r.value.value))
    ensures Get(cfg, key).None? ==> r == Ok(None)
  {
    match Get<string, Value>(cfg, key)
    case None => Ok(None)
    case Some(VNull) => Ok(None)
    case Some(VStr(s)) => Ok(Some(s))
    case Some(_) => Err(WrongType(key))
  }

  /** A URL field: `validate_url` runs on the raw value, then the type check. */
  function OptUrl(cfg: Dict<string, Value>, key: string): (r: Result<Option<string>, EnvError>)
    ensures r.Ok? && r.value.Some? ==> UrlMatches(r.value.value) && Get(cfg, key) == Some(VStr(r.value.value))
    ensures Get(cfg, key).None? ==> r == Ok(None)
  {
    var v :- OptStr(cfg, key);
    ValidateUrl(v)
  }

  /** A required `str` with `min_length=1`. */
  function ReqStr(cfg: Dict<string, Value>, key: string): (r: Result<string, EnvError>)
    ensures r.Ok? <==> exists s :: Get(cfg, key) == Some(VStr(s)) && s != ""
    ensures r.Ok? ==> Get(cfg, key) == Some(VStr(r.value))
    ensures Get(cfg, key).None? ==> r == Err(MissingField(key))
  {
    match Get<string, Value>(cfg, key)
    case None => Err(MissingField(key))
    case Some(VStr(s)) => if s == "" then Err(TooShort(key)) else Ok(s)
    case Some(_) => Err(WrongType(key))
  }

  /** A `str` field with a default. */
  function StrOr(cfg: Dict<string, Value>, key: string, default: string): (r: Result<string, EnvError>)
    ensures Get(cfg, key).None? ==> r == Ok(default)
  {
    match Get<string, Value>(cfg, key)
    case None => Ok(default)
    case Some(VStr(s)) => Ok(s)
    case Some(_) => Err(WrongType(key))
  }

  /** An `int` field with a default (a `bool` is an `int`). */
  function IntOr(cfg: Dict<string, Value>, key: string, default: int): (r: Result<int, EnvError>)
    ensures Get(cfg, key).None? ==> r == Ok(default)
  {
    match Get<string, Value>(cfg, key)
    case None => Ok(default)
    case Some(VInt(i)) => Ok(i)
    case Some(VBool(b)) => Ok(if b then 1 else 0)
    case Some(_) => Err(WrongType(key))
  }

  /** A `bool` field with a default. */
  function BoolOr(cfg: Dict<string, Value>, key: string, default: bool): (r: Result<bool, EnvError>)
    ensures Get(cfg, key).None? ==> r == Ok(default)
  {
    match Get<string, Value>(cfg, key)
    case None => Ok(default)
    case Some(VBool(b)) => Ok(b)
    case Some(_) => Err(WrongType(key))
  }

  /** A `dict | None` field (or, with `allowBool`, `bool | dict | None`). */
  function DictOrNone(cfg: Dict<string, Value>, key: string, allowBool: bool): (r: Result<Value, EnvError>)
    ensures Get(cfg, key).None? ==> r == Ok(VNull)
    ensures r.Ok? ==> r.value.VNull? || r.value.VDict? || (allowBool && r.value.VBool?)
  {
    match Get<string, Value>(cfg, key)
    case None => Ok(VNull)
    case Some(VNull) => Ok(VNull)
    case Some(VDict(es)) => Ok(VDict(es))
    case Some(VBool(b)) => if allowBool then Ok(VBool(b)) else Err(WrongType(key))
    case Some(_) => Err(WrongType(key))
  }

  /** A `Literal[...]` string field. */
  function LiteralOr(cfg: Dict<string, Value>, key: string, allowed: seq<string>, default: string): (r: Result<string, EnvError>)
    requires default in allowed
    ensures r.Ok? ==> r.value in allowed
    ensures Get(cfg, key).None? ==> r == Ok(default)
  {
    match Get<string, Value>(cfg, key)
    case None => Ok(default)
    case Some(VStr(s)) => if s in allowed then Ok(s) else Err(NotAllowed(key))
    case Some(_) => Err(NotAllowed(key))
  }

  /** The required `Grant Type` literal. */
  function GrantField(cfg: Dict<string, Value>): (r: Result<Grant, EnvError>)
    ensures r.Ok? <==> exists s :: Get(cfg, "Grant Type") == Some(VStr(s)) && GrantOf(s).Some?
    ensures r.Ok? ==> Get(cfg, "Grant Type") == Some(VStr(GrantLabel(r.value)))
  {
    match Get<string, Value>(cfg, "Grant Type")
    case None => Err(MissingField("Grant Type"))
    case Some(VStr(s)) => if GrantOf(s).Some? then Ok(GrantOf(s).value) else Err(NotAllowed("Grant Type"))
    case Some(_) => Err(NotAllowed("Grant Type"))
  }

  /**
   * `OAuth2Auth(**cfg)`: the fields by their aliases (unknown keys are
   * ignored), then `validate_oauth2`.
   */
  function ParseOAuth2(cfg: Dict<string, Value>): (r: Result<OAuth2Auth, EnvError>)
    ensures r.Ok? ==> Get(cfg, "Grant Type") == Some(VStr(GrantLabel(r.value.grant)))
    ensures r.Ok? ==> Get(cfg, "Token URL") == Some(VStr(r.value.tokenUrl)) && UrlMatches(r.value.tokenUrl)
    ensures r.Ok? ==> Get(cfg, "Client ID") == Some(VStr(r.value.clientId)) && r.value.clientId != ""
    ensures r.Ok? ==> GrantSatisfied(r.value)
    ensures Get(cfg, "Token URL").None? || Get(cfg, "Client ID").None? || Get(cfg, "Grant Type").None? ==> r.Err?
    ensures r.Ok? && r.value.authUrl.Some? ==> Get(cfg, "Auth URL") == Some(VStr(r.value.authUrl.value)) && UrlMatches(r.value.authUrl.value)
    ensures r.Ok? && Get(cfg, "Auth URL").None? ==> r.value.authUrl.None?
    ensures r.Ok? && Get(cfg, "Client Secret").None? ==> r.value.clientSecret.None?
    ensures r.Ok? && Get(cfg, "Username").None? ==> r.value.username.None?
    ensures r.Ok? && Get(cfg, "Password").None? ==> r.value.password.None?
  {
    var a :- ParseIdentity(cfg);
    var b :- ParseClientFields(cfg, a);
    var c :- ParseOptions(cfg, b);
    ValidateOAuth2(c)
  }

  /** The defaults of every field `ParseIdentity` does not read. */
  function WithDefaults(typeName: string, grant: Grant, authUrl: Option<string>, tokenUrl: string,
                        redirectUrl: Option<string>, revokeUrl: Option<string>, clientId: string): OAuth2Auth
  {
    OAuth2Auth(typeName, grant, authUrl, tokenUrl, redirectUrl, revokeUrl, clientId,
               None, None, None, "basic", VNull, None, VNull, None, 10, true, None, None, VNull, false)
  }

  /** The type, grant, URLs and client id, each validated; every other field at its default. */
  function ParseIdentity(cfg: Dict<string, Value>): (r: Result<OAuth2Auth, EnvError>)
    ensures r.Ok? ==> r.value == WithDefaults(r.value.typeName, r.value.grant, r.value.authUrl, r.value.tokenUrl,
                                              r.value.redirectUrl, r.value.revokeUrl, r.value.clientId)
    ensures r.Ok? ==> Get(cfg, "Grant Type") == Some(VStr(GrantLabel(r.value.grant)))
    ensures r.Ok? ==> Get(cfg, "Token URL") == Some(VStr(r.value.tokenUrl)) && UrlMatches(r.value.tokenUrl)
    ensures r.Ok? ==> Get(cfg, "Client ID") == Some(VStr(r.value.clientId)) && r.value.clientId != ""
    ensures Get(cfg, "Token URL").None? || Get(cfg, "Client ID").None? || Get(cfg, "Grant Type").None? ==> r.Err?
    ensures r.Ok? && r.value.authUrl.Some? ==> Get(cfg, "Auth URL") == Some(VStr(r.value.authUrl.value)) && UrlMatches(r.value.authUrl.value)
    ensures r.Ok? && Get(cfg, "Auth URL").None? ==> r.value.authUrl.None?
  {
    var typeName :- StrOr(cfg, "Type", "OAuth2");
    var grant :- GrantField(cfg);
    var authUrl :- OptUrl(cfg, "Auth URL");
    var _ :- OptUrl(cfg, "Token URL");
    var tokenUrl :- ReqStr(cfg, "Token URL");
    var redirectUrl :- OptUrl(cfg, "Redirect URL");
    var revokeUrl :- OptUrl(cfg, "Revoke URL");
    var clientId :- ReqStr(cfg, "Client ID");
    Ok(WithDefaults(typeName, grant, authUrl, tokenUrl, redirectUrl, revokeUrl, clientId))
  }

  /** The client secret, device URL, response type, client credentials, PKCE, assertion and JWT. */
  function ParseClientFields(cfg: Dict<string, Value>, a: OAuth2Auth): (r: Result<OAuth2Auth, EnvError>)
    ensures r.Ok? ==> r.value == a.(clientSecret := r.value.clientSecret, deviceAuthUrl := r.value.deviceAuthUrl,
                                    responseType := r.value.responseType, clientCredentials := r.value.clientCredentials,
                                    pkce := r.value.pkce, assertion := r.value.assertion, jwt := r.value.jwt)
    ensures r.Ok? && Get(cfg, "Client Secret").None? ==> r.value.clientSecret.None?
    ensures (forall k :: k in ClientFieldKeys ==> Get(cfg, k).None?)
            ==> r == Ok(a.(clientSecret := None, deviceAuthUrl := None, responseType := None,
                           clientCredentials := "basic", pkce := VNull, assertion := None, jwt := VNull))
  {
    var clientSecret :- OptStr(cfg, "Client Secret");
    var deviceAuthUrl :- OptUrl(cfg, "Device Auth URL");
    var responseType :- OptStr(cfg, "Response Type");
    var clientCredentials :- LiteralOr(cfg, "Client Credentials", ["none", "in body", "basic", "jwt"], "basic");
    var pkce :- DictOrNone(cfg, "PKCE", true);
    var assertion :- OptStr(cfg, "Assertion");
    var jwt :- DictOrNone(cfg, "JWT", false);
    Ok(a.(clientSecret := clientSecret, deviceAuthUrl := deviceAuthUrl, responseType := responseType,
          clientCredentials := clientCredentials, pkce := pkce, assertion := assertion, jwt := jwt))
  }

  const ClientFieldKeys: set<string> :=
    {"Client Secret", "Device Auth URL", "Response Type", "Client Credentials", "PKCE", "Assertion", "JWT"}

  /** The scope, expiry, acquisition flag, username, password, custom parameters and id-token flag. */
  function ParseOptions(cfg: Dict<string, Value>, a: OAuth2Auth): (r: Result<OAuth2Auth, EnvError>)
    ensures r.Ok? ==> r.value == a.(scope := r.value.scope, expiresIn := r.value.expiresIn,
                                    acquireAutomatically := r.value.acquireAutomatically, username := r.value.username,
                                    password := r.value.password, customRequestParameters := r.value.customRequestParameters,
                                    useIdToken := r.value.useIdToken)
    ensures r.Ok? && Get(cfg, "Username").None? ==> r.value.username.None?
    ensures r.Ok? && Get(cfg, "Password").None? ==> r.value.password.None?
    ensures (forall k :: k in OptionKeys ==> Get(cfg, k).None?) && (Get(cfg, "Scope").None? || Get(cfg, "Scope").value.VStr?)
            ==> r.Ok? && r.value == a.(scope := r.value.scope, expiresIn := 10, acquireAutomatically := true,
                                       username := None, password := None, customRequestParameters := VNull,
                                       useIdToken := false)
  {
    var scope :- OptStr(cfg, "Scope");
    var expiresIn :- IntOr(cfg, "Expires In", 10);
    var acquire :- BoolOr(cfg, "Acquire Automatically", true);
    var username :- OptStr(cfg, "Username");
    var password :- OptStr(cfg, "Password");
    var custom :- DictOrNone(cfg, "Custom Request Parameters", false);
    var useIdToken :- BoolOr(cfg, "Use ID Token", false);
    Ok(a.(scope := scope, expiresIn := expiresIn, acquireAutomatically := acquire, username := username,
          password := password, customRequestParameters := custom, useIdToken := useIdToken))
  }

  const OptionKeys: set<string> :=
    {"Expires In", "Acquire Automatically", "Username", "Password", "Custom Request Parameters", "Use ID Token"}

  /** A URL field that is absent, or holds a string the pattern accepts, parses to that value. */
  lemma OptUrlGiven(cfg: Dict<string, Value>, key: string, u: Option<string>)
    requires u.None? ==> Get(cfg, key).None?
    requires u.Some? ==> Get(cfg, key) == Some(VStr(u.value)) && UrlMatches(u.value)
    ensures OptUrl(cfg, key) == Ok(u)
  {
    if u.Some? {
      assert OptStr(cfg, key) == Ok(u);
    }
  }

  /** `ParseIdentity` from the results of its field parsers. */
  lemma ParseIdentityOfFields(cfg: Dict<string, Value>, grant: Grant, authUrl: Option<string>, tokenUrl: string, clientId: string)
    requires StrOr(cfg, "Type", "OAuth2") == Ok("OAuth2") && GrantField(cfg) == Ok(grant)
    requires OptUrl(cfg, "Auth URL") == Ok(authUrl) && OptUrl(cfg, "Token URL").Ok?
    requires ReqStr(cfg, "Token URL") == Ok(tokenUrl)
    requires OptUrl(cfg, "Redirect URL") == Ok(None) && OptUrl(cfg, "Revoke URL") == Ok(None)
    requires ReqStr(cfg, "Client ID") == Ok(clientId)
    ensures ParseIdentity(cfg) == Ok(WithDefaults("OAuth2", grant, authUrl, tokenUrl, None, None, clientId))
  {
  }

  /**
   * A config that names a grant, a valid token URL, a client id and at most
   * a valid auth URL passes the field checks with exactly those values.
   */
  lemma IdentityAccepted(cfg: Dict<string, Value>, grant: Grant, authUrl: Option<string>, tokenUrl: string, clientId: string)
    requires Get(cfg, "Type").None? || Get(cfg, "Type") == Some(VStr("OAuth2"))
    requires Get(cfg, "Grant Type") == Some(VStr(GrantLabel(grant)))
    requires authUrl.None? ==> Get(cfg, "Auth URL").None?
    requires authUrl.Some? ==> Get(cfg, "Auth URL") == Some(VStr(authUrl.value)) && UrlMatches(authUrl.value)
    requires Get(cfg, "Token URL") == Some(VStr(tokenUrl)) && tokenUrl != "" && UrlMatches(tokenUrl)
    requires Get(cfg, "Redirect URL").None? && Get(cfg, "Revoke URL").None?
    requires Get(cfg, "Client ID") == Some(VStr(clientId)) && clientId != ""
    ensures ParseIdentity(cfg) == Ok(WithDefaults("OAuth2", grant, authUrl, tokenUrl, None, None, clientId))
  {
    GrantLabelRoundTrip(grant);
    assert StrOr(cfg, "Type", "OAuth2") == Ok("OAuth2");
    assert GrantField(cfg) == Ok(grant);
    OptUrlGiven(cfg, "Auth URL", authUrl);
    OptUrlGiven(cfg, "Token URL", Some(tokenUrl));
    OptUrlGiven(cfg, "Redirect URL", None);
    OptUrlGiven(cfg, "Revoke URL", None);
    assert ReqStr(cfg, "Token URL") == Ok(tokenUrl);
    assert ReqStr(cfg, "Client ID") == Ok(clientId);
    ParseIdentityOfFields(cfg, grant, authUrl, tokenUrl, clientId);
  }

  /**
   * A config whose identity parses to an Authorization Code grant with
   * both URLs, and which sets none of the other typed fields, validates.
   */
  lemma AuthCodeDefaultsAccepted(cfg: Dict<string, Value>, a: OAuth2Auth)
    requires ParseIdentity(cfg) == Ok(a)
    requires a.grant == AuthorizationCode && !Blank(a.authUrl) && a.tokenUrl != ""
    requires forall k :: k in ClientFieldKeys ==> Get(cfg, k).None?
    requires forall k :: k in OptionKeys ==> Get(cfg, k).None?
    requires Get(cfg, "Scope").None? || Get(cfg, "Scope").value.VStr?
    ensures ParseOAuth2(cfg).Ok?
  {
    var b := a.(clientSecret := None, deviceAuthUrl := None, responseType := None,
                clientCredentials := "basic", pkce := VNull, assertion := None, jwt := VNull);
    assert ParseClientFields(cfg, a) == Ok(b);
    var c := ParseOptions(cfg, b).value;
    assert c.grant == AuthorizationCode && !Blank(c.authUrl) && c.tokenUrl != "";
    assert c.pkce == VNull && c.jwt == VNull && c.customRequestParameters == VNull;
    assert GrantSatisfied(c);
    assert ValidateOAuth2(c).Ok?;
    assert ParseOAuth2(cfg) == ValidateOAuth2(c);
  }

  // ---------------------------------------------------------------------
  // NTLMAuth
  // ---------------------------------------------------------------------

  datatype NtlmAuth = NtlmAuth(typeName: string, username: Option<string>, password: Option<string>)

  /** `validate_ntlm`: username and password come together or not at all. */
  function ValidateNtlm(a: NtlmAuth): (r: Result<NtlmAuth, EnvError>)
    ensures r.Ok? <==> (Blank(a.username) <==> Blank(a.password))
    ensures r.Ok? ==> r.value == a
    ensures r.Err? ==> (r.error == NtlmPasswordMissing <==> !Blank(a.username))
  {
    if !Blank(a.username) && Blank(a.password) then Err(NtlmPasswordMissing)
    else if !Blank(a.password) && Blank(a.username) then Err(NtlmUsernameMissing)
    else Ok(a)
  }

  // ---------------------------------------------------------------------
  // EnvSection and the environment file
  // ---------------------------------------------------------------------

  /** `re.match(r"^[A-Za-z0-9_]+$", key)`: `$` also accepts one final newline. */
  predicate KeyMatches(key: string) {
    WordChars(if |key| > 0 && key[|key| - 1] == '\n' then key[..|key| - 1] else key)
  }

  /** `[A-Za-z0-9_]+`. */
  predicate WordChars(t: string) {
    |t| > 0 && forall i :: 0 <= i < |t| ==> IsAlnum(t[i]) || t[i] == '_'
  }

  /** `isinstance(value, (str, int, float, dict))`; `bool` counts as `int`. */
  predicate VariableValueOk(v: Value) {
    v.VStr? || v.VInt? || v.VBool? || v.VDict?
  }

  /** The declared (aliased) fields of an environment section. */
  const SectionFields: seq<string> := ["$default_headers", "Security"]

  /** `model_extra`: the entries whose key is not a declared alias. */
  function Extra(d: Dict<string, Value>, declared: seq<string>): (r: Dict<string, Value>)
    ensures forall e :: e in r <==> e in d && e.0 !in declared
    decreases |d|
  {
    if |d| == 0 then []
    else if d[0].0 in declared then Extra(d[1..], declared)
    else [d[0]] + Extra(d[1..], declared)
  }

  /** `validate_variables`: every extra key matches the pattern and holds an allowed value. */
  function ValidateVariables(extra: Dict<string, Value>): (r: Result<(), EnvError>)
    ensures r.Ok? <==> forall i :: 0 <= i < |extra| ==> KeyMatches(extra[i].0) && VariableValueOk(extra[i].1)
    decreases |extra|
  {
    if |extra| == 0 then Ok(())
    else if !KeyMatches(extra[0].0) then Err(BadVariableKey(extra[0].0))
    else if !VariableValueOk(extra[0].1) then Err(BadVariableValue(extra[0].0))
    else
      var rest := ValidateVariables(extra[1..]);
      assert rest.Ok? <==> forall i :: 0 <= i < |extra| ==> KeyMatches(extra[i].0) && VariableValueOk(extra[i].1) by {
        if rest.Ok? {
          forall i | 0 <= i < |extra|
            ensures KeyMatches(extra[i].0) && VariableValueOk(extra[i].1)
          {
            if i > 0 {
              assert extra[i] == extra[1..][i - 1];
            }
          }
        }
      }
      rest
  }

  /** `$default_headers`: a `dict[str, str]` or `None`. */
  predicate DefaultHeadersOk(v: Option<Value>) {
    v.None? || v.value.VNull? || (v.value.VDict? && forall i :: 0 <= i < |v.value.entries| ==> v.value.entries[i].1.VStr?)
  }

  /**
   * `EnvSection(**d)`: the declared fields (the `Security` model is checked
   * by `securityOk`), then `validate_variables` on the rest.
   */
  function ValidateSection(d: Dict<string, Value>, securityOk: Value -> bool): (r: Result<(), EnvError>)
    ensures r.Ok? <==>
      && DefaultHeadersOk(Get(d, "$default_headers"))
      && SecurityFieldOk(Get(d, "Security"), securityOk)
      && forall e :: e in d && e.0 !in SectionFields ==> KeyMatches(e.0) && VariableValueOk(e.1)
    ensures !DefaultHeadersOk(Get(d, "$default_headers")) ==> r == Err(WrongType("$default_headers"))
    ensures DefaultHeadersOk(Get(d, "$default_headers")) && !SecurityFieldOk(Get(d, "Security"), securityOk) ==>
      r == Err(WrongType("Security"))
  {
    if !DefaultHeadersOk(Get(d, "$default_headers")) then Err(WrongType("$default_headers"))
    else if !SecurityFieldOk(Get(d, "Security"), securityOk) then Err(WrongType("Security"))
    else
      var extra := Extra(d, SectionFields);
      var r := ValidateVariables(extra);
      assert r.Ok? <==> forall e :: e in d && e.0 !in SectionFields ==> KeyMatches(e.0) && VariableValueOk(e.1) by {
        if r.Ok? {
          forall e | e in d && e.0 !in SectionFields
            ensures KeyMatches(e.0) && VariableValueOk(e.1)
          {
            assert e in extra;
            var i :| 0 <= i < |extra| && extra[i] == e;
          }
        } else {
          var i :| 0 <= i < |extra| && !(KeyMatches(extra[i].0) && VariableValueOk(extra[i].1));
          assert extra[i] in extra;
        }
      }
      r
  }

  /** `Security`: absent, `None`, or a value the security model accepts. */
  predicate SecurityFieldOk(v: Option<Value>, securityOk: Value -> bool) {
    v.None? || v.value == VNull || securityOk(v.value)
  }

  /** The declared fields of an environment file. */
  const EnvFields: seq<string> := ["$schema", "$shared"]

  /** `validate_extra`: every extra entry is a dict that makes a valid section. */
  function ValidateExtraSections(extra: Dict<string, Value>, securityOk: Value -> bool): (r: Result<(), EnvError>)
    ensures r.Ok? <==> forall i :: 0 <= i < |extra| ==>
              extra[i].1.VDict? && ValidateSection(extra[i].1.entries, securityOk).Ok?
    ensures r.Err? ==>
      exists i :: 0 <= i < |extra| && (r.error == ExtraNotADict(extra[i].0) || r.error.InvalidSection?)
    decreases |extra|
  {
    if |extra| == 0 then Ok(())
    else if !extra[0].1.VDict? then Err(ExtraNotADict(extra[0].0))
    else
      match ValidateSection(extra[0].1.entries, securityOk)
      case Err(e) => Err(InvalidSection(extra[0].0, e))
      case Ok(_) =>
        var rest := ValidateExtraSections(extra[1..], securityOk);
        assert rest.Ok? <==> forall i :: 0 <= i < |extra| ==>
                 extra[i].1.VDict? && ValidateSection(extra[i].1.entries, securityOk).Ok? by {
          if rest.Ok? {
            forall i | 0 <= i < |extra|
              ensures extra[i].1.VDict? && ValidateSection(extra[i].1.entries, securityOk).Ok?
            {
              if i > 0 {
                assert extra[i] == extra[1..][i - 1];
              }
            }
          } else {
            var i :| 0 <= i < |extra[1..]| && !(extra[1..][i].1.VDict? && ValidateSection(extra[1..][i].1.entries, securityOk).Ok?);
            assert extra[i + 1] == extra[1..][i];
          }
        }
        assert rest.Err? ==>
          exists i :: 0 <= i < |extra| && (rest.error == ExtraNotADict(extra[i].0) || rest.error.InvalidSection?) by {
          if rest.Err? {
            var i :| 0 <= i < |extra[1..]| && (rest.error == ExtraNotADict(extra[1..][i].0) || rest.error.InvalidSection?);
            assert extra[i + 1] == extra[1..][i];
          }
        }
        rest
  }

  /**
   * An environment file as `HttpClientBaseEnv` validates it: `$schema` a
   * string or `None`, `$shared` a section, and every other key a section.
   */
  function ValidateEnv(d: Dict<string, Value>, securityOk: Value -> bool): (r: Result<(), EnvError>)
    ensures r.Ok? <==>
      && SchemaFieldOk(Get(d, "$schema"))
      && SharedFieldOk(Get(d, "$shared"), securityOk)
      && forall e :: e in d && e.0 !in EnvFields ==> e.1.VDict? && ValidateSection(e.1.entries, securityOk).Ok?
    ensures !SchemaFieldOk(Get(d, "$schema")) ==> r == Err(WrongType("$schema"))
    ensures SchemaFieldOk(Get(d, "$schema")) && !SharedFieldOk(Get(d, "$shared"), securityOk) ==>
      r == Err(WrongType("$shared"))
    ensures SchemaFieldOk(Get(d, "$schema")) && SharedFieldOk(Get(d, "$shared"), securityOk) ==>
      r == ValidateExtraSections(Extra(d, EnvFields), securityOk)
  {
    if !SchemaFieldOk(Get(d, "$schema")) then Err(WrongType("$schema"))
    else if !SharedFieldOk(Get(d, "$shared"), securityOk) then Err(WrongType("$shared"))
    else
      var extra := Extra(d, EnvFields);
      var r := ValidateExtraSections(extra, securityOk);
      assert r.Ok? <==> forall e :: e in d && e.0 !in EnvFields ==> e.1.VDict? && ValidateSection(e.1.entries, securityOk).Ok? by {
        if r.Ok? {
          forall e | e in d && e.0 !in EnvFields
            ensures e.1.VDict? && ValidateSection(e.1.entries, securityOk).Ok?
          {
            assert e in extra;
            var i :| 0 <= i < |extra| && extra[i] == e;
          }
        } else {
          var i :| 0 <= i < |extra| && !(extra[i].1.VDict? && ValidateSection(extra[i].1.entries, securityOk).Ok?);
          assert extra[i] in extra;
        }
      }
      r
  }

  /** `$schema`: absent, a string or `None`. */
  predicate SchemaFieldOk(v: Option<Value>) {
    v.None? || v.value.VStr? || v.value.VNull?
  }

  /** `$shared`: absent, `None`, or a dict that makes a valid section. */
  predicate SharedFieldOk(v: Option<Value>, securityOk: Value -> bool) {
    v.None? || v.value.VNull? || (v.value.VDict? && ValidateSection(v.value.entries, securityOk).Ok?)
  }

  /** A key with a trailing newline passes the variable-key check. */
  lemma KeyTrailingNewline()
    ensures KeyMatches("API_KEY\n")
  {
    var key := "API_KEY\n";
    assert key[..|key| - 1] == "API_KEY";
    assert WordChars("API_KEY");
  }

  /** A dash, or an empty key, fails it. */
  lemma KeyWithDashRejected()
    ensures !KeyMatches("API-KEY") && !KeyMatches("")
  {
    var key := "API-KEY";
    assert key[|key| - 1] != '\n';
    assert !IsAlnum(key[3]) && key[3] != '_';
    assert !WordChars(key);
  }
}
