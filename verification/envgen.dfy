/**
 * The environment skeleton builder: from the Security Scheme Objects of a
 * document, a public and a private environment tree, each holding one
 * section keyed by the environment name. Secrets and placeholders for them
 * go only to the private tree.
 */
module EnvGenerator {
  import opened Results
  import opened Text
  import opened Dicts
  import opened Ordering
  import opened OpenApi
  import opened AuthParsing
  import opened EnvFiles

  /** The placeholder every secret starts out as. */
  const ChangeMe: string := "CHANGE_ME"

  /** The flows a generated config can describe, in order of preference. */
  predicate Offered(g: Grant) {
    g != DeviceAuthorization
  }

  /** The flow of an `OAuthFlows` object the grant reads. */
  function FlowFor(flows: OAuthFlows, g: Grant): Option<OAuthFlow>
    requires Offered(g)
  {
    match g
    case AuthorizationCode => flows.authorizationCode
    case ClientCredentials => flows.clientCredentials
    case Password => flows.password
    case Implicit => flows.implicit
  }

  /** The order `_choose_oauth2_flow` tries the flows in. */
  const Preference: seq<Grant> := [AuthorizationCode, ClientCredentials, Password, Implicit]

  /**
   * `_choose_oauth2_flow`: the first declared flow by preference, with its
   * grant label; nothing when the scheme has no flows.
   */
  function ChooseFlow(scheme: SecurityScheme): (r: Option<(Grant, OAuthFlow)>)
    ensures r.Some? ==> scheme.flows.Some? && Offered(r.value.0) && FlowFor(scheme.flows.value, r.value.0) == Some(r.value.1)
    ensures r.None? <==> scheme.flows.None? || forall g :: g in Preference ==> FlowFor(scheme.flows.value, g).None?
  {
    if scheme.flows.None? then None
    else
      var f := scheme.flows.value;
      if f.authorizationCode.Some? then Some((AuthorizationCode, f.authorizationCode.value))
      else if f.clientCredentials.Some? then Some((ClientCredentials, f.clientCredentials.value))
      else if f.password.Some? then Some((Password, f.password.value))
      else if f.implicit.Some? then Some((Implicit, f.implicit.value))
      else None
  }

  /** A flow is chosen only when every flow preferred to it is absent. */
  lemma ChooseFlowPreference(scheme: SecurityScheme, i: nat, j: nat)
    requires ChooseFlow(scheme).Some? && i < j < |Preference|
    requires ChooseFlow(scheme).value.0 == Preference[j]
    ensures FlowFor(scheme.flows.value, Preference[i]).None?
  {
  }

  /** `_flow_scopes_str`: the scope names, sorted and joined by spaces; nothing without scopes. */
  function FlowScopes(flow: OAuthFlow): (r: Option<string>)
    ensures r.None? <==> |flow.scopes| == 0
  {
    if |flow.scopes| == 0 then None
    else Some(Join(" ", SortBy(Keys(flow.scopes), Identity)))
  }

  function Identity(s: string): string {
    s
  }

  /** Every scope name appears in the scope string. */
  lemma FlowScopesListEach(flow: OAuthFlow, i: int)
    requires 0 <= i < |flow.scopes|
    ensures Contains(FlowScopes(flow).value, flow.scopes[i].0)
  {
    var names := SortBy(Keys(flow.scopes), Identity);
    assert flow.scopes[i].0 in multiset(Keys(flow.scopes));
    assert flow.scopes[i].0 in multiset(names);
    var k :| 0 <= k < |names| && names[k] == flow.scopes[i].0;
    JoinContainsEach(" ", names, k);
  }

  /** The scope names, in the order the string lists them, are sorted. */
  lemma FlowScopesSorted(flow: OAuthFlow)
    requires |flow.scopes| > 0
    ensures var names := SortBy(Keys(flow.scopes), Identity);
      FlowScopes(flow) == Some(Join(" ", names))
      && forall a, b :: 0 <= a < b < |names| ==> LexLe(names[a], names[b])
  {
  }

  /** A string field, present only when the value is truthy. */
  function TruthyField(key: string, v: Option<string>): Dict<string, Value> {
    if v.Some? && v.value != "" then [(key, VStr(v.value))] else []
  }

  /**
   * `_build_oauth2_public_config`: no config without a flow or for
   * Implicit; otherwise the type, grant, a placeholder client id, the URLs
   * the flow declares, and the scope string.
   */
  function PublicConfig(scheme: SecurityScheme): (r: Option<Dict<string, Value>>)
    ensures r.None? <==> ChooseFlow(scheme).None? || ChooseFlow(scheme).value.0 == Implicit
  {
    match ChooseFlow(scheme)
    case None => None
    case Some((grant, flow)) =>
      if grant == Implicit then None
      else Some(PublicHead(grant) + PublicUrls(grant, flow) + ScopeField(flow))
  }

  function PublicHead(grant: Grant): Dict<string, Value> {
    [("Type", VStr("OAuth2")), ("Grant Type", VStr(GrantLabel(grant))), ("Client ID", VStr(ChangeMe))]
  }

  /** The URLs of the flow the grant uses, each only when truthy; `Auth URL` only for Authorization Code. */
  function PublicUrls(grant: Grant, flow: OAuthFlow): Dict<string, Value> {
    (if grant == AuthorizationCode then TruthyField("Auth URL", flow.authorizationUrl) else [])
    + TruthyField("Token URL", flow.tokenUrl)
  }

  /** `if scopes:` — a scope string is set only when it is truthy (a lone `""` scope joins to `""`). */
  function ScopeField(flow: OAuthFlow): Dict<string, Value> {
    if FlowScopes(flow).Some? && FlowScopes(flow).value != "" then [("Scope", VStr(FlowScopes(flow).value))] else []
  }

  /** The keys a public config may use: none of them names a secret. */
  predicate IsPublicKey(k: string) {
    k in {"Type", "Grant Type", "Client ID", "Auth URL", "Token URL", "Scope"}
  }

  /** A public config starts with the type, the grant label and the placeholder client id. */
  lemma PublicConfigHead(scheme: SecurityScheme)
    requires PublicConfig(scheme).Some?
    ensures var cfg := PublicConfig(scheme).value;
      |cfg| >= 3 && cfg[0] == ("Type", VStr("OAuth2"))
      && cfg[1] == ("Grant Type", VStr(GrantLabel(ChooseFlow(scheme).value.0)))
      && cfg[2] == ("Client ID", VStr(ChangeMe))
  {
  }

  /** Every key of a public config is a public one, and `Auth URL` only appears for Authorization Code. */
  lemma PublicConfigKeys(scheme: SecurityScheme)
    requires PublicConfig(scheme).Some?
    ensures forall e :: e in PublicConfig(scheme).value ==> IsPublicKey(e.0)
    ensures forall e :: e in PublicConfig(scheme).value && e.0 == "Auth URL" ==> ChooseFlow(scheme).value.0 == AuthorizationCode
  {
    var (grant, flow) := ChooseFlow(scheme).value;
    var h, u, sc := PublicHead(grant), PublicUrls(grant, flow), ScopeField(flow);
    assert PublicConfig(scheme).value == h + u + sc;
    UrlsKeys(grant, flow);
    assert forall e :: e in sc ==> e.0 == "Scope";
    assert forall e :: e in h ==> e.0 in {"Type", "Grant Type", "Client ID"};
  }

  /** The URL part holds only the two URL keys, and `Auth URL` only for Authorization Code. */
  lemma UrlsKeys(grant: Grant, flow: OAuthFlow)
    ensures forall e :: e in PublicUrls(grant, flow) ==> e.0 == "Auth URL" || e.0 == "Token URL"
    ensures forall e :: e in PublicUrls(grant, flow) && e.0 == "Auth URL" ==> grant == AuthorizationCode
  {
    var au := if grant == AuthorizationCode then TruthyField("Auth URL", flow.authorizationUrl) else [];
    var tu := TruthyField("Token URL", flow.tokenUrl);
    assert PublicUrls(grant, flow) == au + tu;
  }

  /** No public config holds a secret. */
  lemma PublicConfigHoldsNoSecret(scheme: SecurityScheme)
    requires PublicConfig(scheme).Some?
    ensures Get(PublicConfig(scheme).value, "Client Secret").None?
    ensures Get(PublicConfig(scheme).value, "Username").None?
    ensures Get(PublicConfig(scheme).value, "Password").None?
  {
    var cfg := PublicConfig(scheme).value;
    PublicConfigKeys(scheme);
    assert forall k :: !IsPublicKey(k) ==> k !in Keys(cfg);
  }

  /**
   * A public Client Credentials or Password config never passes typed
   * validation: the grant needs a secret or a username that only the
   * private config carries.
   */
  lemma PublicConfigWithoutSecretDropped(scheme: SecurityScheme)
    requires PublicConfig(scheme).Some?
    requires ChooseFlow(scheme).value.0 in {ClientCredentials, Password}
    ensures ParseOAuth2(PublicConfig(scheme).value).Err?
  {
    var cfg := PublicConfig(scheme).value;
    var grant := ChooseFlow(scheme).value.0;
    PublicConfigHoldsNoSecret(scheme);
    PublicConfigHead(scheme);
    assert Get(cfg, "Grant Type") == Some(VStr(GrantLabel(grant))) by {
      assert cfg == [cfg[0]] + cfg[1..];
    }
    WithoutSecretRejected(cfg, grant);
  }

  /**
   * A config naming Client Credentials without a secret, or Password
   * without a username, fails typed validation.
   */
  lemma WithoutSecretRejected(cfg: Dict<string, Value>, grant: Grant)
    requires grant in {ClientCredentials, Password}
    requires Get(cfg, "Grant Type") == Some(VStr(GrantLabel(grant)))
    requires Get(cfg, "Client Secret").None? && Get(cfg, "Username").None?
    ensures ParseOAuth2(cfg).Err?
  {
    var r := ParseOAuth2(cfg);
    if r.Ok? {
      GrantLabelRoundTrip(grant);
      GrantLabelRoundTrip(r.value.grant);
    }
  }

  /** Where a public config keeps its URLs: each only when the flow declares a non-empty one. */
  lemma PublicConfigUrls(scheme: SecurityScheme)
    requires PublicConfig(scheme).Some?
    ensures var (grant, flow) := ChooseFlow(scheme).value;
      && Get(PublicConfig(scheme).value, "Auth URL")
         == (if grant == AuthorizationCode && flow.authorizationUrl.Some? && flow.authorizationUrl.value != ""
             then Some(VStr(flow.authorizationUrl.value)) else None)
      && Get(PublicConfig(scheme).value, "Token URL")
         == (if flow.tokenUrl.Some? && flow.tokenUrl.value != "" then Some(VStr(flow.tokenUrl.value)) else None)
  {
    var (grant, flow) := ChooseFlow(scheme).value;
    assert PublicConfig(scheme).value == PublicHead(grant) + PublicUrls(grant, flow) + ScopeField(flow);
    ConfigUrls(grant, flow);
  }

  /** The URL lookups of the parts of a public config. */
  lemma ConfigUrls(grant: Grant, flow: OAuthFlow)
    ensures var cfg := PublicHead(grant) + PublicUrls(grant, flow) + ScopeField(flow);
      && Get(cfg, "Auth URL")
         == (if grant == AuthorizationCode && flow.authorizationUrl.Some? && flow.authorizationUrl.value != ""
             then Some(VStr(flow.authorizationUrl.value)) else None)
      && Get(cfg, "Token URL")
         == (if flow.tokenUrl.Some? && flow.tokenUrl.value != "" then Some(VStr(flow.tokenUrl.value)) else None)
  {
    var h, u, sc := PublicHead(grant), PublicUrls(grant, flow), ScopeField(flow);
    assert Keys(h) == ["Type", "Grant Type", "Client ID"];
    assert Keys(sc) == [] || Keys(sc) == ["Scope"];
    MiddleGet(h, u, sc, "Auth URL");
    MiddleGet(h, u, sc, "Token URL");
    PublicUrlsGet(grant, flow);
  }

  /** A key the outer parts lack is looked up in the middle one. */
  lemma MiddleGet<V>(h: Dict<string, V>, u: Dict<string, V>, sc: Dict<string, V>, k: string)
    requires k !in Keys(h) && k !in Keys(sc)
    ensures Get(h + u + sc, k) == Get(u, k)
  {
    GetConcat(h + u, sc, k);
    GetConcat(h, u, k);
  }

  /** The two URL keys of `PublicUrls`. */
  lemma PublicUrlsGet(grant: Grant, flow: OAuthFlow)
    ensures Get(PublicUrls(grant, flow), "Auth URL")
         == (if grant == AuthorizationCode && flow.authorizationUrl.Some? && flow.authorizationUrl.value != ""
             then Some(VStr(flow.authorizationUrl.value)) else None)
    ensures Get(PublicUrls(grant, flow), "Token URL")
         == (if flow.tokenUrl.Some? && flow.tokenUrl.value != "" then Some(VStr(flow.tokenUrl.value)) else None)
  {
    var au := if grant == AuthorizationCode then TruthyField("Auth URL", flow.authorizationUrl) else [];
    var tu := TruthyField("Token URL", flow.tokenUrl);
    GetConcat(au, tu, "Auth URL");
    GetConcat(au, tu, "Token URL");
  }

  /** A public config misses every key that is not a public one. */
  lemma PublicConfigLacks(scheme: SecurityScheme, k: string)
    requires PublicConfig(scheme).Some? && !IsPublicKey(k)
    ensures Get(PublicConfig(scheme).value, k).None?
  {
    PublicConfigKeys(scheme);
    assert k !in Keys(PublicConfig(scheme).value);
  }

  /**
   * A config holding only the public keys of an Authorization Code grant,
   * with both URLs valid, passes typed validation.
   */
  lemma AuthCodeConfigAccepted(cfg: Dict<string, Value>, authUrl: string, tokenUrl: string)
    requires Get(cfg, "Type") == Some(VStr("OAuth2")) && Get(cfg, "Client ID") == Some(VStr(ChangeMe))
    requires Get(cfg, "Grant Type") == Some(VStr(GrantLabel(AuthorizationCode)))
    requires Get(cfg, "Auth URL") == Some(VStr(authUrl)) && authUrl != "" && UrlMatches(authUrl)
    requires Get(cfg, "Token URL") == Some(VStr(tokenUrl)) && tokenUrl != "" && UrlMatches(tokenUrl)
    requires Get(cfg, "Scope").None? || Get(cfg, "Scope").value.VStr?
    requires forall k :: k in OtherKeys ==> Get(cfg, k).None?
    ensures ParseOAuth2(cfg).Ok?
  {
    assert "Redirect URL" in OtherKeys && "Revoke URL" in OtherKeys;
    IdentityAccepted(cfg, AuthorizationCode, Some(authUrl), tokenUrl, ChangeMe);
    assert forall k :: k in ClientFieldKeys ==> k in OtherKeys;
    assert forall k :: k in OptionKeys ==> k in OtherKeys;
    AuthCodeDefaultsAccepted(cfg, ParseIdentity(cfg).value);
  }

  /** The `OAuth2Auth` aliases a public config never sets. */
  const OtherKeys: set<string> := {
    "Redirect URL", "Revoke URL", "Client Secret", "Device Auth URL", "Response Type", "Client Credentials",
    "PKCE", "Assertion", "JWT", "Expires In", "Acquire Automatically", "Username", "Password",
    "Custom Request Parameters", "Use ID Token"}

  /**
   * An Authorization Code public config survives typed validation exactly
   * when the flow declares both URLs and both are valid.
   */
  lemma AuthCodePublicSurvives(scheme: SecurityScheme)
    requires ChooseFlow(scheme).Some? && ChooseFlow(scheme).value.0 == AuthorizationCode
    ensures var flow := ChooseFlow(scheme).value.1;
      ParseOAuth2(PublicConfig(scheme).value).Ok?
      <==> && flow.authorizationUrl.Some? && flow.authorizationUrl.value != "" && UrlMatches(flow.authorizationUrl.value)
           && flow.tokenUrl.Some? && flow.tokenUrl.value != "" && UrlMatches(flow.tokenUrl.value)
  {
    var flow := ChooseFlow(scheme).value.1;
    var cfg := PublicConfig(scheme).value;
    PublicConfigUrls(scheme);
    if && flow.authorizationUrl.Some? && flow.authorizationUrl.value != "" && UrlMatches(flow.authorizationUrl.value)
       && flow.tokenUrl.Some? && flow.tokenUrl.value != "" && UrlMatches(flow.tokenUrl.value) {
      AuthCodePublicAccepted(scheme);
    }
    if ParseOAuth2(cfg).Ok? {
      PublicConfigHeadGets(scheme);
      AcceptedAuthCodeHasUrls(cfg);
    }
  }

  /** The "only if" half: an accepted Authorization Code config holds both URLs, non-empty and valid. */
  lemma AcceptedAuthCodeHasUrls(cfg: Dict<string, Value>)
    requires ParseOAuth2(cfg).Ok? && Get(cfg, "Grant Type") == Some(VStr(GrantLabel(AuthorizationCode)))
    ensures Get(cfg, "Auth URL").Some? && Get(cfg, "Auth URL").value.VStr?
    ensures var u := Get(cfg, "Auth URL").value.s; u != "" && UrlMatches(u)
    ensures Get(cfg, "Token URL").Some? && Get(cfg, "Token URL").value.VStr?
    ensures var u := Get(cfg, "Token URL").value.s; u != "" && UrlMatches(u)
  {
    var a := ParseOAuth2(cfg).value;
    GrantLabelRoundTrip(a.grant);
    GrantLabelRoundTrip(AuthorizationCode);
    assert a.grant == AuthorizationCode;
  }

  /** The "if" half: both URLs valid, the config passes. */
  lemma AuthCodePublicAccepted(scheme: SecurityScheme)
    requires ChooseFlow(scheme).Some? && ChooseFlow(scheme).value.0 == AuthorizationCode
    requires var flow := ChooseFlow(scheme).value.1;
      && flow.authorizationUrl.Some? && flow.authorizationUrl.value != "" && UrlMatches(flow.authorizationUrl.value)
      && flow.tokenUrl.Some? && flow.tokenUrl.value != "" && UrlMatches(flow.tokenUrl.value)
    ensures ParseOAuth2(PublicConfig(scheme).value).Ok?
  {
    var flow := ChooseFlow(scheme).value.1;
    var cfg := PublicConfig(scheme).value;
    PublicConfigUrls(scheme);
    PublicConfigHeadGets(scheme);
    PublicConfigScope(scheme);
    PublicConfigLacksOthers(scheme);
    AuthCodeConfigAccepted(cfg, flow.authorizationUrl.value, flow.tokenUrl.value);
  }

  /** The head entries, looked up by key. */
  lemma PublicConfigHeadGets(scheme: SecurityScheme)
    requires PublicConfig(scheme).Some?
    ensures var cfg := PublicConfig(scheme).value;
      && Get(cfg, "Type") == Some(VStr("OAuth2"))
      && Get(cfg, "Grant Type") == Some(VStr(GrantLabel(ChooseFlow(scheme).value.0)))
      && Get(cfg, "Client ID") == Some(VStr(ChangeMe))
  {
    var (grant, flow) := ChooseFlow(scheme).value;
    var rest := PublicUrls(grant, flow) + ScopeField(flow);
    assert PublicConfig(scheme).value == PublicHead(grant) + rest;
    HeadGets(grant, rest);
  }

  lemma HeadGets(grant: Grant, rest: Dict<string, Value>)
    ensures Get(PublicHead(grant) + rest, "Type") == Some(VStr("OAuth2"))
    ensures Get(PublicHead(grant) + rest, "Grant Type") == Some(VStr(GrantLabel(grant)))
    ensures Get(PublicHead(grant) + rest, "Client ID") == Some(VStr(ChangeMe))
  {
    var h := PublicHead(grant);
    GetConcat(h, rest, "Type");
    GetConcat(h, rest, "Grant Type");
    GetConcat(h, rest, "Client ID");
    assert Keys(h) == ["Type", "Grant Type", "Client ID"];
  }

  /** None of the other aliases is set in a public config. */
  lemma PublicConfigLacksOthers(scheme: SecurityScheme)
    requires PublicConfig(scheme).Some?
    ensures forall k :: k in OtherKeys ==> Get(PublicConfig(scheme).value, k).None?
  {
    forall k | k in OtherKeys
      ensures Get(PublicConfig(scheme).value, k).None?
    {
      OtherKeysNotPublic(k);
      PublicConfigLacks(scheme, k);
    }
  }

  lemma OtherKeysNotPublic(k: string)
    requires k in OtherKeys
    ensures !IsPublicKey(k)
  {
  }

  /**
   * The scope of a public config is the sorted, space-joined scope string
   * when that string is non-empty, and absent otherwise.
   */
  lemma PublicConfigScope(scheme: SecurityScheme)
    requires PublicConfig(scheme).Some?
    ensures var flow := ChooseFlow(scheme).value.1;
      Get(PublicConfig(scheme).value, "Scope")
      == if |flow.scopes| > 0 && Join(" ", SortBy(Keys(flow.scopes), Identity)) != ""
         then Some(VStr(Join(" ", SortBy(Keys(flow.scopes), Identity))))
         else None
  {
    var (grant, flow) := ChooseFlow(scheme).value;
    var h, u, sc := PublicHead(grant), PublicUrls(grant, flow), ScopeField(flow);
    assert PublicConfig(scheme).value == h + u + sc;
    assert Keys(h) == ["Type", "Grant Type", "Client ID"];
    UrlsLackScope(grant, flow);
    GetConcat(h, u, "Scope");
    GetConcat(h + u, sc, "Scope");
  }

  /** The URL part of a public config never holds the scope. */
  lemma UrlsLackScope(grant: Grant, flow: OAuthFlow)
    ensures Get(PublicUrls(grant, flow), "Scope").None?
  {
    var au := if grant == AuthorizationCode then TruthyField("Auth URL", flow.authorizationUrl) else [];
    var tu := TruthyField("Token URL", flow.tokenUrl);
    GetConcat(au, tu, "Scope");
  }

  /** `_build_oauth2_private_config`: the secret placeholders by grant. */
  function PrivateConfig(scheme: SecurityScheme): (r: Option<Dict<string, Value>>)
    ensures r.None? <==> ChooseFlow(scheme).Some? && ChooseFlow(scheme).value.0 == Implicit
    ensures r.Some? ==> |r.value| > 0 && forall e :: e in r.value ==> e.1 == VStr(ChangeMe)
  {
    match ChooseFlow(scheme)
    case None => Some([("Client Secret", VStr(ChangeMe))])
    case Some((grant, _)) =>
      match grant
      case ClientCredentials => Some([("Client Secret", VStr(ChangeMe))])
      case Password => Some([("Username", VStr(ChangeMe)), ("Password", VStr(ChangeMe)), ("Client Secret", VStr(ChangeMe))])
      case AuthorizationCode => Some([("Client Secret", VStr(ChangeMe))])
      case _ => None
  }

  /** The private keys by grant, as a table. */
  lemma PrivateConfigTable(scheme: SecurityScheme)
    ensures ChooseFlow(scheme).None? ==> Keys(PrivateConfig(scheme).value) == ["Client Secret"]
    ensures ChooseFlow(scheme).Some? && ChooseFlow(scheme).value.0 in {ClientCredentials, AuthorizationCode}
            ==> Keys(PrivateConfig(scheme).value) == ["Client Secret"]
    ensures ChooseFlow(scheme).Some? && ChooseFlow(scheme).value.0 == Password
            ==> Keys(PrivateConfig(scheme).value) == ["Username", "Password", "Client Secret"]
  {
  }

  /** The placeholder variables an `http` or `apiKey` scheme adds to the private section. */
  function SchemeVariables(alias: string, scheme: SecurityScheme): (r: seq<string>)
    ensures scheme.stype == "apiKey" ==> r == [alias]
    ensures scheme.stype !in {"http", "apiKey"} ==> r == []
  {
    if scheme.stype == "http" then
      var name := Lower(scheme.scheme.GetOr(""));
      if name == "basic" || name == "digest" then [alias + "_USERNAME", alias + "_PASSWORD"]
      else if name == "bearer" then [alias + "_TOKEN"]
      else []
    else if scheme.stype == "apiKey" then [alias]
    else []
  }

  /** The `http` schemes by auth scheme name, matched in any case. */
  lemma HttpSchemeVariables(alias: string, scheme: SecurityScheme)
    requires scheme.stype == "http"
    ensures Lower(scheme.scheme.GetOr("")) in {"basic", "digest"} ==> SchemeVariables(alias, scheme) == [alias + "_USERNAME", alias + "_PASSWORD"]
    ensures Lower(scheme.scheme.GetOr("")) == "bearer" ==> SchemeVariables(alias, scheme) == [alias + "_TOKEN"]
    ensures Lower(scheme.scheme.GetOr("")) !in {"basic", "digest", "bearer"} ==> SchemeVariables(alias, scheme) == []
  {
  }

  /** What the scan of the scheme table collects. */
  datatype Collected = Collected(
    publicAuth: Dict<string, Dict<string, Value>>,
    privateAuth: Dict<string, Dict<string, Value>>,
    privateVars: Dict<string, Value>)

  /** The placeholder entries for a list of names (`private_vars[k] = "CHANGE_ME"` for each). */
  function Placeholders(names: seq<string>): (r: Dict<string, Value>)
    ensures Keys(r) == names
    ensures forall e :: e in r ==> e.1 == VStr(ChangeMe)
  {
    seq(|names|, i requires 0 <= i < |names| => (names[i], VStr(ChangeMe)))
  }

  /** One pass of the loop body; a reference is skipped (`continue`). */
  function Step(acc: Collected, name: string, arg: SchemeArg): (r: Collected)
    ensures r.publicAuth == PutAll(acc.publicAuth, OAuthHead(name, arg, PublicConfig))
    ensures r.privateAuth == PutAll(acc.privateAuth, OAuthHead(name, arg, PrivateConfig))
    ensures r.privateVars == PutAll(acc.privateVars, Placeholders(VariableHead(name, arg)))
  {
    if arg.SchemeRef? then acc
    else if arg.s.stype == "oauth2" then
      var pub := PublicConfig(arg.s);
      var prv := PrivateConfig(arg.s);
      acc.(publicAuth := if pub.Some? then Put(acc.publicAuth, name, pub.value) else acc.publicAuth,
           privateAuth := if prv.Some? then Put(acc.privateAuth, name, prv.value) else acc.privateAuth)
    else acc.(privateVars := PutAll(acc.privateVars, Placeholders(SchemeVariables(Sanitize(name), arg.s))))
  }

  /** The loop over the security schemes, references skipped. */
  function Collect(acc: Collected, schemes: seq<(string, SchemeArg)>): (r: Collected)
    ensures r.publicAuth == PutAll(acc.publicAuth, OAuthEntries(schemes, PublicConfig))
    ensures r.privateAuth == PutAll(acc.privateAuth, OAuthEntries(schemes, PrivateConfig))
    ensures r.privateVars == PutAll(acc.privateVars, Placeholders(VariableNames(schemes)))
    decreases |schemes|
  {
    if |schemes| == 0 then acc
    else
      var (name, arg) := schemes[0];
      var rest := schemes[1..];
      PutAllConcat(acc.publicAuth, OAuthHead(name, arg, PublicConfig), OAuthEntries(rest, PublicConfig));
      PutAllConcat(acc.privateAuth, OAuthHead(name, arg, PrivateConfig), OAuthEntries(rest, PrivateConfig));
      assert Placeholders(VariableNames(schemes)) == Placeholders(VariableHead(name, arg)) + Placeholders(VariableNames(rest));
      PutAllConcat(acc.privateVars, Placeholders(VariableHead(name, arg)), Placeholders(VariableNames(rest)));
      Collect(Step(acc, name, arg), rest)
  }

  /** What one scheme assigns to an auth table: its config, for an `oauth2` scheme whose builder gives one. */
  function OAuthHead(name: string, arg: SchemeArg, config: SecurityScheme -> Option<Dict<string, Value>>)
    : Dict<string, Dict<string, Value>>
  {
    if arg.Scheme? && arg.s.stype == "oauth2" && config(arg.s).Some? then [(name, config(arg.s).value)] else []
  }

  /** The private variable names one non-reference, non-`oauth2` scheme assigns. */
  function VariableHead(name: string, arg: SchemeArg): seq<string> {
    if arg.Scheme? && arg.s.stype != "oauth2" then SchemeVariables(Sanitize(name), arg.s) else []
  }

  /** The `(name, config)` assignments the whole loop makes to one auth table, in order. */
  function OAuthEntries(schemes: seq<(string, SchemeArg)>, config: SecurityScheme -> Option<Dict<string, Value>>)
    : Dict<string, Dict<string, Value>>
    decreases |schemes|
  {
    if |schemes| == 0 then [] else OAuthHead(schemes[0].0, schemes[0].1, config) + OAuthEntries(schemes[1..], config)
  }

  /** The private variable names the whole loop assigns, in order. */
  function VariableNames(schemes: seq<(string, SchemeArg)>): seq<string>
    decreases |schemes|
  {
    if |schemes| == 0 then [] else VariableHead(schemes[0].0, schemes[0].1) + VariableNames(schemes[1..])
  }

  /** `e` is the assignment of a non-reference `oauth2` scheme in the table. */
  predicate FromOAuthScheme(schemes: seq<(string, SchemeArg)>, config: SecurityScheme -> Option<Dict<string, Value>>,
                            e: (string, Dict<string, Value>)) {
    exists i :: 0 <= i < |schemes| && schemes[i].0 == e.0 && schemes[i].1.Scheme? && schemes[i].1.s.stype == "oauth2"
                && config(schemes[i].1.s) == Some(e.1)
  }

  /** Nothing else is assigned: every entry comes from an `oauth2` scheme of that name. */
  lemma {:induction false} OAuthEntriesFrom(schemes: seq<(string, SchemeArg)>,
                                            config: SecurityScheme -> Option<Dict<string, Value>>)
    ensures forall e :: e in OAuthEntries(schemes, config) ==> FromOAuthScheme(schemes, config, e)
    decreases |schemes|
  {
    if |schemes| > 0 {
      OAuthEntriesFrom(schemes[1..], config);
      forall e | e in OAuthEntries(schemes, config)
        ensures FromOAuthScheme(schemes, config, e)
      {
        if e !in OAuthEntries(schemes[1..], config) {
          assert schemes[0].0 == e.0;
        } else {
          assert FromOAuthScheme(schemes[1..], config, e);
          var i :| 0 <= i < |schemes[1..]| && schemes[1..][i].0 == e.0 && schemes[1..][i].1.Scheme?
                   && schemes[1..][i].1.s.stype == "oauth2" && config(schemes[1..][i].1.s) == Some(e.1);
          assert schemes[i + 1] == schemes[1..][i];
        }
      }
    }
  }

  /**
   * With distinct scheme names, an `oauth2` scheme's name ends up holding its
   * config when the builder gives one, and keeps its old value otherwise.
   */
  lemma {:induction false} OAuthEntriesGet(d: Dict<string, Dict<string, Value>>, schemes: seq<(string, SchemeArg)>,
                                           config: SecurityScheme -> Option<Dict<string, Value>>, i: int)
    requires DistinctKeys(schemes) && 0 <= i < |schemes|
    requires schemes[i].1.Scheme? && schemes[i].1.s.stype == "oauth2"
    ensures Get(PutAll(d, OAuthEntries(schemes, config)), schemes[i].0)
            == if config(schemes[i].1.s).Some? then config(schemes[i].1.s) else Get(d, schemes[i].0)
    decreases |schemes|
  {
    var name := schemes[i].0;
    var rest := OAuthEntries(schemes[1..], config);
    var (n0, arg0) := schemes[0];
    var head := OAuthHead(n0, arg0, config);
    PutAllConcat(d, head, rest);
    DistinctTail(schemes);
    if i == 0 {
      OAuthEntriesFrom(schemes[1..], config);
      forall j | 0 <= j < |rest|
        ensures rest[j].0 != name
      {
        assert rest[j] in rest;
        var k :| 0 <= k < |schemes[1..]| && schemes[1..][k].0 == rest[j].0 && schemes[1..][k].1.Scheme?
                 && schemes[1..][k].1.s.stype == "oauth2" && config(schemes[1..][k].1.s) == Some(rest[j].1);
        assert schemes[1..][k].0 in Keys(schemes[1..]);
      }
      PutAllUnassigned(PutAll(d, head), rest, name);
      if head != [] {
        PutGet(d, n0, config(arg0.s).value, name);
      }
    } else {
      assert schemes[1..][i - 1] == schemes[i];
      OAuthEntriesGet(PutAll(d, head), schemes[1..], config, i - 1);
      assert schemes[0].0 != schemes[i].0;
      if head != [] {
        PutGet(d, n0, config(arg0.s).value, name);
      }
    }
  }

  /** A name ends up a private variable exactly when some non-reference, non-`oauth2` scheme gives it. */
  lemma {:induction false} VariableNamesMembers(schemes: seq<(string, SchemeArg)>, x: string)
    ensures x in VariableNames(schemes) <==>
      exists i :: 0 <= i < |schemes| && schemes[i].1.Scheme? && schemes[i].1.s.stype != "oauth2"
                  && x in SchemeVariables(Sanitize(schemes[i].0), schemes[i].1.s)
    decreases |schemes|
  {
    if |schemes| > 0 {
      VariableNamesMembers(schemes[1..], x);
      if exists i :: 0 <= i < |schemes[1..]| && schemes[1..][i].1.Scheme? && schemes[1..][i].1.s.stype != "oauth2"
                     && x in SchemeVariables(Sanitize(schemes[1..][i].0), schemes[1..][i].1.s) {
        var i :| 0 <= i < |schemes[1..]| && schemes[1..][i].1.Scheme? && schemes[1..][i].1.s.stype != "oauth2"
                 && x in SchemeVariables(Sanitize(schemes[1..][i].0), schemes[1..][i].1.s);
        assert schemes[i + 1] == schemes[1..][i];
      }
      if exists i :: 0 <= i < |schemes| && schemes[i].1.Scheme? && schemes[i].1.s.stype != "oauth2"
                     && x in SchemeVariables(Sanitize(schemes[i].0), schemes[i].1.s) {
        var i :| 0 <= i < |schemes| && schemes[i].1.Scheme? && schemes[i].1.s.stype != "oauth2"
                 && x in SchemeVariables(Sanitize(schemes[i].0), schemes[i].1.s);
        if i > 0 {
          assert schemes[1..][i - 1] == schemes[i];
        }
      }
    }
  }

  /** The private variables: the old keys, then each collected name where it first occurs. */
  lemma CollectVariableKeys(acc: Collected, schemes: seq<(string, SchemeArg)>)
    ensures Keys(Collect(acc, schemes).privateVars) == AppendNew(Keys(acc.privateVars), VariableNames(schemes))
  {
    PutAllKeys(acc.privateVars, Placeholders(VariableNames(schemes)));
  }

  /** The two auth tables gain only the names of `oauth2` schemes, in first-assignment order. */
  lemma CollectAuthKeys(acc: Collected, schemes: seq<(string, SchemeArg)>)
    ensures Keys(Collect(acc, schemes).publicAuth) == AppendNew(Keys(acc.publicAuth), Keys(OAuthEntries(schemes, PublicConfig)))
    ensures Keys(Collect(acc, schemes).privateAuth) == AppendNew(Keys(acc.privateAuth), Keys(OAuthEntries(schemes, PrivateConfig)))
    ensures forall e :: e in OAuthEntries(schemes, PublicConfig) ==> FromOAuthScheme(schemes, PublicConfig, e)
    ensures forall e :: e in OAuthEntries(schemes, PrivateConfig) ==> FromOAuthScheme(schemes, PrivateConfig, e)
  {
    PutAllKeys(acc.publicAuth, OAuthEntries(schemes, PublicConfig));
    PutAllKeys(acc.privateAuth, OAuthEntries(schemes, PrivateConfig));
    OAuthEntriesFrom(schemes, PublicConfig);
    OAuthEntriesFrom(schemes, PrivateConfig);
  }

  /**
   * With distinct scheme names, an `oauth2` scheme's public and private
   * configs are stored under its (unsanitised) name.
   */
  lemma CollectAuthGet(acc: Collected, schemes: seq<(string, SchemeArg)>, i: int)
    requires DistinctKeys(schemes) && 0 <= i < |schemes|
    requires schemes[i].1.Scheme? && schemes[i].1.s.stype == "oauth2"
    ensures var s := schemes[i].1.s;
      Get(Collect(acc, schemes).publicAuth, schemes[i].0)
      == if PublicConfig(s).Some? then PublicConfig(s) else Get(acc.publicAuth, schemes[i].0)
    ensures var s := schemes[i].1.s;
      Get(Collect(acc, schemes).privateAuth, schemes[i].0)
      == if PrivateConfig(s).Some? then PrivateConfig(s) else Get(acc.privateAuth, schemes[i].0)
  {
    OAuthEntriesGet(acc.publicAuth, schemes, PublicConfig, i);
    OAuthEntriesGet(acc.privateAuth, schemes, PrivateConfig, i);
  }

  /** Every collected variable is a placeholder. */
  ghost predicate AllPlaceholders(d: Dict<string, Value>) {
    forall e :: e in d ==> e.1 == VStr(ChangeMe)
  }

  /** Every public config collected carries no secret field. */
  ghost predicate PublicOnly(d: Dict<string, Dict<string, Value>>) {
    forall e :: e in d ==> forall f :: f in e.1 ==> IsPublicKey(f.0)
  }

  lemma {:induction false} PutAllPlaceholders(d: Dict<string, Value>, names: seq<string>)
    requires AllPlaceholders(d)
    ensures AllPlaceholders(PutAll(d, Placeholders(names)))
    decreases |names|
  {
    if |names| > 0 {
      PutPreserves(d, names[0], VStr(ChangeMe), (e: (string, Value)) => e.1 == VStr(ChangeMe));
      assert Placeholders(names)[1..] == Placeholders(names[1..]);
      PutAllPlaceholders(Put(d, names[0], VStr(ChangeMe)), names[1..]);
    }
  }

  /** One pass keeps private variables placeholders and public configs secret-free. */
  lemma StepInvariant(acc: Collected, name: string, arg: SchemeArg)
    requires AllPlaceholders(acc.privateVars) && PublicOnly(acc.publicAuth)
    ensures AllPlaceholders(Step(acc, name, arg).privateVars)
    ensures PublicOnly(Step(acc, name, arg).publicAuth)
  {
    if arg.Scheme? {
      var scheme := arg.s;
      if scheme.stype == "oauth2" {
        var pub := PublicConfig(scheme);
        if pub.Some? {
          PublicConfigKeys(scheme);
          PutPreserves(acc.publicAuth, name, pub.value,
                       (e: (string, Dict<string, Value>)) => forall f :: f in e.1 ==> IsPublicKey(f.0));
        }
      } else {
        PutAllPlaceholders(acc.privateVars, SchemeVariables(Sanitize(name), scheme));
      }
    }
  }

  /** The scan keeps private variables placeholders and public configs secret-free. */
  lemma {:induction false} CollectInvariant(acc: Collected, schemes: seq<(string, SchemeArg)>)
    requires AllPlaceholders(acc.privateVars) && PublicOnly(acc.publicAuth)
    ensures AllPlaceholders(Collect(acc, schemes).privateVars)
    ensures PublicOnly(Collect(acc, schemes).publicAuth)
    decreases |schemes|
  {
    if |schemes| > 0 {
      StepInvariant(acc, schemes[0].0, schemes[0].1);
      CollectInvariant(Step(acc, schemes[0].0, schemes[0].1), schemes[1..]);
    }
  }

  /** An optional string as JSON. */
  function OptValue(v: Option<string>): Value {
    if v.Some? then VStr(v.value) else VNull
  }

  /** Every field of an `OAuth2Auth` by alias, in declaration order. */
  function OAuth2Fields(a: OAuth2Auth): Dict<string, Value> {
    [("Type", VStr(a.typeName)), ("Grant Type", VStr(GrantLabel(a.grant))), ("Auth URL", OptValue(a.authUrl)),
     ("Token URL", VStr(a.tokenUrl)), ("Redirect URL", OptValue(a.redirectUrl)), ("Revoke URL", OptValue(a.revokeUrl)),
     ("Client ID", VStr(a.clientId)), ("Client Secret", OptValue(a.clientSecret)),
     ("Device Auth URL", OptValue(a.deviceAuthUrl)), ("Response Type", OptValue(a.responseType)),
     ("Client Credentials", VStr(a.clientCredentials)), ("PKCE", a.pkce), ("Assertion", OptValue(a.assertion)),
     ("JWT", a.jwt), ("Scope", OptValue(a.scope)), ("Expires In", VInt(a.expiresIn)),
     ("Acquire Automatically", VBool(a.acquireAutomatically)), ("Username", OptValue(a.username)),
     ("Password", OptValue(a.password)), ("Custom Request Parameters", a.customRequestParameters),
     ("Use ID Token", VBool(a.useIdToken))]
  }

  /** `exclude_none=True`: the entries whose value is not `None`, in order. */
  function ExcludeNone(d: Dict<string, Value>): (r: Dict<string, Value>)
    ensures forall e :: e in r <==> e in d && e.1 != VNull
    decreases |d|
  {
    if |d| == 0 then []
    else if d[0].1 == VNull then ExcludeNone(d[1..])
    else [d[0]] + ExcludeNone(d[1..])
  }

  /** `model_dump(by_alias=True, exclude_none=True)` of a validated `OAuth2Auth`. */
  function DumpOAuth2(a: OAuth2Auth): Dict<string, Value> {
    ExcludeNone(OAuth2Fields(a))
  }

  /** The dump names the grant and the token URL, and holds the client secret when one is set. */
  lemma DumpOAuth2Holds(a: OAuth2Auth)
    ensures ("Grant Type", VStr(GrantLabel(a.grant))) in DumpOAuth2(a)
    ensures ("Token URL", VStr(a.tokenUrl)) in DumpOAuth2(a)
    ensures a.clientSecret.Some? ==> ("Client Secret", VStr(a.clientSecret.value)) in DumpOAuth2(a)
  {
    var f := OAuth2Fields(a);
    assert f[1] == ("Grant Type", VStr(GrantLabel(a.grant)));
    assert f[3] == ("Token URL", VStr(a.tokenUrl));
    assert f[7] == ("Client Secret", OptValue(a.clientSecret));
    KeptIfSet(f, 1);
    KeptIfSet(f, 3);
    if a.clientSecret.Some? {
      KeptIfSet(f, 7);
    }
  }

  /** An entry whose value is not `None` survives `exclude_none`. */
  lemma KeptIfSet(d: Dict<string, Value>, i: int)
    requires 0 <= i < |d| && d[i].1 != VNull
    ensures d[i] in ExcludeNone(d)
  {
    assert d[i] in d;
  }

  /**
   * The typed-validation loop: each config `parse` accepts, dumped under
   * its name; the ones it rejects (an exception in the source) dropped.
   */
  function Survivors(auth: Dict<string, Dict<string, Value>>, parse: Dict<string, Value> -> Option<Value>): (r: Dict<string, Value>)
    ensures |r| <= |auth|
    ensures forall e :: e in r ==> exists j :: 0 <= j < |auth| && auth[j].0 == e.0 && parse(auth[j].1) == Some(e.1)
    decreases |auth|
  {
    if |auth| == 0 then []
    else
      var rest := Survivors(auth[1..], parse);
      assert forall e :: e in rest ==> exists j :: 0 <= j < |auth| && auth[j].0 == e.0 && parse(auth[j].1) == Some(e.1) by {
        forall e | e in rest
          ensures exists j :: 0 <= j < |auth| && auth[j].0 == e.0 && parse(auth[j].1) == Some(e.1)
        {
          var j :| 0 <= j < |auth[1..]| && auth[1..][j].0 == e.0 && parse(auth[1..][j].1) == Some(e.1);
          assert auth[j + 1] == auth[1..][j];
        }
      }
      match parse(auth[0].1)
      case Some(v) => [(auth[0].0, v)] + rest
      case None => rest
  }

  /** An entry survives exactly when it parses, whatever its siblings do. */
  lemma {:induction false} SurvivorsKeep(auth: Dict<string, Dict<string, Value>>, parse: Dict<string, Value> -> Option<Value>, i: int)
    requires 0 <= i < |auth| && DistinctKeys(auth)
    ensures auth[i].0 in Keys(Survivors(auth, parse)) <==> parse(auth[i].1).Some?
    decreases |auth|
  {
    var rest := Survivors(auth[1..], parse);
    if i > 0 {
      assert DistinctKeys(auth[1..]);
      SurvivorsKeep(auth[1..], parse, i - 1);
      assert auth[1..][i - 1] == auth[i];
      assert auth[0].0 != auth[i].0;
    } else if auth[0].0 in Keys(rest) {
      var k :| 0 <= k < |rest| && Keys(rest)[k] == auth[0].0;
      assert rest[k] in rest;
    }
  }

  /** `OAuth2Auth(**cfg)` dumped by alias, or nothing when it raises. */
  function PublicParse(cfg: Dict<string, Value>): (r: Option<Value>)
    ensures r.Some? <==> ParseOAuth2(cfg).Ok?
  {
    match ParseOAuth2(cfg)
    case Ok(a) => Some(VDict(DumpOAuth2(a)))
    case Err(_) => None
  }

  /** `Security(Auth=...)` dumped, present only when an entry survived. */
  function SecurityEntry(typed: Dict<string, Value>): (r: Dict<string, Value>)
    ensures r == [] <==> typed == []
  {
    if typed == [] then [] else [("Security", VDict([("Auth", VDict(typed))]))]
  }

  /** The two trees: one section each, keyed by the environment name. */
  datatype EnvTrees = EnvTrees(public: Dict<string, Value>, private: Dict<string, Value>)

  /** The scan over the document's security schemes. */
  function CollectAll(doc: Document): Collected {
    Collect(Collected([], [], []), doc.securitySchemes.GetOr([]))
  }

  /**
   * `generate_env_dicts`. The `$schema` defaults of the two env models are
   * parameters, and so is `PrivateOAuth2Auth(**cfg)` dumped (`None` when it
   * raises).
   */
  function GenerateEnvDicts(doc: Document, envName: string, publicSchema: string, privateSchema: string,
                            privateParse: Dict<string, Value> -> Option<Value>): (r: EnvTrees)
    ensures |r.public| == 2 && r.public[0] == ("$schema", VStr(publicSchema)) && r.public[1].0 == envName
    ensures |r.private| == 2 && r.private[0] == ("$schema", VStr(privateSchema)) && r.private[1].0 == envName
    ensures r.public[1].1.VDict? && r.private[1].1.VDict?
  {
    var c := CollectAll(doc);
    var publicSection := SecurityEntry(Survivors(c.publicAuth, PublicParse));
    var privateSection := PrivateSection(c, privateParse);
    EnvTrees([("$schema", VStr(publicSchema)), (envName, VDict(publicSection))],
             [("$schema", VStr(privateSchema)), (envName, VDict(privateSection))])
  }

  /** The private section: `Security` over the private survivors, then the variables. */
  function PrivateSection(c: Collected, privateParse: Dict<string, Value> -> Option<Value>): Dict<string, Value> {
    SecurityEntry(Survivors(c.privateAuth, privateParse)) + c.privateVars
  }

  /** Apart from `Security`, the private section's keys are the collected variables. */
  lemma PrivateSectionKeys(c: Collected, privateParse: Dict<string, Value> -> Option<Value>, x: string)
    ensures x != "Security" ==> (x in Keys(PrivateSection(c, privateParse)) <==> x in Keys(c.privateVars))
  {
    var sec := SecurityEntry(Survivors(c.privateAuth, privateParse));
    assert Keys(sec + c.privateVars) == Keys(sec) + Keys(c.privateVars);
  }

  /** A name is a collected variable exactly when some non-reference, non-`oauth2` scheme gives it. */
  lemma CollectedVariable(schemes: seq<(string, SchemeArg)>, x: string)
    ensures x in Keys(Collect(Collected([], [], []), schemes).privateVars) <==>
      exists i :: 0 <= i < |schemes| && schemes[i].1.Scheme? && schemes[i].1.s.stype != "oauth2"
                  && x in SchemeVariables(Sanitize(schemes[i].0), schemes[i].1.s)
  {
    CollectVariableKeys(Collected([], [], []), schemes);
    AppendNewMembers([], VariableNames(schemes), x);
    VariableNamesMembers(schemes, x);
  }

  /**
   * Every placeholder a non-reference, non-`oauth2` scheme asks for is a key
   * of the private section, and every key of it other than `Security` is one.
   */
  lemma PrivateSectionVariables(doc: Document, envName: string, publicSchema: string, privateSchema: string,
                                privateParse: Dict<string, Value> -> Option<Value>, x: string)
    ensures var s := GenerateEnvDicts(doc, envName, publicSchema, privateSchema, privateParse).private[1].1.entries;
      var ss := doc.securitySchemes.GetOr([]);
      x != "Security" ==>
        (x in Keys(s) <==>
          exists i :: 0 <= i < |ss| && ss[i].1.Scheme? && ss[i].1.s.stype != "oauth2"
                      && x in SchemeVariables(Sanitize(ss[i].0), ss[i].1.s))
  {
    PrivateSectionKeys(CollectAll(doc), privateParse, x);
    CollectedVariable(doc.securitySchemes.GetOr([]), x);
  }

  /** The private section is `PrivateSection` over the scan. */
  lemma PrivateSectionEntries(doc: Document, envName: string, publicSchema: string, privateSchema: string,
                              privateParse: Dict<string, Value> -> Option<Value>)
    ensures GenerateEnvDicts(doc, envName, publicSchema, privateSchema, privateParse).private[1].1.entries
            == PrivateSection(CollectAll(doc), privateParse)
  {
  }

  /** A placeholder of scheme `i` other than `Security` is a key of the private section. */
  lemma SchemeVariableInPrivate(schemes: seq<(string, SchemeArg)>, privateParse: Dict<string, Value> -> Option<Value>,
                                i: int, x: string)
    requires 0 <= i < |schemes| && schemes[i].1.Scheme? && schemes[i].1.s.stype != "oauth2"
    requires x in SchemeVariables(Sanitize(schemes[i].0), schemes[i].1.s) && x != "Security"
    ensures x in Keys(PrivateSection(Collect(Collected([], [], []), schemes), privateParse))
  {
    CollectedVariable(schemes, x);
    PrivateSectionKeys(Collect(Collected([], [], []), schemes), privateParse, x);
  }

  /** An `http` basic scheme named `n` puts `N_USERNAME` and `N_PASSWORD` in the private section. */
  lemma BasicSchemeCredentials(doc: Document, envName: string, publicSchema: string, privateSchema: string,
                               privateParse: Dict<string, Value> -> Option<Value>, i: int)
    requires doc.securitySchemes.Some? && 0 <= i < |doc.securitySchemes.value|
    requires var arg := doc.securitySchemes.value[i].1;
      arg.Scheme? && arg.s.stype == "http" && Lower(arg.s.scheme.GetOr("")) == "basic"
    ensures var s := GenerateEnvDicts(doc, envName, publicSchema, privateSchema, privateParse).private[1].1.entries;
      var alias := Sanitize(doc.securitySchemes.value[i].0);
      alias + "_USERNAME" in Keys(s) && alias + "_PASSWORD" in Keys(s)
  {
    var ss := doc.securitySchemes.value;
    var alias := Sanitize(ss[i].0);
    HttpSchemeVariables(alias, ss[i].1.s);
    assert (alias + "_USERNAME")[|alias| + 1] == 'U' && (alias + "_PASSWORD")[|alias| + 1] == 'P';
    SchemeVariableInPrivate(ss, privateParse, i, alias + "_USERNAME");
    SchemeVariableInPrivate(ss, privateParse, i, alias + "_PASSWORD");
    PrivateSectionEntries(doc, envName, publicSchema, privateSchema, privateParse);
    assert CollectAll(doc) == Collect(Collected([], [], []), ss);
    var keys := Keys(PrivateSection(CollectAll(doc), privateParse));
    assert alias + "_USERNAME" in keys && alias + "_PASSWORD" in keys;
  }

  /** The public section holds at most the `Security` entry; every variable is private. */
  lemma PublicSectionHoldsNoVariables(doc: Document, envName: string, publicSchema: string, privateSchema: string,
                                      privateParse: Dict<string, Value> -> Option<Value>)
    ensures var s := GenerateEnvDicts(doc, envName, publicSchema, privateSchema, privateParse).public[1].1.entries;
      forall e :: e in s ==> e.0 == "Security"
  {
  }

  /**
   * The private section: `Security` when a private config survived, then
   * the placeholder variables, each `CHANGE_ME`.
   */
  lemma PrivateSectionShape(doc: Document, envName: string, publicSchema: string, privateSchema: string,
                            privateParse: Dict<string, Value> -> Option<Value>)
    ensures var s := GenerateEnvDicts(doc, envName, publicSchema, privateSchema, privateParse).private[1].1.entries;
      forall e :: e in s && e.0 != "Security" ==> e.1 == VStr(ChangeMe)
  {
    var c := CollectAll(doc);
    CollectInvariant(Collected([], [], []), doc.securitySchemes.GetOr([]));
    var sec := SecurityEntry(Survivors(c.privateAuth, privateParse));
    forall e | e in sec + c.privateVars && e.0 != "Security"
      ensures e.1 == VStr(ChangeMe)
    {
      assert e in c.privateVars;
    }
  }

  /** A public `Security` entry appears exactly when some public config validates. */
  lemma PublicSecurityIffSurvivor(doc: Document, envName: string, publicSchema: string, privateSchema: string,
                                  privateParse: Dict<string, Value> -> Option<Value>)
    ensures GenerateEnvDicts(doc, envName, publicSchema, privateSchema, privateParse).public[1].1.entries != []
            <==> exists i :: 0 <= i < |CollectAll(doc).publicAuth| && ParseOAuth2(CollectAll(doc).publicAuth[i].1).Ok?
  {
    PublicSectionEntries(doc, envName, publicSchema, privateSchema, privateParse);
    SurvivorsIff(CollectAll(doc).publicAuth, PublicParse);
    PublicParseIff(CollectAll(doc).publicAuth);
  }

  /** The public section is the `Security` entry over the public survivors. */
  lemma PublicSectionEntries(doc: Document, envName: string, publicSchema: string, privateSchema: string,
                             privateParse: Dict<string, Value> -> Option<Value>)
    ensures GenerateEnvDicts(doc, envName, publicSchema, privateSchema, privateParse).public[1].1.entries
            == SecurityEntry(Survivors(CollectAll(doc).publicAuth, PublicParse))
  {
  }

  /** Some entry has a public dump exactly when some entry validates. */
  lemma PublicParseIff(auth: Dict<string, Dict<string, Value>>)
    ensures (exists i :: 0 <= i < |auth| && PublicParse(auth[i].1).Some?)
            <==> exists i :: 0 <= i < |auth| && ParseOAuth2(auth[i].1).Ok?
  {
    assert forall i :: 0 <= i < |auth| ==> (PublicParse(auth[i].1).Some? <==> ParseOAuth2(auth[i].1).Ok?);
  }

  /** Some entry survives exactly when some entry parses. */
  lemma SurvivorsIff(auth: Dict<string, Dict<string, Value>>, parse: Dict<string, Value> -> Option<Value>)
    ensures Survivors(auth, parse) != [] <==> exists i :: 0 <= i < |auth| && parse(auth[i].1).Some?
  {
    var typed := Survivors(auth, parse);
    if typed != [] {
      assert typed[0] in typed;
      var j :| 0 <= j < |auth| && auth[j].0 == typed[0].0 && parse(auth[j].1) == Some(typed[0].1);
    }
    if exists i :: 0 <= i < |auth| && parse(auth[i].1).Some? {
      var i :| 0 <= i < |auth| && parse(auth[i].1).Some?;
      SurvivorsNonEmpty(auth, parse, i);
    }
  }

  /** One entry that parses is enough for a survivor. */
  lemma {:induction false} SurvivorsNonEmpty(auth: Dict<string, Dict<string, Value>>, parse: Dict<string, Value> -> Option<Value>, i: int)
    requires 0 <= i < |auth| && parse(auth[i].1).Some?
    ensures Survivors(auth, parse) != []
    decreases |auth|
  {
    if i > 0 && parse(auth[0].1).None? {
      assert auth[1..][i - 1] == auth[i];
      SurvivorsNonEmpty(auth[1..], parse, i - 1);
    }
  }
}
