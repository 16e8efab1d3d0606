/**
 * Security application: renders the first alternative of the effective
 * security requirement into header, query and cookie text, using the
 * `{{VAR}}` conventions of .http files.
 */
module AuthParsing {
  import opened Results
  import opened Text
  import opened Dicts
  import opened OpenApi
  import opened Vars
  import ParameterParsing

  /** Accessing `.type` on an unresolved Reference Object raises AttributeError. */
  datatype AuthError = SchemeIsReference(schemeName: string)

  type Headers = Dict<string, string>

  /** `_sanitize`: each non-alphanumeric character becomes `_`, then upper case. */
  function Sanitize(name: string): (r: string)
    ensures |r| == |name|
    ensures forall i :: 0 <= i < |r| ==> (r[i] == '_' <==> !IsAlnum(name[i]))
    ensures forall i :: 0 <= i < |r| ==> r[i] == '_' || (IsAlnum(r[i]) && !('a' <= r[i] <= 'z'))
    ensures forall i :: 0 <= i < |r| ==> IsAlnum(name[i]) ==> LowerChar(r[i]) == LowerChar(name[i])
  {
    seq(|name|, i requires 0 <= i < |name| => if IsAlnum(name[i]) then UpperChar(name[i]) else '_')
  }

  /** Sanitizing twice is sanitizing once. */
  lemma SanitizeIdempotent(name: string)
    ensures Sanitize(Sanitize(name)) == Sanitize(name)
  {
  }

  /** An upper-case identifier is its own alias. */
  lemma SanitizeFixesIdentifiers(name: string)
    requires forall i :: 0 <= i < |name| ==> name[i] == '_' || (IsAlnum(name[i]) && !('a' <= name[i] <= 'z'))
    ensures Sanitize(name) == name
  {
  }

  /**
   * `_choose_effective_security`: the operation's own requirement when it
   * has one (an empty list disabling security), otherwise the root's.
   */
  function ChooseEffectiveSecurity(own: Option<seq<Alternative>>, root: Option<seq<Alternative>>): (r: seq<Alternative>)
    ensures own.Some? ==> r == own.value
    ensures own.None? && root.Some? ==> r == root.value
    ensures own.None? && root.None? ==> r == []
  {
    if own.None? then root.GetOr([]) else own.value
  }

  /** An explicit empty requirement disables the root's, however many it lists. */
  lemma EmptyOwnSecurityDisables(root: Option<seq<Alternative>>)
    ensures ChooseEffectiveSecurity(Some([]), root) == []
  {
  }

  /** `{{name}}`. */
  function Placeholder(name: string): string {
    "{{" + name + "}}"
  }

  /** The `Authorization` value of an HTTP scheme, by lower-cased scheme name. */
  function HttpAuthorization(httpScheme: string, alias: string): Option<string> {
    var s := Lower(httpScheme);
    if s == "basic" then Some("Basic " + Placeholder(alias + "_USERNAME") + ":" + Placeholder(alias + "_PASSWORD"))
    else if s == "bearer" then Some("Bearer " + Placeholder(alias + "_TOKEN"))
    else if s == "digest" then Some("Digest " + Placeholder(alias + "_USERNAME") + ":" + Placeholder(alias + "_PASSWORD"))
    else if s == "ntlm" then Some("NTLM")
    else if s == "negotiate" then Some("Negotiate")
    else None
  }

  /** The text of `scheme.name or "api_key"`. */
  function ApiKeyName(scheme: SecurityScheme): string {
    if scheme.name.Some? && scheme.name.value != "" then scheme.name.value else "api_key"
  }

  /** The text of `(scheme.in or "header").lower()`. */
  function ApiKeyLocation(scheme: SecurityScheme): string {
    if scheme.location.Some? && scheme.location.value != "" then Lower(scheme.location.value) else "header"
  }

  /** The cookie pair of an apiKey, appended to a non-empty `Cookie` with `"; "`. */
  function AddCookie(headers: Headers, pair: string): (r: Headers)
    ensures Get(headers, "Cookie").Some? && Get(headers, "Cookie").value != ""
            ==> Get(r, "Cookie") == Some(Get(headers, "Cookie").value + "; " + pair)
    ensures !(Get(headers, "Cookie").Some? && Get(headers, "Cookie").value != "")
            ==> Get(r, "Cookie") == Some(pair)
    ensures forall k :: k != "Cookie" ==> Get(r, k) == Get(headers, k)
    ensures Keys(headers) <= Keys(r)
  {
    var prev := Get(headers, "Cookie");
    var r := if prev.Some? && prev.value != "" then Put(headers, "Cookie", prev.value + "; " + pair) else Put(headers, "Cookie", pair);
    forall k ensures Get(r, k) == (if k == "Cookie" then Some(if prev.Some? && prev.value != "" then prev.value + "; " + pair else pair) else Get(headers, k)) {
      PutGet(headers, "Cookie", if prev.Some? && prev.value != "" then prev.value + "; " + pair else pair, k);
    }
    PutKeys(headers, "Cookie", if prev.Some? && prev.value != "" then prev.value + "; " + pair else pair);
    r
  }

  /** One resolved scheme of the chosen alternative. */
  function ApplyScheme(path: string, headers: Headers, schemeName: string, scheme: SecurityScheme): (r: (string, Headers))
    ensures IsPrefix(path, r.0)
    ensures !(scheme.stype == "apiKey" && ApiKeyLocation(scheme) == "query") ==> r.0 == path
  {
    var alias := Sanitize(schemeName);
    if scheme.stype == "http" then
      match HttpAuthorization(scheme.scheme.GetOr(""), alias)
      case Some(v) => (path, Put(headers, "Authorization", v))
      case None => (path, headers)
    else if scheme.stype == "apiKey" then
      var name := ApiKeyName(scheme);
      var location := ApiKeyLocation(scheme);
      if location == "header" then (path, Put(headers, name, Placeholder(alias)))
      else if location == "query" then (ParameterParsing.AppendQuery(path, name, alias), headers)
      else if location == "cookie" then (path, AddCookie(headers, name + "=" + Placeholder(alias)))
      else (path, headers)
    else if scheme.stype == "oauth2" || scheme.stype == "openIdConnect" then
      (path, Put(headers, "Authorization", "Bearer {{$auth.token(\"" + schemeName + "\")}}"))
    else
      (path, headers)
  }

  /** The headers each scheme sets; every other header keeps its value. */
  lemma ApplySchemeHeaders(path: string, headers: Headers, schemeName: string, scheme: SecurityScheme, k: string)
    ensures var h := ApplyScheme(path, headers, schemeName, scheme).1;
      && (scheme.stype == "http" && HttpAuthorization(scheme.scheme.GetOr(""), Sanitize(schemeName)).Some?
          ==> Get(h, "Authorization") == HttpAuthorization(scheme.scheme.GetOr(""), Sanitize(schemeName)))
      && (scheme.stype == "apiKey" && ApiKeyLocation(scheme) == "header"
          ==> Get(h, ApiKeyName(scheme)) == Some(Placeholder(Sanitize(schemeName))))
      && (scheme.stype in {"oauth2", "openIdConnect"}
          ==> Get(h, "Authorization") == Some("Bearer {{$auth.token(\"" + schemeName + "\")}}"))
      && (scheme.stype !in {"http", "apiKey", "oauth2", "openIdConnect"} ==> h == headers)
      && (k != "Authorization" && k != "Cookie" && !(scheme.stype == "apiKey" && k == ApiKeyName(scheme))
          ==> Get(h, k) == Get(headers, k))
  {
    var alias := Sanitize(schemeName);
    var http := HttpAuthorization(scheme.scheme.GetOr(""), alias);
    if http.Some? {
      PutGet(headers, "Authorization", http.value, k);
      PutGet(headers, "Authorization", http.value, "Authorization");
    }
    PutGet(headers, ApiKeyName(scheme), Placeholder(alias), k);
    PutGet(headers, ApiKeyName(scheme), Placeholder(alias), ApiKeyName(scheme));
    PutGet(headers, "Authorization", "Bearer {{$auth.token(\"" + schemeName + "\")}}", k);
    PutGet(headers, "Authorization", "Bearer {{$auth.token(\"" + schemeName + "\")}}", "Authorization");
  }

  /** Schemes only add or overwrite headers: the existing keys keep their order. */
  lemma ApplySchemeKeepsKeys(path: string, headers: Headers, schemeName: string, scheme: SecurityScheme)
    ensures Keys(headers) <= Keys(ApplyScheme(path, headers, schemeName, scheme).1)
  {
    var alias := Sanitize(schemeName);
    if scheme.stype == "http" {
      var http := HttpAuthorization(scheme.scheme.GetOr(""), alias);
      if http.Some? {
        PutKeys(headers, "Authorization", http.value);
      }
    } else if scheme.stype == "apiKey" {
      if ApiKeyLocation(scheme) == "header" {
        PutKeys(headers, ApiKeyName(scheme), Placeholder(alias));
      }
    } else if scheme.stype == "oauth2" || scheme.stype == "openIdConnect" {
      PutKeys(headers, "Authorization", "Bearer {{$auth.token(\"" + schemeName + "\")}}");
    }
  }

  /** The value a scheme assigns to header `k` outright, if it assigns one. */
  function Writes(k: string, name: string, scheme: SecurityScheme): Option<string> {
    if scheme.stype == "http" then
      (if k == "Authorization" then HttpAuthorization(scheme.scheme.GetOr(""), Sanitize(name)) else None)
    else if scheme.stype == "apiKey" then
      (if ApiKeyLocation(scheme) == "header" && k == ApiKeyName(scheme) then Some(Placeholder(Sanitize(name))) else None)
    else if scheme.stype == "oauth2" || scheme.stype == "openIdConnect" then
      (if k == "Authorization" then Some("Bearer {{$auth.token(\"" + name + "\")}}") else None)
    else None
  }

  /** The `name={{ALIAS}}` pair a cookie apiKey appends to `Cookie`. */
  function CookiePair(name: string, scheme: SecurityScheme): Option<string> {
    if scheme.stype == "apiKey" && ApiKeyLocation(scheme) == "cookie"
    then Some(ApiKeyName(scheme) + "=" + Placeholder(Sanitize(name)))
    else None
  }

  /** A cookie value after appending `pair`. */
  function AppendCookie(prev: Option<string>, pair: string): string {
    if prev.Some? && prev.value != "" then prev.value + "; " + pair else pair
  }

  /** The scheme writes header `k` or appends to it. */
  predicate Touches(k: string, name: string, scheme: SecurityScheme) {
    Writes(k, name, scheme).Some? || (k == "Cookie" && CookiePair(name, scheme).Some?)
  }

  /** Header by header, one scheme either writes a value, appends a cookie, or keeps what was there. */
  lemma ApplySchemeGet(path: string, headers: Headers, name: string, scheme: SecurityScheme, k: string)
    ensures Get(ApplyScheme(path, headers, name, scheme).1, k)
            == if Writes(k, name, scheme).Some? then Writes(k, name, scheme)
               else if k == "Cookie" && CookiePair(name, scheme).Some? then Some(AppendCookie(Get(headers, "Cookie"), CookiePair(name, scheme).value))
               else Get(headers, k)
  {
    var alias := Sanitize(name);
    if scheme.stype == "http" {
      var http := HttpAuthorization(scheme.scheme.GetOr(""), alias);
      if http.Some? {
        PutGet(headers, "Authorization", http.value, k);
      }
    } else if scheme.stype == "apiKey" {
      if ApiKeyLocation(scheme) == "header" {
        PutGet(headers, ApiKeyName(scheme), Placeholder(alias), k);
      }
    } else if scheme.stype == "oauth2" || scheme.stype == "openIdConnect" {
      PutGet(headers, "Authorization", "Bearer {{$auth.token(\"" + name + "\")}}", k);
    }
  }

  /** The scheme a name resolves to: a Security Scheme Object in the table. */
  function Resolved(table: Dict<string, SchemeArg>, name: string): Option<SecurityScheme> {
    var entry := Get(table, name);
    if entry.Some? && entry.value.Scheme? then Some(entry.value.s) else None
  }

  /** The cookie pairs of an alternative's resolved cookie apiKeys, in order. */
  function CookiePairs(alt: seq<(string, seq<string>)>, table: Dict<string, SchemeArg>): seq<string>
    decreases |alt|
  {
    if |alt| == 0 then []
    else
      var sc := Resolved(table, alt[0].0);
      (if sc.Some? && CookiePair(alt[0].0, sc.value).Some? then [CookiePair(alt[0].0, sc.value).value] else [])
      + CookiePairs(alt[1..], table)
  }

  /** `Cookie` after appending `pairs` one by one: joined by `"; "`, after a non-empty old value. */
  function JoinCookies(prev: Option<string>, pairs: seq<string>): Option<string> {
    if |pairs| == 0 then prev
    else Some((if prev.Some? && prev.value != "" then prev.value + "; " else "") + Join("; ", pairs))
  }

  /** The schemes of one alternative, in order; names missing from the table are skipped. */
  function ApplyAlternative(path: string, headers: Headers, alt: seq<(string, seq<string>)>, table: Dict<string, SchemeArg>): (r: Result<(string, Headers), AuthError>)
    ensures r.Ok? ==> IsPrefix(path, r.value.0)
    ensures r.Err? <==> exists i :: 0 <= i < |alt| && Get(table, alt[i].0).Some? && Get(table, alt[i].0).value.SchemeRef?
    decreases |alt|
  {
    if |alt| == 0 then Ok((path, headers))
    else
      var name := alt[0].0;
      var entry := Get(table, name);
      assert forall i :: 1 <= i < |alt| ==> alt[i] == alt[1..][i - 1];
      if entry.None? then ApplyAlternative(path, headers, alt[1..], table)
      else if entry.value.SchemeRef? then Err(SchemeIsReference(name))
      else
        var step := ApplyScheme(path, headers, name, entry.value.s);
        var r := ApplyAlternative(step.0, step.1, alt[1..], table);
        assert r.Ok? ==> IsPrefix(path, r.value.0) by {
          if r.Ok? {
            assert r.value.0[..|path|] == r.value.0[..|step.0|][..|path|];
          }
        }
        r
  }

  /** One step of the loop, for a first entry that is not an unresolved reference. */
  lemma ApplyAlternativeStep(path: string, headers: Headers, alt: seq<(string, seq<string>)>, table: Dict<string, SchemeArg>)
    requires |alt| > 0 && ApplyAlternative(path, headers, alt, table).Ok?
    ensures Resolved(table, alt[0].0).None? ==>
              ApplyAlternative(path, headers, alt, table) == ApplyAlternative(path, headers, alt[1..], table)
    ensures Resolved(table, alt[0].0).Some? ==>
              var step := ApplyScheme(path, headers, alt[0].0, Resolved(table, alt[0].0).value);
              ApplyAlternative(path, headers, alt, table) == ApplyAlternative(step.0, step.1, alt[1..], table)
  {
  }

  /** A header that no resolved scheme of the alternative touches keeps its value. */
  lemma {:induction false} ApplyAlternativeUntouched(path: string, headers: Headers, alt: seq<(string, seq<string>)>,
                                                     table: Dict<string, SchemeArg>, k: string)
    requires ApplyAlternative(path, headers, alt, table).Ok?
    requires forall i :: 0 <= i < |alt| && Resolved(table, alt[i].0).Some? ==> !Touches(k, alt[i].0, Resolved(table, alt[i].0).value)
    ensures Get(ApplyAlternative(path, headers, alt, table).value.1, k) == Get(headers, k)
    decreases |alt|
  {
    if |alt| > 0 {
      ApplyAlternativeStep(path, headers, alt, table);
      assert forall i :: 0 <= i < |alt[1..]| ==> alt[1..][i] == alt[i + 1];
      var sc := Resolved(table, alt[0].0);
      if sc.None? {
        ApplyAlternativeUntouched(path, headers, alt[1..], table, k);
      } else {
        var step := ApplyScheme(path, headers, alt[0].0, sc.value);
        ApplySchemeGet(path, headers, alt[0].0, sc.value, k);
        ApplyAlternativeUntouched(step.0, step.1, alt[1..], table, k);
      }
    }
  }

  /**
   * The last resolved scheme that touches a header decides it when it
   * writes it outright: the last http or oauth2 scheme sets `Authorization`.
   */
  lemma {:induction false} ApplyAlternativeLastWrite(path: string, headers: Headers, alt: seq<(string, seq<string>)>,
                                                     table: Dict<string, SchemeArg>, i: int, k: string)
    requires ApplyAlternative(path, headers, alt, table).Ok?
    requires 0 <= i < |alt| && Resolved(table, alt[i].0).Some? && Writes(k, alt[i].0, Resolved(table, alt[i].0).value).Some?
    requires forall j :: i < j < |alt| && Resolved(table, alt[j].0).Some? ==> !Touches(k, alt[j].0, Resolved(table, alt[j].0).value)
    ensures Get(ApplyAlternative(path, headers, alt, table).value.1, k) == Writes(k, alt[i].0, Resolved(table, alt[i].0).value)
    decreases |alt|
  {
    ApplyAlternativeStep(path, headers, alt, table);
    assert forall j :: 0 <= j < |alt[1..]| ==> alt[1..][j] == alt[j + 1];
    var sc := Resolved(table, alt[0].0);
    if i == 0 {
      var step := ApplyScheme(path, headers, alt[0].0, sc.value);
      ApplySchemeGet(path, headers, alt[0].0, sc.value, k);
      ApplyAlternativeUntouched(step.0, step.1, alt[1..], table, k);
    } else if sc.None? {
      ApplyAlternativeLastWrite(path, headers, alt[1..], table, i - 1, k);
    } else {
      var step := ApplyScheme(path, headers, alt[0].0, sc.value);
      ApplyAlternativeLastWrite(step.0, step.1, alt[1..], table, i - 1, k);
    }
  }

  /**
   * Unless some scheme writes `Cookie` outright, the cookie apiKeys of the
   * alternative are appended to it in order, joined by `"; "`.
   */
  lemma {:induction false} ApplyAlternativeCookies(path: string, headers: Headers, alt: seq<(string, seq<string>)>,
                                                   table: Dict<string, SchemeArg>)
    requires ApplyAlternative(path, headers, alt, table).Ok?
    requires forall i :: 0 <= i < |alt| && Resolved(table, alt[i].0).Some? ==> Writes("Cookie", alt[i].0, Resolved(table, alt[i].0).value).None?
    ensures Get(ApplyAlternative(path, headers, alt, table).value.1, "Cookie") == JoinCookies(Get(headers, "Cookie"), CookiePairs(alt, table))
    decreases |alt|
  {
    if |alt| > 0 {
      ApplyAlternativeStep(path, headers, alt, table);
      assert forall i :: 0 <= i < |alt[1..]| ==> alt[1..][i] == alt[i + 1];
      var sc := Resolved(table, alt[0].0);
      var rest := CookiePairs(alt[1..], table);
      if sc.None? {
        ApplyAlternativeCookies(path, headers, alt[1..], table);
        assert CookiePairs(alt, table) == rest;
      } else {
        var step := ApplyScheme(path, headers, alt[0].0, sc.value);
        ApplySchemeGet(path, headers, alt[0].0, sc.value, "Cookie");
        ApplyAlternativeCookies(step.0, step.1, alt[1..], table);
        var pair := CookiePair(alt[0].0, sc.value);
        if pair.Some? {
          assert CookiePairs(alt, table) == [pair.value] + rest;
          JoinCookiesCons(Get(headers, "Cookie"), pair.value, rest);
        } else {
          assert CookiePairs(alt, table) == rest;
        }
      }
    }
  }

  /** Appending one non-empty pair, then the rest, is appending them all. */
  lemma JoinCookiesCons(prev: Option<string>, p: string, ps: seq<string>)
    requires p != ""
    ensures JoinCookies(Some(AppendCookie(prev, p)), ps) == JoinCookies(prev, [p] + ps)
  {
    var pre := if prev.Some? && prev.value != "" then prev.value + "; " else "";
    assert AppendCookie(prev, p) == pre + p;
    assert AppendCookie(prev, p) != "" by {
      assert |AppendCookie(prev, p)| >= |p|;
    }
    if |ps| == 0 {
      assert Join("; ", [p]) == p;
    } else {
      assert ([p] + ps)[1..] == ps;
      assert Join("; ", [p] + ps) == p + "; " + Join("; ", ps);
      assert pre + p + "; " + Join("; ", ps) == pre + (p + "; " + Join("; ", ps));
    }
  }

  /** A scheme name the table lacks changes nothing. */
  lemma UnknownSchemeSkipped(path: string, headers: Headers, name: string, scopes: seq<string>,
                             rest: seq<(string, seq<string>)>, table: Dict<string, SchemeArg>)
    requires name !in Keys(table)
    ensures ApplyAlternative(path, headers, [(name, scopes)] + rest, table)
            == ApplyAlternative(path, headers, rest, table)
  {
    assert ([(name, scopes)] + rest)[1..] == rest;
  }

  /**
   * `apply_security` on an already chosen requirement list: nothing without
   * a scheme table, an empty list, or a first alternative that is not a
   * mapping; otherwise the first alternative only.
   */
  function ApplyRequirement(path: string, headers: Option<Headers>, params: Option<seq<HttpVariable>>,
                            effective: seq<Alternative>, schemes: Option<Dict<string, SchemeArg>>): (r: Result<(string, Headers, seq<HttpVariable>), AuthError>)
    ensures r.Ok? ==> r.value.2 == params.GetOr([])
    ensures r.Ok? ==> IsPrefix(path, r.value.0)
    ensures schemes.None? || schemes.value == [] || effective == [] || effective[0].NotAMapping?
            ==> r == Ok((path, headers.GetOr([]), params.GetOr([])))
  {
    if schemes.None? || schemes.value == [] then Ok((path, headers.GetOr([]), params.GetOr([])))
    else if effective == [] then Ok((path, headers.GetOr([]), params.GetOr([])))
    else if effective[0].NotAMapping? then Ok((path, headers.GetOr([]), params.GetOr([])))
    else
      var applied :- ApplyAlternative(path, headers.GetOr([]), effective[0].schemes, schemes.value);
      Ok((applied.0, applied.1, params.GetOr([])))
  }

  /** Alternatives after the first never matter. */
  lemma OnlyFirstAlternative(path: string, headers: Option<Headers>, params: Option<seq<HttpVariable>>,
                             first: Alternative, rest: seq<Alternative>, schemes: Option<Dict<string, SchemeArg>>)
    ensures ApplyRequirement(path, headers, params, [first] + rest, schemes)
            == ApplyRequirement(path, headers, params, [first], schemes)
  {
  }

  /** `apply_security`: the effective requirement of the operation, applied. */
  function ApplySecurity(path: string, headers: Option<Headers>, params: Option<seq<HttpVariable>>,
                         op: Operation, rootSecurity: Option<seq<Alternative>>,
                         schemes: Option<Dict<string, SchemeArg>>): (r: Result<(string, Headers, seq<HttpVariable>), AuthError>)
    ensures r.Ok? ==> r.value.2 == params.GetOr([])
    ensures r.Ok? ==> IsPrefix(path, r.value.0)
    ensures op.security == Some([]) ==> r == Ok((path, headers.GetOr([]), params.GetOr([])))
    ensures var eff := ChooseEffectiveSecurity(op.security, rootSecurity);
      schemes.Some? && schemes.value != [] && eff != [] && eff[0].Alt? ==>
        var applied := ApplyAlternative(path, headers.GetOr([]), eff[0].schemes, schemes.value);
        && (r.Ok? <==> applied.Ok?)
        && (r.Ok? ==> r.value.0 == applied.value.0 && r.value.1 == applied.value.1)
  {
    ApplyRequirement(path, headers, params, ChooseEffectiveSecurity(op.security, rootSecurity), schemes)
  }

  /** The header `X-API-Key: {{APIKEYAUTH}}` of an apiKey scheme named `ApiKeyAuth`. */
  lemma ApiKeyHeaderExample()
    ensures var scheme := SecurityScheme("apiKey", None, Some("X-API-Key"), Some("header"), None);
      ApplyScheme("/pets", [], "ApiKeyAuth", scheme) == ("/pets", [("X-API-Key", "{{APIKEYAUTH}}")])
  {
    var alias := Sanitize("ApiKeyAuth");
    assert forall i :: 0 <= i < 10 ==> alias[i] == "APIKEYAUTH"[i];
    assert alias == "APIKEYAUTH";
    var scheme := SecurityScheme("apiKey", None, Some("X-API-Key"), Some("header"), None);
    assert Lower("header") == "header";
    assert ApiKeyLocation(scheme) == "header";
    assert ApiKeyName(scheme) == "X-API-Key";
    assert Placeholder(alias) == "{{APIKEYAUTH}}";
    assert Put([], "X-API-Key", "{{APIKEYAUTH}}") == [("X-API-Key", "{{APIKEYAUTH}}")];
  }

  /** Two cookie apiKeys share one `Cookie` header, joined with `"; "`. */
  lemma CookiesJoined(a: string, b: string)
    ensures var sa := SecurityScheme("apiKey", None, Some("a"), Some("cookie"), None);
      var sb := SecurityScheme("apiKey", None, Some("b"), Some("cookie"), None);
      var h := ApplyScheme("/", ApplyScheme("/", [], a, sa).1, b, sb).1;
      Get(h, "Cookie") == Some("a=" + Placeholder(Sanitize(a)) + "; b=" + Placeholder(Sanitize(b)))
  {
    var sa := SecurityScheme("apiKey", None, Some("a"), Some("cookie"), None);
    var sb := SecurityScheme("apiKey", None, Some("b"), Some("cookie"), None);
    assert Lower("cookie") == "cookie";
    assert ApiKeyLocation(sa) == "cookie" && ApiKeyLocation(sb) == "cookie";
    assert ApiKeyName(sa) + "=" + Placeholder(Sanitize(a)) == "a=" + Placeholder(Sanitize(a));
    assert ApiKeyName(sb) + "=" + Placeholder(Sanitize(b)) == "b=" + Placeholder(Sanitize(b));
    var h1 := ApplyScheme("/", [], a, sa).1;
    assert h1 == AddCookie([], "a=" + Placeholder(Sanitize(a)));
    assert Get(h1, "Cookie") == Some("a=" + Placeholder(Sanitize(a)));
    assert ApplyScheme("/", h1, b, sb).1 == AddCookie(h1, "b=" + Placeholder(Sanitize(b)));
    assert "a=" + Placeholder(Sanitize(a)) + "; " + ("b=" + Placeholder(Sanitize(b)))
        == "a=" + Placeholder(Sanitize(a)) + "; b=" + Placeholder(Sanitize(b));
  }
}
