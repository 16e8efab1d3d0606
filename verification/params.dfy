/**
 * Parameter resolution: turns the declared parameters of an operation into
 * edits of the request path and a list of `HttpVariable`s, then scans the
 * path for single-braced tokens nobody declared.
 */
module ParameterParsing {
  import opened Results
  import opened Text
  import opened OpenApi
  import opened Vars

  /** The exceptions the source raises, one constructor per cause. */
  datatype ParamError =
    | NotParameterLike(text: string)              // TypeError: no `name` / `param_in`
    | UnsupportedLocation(location: string)       // NotImplementedError
    | NotFoundInPath(name: string, path: string)  // ValueError: declared token absent
    | SampleFailed(message: string)               // ValueError wrapping the sampler's error

  /** The four locations the source dispatches on. */
  const Locations: set<string> := {"query", "header", "path", "cookie"}

  /**
   * The post-processing of `_generate_sample_param_from_schema`: a list
   * becomes its first element (or `""`), any other non-scalar its `str`.
   */
  function NormalizeParamSample(sample: Value): (r: Value)
    ensures sample.VList? && |sample.items| > 0 ==> r == sample.items[0]
    ensures !(sample.VList? && |sample.items| > 0) ==> IsScalar(r)
    ensures IsScalar(sample) ==> r == sample
  {
    match sample
    case VList(xs) => if |xs| > 0 then xs[0] else VStr("")
    case VBool(_) => sample
    case VInt(_) => sample
    case VStr(_) => sample
    case _ => VStr(Show(sample))
  }

  /** A non-scalar, non-list sample keeps its text: `str(sample)`. */
  lemma NormalizeKeepsText(sample: Value)
    requires !sample.VList?
    ensures Show(NormalizeParamSample(sample)) == Show(sample)
  {
  }

  /** The sampler call with its failure turned into a `ValueError`. */
  function SampleParam(sampler: Sampler, schema: Schema): (r: Result<Value, ParamError>)
    ensures r.Err? <==> sampler(schema).Err?
    ensures r.Err? ==> r.error == SampleFailed(sampler(schema).error)
    ensures r.Ok? ==> r.value == NormalizeParamSample(sampler(schema).value)
  {
    match sampler(schema)
    case Err(m) => Err(SampleFailed(m))
    case Ok(v) => Ok(NormalizeParamSample(v))
  }

  /** `str(getattr(ex, "value", ex))` for the first entry of `examples`. */
  function ExampleText(e: ExampleEntry): string {
    match e
    case ExampleObj(v) => Show(v)
    case ExampleRef(t) => t
  }

  /**
   * The text of a parameter's variable: a truthy `example`, else the first
   * `examples` entry, else the schema sample (a falsy one becoming `{}`),
   * else `{}`; in every case `str(...)` of it.
   */
  function ResolveValue(p: Parameter, sampler: Sampler): (r: Result<string, ParamError>)
    ensures r.Err? ==> !Truthy(p.example) && |p.examples| == 0 && p.schema.Some?
                       && sampler(p.schema.value).Err?
    ensures !Truthy(p.example) && |p.examples| == 0 && p.schema.Some? && sampler(p.schema.value).Err?
            ==> r == Err(SampleFailed(sampler(p.schema.value).error))
    ensures !Truthy(p.example) && |p.examples| == 0 && p.schema.Some? && sampler(p.schema.value).Ok?
            ==> var s := NormalizeParamSample(sampler(p.schema.value).value);
                r == Ok(Show(if Truthy(s) then s else EmptyDict))
  {
    if Truthy(p.example) then Ok(Show(p.example))
    else if |p.examples| > 0 then Ok(ExampleText(p.examples[0].1))
    else if p.schema.Some? then
      var s :- SampleParam(sampler, p.schema.value);
      Ok(Show(if Truthy(s) then s else EmptyDict))
    else Ok(Show(EmptyDict))
  }

  /** The sampler is consulted only when neither `example` nor `examples` helps. */
  lemma ResolveValuePrecedence(p: Parameter, s1: Sampler, s2: Sampler)
    ensures Truthy(p.example) ==> ResolveValue(p, s1) == Ok(Show(p.example))
    ensures !Truthy(p.example) && |p.examples| > 0
            ==> ResolveValue(p, s1) == Ok(ExampleText(p.examples[0].1))
    ensures Truthy(p.example) || |p.examples| > 0 || p.schema.None?
            ==> ResolveValue(p, s1) == ResolveValue(p, s2)
    ensures !Truthy(p.example) && |p.examples| == 0 && p.schema.None?
            ==> ResolveValue(p, s1) == Ok("{}")
  {
    assert Show(EmptyDict) == "{}";
  }

  /**
   * The text a schema sample gives, read off the raw sample: the first
   * element of a non-empty list and a scalar keep their text when truthy,
   * a dict or `None` keeps its `str`, and everything falsy becomes `{}`.
   */
  lemma ResolveValueSample(p: Parameter, sampler: Sampler)
    requires !Truthy(p.example) && |p.examples| == 0 && p.schema.Some? && sampler(p.schema.value).Ok?
    ensures var v := sampler(p.schema.value).value;
      && (v.VList? && |v.items| > 0 && Truthy(v.items[0]) ==> ResolveValue(p, sampler) == Ok(Show(v.items[0])))
      && (v.VList? && (|v.items| == 0 || !Truthy(v.items[0])) ==> ResolveValue(p, sampler) == Ok("{}"))
      && (IsScalar(v) ==> ResolveValue(p, sampler) == Ok(if Truthy(v) then Show(v) else "{}"))
      && (v.VDict? || v.VNull? ==> ResolveValue(p, sampler) == Ok(Show(v)))
  {
    var v := sampler(p.schema.value).value;
    assert Show(EmptyDict) == "{}";
    ShowEmptyIff(v);
  }

  /**
   * A variable's value is empty (and it renders as a prompt) only through an
   * empty first `examples` entry: an example, a sample and the `{}` fallback
   * all have non-empty text.
   */
  lemma ResolveValueEmptyIff(p: Parameter, sampler: Sampler)
    requires ResolveValue(p, sampler).Ok?
    ensures ResolveValue(p, sampler).value == ""
            <==> !Truthy(p.example) && |p.examples| > 0 && ExampleText(p.examples[0].1) == ""
  {
    ShowEmptyIff(p.example);
    if !Truthy(p.example) && |p.examples| == 0 && p.schema.Some? {
      var s := SampleParam(sampler, p.schema.value).value;
      ShowEmptyIff(if Truthy(s) then s else EmptyDict);
    }
  }

  /** The variable a parameter yields, whatever its location. */
  function ParamVariable(p: Parameter, sampler: Sampler): (r: Result<HttpVariable, ParamError>)
    ensures r.Ok? <==> ResolveValue(p, sampler).Ok?
    ensures r.Ok? ==> r.value == HttpVariable(p.name, ResolveValue(p, sampler).value, p.description)
  {
    var v :- ResolveValue(p, sampler);
    Ok(HttpVariable(p.name, v, p.description))
  }

  /**
   * `_append_query_param` (and the path edit of `handle_query_params`): a new
   * line `?name={{var}}`, or `&name={{var}}` once the path has a `?`.
   */
  function AppendQuery(path: string, name: string, varName: string): (r: string)
    ensures IsPrefix(path, r) && |r| > |path|
    ensures '?' in r
  {
    var lead := if '?' in path then "\n&" else "\n?";
    var r := path + lead + name + "={{" + varName + "}}";
    assert '?' in path ==> '?' in r by {
      if '?' in path {
        var k :| 0 <= k < |path| && path[k] == '?';
        assert r[k] == '?';
      }
    }
    assert '?' !in path ==> r[|path| + 1] == '?';
    r
  }

  /** The appended text is exactly one segment, chosen by the presence of `?`. */
  lemma AppendQuerySegment(path: string, name: string, varName: string)
    ensures '?' in path ==> AppendQuery(path, name, varName) == path + "\n&" + name + "={{" + varName + "}}"
    ensures '?' !in path ==> AppendQuery(path, name, varName) == path + "\n?" + name + "={{" + varName + "}}"
  {
  }

  /** After a first query parameter every further one is joined with `&`. */
  lemma SecondQueryUsesAmpersand(path: string, a: string, b: string)
    ensures AppendQuery(AppendQuery(path, a, a), b, b)
            == AppendQuery(path, a, a) + "\n&" + b + "={{" + b + "}}"
  {
  }

  /** The token of a declared path parameter and the variable that replaces it. */
  function PathToken(name: string): string {
    "{" + name + "}"
  }

  function Templated(name: string): string {
    "{{" + name + "}}"
  }

  /** `handle_path_params`: every `{name}` becomes `{{name}}`; an absent token fails. */
  function HandlePathParam(path: string, p: Parameter, sampler: Sampler): (r: Result<(string, HttpVariable), ParamError>)
    ensures !Contains(path, PathToken(p.name)) <==> r == Err(NotFoundInPath(p.name, path))
    ensures r.Ok? ==> Contains(r.value.0, Templated(p.name))
    ensures r.Ok? ==> r.value.0 == ReplaceAll(path, PathToken(p.name), Templated(p.name))
    ensures r.Ok? ==> ParamVariable(p, sampler) == Ok(r.value.1)
  {
    var token := PathToken(p.name);
    if !Contains(path, token) then Err(NotFoundInPath(p.name, path))
    else
      var v :- ParamVariable(p, sampler);
      ReplaceAllIntroduces(path, token, Templated(p.name));
      Ok((ReplaceAll(path, token, Templated(p.name)), v))
  }

  /**
   * Read from the left: the text before the first `{name}` is kept, that
   * token becomes `{{name}}`, and the rest of the path is rewritten the same way.
   */
  lemma HandlePathParamFirst(a: string, b: string, p: Parameter, sampler: Sampler)
    requires forall i :: 0 <= i < |a| ==> !IsPrefix(PathToken(p.name), (a + PathToken(p.name) + b)[i..])
    requires ParamVariable(p, sampler).Ok?
    ensures HandlePathParam(a + PathToken(p.name) + b, p, sampler)
            == Ok((a + Templated(p.name) + ReplaceAll(b, PathToken(p.name), Templated(p.name)), ParamVariable(p, sampler).value))
  {
    var t := PathToken(p.name);
    ContainsWhole(a, t, b);
    ReplaceAllFirst(a, t, b, Templated(p.name));
  }

  /** `handle_query_params`: the path gains `?name={{name}}` or `&name={{name}}`. */
  function HandleQueryParam(path: string, p: Parameter, sampler: Sampler): (r: Result<(string, HttpVariable), ParamError>)
    ensures r.Ok? ==> r.value.0 == AppendQuery(path, p.name, p.name)
    ensures r.Ok? <==> ParamVariable(p, sampler).Ok?
    ensures r.Ok? ==> ParamVariable(p, sampler) == Ok(r.value.1)
  {
    var v :- ParamVariable(p, sampler);
    Ok((AppendQuery(path, p.name, p.name), v))
  }

  /**
   * One entry of `handle_params`: a Reference is rejected, the location picks
   * the handler, and header and cookie parameters leave the path alone.
   */
  function ApplyParam(path: string, arg: ParamArg, sampler: Sampler): (r: Result<(string, HttpVariable), ParamError>)
    ensures arg.ParamRef? ==> r == Err(NotParameterLike(arg.text))
    ensures arg.Param? && arg.p.location !in Locations ==> r == Err(UnsupportedLocation(arg.p.location))
    ensures r.Ok? ==> arg.Param? && arg.p.location in Locations
    ensures r.Ok? ==> r.value.1.name == arg.p.name && r.value.1.description == arg.p.description
    ensures r.Ok? ==> ResolveValue(arg.p, sampler) == Ok(r.value.1.value)
    ensures r.Ok? <==> arg.Param? && arg.p.location in Locations && ResolveValue(arg.p, sampler).Ok?
                       && (arg.p.location == "path" ==> Contains(path, PathToken(arg.p.name)))
    ensures r.Ok? && arg.p.location in {"header", "cookie"} ==> r.value.0 == path
    ensures r.Ok? && arg.p.location == "query" ==> r.value.0 == AppendQuery(path, arg.p.name, arg.p.name)
    ensures r.Ok? && arg.p.location == "path" ==> r.value.0 == ReplaceAll(path, PathToken(arg.p.name), Templated(arg.p.name))
  {
    match arg
    case ParamRef(t) => Err(NotParameterLike(t))
    case Param(p) =>
      if p.location == "query" then HandleQueryParam(path, p, sampler)
      else if p.location == "header" then
        var v :- ParamVariable(p, sampler);
        Ok((path, v))
      else if p.location == "path" then HandlePathParam(path, p, sampler)
      else if p.location == "cookie" then
        var v :- ParamVariable(p, sampler);
        Ok((path, v))
      else Err(UnsupportedLocation(p.location))
  }

  /**
   * The loop of `handle_params`: one variable per declared parameter, in
   * declaration order, each handler seeing the path the previous one left.
   */
  function ApplyParams(path: string, args: seq<ParamArg>, sampler: Sampler): (r: Result<(string, seq<HttpVariable>), ParamError>)
    ensures r.Ok? ==> |r.value.1| == |args|
    ensures r.Ok? ==> forall i :: 0 <= i < |args| ==>
              args[i].Param? && args[i].p.location in Locations
              && r.value.1[i].name == args[i].p.name
              && r.value.1[i].description == args[i].p.description
              && ResolveValue(args[i].p, sampler) == Ok(r.value.1[i].value)
    ensures (exists i :: 0 <= i < |args| && args[i].ParamRef?) ==> r.Err?
    ensures r.Ok? <==> forall k :: 0 <= k < |args| ==> StepOk(path, args, sampler, k)
    ensures r.Ok? ==> r.value.0 == PathAt(path, args, sampler, |args|)
    ensures r.Err? ==> exists k :: FirstStepError(path, args, sampler, k, r.error)
    decreases |args|
  {
    if |args| == 0 then Ok((path, []))
    else
      match ApplyParam(path, args[0], sampler)
      case Err(e) =>
        assert FirstStepError(path, args, sampler, 0, e);
        assert !StepOk(path, args, sampler, 0);
        Err(e)
      case Ok(first) =>
        var tail := ApplyParams(first.0, args[1..], sampler);
        assert forall k :: 0 <= k < |args| - 1 ==> (StepOk(path, args, sampler, k + 1) <==> StepOk(first.0, args[1..], sampler, k)) by {
          forall k | 0 <= k < |args| - 1 ensures StepOk(path, args, sampler, k + 1) <==> StepOk(first.0, args[1..], sampler, k) {
            assert args[k + 1] == args[1..][k];
            assert PathAt(path, args, sampler, k + 1) == PathAt(first.0, args[1..], sampler, k);
          }
        }
        match tail
        case Err(e) =>
          var k :| FirstStepError(first.0, args[1..], sampler, k, e);
          FirstStepErrorShift(path, args, sampler, k, e);
          Err(e)
        case Ok(rest) =>
          assert forall i :: 1 <= i < |args| ==> args[i] == args[1..][i - 1];
          assert forall k :: 0 <= k < |args| ==> StepOk(path, args, sampler, k) by {
            forall k | 0 <= k < |args| ensures StepOk(path, args, sampler, k) {
              if k > 0 {
                assert StepOk(first.0, args[1..], sampler, k - 1);
              }
            }
          }
          Ok((rest.0, [first.1] + rest.1))
  }

  /**
   * The path the loop hands to the `k`-th parameter: the starting path
   * rewritten by each earlier parameter in turn (left as it is once one fails).
   */
  function PathAt(path: string, args: seq<ParamArg>, sampler: Sampler, k: nat): string
    requires k <= |args|
    decreases k
  {
    if k == 0 then path
    else
      match ApplyParam(path, args[0], sampler)
      case Ok(first) => PathAt(first.0, args[1..], sampler, k - 1)
      case Err(_) => path
  }

  /** The `k`-th parameter's handler succeeds on the path it is handed. */
  predicate StepOk(path: string, args: seq<ParamArg>, sampler: Sampler, k: nat)
    requires k < |args|
  {
    ApplyParam(PathAt(path, args, sampler, k), args[k], sampler).Ok?
  }

  /** The `k`-th parameter is the first whose handler fails, failing with `e`. */
  predicate FirstStepError(path: string, args: seq<ParamArg>, sampler: Sampler, k: nat, e: ParamError) {
    && k < |args|
    && ApplyParam(PathAt(path, args, sampler, k), args[k], sampler) == Err(e)
    && forall j :: 0 <= j < k ==> StepOk(path, args, sampler, j)
  }

  /** A first failure in the tail is the first failure one place later. */
  lemma FirstStepErrorShift(path: string, args: seq<ParamArg>, sampler: Sampler, k: nat, e: ParamError)
    requires |args| > 0 && ApplyParam(path, args[0], sampler).Ok?
    requires FirstStepError(ApplyParam(path, args[0], sampler).value.0, args[1..], sampler, k, e)
    ensures FirstStepError(path, args, sampler, k + 1, e)
  {
    var next := ApplyParam(path, args[0], sampler).value.0;
    assert args[k + 1] == args[1..][k];
    forall j | 0 <= j < k + 1 ensures StepOk(path, args, sampler, j) {
      if j > 0 {
        assert args[j] == args[1..][j - 1];
        assert StepOk(next, args[1..], sampler, j - 1);
      }
    }
  }

  /** Header and cookie parameters never move the path. */
  lemma {:induction false} HeadersAndCookiesKeepPath(path: string, args: seq<ParamArg>, sampler: Sampler)
    requires forall i :: 0 <= i < |args| ==> args[i].Param? && args[i].p.location in {"header", "cookie"}
    requires ApplyParams(path, args, sampler).Ok?
    ensures ApplyParams(path, args, sampler).value.0 == path
    decreases |args|
  {
    if |args| > 0 {
      HeadersAndCookiesKeepPath(path, args[1..], sampler);
    }
  }

  /** Query parameters only ever extend the path. */
  lemma {:induction false} QueriesExtendPath(path: string, args: seq<ParamArg>, sampler: Sampler)
    requires forall i :: 0 <= i < |args| ==> args[i].Param? && args[i].p.location == "query"
    requires ApplyParams(path, args, sampler).Ok?
    ensures IsPrefix(path, ApplyParams(path, args, sampler).value.0)
    decreases |args|
  {
    if |args| > 0 {
      var first := ApplyParam(path, args[0], sampler).value;
      QueriesExtendPath(first.0, args[1..], sampler);
      var last := ApplyParams(path, args, sampler).value.0;
      assert last[..|first.0|] == first.0;
      assert last[..|path|] == first.0[..|path|];
    }
  }

  /**
   * The regular expression `(?<!\{)\{([^}]+)\}(?!\})` matches at `i` with its
   * closing brace at `j`: an opening brace not preceded by another, one or
   * more characters other than `}`, and a closing brace not followed by
   * another. The group is `s[i + 1..j]`.
   */
  predicate MatchAt(s: string, i: int, j: int) {
    0 <= i && i + 1 < j < |s|
    && s[i] == '{' && (i == 0 || s[i - 1] != '{')
    && '}' !in s[i + 1..j] && s[j] == '}'
    && (j + 1 == |s| || s[j + 1] != '}')
  }

  /** The first `}` at or after `k`. */
  function CloseAfter(s: string, k: nat): (r: Option<nat>)
    ensures r.Some? ==> k <= r.value < |s| && s[r.value] == '}' && '}' !in s[k..r.value]
    ensures r.None? ==> forall m :: k <= m < |s| ==> s[m] != '}'
    decreases |s| - k
  {
    if k >= |s| then None
    else if s[k] == '}' then Some(k)
    else
      var r := CloseAfter(s, k + 1);
      assert r.Some? ==> s[k..r.value] == [s[k]] + s[k + 1..r.value];
      r
  }

  /** Where a match starting at `i` closes, if there is one. */
  function MatchFrom(s: string, i: nat): (r: Option<nat>)
    ensures r.Some? ==> MatchAt(s, i, r.value)
    ensures r.None? ==> forall j :: !MatchAt(s, i, j)
  {
    if i + 1 < |s| && s[i] == '{' && (i == 0 || s[i - 1] != '{') then
      match CloseAfter(s, i + 1)
      case None => None
      case Some(j) =>
        if j > i + 1 && (j + 1 == |s| || s[j + 1] != '}') then Some(j)
        else
          forall j' ensures !MatchAt(s, i, j') {
            MatchInterior(s, i, j');
          }
          None
    else
      None
  }

  /** `re.search`: the leftmost match at or after `from`. */
  function Search(s: string, from: nat): (r: Option<(nat, nat)>)
    ensures r.Some? ==> from <= r.value.0 && MatchAt(s, r.value.0, r.value.1)
    ensures r.Some? ==> forall k, j :: from <= k < r.value.0 ==> !MatchAt(s, k, j)
    ensures r.None? ==> forall k, j :: from <= k ==> !MatchAt(s, k, j)
    decreases |s| - from
  {
    if from >= |s| then None
    else
      match MatchFrom(s, from)
      case Some(j) => Some((from, j))
      case None => Search(s, from + 1)
  }

  /** No `}` lies strictly inside a match. */
  lemma MatchInterior(s: string, i: int, j: int)
    ensures MatchAt(s, i, j) ==> forall m :: i < m < j ==> s[m] != '}'
  {
    if MatchAt(s, i, j) {
      forall m | i < m < j
        ensures s[m] != '}'
      {
        assert s[m] == s[i + 1..j][m - i - 1];
      }
    }
  }

  /** A match closes at the first `}` after its opening brace. */
  lemma MatchCloseUnique(s: string, i: int, j: int, j': int)
    requires MatchAt(s, i, j) && MatchAt(s, i, j')
    ensures j == j'
  {
    MatchInterior(s, i, j);
    MatchInterior(s, i, j');
  }

  /**
   * `handle_missing_path_parasm` as written: the first match's name is
   * reported as a prompt variable, and its placeholder is "replaced" by
   * itself.
   */
  function HandleMissing(path: string): (r: Result<(string, seq<HttpVariable>), ParamError>)
    ensures r.Ok?
    ensures r.value.0 == path
    ensures |r.value.1| <= 1
    ensures |r.value.1| == 0 <==> forall k, j :: !MatchAt(path, k, j)
    ensures |r.value.1| == 1 ==> r.value.1[0].value == "" && r.value.1[0].description == ""
  {
    match Search(path, 0)
    case None => Ok((path, []))
    case Some(m) =>
      var name := path[m.0 + 1..m.1];
      var placeholder := "{" + name + "}";
      assert path == path[..m.0] + placeholder + path[m.1 + 1..];
      ContainsWhole(path[..m.0], placeholder, path[m.1 + 1..]);
      if Contains(path, placeholder) then
        ReplaceAllSelf(path, placeholder);
        Ok((ReplaceAll(path, placeholder, placeholder), [HttpVariable(name, "", "")]))
      else
        Err(NotFoundInPath(name, path))
  }

  /** The reported name is the group of the leftmost match. */
  lemma MissingReportsFirstToken(path: string, i: int, j: int)
    requires MatchAt(path, i, j)
    requires forall k, j' :: 0 <= k < i ==> !MatchAt(path, k, j')
    ensures HandleMissing(path).value.1 == [HttpVariable(path[i + 1..j], "", "")]
  {
    var m := Search(path, 0).value;
    if m.0 < i {
      assert false;
    } else if i < m.0 {
      assert false;
    }
    MatchCloseUnique(path, i, j, m.1);
  }

  /**
   * A templated `{{name}}` (with a brace-free name) never starts a match
   * anywhere inside it, so rewritten path parameters are not reported again.
   */
  lemma DoubleBracedNotMatched(s: string, name: string, i: int, k: int, j: int)
    requires '{' !in name && '}' !in name
    requires OccursAt(s, Templated(name), i)
    requires i <= k < i + |Templated(name)|
    ensures !MatchAt(s, k, j)
  {
    var t := Templated(name);
    var c := i + 2 + |name|;
    assert s[i..i + |t|] == t;
    assert forall m :: 0 <= m < |t| ==> s[i + m] == t[m];
    assert forall m :: i + 2 <= m < c ==> s[m] == name[m - i - 2];
    assert s[i] == '{' && s[i + 1] == '{' && s[c] == '}' && s[c + 1] == '}';
    MatchInterior(s, k, j);
  }

  /** How many parameters an operation declares (`None` declares none). */
  function DeclaredCount(parameters: Option<seq<ParamArg>>): nat {
    if parameters.Some? then |parameters.value| else 0
  }

  /**
   * `handle_params`: the declared parameters (if any) in order, then at most
   * one prompt variable for the first undeclared single-braced token.
   */
  function HandleParams(path: string, parameters: Option<seq<ParamArg>>, sampler: Sampler): (r: Result<(string, seq<HttpVariable>), ParamError>)
    ensures parameters.None? ==> r.Ok? && r.value == HandleMissing(path).value
    ensures parameters.Some? ==> (r.Ok? <==> ApplyParams(path, parameters.value, sampler).Ok?)
    ensures r.Ok? && parameters.Some? ==>
              var declared := ApplyParams(path, parameters.value, sampler).value;
              r.value.0 == declared.0
              && |declared.1| <= |r.value.1| <= |declared.1| + 1
              && r.value.1[..|declared.1|] == declared.1
    ensures r.Ok? && parameters.Some? ==>
              var declared := ApplyParams(path, parameters.value, sampler).value;
              r.value.1 == declared.1 + HandleMissing(declared.0).value.1
    ensures r.Ok? ==> forall k :: DeclaredCount(parameters) <= k < |r.value.1| ==> r.value.1[k].value == "" && r.value.1[k].description == ""
  {
    var declared :- if parameters.None? then Ok((path, [])) else ApplyParams(path, parameters.value, sampler);
    var missing := HandleMissing(declared.0).value;
    assert [] + missing.1 == missing.1;
    Ok((missing.0, declared.1 + missing.1))
  }
}
