/**
 * The pure helpers of the command-line front end: option parsing, the
 * configuration lookup, the `sample` command's filters and the `batch`
 * command's pattern list. Reading files, the network and printing stay
 * outside the model.
 */
module Cli {
  import opened Results
  import opened Text
  import opened Dicts
  import opened OpenApi

  /** Why a helper gives up: `_abort` (exit code 1), or a `TypeError` Python raises. */
  datatype CliError =
    | UnknownMethod(verb: string)
    | InvalidFilemode
    | InvalidEditorMode
    | ConfigTypeError

  /** A spec argument: a `Path` object or a plain string. */
  datatype SpecArg = PathArg(path: string) | TextArg(text: string)

  /** `_is_url`: a string starting with `http://` or `https://`; a `Path` never is. */
  function IsUrl(s: SpecArg): (r: bool)
    ensures r ==> s.TextArg?
    ensures s.TextArg? ==> (r <==> IsPrefix("http://", s.text) || IsPrefix("https://", s.text))
  {
    match s
    case PathArg(_) => false
    case TextArg(t) => IsPrefix("http://", t) || IsPrefix("https://", t)
  }

  /** A URL argument stays a URL whatever follows the scheme. */
  lemma IsUrlOfScheme(rest: string)
    ensures IsUrl(TextArg("https://" + rest)) && IsUrl(TextArg("http://" + rest))
    ensures !IsUrl(PathArg("https://" + rest))
  {
    assert ("https://" + rest)[..8] == "https://";
    assert ("http://" + rest)[..7] == "http://";
  }

  /**
   * `_get_config_value`: the `defaults` table wins when it holds the key,
   * then the top level, then the default. A `defaults` entry that is not a
   * table makes `in` or the subscript raise `TypeError`.
   */
  function GetConfigValue(config: Dict<string, Value>, key: string, default: Value): (r: Result<Value, CliError>)
    ensures Get(config, "defaults").None? ==> r == Ok(Get(config, key).GetOr(default))
    ensures Get(config, "defaults").Some? && Get(config, "defaults").value.VDict?
            ==> r == Ok(match Get(Get(config, "defaults").value.entries, key)
                        case Some(v) => v
                        case None => Get(config, key).GetOr(default))
    ensures r.Err? ==> r.error == ConfigTypeError && Get(config, "defaults").Some? && !Get(config, "defaults").value.VDict?
    ensures Get(config, "defaults").Some? && !Get(config, "defaults").value.VDict? && r.Ok?
            ==> r.value == Get(config, key).GetOr(default)
    ensures Get(config, "defaults") == Some(VStr(key)) ==> r.Err?
  {
    match Get<string, Value>(config, "defaults")
    case None => Ok(Get(config, key).GetOr(default))
    case Some(VDict(es)) =>
      if Get(es, key).Some? then Ok(Get(es, key).value) else Ok(Get(config, key).GetOr(default))
    case Some(VStr(s)) =>
      // `key in s` is a substring test; `s[key]` then raises
      if Contains(s, key) then Err(ConfigTypeError) else Ok(Get(config, key).GetOr(default))
    case Some(VList(xs)) =>
      // `key in xs` compares elements; `xs[key]` then raises
      if VStr(key) in xs then Err(ConfigTypeError) else Ok(Get(config, key).GetOr(default))
    case Some(_) => Err(ConfigTypeError)
  }

  /** A key under `defaults` shadows the same key at the top level. */
  lemma DefaultsShadowTopLevel(top: Dict<string, Value>, defaults: Dict<string, Value>, key: string, v: Value, default: Value)
    requires Get(defaults, key) == Some(v)
    ensures GetConfigValue([("defaults", VDict(defaults))] + top, key, default) == Ok(v)
  {
    assert Get([("defaults", VDict(defaults))] + top, "defaults") == Some(VDict(defaults));
  }

  /** The names `METHOD` accepts: its member names, which are also its values. */
  function MethodNames(): seq<string> {
    seq(|AllMethods|, i requires 0 <= i < |AllMethods| => MethodName(AllMethods[i]))
  }

  /**
   * `_method_upper_list`: every method upper-cased, the first unknown one
   * aborting; `None` stays `None`.
   */
  function MethodUpperList(methods: Option<seq<string>>): (r: Result<Option<seq<string>>, CliError>)
    ensures methods.None? ==> r == Ok(None)
    ensures methods.Some? ==> (r.Ok? <==> forall i :: 0 <= i < |methods.value| ==> Upper(methods.value[i]) in MethodNames())
    ensures r.Ok? && methods.Some? ==> r.value.Some? && |r.value.value| == |methods.value|
    ensures r.Ok? && methods.Some? ==> forall i :: 0 <= i < |methods.value| ==> r.value.value[i] == Upper(methods.value[i])
    ensures r.Err? ==> methods.Some? && exists i :: 0 <= i < |methods.value| && r.error == UnknownMethod(methods.value[i])
  {
    if methods.None? then Ok(None)
    else
      var ms :- UpperAll(methods.value);
      Ok(Some(ms))
  }

  function UpperAll(ms: seq<string>): (r: Result<seq<string>, CliError>)
    ensures r.Ok? <==> forall i :: 0 <= i < |ms| ==> Upper(ms[i]) in MethodNames()
    ensures r.Ok? ==> |r.value| == |ms| && forall i :: 0 <= i < |ms| ==> r.value[i] == Upper(ms[i])
    ensures r.Err? ==> exists i :: 0 <= i < |ms| && r.error == UnknownMethod(ms[i])
    decreases |ms|
  {
    if |ms| == 0 then Ok([])
    else if Upper(ms[0]) !in MethodNames() then Err(UnknownMethod(ms[0]))
    else
      match UpperAll(ms[1..])
      case Err(e) =>
        assert exists i :: 0 <= i < |ms| && e == UnknownMethod(ms[i]) by {
          var i :| 0 <= i < |ms[1..]| && e == UnknownMethod(ms[1..][i]);
          assert ms[i + 1] == ms[1..][i];
        }
        assert !(forall i :: 0 <= i < |ms| ==> Upper(ms[i]) in MethodNames()) by {
          var i :| 0 <= i < |ms[1..]| && Upper(ms[1..][i]) !in MethodNames();
          assert ms[i + 1] == ms[1..][i];
        }
        Err(e)
      case Ok(rest) =>
        assert forall i :: 1 <= i < |ms| ==> ms[i] == ms[1..][i - 1];
        Ok([Upper(ms[0])] + rest)
  }

  /** Upper-casing a method name changes nothing. */
  lemma MethodNameUpper(m: Method)
    ensures Upper(MethodName(m)) == MethodName(m)
  {
    var n := MethodName(m);
    assert forall i :: 0 <= i < |n| ==> 'A' <= n[i] <= 'Z';
  }

  /** Any-case spellings of the verbs are accepted and come back as the verb names. */
  lemma MethodUpperListAcceptsNames(ms: seq<Method>)
    ensures var names := seq(|ms|, i requires 0 <= i < |ms| => MethodName(ms[i]));
      MethodUpperList(Some(names)) == Ok(Some(names))
  {
    var names := seq(|ms|, i requires 0 <= i < |ms| => MethodName(ms[i]));
    forall i | 0 <= i < |ms|
      ensures Upper(names[i]) == names[i] && names[i] in MethodNames()
    {
      MethodNameUpper(ms[i]);
      AllMethodsComplete(ms[i]);
      var k :| 0 <= k < |AllMethods| && AllMethods[k] == ms[i];
      assert MethodNames()[k] == names[i];
    }
    var r := MethodUpperList(Some(names));
    assert r.Ok?;
    assert r.value.value == names;
  }

  /** `.strip().lower()`, the normalisation both mode parsers apply. */
  function Normalize(v: string): string {
    Lower(Strip(v))
  }

  datatype Filemode = SINGLE | MULTI

  /** A `Filemode`'s value (`StrEnum` with `auto()` lower-cases the member name). */
  function FilemodeValue(m: Filemode): string {
    match m
    case SINGLE => "single"
    case MULTI => "multi"
  }

  /** The spellings each file mode accepts. */
  function FilemodeSpellings(m: Filemode): set<string> {
    match m
    case SINGLE => {"single", "s"}
    case MULTI => {"multi", "m"}
  }

  /** The file mode a normalised spelling names, if any. */
  function FilemodeOf(v: string): (r: Option<Filemode>)
    ensures forall m :: r == Some(m) <==> v in FilemodeSpellings(m)
  {
    if v in {"single", "s"} then Some(SINGLE)
    else if v in {"multi", "m"} then Some(MULTI)
    else None
  }

  /** `_parse_filemode`: `single`/`s` or `multi`/`m`, in any case and padding; nothing means single. */
  function ParseFilemode(value: Option<string>): (r: Result<Filemode, CliError>)
    ensures value.None? ==> r == Ok(SINGLE)
    ensures value.Some? ==> forall m :: r == Ok(m) <==> Normalize(value.value) in FilemodeSpellings(m)
    ensures r.Err? ==> r.error == InvalidFilemode
  {
    if value.None? then Ok(SINGLE)
    else
      match FilemodeOf(Normalize(value.value))
      case Some(m) => Ok(m)
      case None => Err(InvalidFilemode)
  }

  datatype EditorMode = DEFAULT | KULALA | PYCHARM | HTTPYAC

  function EditorModeValue(m: EditorMode): string {
    match m
    case DEFAULT => "default"
    case KULALA => "kulala"
    case PYCHARM => "pycharm"
    case HTTPYAC => "httpyac"
  }

  /** The spellings each editor mode accepts. */
  function EditorModeSpellings(m: EditorMode): set<string> {
    match m
    case DEFAULT => {"default", "d"}
    case KULALA => {"kulala", "k"}
    case PYCHARM => {"pycharm", "intellij", "jetbrains", "p"}
    case HTTPYAC => {"httpyac", "vscode", "h", "v"}
  }

  /** The mode a normalised spelling names, if any. */
  function EditorModeOf(v: string): (r: Option<EditorMode>)
    ensures forall m :: r == Some(m) <==> v in EditorModeSpellings(m)
  {
    if v in {"default", "d"} then Some(DEFAULT)
    else if v in {"kulala", "k"} then Some(KULALA)
    else if v in {"pycharm", "intellij", "jetbrains", "p"} then Some(PYCHARM)
    else if v in {"httpyac", "vscode", "h", "v"} then Some(HTTPYAC)
    else None
  }

  /** `_parse_editor_mode`: one of the spellings of a mode; nothing means the default mode. */
  function ParseEditorMode(value: Option<string>): (r: Result<EditorMode, CliError>)
    ensures value.None? ==> r == Ok(DEFAULT)
    ensures value.Some? ==> forall m :: r == Ok(m) <==> Normalize(value.value) in EditorModeSpellings(m)
    ensures r.Err? ==> r.error == InvalidEditorMode
  {
    if value.None? then Ok(DEFAULT)
    else
      match EditorModeOf(Normalize(value.value))
      case Some(m) => Ok(m)
      case None => Err(InvalidEditorMode)
  }

  /** A lower-case word with no padding is its own normal form. */
  lemma NormalizeWord(w: string)
    requires forall i :: 0 <= i < |w| ==> 'a' <= w[i] <= 'z'
    ensures Normalize(w) == w
  {
    if |w| > 0 {
      assert !IsSpace(w[|w| - 1]) && !IsSpace(w[0]);
      assert RStrip(w) == w;
      assert LStrip(w) == w;
    }
  }

  /** Every mode parses back from its own value. */
  lemma ModeValuesRoundTrip(f: Filemode, e: EditorMode)
    ensures ParseFilemode(Some(FilemodeValue(f))) == Ok(f)
    ensures ParseEditorMode(Some(EditorModeValue(e))) == Ok(e)
  {
    FilemodeRoundTrip(f);
    EditorModeRoundTrip(e);
  }

  /** A file mode's value is one of its spellings once normalised. */
  lemma FilemodeRoundTrip(f: Filemode)
    ensures Normalize(FilemodeValue(f)) in FilemodeSpellings(f)
  {
    match f
    case SINGLE => NormalizeWord("single");
    case MULTI => NormalizeWord("multi");
  }

  /** An editor mode's value is one of its spellings once normalised. */
  lemma EditorModeRoundTrip(e: EditorMode)
    ensures Normalize(EditorModeValue(e)) in EditorModeSpellings(e)
  {
    match e
    case DEFAULT => NormalizeWord("default");
    case KULALA => NormalizeWord("kulala");
    case PYCHARM => NormalizeWord("pycharm");
    case HTTPYAC => NormalizeWord("httpyac");
  }

  // ---------------------------------------------------------------------
  // The `sample` command
  // ---------------------------------------------------------------------

  /** `verb.upper() if method else None`, checked against `METHOD`. */
  function SampleMethod(verb: Option<string>): (r: Result<Option<string>, CliError>)
    ensures verb.None? || verb.value == "" ==> r == Ok(None)
    ensures verb.Some? && verb.value != "" ==>
      (r.Ok? <==> Upper(verb.value) in MethodNames()) && (r.Ok? ==> r.value == Some(Upper(verb.value)))
  {
    if verb.None? || verb.value == "" then Ok(None)
    else if Upper(verb.value) in MethodNames() then Ok(Some(Upper(verb.value)))
    else Err(UnknownMethod(verb.value))
  }

  type Samples = Dict<string, Value>

  /** `{content_type: body[content_type]}` when the body holds that type, else `None`. */
  function OnlyContentType(body: Option<Samples>, ct: string): (r: Option<Samples>)
    ensures r.Some? <==> body.Some? && ct in Keys(body.value)
    ensures r.Some? ==> r.value == [(ct, Get(body.value, ct).value)]
  {
    if body.None? || body.value == [] then None
    else if ct in Keys(body.value) then Some([(ct, Get(body.value, ct).value)])
    else None
  }

  /** The content-type filter over the request bodies, method by verb. */
  function FilterRequestTypes(reqs: Dict<string, Option<Samples>>, ct: string): (r: Dict<string, Option<Samples>>)
    ensures Keys(r) == Keys(reqs)
    ensures forall i :: 0 <= i < |r| ==> r[i].1 == OnlyContentType(reqs[i].1, ct)
    decreases |reqs|
  {
    if |reqs| == 0 then []
    else [(reqs[0].0, OnlyContentType(reqs[0].1, ct))] + FilterRequestTypes(reqs[1..], ct)
  }

  /** The request half of `sample`: the method filter, then the content-type filter. */
  function SampleRequests(reqs: Dict<string, Option<Samples>>, verb: Option<string>, ct: Option<string>)
    : (r: Dict<string, Option<Samples>>)
    ensures verb.Some? ==> Keys(r) == [verb.value]
    ensures verb.None? && (ct.None? || ct.value == "") ==> r == reqs
    ensures ct.Some? && ct.value != "" ==>
      forall i :: 0 <= i < |r| ==> r[i].1.None? || Keys(r[i].1.value) == [ct.value]
    ensures verb.Some? ==>
      var body := Get(reqs, verb.value).GetOr(None);
      r == [(verb.value, if ct.Some? && ct.value != "" then OnlyContentType(body, ct.value) else body)]
    ensures verb.None? ==> Keys(r) == Keys(reqs)
    ensures verb.None? ==>
      forall i :: 0 <= i < |r| ==> r[i].1 == if ct.Some? && ct.value != "" then OnlyContentType(reqs[i].1, ct.value) else reqs[i].1
  {
    var byMethod := if verb.Some? then [(verb.value, Get(reqs, verb.value).GetOr(None))] else reqs;
    if ct.Some? && ct.value != "" then FilterRequestTypes(byMethod, ct.value) else byMethod
  }

  type StatusSamples = Dict<string, Option<Samples>>

  /** `{status: bodies.get(status)} if bodies else {}`. */
  function OnlyStatus(bodies: StatusSamples, status: string): (r: StatusSamples)
    ensures bodies == [] <==> r == []
    ensures r != [] ==> r == [(status, Get(bodies, status).GetOr(None))]
  {
    if bodies == [] then [] else [(status, Get(bodies, status).GetOr(None))]
  }

  /** A status entry cut down to exactly the type `ct`. */
  predicate OnlyType(e: (string, Option<Samples>), ct: string) {
    e.1.Some? && Keys(e.1.value) == [ct]
  }

  /** Some entry for `st` holds the type `ct` (`cts and ct in cts`). */
  predicate HoldsType(bodies: StatusSamples, ct: string, st: string) {
    exists i :: 0 <= i < |bodies| && bodies[i].0 == st && bodies[i].1.Some? && ct in Keys(bodies[i].1.value)
  }

  /** `{ct: cts[ct]}`: the samples of one status cut down to the type, when they hold it. */
  function TypedEntry(cts: Option<Samples>, ct: string): Option<Option<Samples>> {
    if cts.Some? && ct in Keys(cts.value) then Some(Some([(ct, Get(cts.value, ct).value)])) else None
  }

  /** One turn of the loop: `new_status_map[st] = {ct: cts[ct]}` when `cts` holds the type. */
  function AddIfTyped(acc: StatusSamples, item: (string, Option<Samples>), ct: string): (r: StatusSamples)
    requires forall e :: e in acc ==> OnlyType(e, ct)
    ensures forall e :: e in r ==> OnlyType(e, ct)
    ensures Keys(r) == if item.1.Some? && ct in Keys(item.1.value) && item.0 !in Keys(acc) then Keys(acc) + [item.0]
                       else Keys(acc)
    ensures forall k :: Get(r, k) == if k == item.0 && TypedEntry(item.1, ct).Some? then TypedEntry(item.1, ct) else Get(acc, k)
  {
    var cts := item.1;
    if cts.Some? && cts.value != [] && ct in Keys(cts.value) then
      var entry := Some([(ct, Get(cts.value, ct).value)]);
      assert forall i :: 0 <= i < |acc| ==> OnlyType(acc[i], ct);
      PutPreserves(acc, item.0, entry, (e: (string, Option<Samples>)) => OnlyType(e, ct));
      PutKeys(acc, item.0, entry);
      assert forall k :: Get(Put(acc, item.0, entry), k) == if k == item.0 then Some(entry) else Get(acc, k) by {
        forall k
          ensures Get(Put(acc, item.0, entry), k) == if k == item.0 then Some(entry) else Get(acc, k)
        {
          PutGet(acc, item.0, entry, k);
        }
      }
      Put(acc, item.0, entry)
    else acc
  }

  /** The loop over the statuses, in order, from the map built so far. */
  function FilterStatuses(acc: StatusSamples, bodies: StatusSamples, ct: string): (r: StatusSamples)
    requires forall e :: e in acc ==> OnlyType(e, ct)
    ensures forall e :: e in r ==> OnlyType(e, ct)
    ensures forall st :: st in Keys(acc) ==> st in Keys(r)
    ensures forall st :: st in Keys(r) ==> st in Keys(acc) || HoldsType(bodies, ct, st)
    decreases |bodies|
  {
    if |bodies| == 0 then acc
    else
      var next := AddIfTyped(acc, bodies[0], ct);
      var r := FilterStatuses(next, bodies[1..], ct);
      assert forall st :: HoldsType(bodies[1..], ct, st) ==> HoldsType(bodies, ct, st) by {
        forall st | HoldsType(bodies[1..], ct, st)
          ensures HoldsType(bodies, ct, st)
        {
          var i :| 0 <= i < |bodies[1..]| && bodies[1..][i].0 == st && bodies[1..][i].1.Some? && ct in Keys(bodies[1..][i].1.value);
          assert bodies[i + 1] == bodies[1..][i];
        }
      }
      assert forall st :: st in Keys(next) && st !in Keys(acc) ==> HoldsType(bodies, ct, st) by {
        forall st | st in Keys(next) && st !in Keys(acc)
          ensures HoldsType(bodies, ct, st)
        {
          assert st == bodies[0].0;
        }
      }
      r
  }

  /**
   * Over distinct statuses, the loop leaves each status that holds the type
   * as `{ct: cts[ct]}`; one that does not, and every key outside `bodies`,
   * keeps what the map built before held.
   */
  lemma {:induction false} FilterStatusesGet(acc: StatusSamples, bodies: StatusSamples, ct: string, k: string)
    requires forall e :: e in acc ==> OnlyType(e, ct)
    requires DistinctKeys(bodies)
    ensures k !in Keys(bodies) ==> Get(FilterStatuses(acc, bodies, ct), k) == Get(acc, k)
    ensures forall i :: 0 <= i < |bodies| && bodies[i].0 == k ==>
              Get(FilterStatuses(acc, bodies, ct), k)
              == if TypedEntry(bodies[i].1, ct).Some? then TypedEntry(bodies[i].1, ct) else Get(acc, k)
    decreases |bodies|
  {
    if |bodies| > 0 {
      var next := AddIfTyped(acc, bodies[0], ct);
      assert FilterStatuses(acc, bodies, ct) == FilterStatuses(next, bodies[1..], ct);
      DistinctTail(bodies);
      FilterStatusesGet(next, bodies[1..], ct, k);
      assert Keys(bodies) == [bodies[0].0] + Keys(bodies[1..]);
      forall i | 0 <= i < |bodies| && bodies[i].0 == k
        ensures Get(FilterStatuses(acc, bodies, ct), k)
                == if TypedEntry(bodies[i].1, ct).Some? then TypedEntry(bodies[i].1, ct) else Get(acc, k)
      {
        if i > 0 {
          assert bodies[1..][i - 1] == bodies[i];
        }
      }
    }
  }

  /** The statuses whose samples hold `ct`, each cut down to that one type. */
  function StatusesWithType(bodies: StatusSamples, ct: string): (r: StatusSamples)
    ensures forall e :: e in r ==> OnlyType(e, ct)
    ensures forall st :: st in Keys(r) ==> HoldsType(bodies, ct, st)
    ensures DistinctKeys(bodies) ==> forall st :: st in Keys(r) ==>
              && Get(bodies, st).Some? && Get(bodies, st).value.Some? && ct in Keys(Get(bodies, st).value.value)
              && Get(r, st) == Some(Some([(ct, Get(Get(bodies, st).value.value, ct).value)]))
    ensures DistinctKeys(bodies) ==> forall st :: HoldsType(bodies, ct, st) ==> st in Keys(r)
  {
    var r := FilterStatuses([], bodies, ct);
    assert DistinctKeys(bodies) ==> forall st :: HoldsType(bodies, ct, st) ==> st in Keys(r) by {
      if DistinctKeys(bodies) {
        forall st | HoldsType(bodies, ct, st)
          ensures st in Keys(r)
        {
          var i :| 0 <= i < |bodies| && bodies[i].0 == st && bodies[i].1.Some? && ct in Keys(bodies[i].1.value);
          FilterStatusesGet([], bodies, ct, st);
        }
      }
    }
    assert DistinctKeys(bodies) ==> forall st :: st in Keys(r) ==>
              && Get(bodies, st).Some? && Get(bodies, st).value.Some? && ct in Keys(Get(bodies, st).value.value)
              && Get(r, st) == Some(Some([(ct, Get(Get(bodies, st).value.value, ct).value)])) by {
      if DistinctKeys(bodies) {
        forall st | st in Keys(r)
          ensures && Get(bodies, st).Some? && Get(bodies, st).value.Some? && ct in Keys(Get(bodies, st).value.value)
                  && Get(r, st) == Some(Some([(ct, Get(Get(bodies, st).value.value, ct).value)]))
        {
          var i :| 0 <= i < |bodies| && bodies[i].0 == st && bodies[i].1.Some? && ct in Keys(bodies[i].1.value);
          GetDistinct(bodies, i);
          FilterStatusesGet([], bodies, ct, st);
        }
      }
    }
    r
  }

  /** The response half of `sample`: the verb, status and content-type filters in turn. */
  function SampleResponses(resps: Dict<string, StatusSamples>, verb: Option<string>, status: Option<string>,
                           ct: Option<string>): (r: Dict<string, StatusSamples>)
    ensures verb.Some? ==> Keys(r) == [verb.value]
    ensures verb.None? ==> Keys(r) == Keys(resps)
    ensures status.Some? && status.value != "" && (ct.None? || ct.value == "") ==>
      forall i :: 0 <= i < |r| ==> |r[i].1| <= 1 && (r[i].1 != [] ==> r[i].1[0].0 == status.value)
    ensures ct.Some? && ct.value != "" ==>
      forall i, e :: 0 <= i < |r| && e in r[i].1 ==> e.1.Some? && Keys(e.1.value) == [ct.value]
    ensures verb.Some? ==> r == [(verb.value, StatusAndType(Get(resps, verb.value).GetOr([]), status, ct))]
    ensures verb.None? ==> forall i :: 0 <= i < |r| ==> r[i].1 == StatusAndType(resps[i].1, status, ct)
  {
    var byMethod := if verb.Some? then [(verb.value, Get(resps, verb.value).GetOr([]))] else resps;
    var byStatus := if status.Some? && status.value != "" then MapStatus(byMethod, status.value) else byMethod;
    if ct.Some? && ct.value != "" then MapContentType(byStatus, ct.value) else byStatus
  }

  /** The status and content-type filters applied to the statuses of one method. */
  function StatusAndType(bodies: StatusSamples, status: Option<string>, ct: Option<string>): StatusSamples {
    var byStatus := if status.Some? && status.value != "" then OnlyStatus(bodies, status.value) else bodies;
    if ct.Some? && ct.value != "" then StatusesWithType(byStatus, ct.value) else byStatus
  }

  function MapStatus(resps: Dict<string, StatusSamples>, status: string): (r: Dict<string, StatusSamples>)
    ensures Keys(r) == Keys(resps)
    ensures forall i :: 0 <= i < |r| ==> r[i].1 == OnlyStatus(resps[i].1, status)
    decreases |resps|
  {
    if |resps| == 0 then [] else [(resps[0].0, OnlyStatus(resps[0].1, status))] + MapStatus(resps[1..], status)
  }

  function MapContentType(resps: Dict<string, StatusSamples>, ct: string): (r: Dict<string, StatusSamples>)
    ensures Keys(r) == Keys(resps)
    ensures forall i :: 0 <= i < |r| ==> r[i].1 == StatusesWithType(resps[i].1, ct)
    decreases |resps|
  {
    if |resps| == 0 then [] else [(resps[0].0, StatusesWithType(resps[0].1, ct))] + MapContentType(resps[1..], ct)
  }

  /** A status that holds the type is kept by the loop, whatever was built before. */
  lemma {:induction false} FilterKeepsMatches(acc: StatusSamples, bodies: StatusSamples, ct: string, i: int)
    requires forall e :: e in acc ==> OnlyType(e, ct)
    requires 0 <= i < |bodies| && bodies[i].1.Some? && ct in Keys(bodies[i].1.value)
    ensures bodies[i].0 in Keys(FilterStatuses(acc, bodies, ct))
    decreases |bodies|
  {
    var next := AddIfTyped(acc, bodies[0], ct);
    assert FilterStatuses(acc, bodies, ct) == FilterStatuses(next, bodies[1..], ct);
    if i > 0 {
      assert bodies[1..][i - 1] == bodies[i];
      FilterKeepsMatches(next, bodies[1..], ct, i - 1);
    } else {
      assert bodies[0].0 in Keys(next);
    }
  }

  /** The content-type filter keeps exactly the statuses that hold the type. */
  lemma ContentTypeFilterExact(bodies: StatusSamples, ct: string, st: string)
    ensures st in Keys(StatusesWithType(bodies, ct)) <==> HoldsType(bodies, ct, st)
  {
    if HoldsType(bodies, ct, st) {
      var i :| 0 <= i < |bodies| && bodies[i].0 == st && bodies[i].1.Some? && ct in Keys(bodies[i].1.value);
      FilterKeepsMatches([], bodies, ct, i);
    }
  }

  /** What `sample` prints: the path, then the request and response parts that were asked for. */
  datatype SampleOutput = SampleOutput(
    path: string,
    request: Option<Dict<string, Option<Samples>>>,
    response: Option<Dict<string, StatusSamples>>)

  /**
   * `sample` after the spec is loaded: the method check, then each part the
   * flags ask for, filtered. The bodies are those the parser found for the
   * path (see `OpenApiParser.GetRequestBody` and `GetResponseBody`).
   */
  function Sample(path: string, reqs: Dict<string, Option<Samples>>, resps: Dict<string, StatusSamples>,
                  verb: Option<string>, request: bool, response: bool, status: Option<string>, ct: Option<string>)
    : (r: Result<SampleOutput, CliError>)
    ensures r.Ok? <==> SampleMethod(verb).Ok?
    ensures r.Ok? ==> r.value.path == path && (r.value.request.Some? <==> request) && (r.value.response.Some? <==> response)
    ensures r.Ok? && request ==> r.value.request == Some(SampleRequests(reqs, SampleMethod(verb).value, ct))
    ensures r.Ok? && response ==> r.value.response == Some(SampleResponses(resps, SampleMethod(verb).value, status, ct))
  {
    var m :- SampleMethod(verb);
    Ok(SampleOutput(path,
                    if request then Some(SampleRequests(reqs, m, ct)) else None,
                    if response then Some(SampleResponses(resps, m, status, ct)) else None))
  }

  /** Asking for one method shows exactly that verb, in both parts. */
  lemma SampleOneMethod(path: string, reqs: Dict<string, Option<Samples>>, resps: Dict<string, StatusSamples>,
                        verb: string, status: Option<string>, ct: Option<string>)
    requires Upper(verb) in MethodNames()
    ensures var r := Sample(path, reqs, resps, Some(verb), true, true, status, ct);
      r.Ok? && Keys(r.value.request.value) == [Upper(verb)] && Keys(r.value.response.value) == [Upper(verb)]
  {
  }

  // ---------------------------------------------------------------------
  // The `batch` command
  // ---------------------------------------------------------------------

  /** Every piece stripped: the mapping half of the comprehension. */
  function StripEach(pieces: seq<string>): (r: seq<string>)
    ensures |r| == |pieces|
    ensures forall j :: 0 <= j < |pieces| ==> r[j] == Strip(pieces[j])
  {
    seq(|pieces|, j requires 0 <= j < |pieces| => Strip(pieces[j]))
  }

  /** The non-empty strings of a list, in order: the `if` half of the comprehension. */
  function NonEmpty(xs: seq<string>): (r: seq<string>)
    ensures forall i :: 0 <= i < |r| ==> r[i] != "" && r[i] in xs
    ensures forall j :: 0 <= j < |xs| && xs[j] != "" ==> xs[j] in r
    ensures (forall j :: 0 <= j < |xs| ==> xs[j] != "") ==> r == xs
    decreases |xs|
  {
    if |xs| == 0 then []
    else
      var rest := NonEmpty(xs[1..]);
      assert forall j :: 1 <= j < |xs| ==> xs[j] == xs[1..][j - 1];
      if xs[0] != "" then [xs[0]] + rest else rest
  }

  /** `[p.strip() for p in pattern.split(",") if p.strip()]`. */
  function SplitPatterns(pattern: string): (r: seq<string>)
    ensures forall i :: 0 <= i < |r| ==> r[i] != "" && ',' !in r[i]
    ensures forall i :: 0 <= i < |r| ==> StrippedPiece(Split(pattern, ','), r[i])
    ensures forall j :: 0 <= j < |Split(pattern, ',')| && Strip(Split(pattern, ',')[j]) != "" ==>
      Strip(Split(pattern, ',')[j]) in r
  {
    var pieces := Split(pattern, ',');
    StripEachFrom(pieces, NonEmpty(StripEach(pieces)));
    StripEachKept(pieces);
    StripEachNoComma(pieces);
    NonEmptyNoComma(StripEach(pieces));
    NonEmpty(StripEach(pieces))
  }

  /** `x` is one of the pieces, stripped. */
  predicate StrippedPiece(pieces: seq<string>, x: string) {
    exists j :: 0 <= j < |pieces| && x == Strip(pieces[j])
  }

  /** Every member of a sublist of the stripped pieces is some piece, stripped. */
  lemma StripEachFrom(pieces: seq<string>, r: seq<string>)
    requires forall i :: 0 <= i < |r| ==> r[i] in StripEach(pieces)
    ensures forall i :: 0 <= i < |r| ==> StrippedPiece(pieces, r[i])
  {
    forall i | 0 <= i < |r|
      ensures StrippedPiece(pieces, r[i])
    {
      var j :| 0 <= j < |StripEach(pieces)| && StripEach(pieces)[j] == r[i];
      assert r[i] == Strip(pieces[j]);
    }
  }

  /** Every piece that strips to a non-empty string survives the filter. */
  lemma StripEachKept(pieces: seq<string>)
    ensures forall j :: 0 <= j < |pieces| && Strip(pieces[j]) != "" ==> Strip(pieces[j]) in NonEmpty(StripEach(pieces))
  {
    var xs := StripEach(pieces);
    forall j | 0 <= j < |pieces| && Strip(pieces[j]) != ""
      ensures Strip(pieces[j]) in NonEmpty(xs)
    {
      assert xs[j] == Strip(pieces[j]);
    }
  }

  /** Stripping never brings in a comma. */
  lemma StripEachNoComma(pieces: seq<string>)
    requires forall j :: 0 <= j < |pieces| ==> ',' !in pieces[j]
    ensures forall j :: 0 <= j < |StripEach(pieces)| ==> ',' !in StripEach(pieces)[j]
  {
    forall j | 0 <= j < |pieces|
      ensures ',' !in StripEach(pieces)[j]
    {
      StripWithin(pieces[j]);
    }
  }

  /** Dropping the empty strings never brings in a comma. */
  lemma NonEmptyNoComma(xs: seq<string>)
    requires forall j :: 0 <= j < |xs| ==> ',' !in xs[j]
    ensures forall i :: 0 <= i < |NonEmpty(xs)| ==> ',' !in NonEmpty(xs)[i]
  {
    var r := NonEmpty(xs);
    forall i | 0 <= i < |r|
      ensures ',' !in r[i]
    {
      var j :| 0 <= j < |xs| && xs[j] == r[i];
    }
  }

  /** Every character of `s.strip()` comes from `s`. */
  lemma StripWithin(s: string)
    ensures forall c :: c in Strip(s) ==> c in s
  {
    var r := RStrip(s);
    assert forall c :: c in r ==> c in s by {
      forall c | c in r
        ensures c in s
      {
        var i :| 0 <= i < |r| && r[i] == c;
        assert s[i] == c;
      }
    }
    var l := LStrip(r);
    assert forall c :: c in l ==> c in r by {
      forall c | c in l
        ensures c in r
      {
        var i :| 0 <= i < |l| && l[i] == c;
        assert r[|r| - |l| + i] == c;
      }
    }
  }

  /** A non-empty piece with no padding at either end. */
  predicate Bare(p: string) {
    p != "" && !IsSpace(p[0]) && !IsSpace(p[|p| - 1])
  }

  /** A bare pattern is its own strip. */
  lemma StripBare(p: string)
    requires Bare(p)
    ensures Strip(p) == p
  {
    assert RStrip(p) == p;
    assert LStrip(p) == p;
  }

  /** Stripping changes no bare piece. */
  lemma StripEachBare(ps: seq<string>)
    requires forall i :: 0 <= i < |ps| ==> Bare(ps[i])
    ensures StripEach(ps) == ps
  {
    forall i | 0 <= i < |ps|
      ensures StripEach(ps)[i] == ps[i]
    {
      StripBare(ps[i]);
    }
  }

  /** Comma-joined bare patterns split back into the same list. */
  lemma SplitPatternsJoin(ps: seq<string>)
    requires |ps| >= 1
    requires forall i :: 0 <= i < |ps| ==> Bare(ps[i]) && ',' !in ps[i]
    ensures SplitPatterns(Join(",", ps)) == ps
  {
    SplitJoin(',', ps);
    StripEachBare(ps);
  }

  /** The default `--pattern` gives the three spec file extensions. */
  lemma DefaultPatterns()
    ensures SplitPatterns("*.json,*.yaml,*.yml") == ["*.json", "*.yaml", "*.yml"]
  {
    var ps := ["*.json", "*.yaml", "*.yml"];
    assert Join(",", ps) == "*.json,*.yaml,*.yml";
    SplitPatternsJoin(ps);
  }
}
