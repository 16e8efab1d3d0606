/**
 * `OpenApiParser`: per-path views of an already-parsed document, one entry
 * per operation the Path Item has, in the order of the `METHOD` enumeration.
 */
module OpenApiParser {
  import opened Results
  import opened Dicts
  import opened OpenApi

  datatype ParserError =
    | PathsMissing(path: string)       // ValueError: the document has no `paths`
    | UnknownPath(path: string)        // KeyError: `paths[path]`
    | SampleFailed(message: string)    // ValueError wrapping the sampler's error
    | ContentOfReference               // AttributeError: `.content` of a Reference

  /** `get_paths`: the path keys in document order. */
  function GetPaths(doc: Document): (r: seq<string>)
    ensures doc.paths.None? ==> r == []
    ensures doc.paths.Some? ==> |r| == |doc.paths.value|
    ensures doc.paths.Some? ==> forall p :: p in r <==> Get(doc.paths.value, p).Some?
    ensures doc.paths.Some? ==> forall i :: 0 <= i < |r| ==> r[i] == doc.paths.value[i].0
  {
    if doc.paths.None? then [] else Keys(doc.paths.value)
  }

  /** `get_path_item`. */
  function GetPathItem(doc: Document, path: string): (r: Result<PathItem, ParserError>)
    ensures doc.paths.None? ==> r == Err(PathsMissing(path))
    ensures doc.paths.Some? ==> (r.Ok? <==> path in GetPaths(doc))
    ensures doc.paths.Some? && r.Err? ==> r.error == UnknownPath(path)
    ensures r.Ok? ==> exists i :: 0 <= i < |doc.paths.value| && doc.paths.value[i] == (path, r.value)
  {
    if doc.paths.None? then Err(PathsMissing(path))
    else
      match Get(doc.paths.value, path)
      case None => Err(UnknownPath(path))
      case Some(pi) => Ok(pi)
  }

  /** The members of `ms` whose operation the Path Item has, in order. */
  function Present(pi: PathItem, ms: seq<Method>): (r: seq<Method>)
    ensures forall m :: m in r <==> m in ms && OperationFor(pi, m).Some?
    ensures |r| <= |ms|
    decreases |ms|
  {
    if |ms| == 0 then []
    else if OperationFor(pi, ms[0]).Some? then [ms[0]] + Present(pi, ms[1..])
    else Present(pi, ms[1..])
  }

  /** `[m for m in METHOD if getattr(path_item, m.lower(), None) is not None]`. */
  function PresentMethods(pi: PathItem): (r: seq<Method>)
    ensures forall m :: m in r <==> OperationFor(pi, m).Some?
  {
    forall m ensures m in AllMethods {
      AllMethodsComplete(m);
    }
    Present(pi, AllMethods)
  }

  /** The METHOD order is kept: a method listed earlier comes out earlier. */
  lemma {:induction false} PresentKeepsOrder(pi: PathItem, ms: seq<Method>, i: int, j: int)
    requires 0 <= i < j < |Present(pi, ms)|
    ensures exists a, b :: 0 <= a < b < |ms| && ms[a] == Present(pi, ms)[i] && ms[b] == Present(pi, ms)[j]
    decreases |ms|
  {
    var r := Present(pi, ms);
    if OperationFor(pi, ms[0]).Some? {
      assert r == [ms[0]] + Present(pi, ms[1..]);
      if i == 0 {
        assert r[j] in Present(pi, ms[1..]) by { assert r[j] == Present(pi, ms[1..])[j - 1]; }
        var b :| 0 <= b < |ms[1..]| && ms[1..][b] == r[j];
        assert ms[0] == r[0] && ms[b + 1] == r[j];
      } else {
        PresentKeepsOrder(pi, ms[1..], i - 1, j - 1);
        var a, b :| 0 <= a < b < |ms[1..]| && ms[1..][a] == r[i] && ms[1..][b] == r[j];
        assert ms[a + 1] == r[i] && ms[b + 1] == r[j];
      }
    } else {
      PresentKeepsOrder(pi, ms[1..], i, j);
      var a, b :| 0 <= a < b < |ms[1..]| && ms[1..][a] == r[i] && ms[1..][b] == r[j];
      assert ms[a + 1] == r[i] && ms[b + 1] == r[j];
    }
  }

  /**
   * The list comprehension filtering parameters: only 3.1 Parameter objects
   * pass the `isinstance` test, and only those declared in `location`.
   */
  function ParamsIn(args: seq<ParamArg>, location: string): (r: seq<Parameter>)
    ensures |r| <= |args|
    ensures forall p :: p in r ==> p.rev == OAS31 && p.location == location && Param(p) in args
    ensures forall i :: 0 <= i < |args| && args[i].Param? && args[i].p.rev == OAS31 && args[i].p.location == location
              ==> args[i].p in r
    decreases |args|
  {
    if |args| == 0 then []
    else
      var rest := ParamsIn(args[1..], location);
      assert forall i :: 1 <= i < |args| ==> args[i] == args[1..][i - 1];
      if args[0].Param? && args[0].p.rev == OAS31 && args[0].p.location == location then [args[0].p] + rest
      else rest
  }

  /**
   * The filter works entry by entry: filtering two lists laid end to end is
   * filtering each, and a single entry is kept exactly when it passes.
   */
  lemma {:induction false} ParamsInConcat(a: seq<ParamArg>, b: seq<ParamArg>, location: string)
    ensures ParamsIn(a + b, location) == ParamsIn(a, location) + ParamsIn(b, location)
    ensures |a| == 1 ==>
              ParamsIn(a, location) == if a[0].Param? && a[0].p.rev == OAS31 && a[0].p.location == location then [a[0].p] else []
    decreases |a|
  {
    if |a| == 0 {
      assert a + b == b;
    } else {
      assert (a + b)[0] == a[0] && (a + b)[1..] == a[1..] + b;
      ParamsInConcat(a[1..], b, location);
    }
  }

  /** `if xs: params.extend(...)`: an absent list contributes nothing. */
  function ParamsOf(args: Option<seq<ParamArg>>, location: string): seq<Parameter> {
    if args.None? then [] else ParamsIn(args.value, location)
  }

  /** The per-method lists of `get_path_params` / `get_query_params`. */
  function ParamsByMethod(pi: PathItem, ms: seq<Method>, location: string): (r: Dict<string, seq<Parameter>>)
    requires forall m :: m in ms ==> OperationFor(pi, m).Some?
    ensures Keys(r) == MethodNames(ms)
    ensures forall i :: 0 <= i < |ms| ==>
              r[i].1 == ParamsOf(pi.parameters, location) + ParamsOf(OperationFor(pi, ms[i]).value.parameters, location)
    decreases |ms|
  {
    if |ms| == 0 then []
    else
      var rest := ParamsByMethod(pi, ms[1..], location);
      assert forall i :: 1 <= i < |ms| ==> ms[i] == ms[1..][i - 1];
      [(MethodName(ms[0]), ParamsOf(pi.parameters, location) + ParamsOf(OperationFor(pi, ms[0]).value.parameters, location))] + rest
  }

  function MethodNames(ms: seq<Method>): (r: seq<string>)
    ensures |r| == |ms|
    ensures forall i :: 0 <= i < |ms| ==> r[i] == MethodName(ms[i])
  {
    seq(|ms|, i requires 0 <= i < |ms| => MethodName(ms[i]))
  }

  /** The shared body of `get_path_params` and `get_query_params`, for one location. */
  function LocationParams(doc: Document, path: string, location: string): (r: Result<Dict<string, seq<Parameter>>, ParserError>)
    ensures r.Ok? <==> GetPathItem(doc, path).Ok?
    ensures r.Ok? ==> Keys(r.value) == MethodNames(PresentMethods(GetPathItem(doc, path).value))
    ensures r.Ok? ==> forall i, p :: 0 <= i < |r.value| && p in r.value[i].1 ==> p.location == location && p.rev == OAS31
    ensures r.Ok? ==> r.value == ParamsByMethod(GetPathItem(doc, path).value, PresentMethods(GetPathItem(doc, path).value), location)
  {
    var pi :- GetPathItem(doc, path);
    var ms := PresentMethods(pi);
    var r := ParamsByMethod(pi, ms, location);
    ParamsByMethodLocation(pi, ms, location);
    Ok(r)
  }

  /** Every list of `ParamsByMethod` holds only 3.1 Parameters at the location. */
  lemma ParamsByMethodLocation(pi: PathItem, ms: seq<Method>, location: string)
    requires forall m :: m in ms ==> OperationFor(pi, m).Some?
    ensures var r := ParamsByMethod(pi, ms, location);
      forall i, p :: 0 <= i < |r| && p in r[i].1 ==> p.location == location && p.rev == OAS31
  {
    var r := ParamsByMethod(pi, ms, location);
    forall i, p | 0 <= i < |r| && p in r[i].1
      ensures p.location == location && p.rev == OAS31
    {
      var a := ParamsOf(pi.parameters, location);
      var b := ParamsOf(OperationFor(pi, ms[i]).value.parameters, location);
      assert r[i].1 == a + b;
      assert p in a || p in b;
    }
  }

  /** `get_path_params`. */
  function GetPathParams(doc: Document, path: string): (r: Result<Dict<string, seq<Parameter>>, ParserError>)
    ensures r.Ok? <==> GetPathItem(doc, path).Ok?
    ensures r.Ok? ==> Keys(r.value) == MethodNames(PresentMethods(GetPathItem(doc, path).value))
    ensures r.Ok? ==> forall i, p :: 0 <= i < |r.value| && p in r.value[i].1 ==> p.location == "path" && p.rev == OAS31
    ensures r.Ok? ==> r.value == ParamsByMethod(GetPathItem(doc, path).value, PresentMethods(GetPathItem(doc, path).value), "path")
  {
    LocationParams(doc, path, "path")
  }

  /** `get_query_params`. */
  function GetQueryParams(doc: Document, path: string): (r: Result<Dict<string, seq<Parameter>>, ParserError>)
    ensures r.Ok? <==> GetPathItem(doc, path).Ok?
    ensures r.Ok? ==> Keys(r.value) == MethodNames(PresentMethods(GetPathItem(doc, path).value))
    ensures r.Ok? ==> forall i, p :: 0 <= i < |r.value| && p in r.value[i].1 ==> p.location == "query" && p.rev == OAS31
    ensures r.Ok? ==> r.value == ParamsByMethod(GetPathItem(doc, path).value, PresentMethods(GetPathItem(doc, path).value), "query")
  {
    LocationParams(doc, path, "query")
  }

  /** A 3.0 document's parameters never pass the 3.1 `isinstance` filter. */
  lemma ThirtyParametersDropped(args: seq<ParamArg>, location: string)
    requires forall i :: 0 <= i < |args| && args[i].Param? ==> args[i].p.rev == OAS30
    ensures ParamsIn(args, location) == []
  {
  }

  /** `first.value` of an Example Object; a Reference has no `value` and is not a dict. */
  function ExampleValue(e: ExampleEntry): Value {
    match e
    case ExampleObj(v) => v
    case ExampleRef(_) => VNull
  }

  /**
   * The value a media type contributes to `get_request_body` and
   * `get_response_body`: a non-`None` `example`, else the first `examples`
   * entry's value (`None` for a Reference), else the sample of a non-empty
   * schema; nothing otherwise.
   */
  function MediaSample(m: MediaType, sampler: Sampler): (r: Result<Option<Value>, ParserError>)
    ensures r.Err? ==> m.example == VNull && |m.examples| == 0 && m.schema.Some? && |m.schema.value.dump| > 0
    ensures r.Ok? && r.value.None? <==> m.example == VNull && |m.examples| == 0 && (m.schema.None? || m.schema.value.dump == [])
    ensures m.example != VNull ==> r == Ok(Some(m.example))
    ensures m.example == VNull && |m.examples| > 0 ==> r == Ok(Some(ExampleValue(m.examples[0].1)))
    ensures m.example == VNull && |m.examples| == 0 && m.schema.Some? && |m.schema.value.dump| > 0 ==>
              r == match sampler(m.schema.value) case Ok(v) => Ok(Some(v)) case Err(msg) => Err(SampleFailed(msg))
  {
    if m.example != VNull then Ok(Some(m.example))
    else if |m.examples| > 0 then Ok(Some(ExampleValue(m.examples[0].1)))
    else if m.schema.Some? && |m.schema.value.dump| > 0 then
      match sampler(m.schema.value)
      case Err(msg) => Err(SampleFailed(msg))
      case Ok(v) => Ok(Some(v))
    else Ok(None)
  }

  /** The loop over a content map, keeping only media types that gave a value. */
  function ContentSamples(out: Dict<string, Value>, content: seq<(string, MediaType)>, sampler: Sampler): (r: Result<Dict<string, Value>, ParserError>)
    requires DistinctKeys(out)
    ensures r.Ok? ==> DistinctKeys(r.value)
    ensures r.Ok? ==> forall k :: k in Keys(out) ==> k in Keys(r.value)
    ensures r.Ok? ==> forall k :: k in Keys(r.value) ==> k in Keys(out) || k in Keys(content)
    ensures r.Ok? <==> ContentOk(content, sampler)
    decreases |content|
  {
    if |content| == 0 then Ok(out)
    else
      assert forall i :: 1 <= i < |content| ==> content[i] == content[1..][i - 1];
      var v :- MediaSample(content[0].1, sampler);
      var next := if v.Some? then Put(out, content[0].0, v.value) else out;
      assert DistinctKeys(next) && (forall k :: k in Keys(out) ==> k in Keys(next))
             && (forall k :: k in Keys(next) ==> k in Keys(out) || k == content[0].0) by {
        if v.Some? {
          PutDistinct(out, content[0].0, v.value);
          PutKeys(out, content[0].0, v.value);
        }
      }
      var r := ContentSamples(next, content[1..], sampler);
      assert Keys(content) == [content[0].0] + Keys(content[1..]);
      r
  }

  /** Every media type of a content map gives its value without a sampler failure. */
  predicate ContentOk(content: seq<(string, MediaType)>, sampler: Sampler) {
    forall i :: 0 <= i < |content| ==> MediaSample(content[i].1, sampler).Ok?
  }

  /**
   * Over a content map with distinct keys, each content type ends up holding
   * the value its media type gave; one that gave none keeps what `out` held,
   * and so does every key outside the content map.
   */
  lemma {:induction false} ContentSamplesGet(out: Dict<string, Value>, content: seq<(string, MediaType)>, sampler: Sampler, k: string)
    requires DistinctKeys(out) && DistinctKeys(content)
    requires ContentSamples(out, content, sampler).Ok?
    ensures k !in Keys(content) ==> Get(ContentSamples(out, content, sampler).value, k) == Get(out, k)
    ensures forall i :: 0 <= i < |content| && content[i].0 == k ==>
              && MediaSample(content[i].1, sampler).Ok?
              && Get(ContentSamples(out, content, sampler).value, k)
                 == match MediaSample(content[i].1, sampler).value case Some(v) => Some(v) case None => Get(out, k)
    decreases |content|
  {
    if |content| > 0 {
      var v := MediaSample(content[0].1, sampler).value;
      var next := if v.Some? then Put(out, content[0].0, v.value) else out;
      assert DistinctKeys(next) && Get(next, k) == if v.Some? && k == content[0].0 then v else Get(out, k) by {
        if v.Some? {
          PutDistinct(out, content[0].0, v.value);
          PutGet(out, content[0].0, v.value, k);
        }
      }
      assert ContentSamples(out, content, sampler) == ContentSamples(next, content[1..], sampler);
      DistinctTail(content);
      ContentSamplesGet(next, content[1..], sampler, k);
      assert Keys(content) == [content[0].0] + Keys(content[1..]);
      forall i | 0 <= i < |content| && content[i].0 == k
        ensures && MediaSample(content[i].1, sampler).Ok?
                && Get(ContentSamples(out, content, sampler).value, k)
                   == match MediaSample(content[i].1, sampler).value case Some(v) => Some(v) case None => Get(out, k)
      {
        if i > 0 {
          assert content[1..][i - 1] == content[i];
        }
      }
    }
  }

  /**
   * Starting from `{}`: every content type maps to exactly the value its
   * media type gave, and the map is empty iff no media type gave one.
   */
  lemma {:induction false} ContentSamplesFresh(content: seq<(string, MediaType)>, sampler: Sampler)
    requires DistinctKeys(content)
    requires ContentSamples([], content, sampler).Ok?
    ensures forall i :: 0 <= i < |content| ==>
              MediaSample(content[i].1, sampler) == Ok(Get(ContentSamples([], content, sampler).value, content[i].0))
    ensures ContentSamples([], content, sampler).value == [] <==>
              forall i :: 0 <= i < |content| ==> MediaSample(content[i].1, sampler) == Ok(None)
  {
    var d := ContentSamples([], content, sampler).value;
    forall i | 0 <= i < |content|
      ensures MediaSample(content[i].1, sampler) == Ok(Get(d, content[i].0))
    {
      ContentSamplesGet([], content, sampler, content[i].0);
    }
    if d != [] {
      assert d[0].0 in Keys(d);
      assert d[0].0 in Keys(content);
      var i :| 0 <= i < |content| && Keys(content)[i] == d[0].0;
      assert Get(d, content[i].0).Some?;
    }
  }

  /** The sample stored for content type `k` in a map that may be `None`. */
  function SampleAt(d: Option<Dict<string, Value>>, k: string): Option<Value> {
    if d.None? then None else Get(d.value, k)
  }

  /** `requests or None`: an empty map becomes `None`. */
  function NoneIfEmpty(d: Dict<string, Value>): (r: Option<Dict<string, Value>>)
    ensures r.None? <==> d == []
    ensures r.Some? ==> r.value == d
  {
    if d == [] then None else Some(d)
  }

  /** The request-body samples of one operation. */
  function RequestSamples(op: Operation, sampler: Sampler): (r: Result<Option<Dict<string, Value>>, ParserError>)
    ensures op.requestBody.None? || op.requestBody.value.BodyRef? ==> r == Ok(None)
    ensures op.requestBody.Some? && op.requestBody.value.Body? ==> (r.Ok? <==> ContentOk(op.requestBody.value.content, sampler))
    ensures r.Ok? && r.value.Some? ==> |r.value.value| > 0 && DistinctKeys(r.value.value)
    ensures r.Ok? && r.value.Some? ==> forall k :: k in Keys(r.value.value) ==> k in Keys(op.requestBody.value.content)
    ensures r.Ok? && op.requestBody.Some? && op.requestBody.value.Body? && DistinctKeys(op.requestBody.value.content) ==>
              var content := op.requestBody.value.content;
              && (forall i :: 0 <= i < |content| ==> MediaSample(content[i].1, sampler) == Ok(SampleAt(r.value, content[i].0)))
              && (r.value.None? <==> forall i :: 0 <= i < |content| ==> MediaSample(content[i].1, sampler) == Ok(None))
  {
    if op.requestBody.None? || op.requestBody.value.BodyRef? then Ok(None)
    else
      ContentOutcome(op.requestBody.value.content, sampler)
  }

  /** `requests or None` after the loop over one content map. */
  function ContentOutcome(content: seq<(string, MediaType)>, sampler: Sampler): (r: Result<Option<Dict<string, Value>>, ParserError>)
    ensures r.Ok? <==> ContentOk(content, sampler)
    ensures r.Ok? && r.value.Some? ==> |r.value.value| > 0 && DistinctKeys(r.value.value)
    ensures r.Ok? && r.value.Some? ==> forall k :: k in Keys(r.value.value) ==> k in Keys(content)
    ensures r.Ok? && DistinctKeys(content) ==>
              && (forall i :: 0 <= i < |content| ==> MediaSample(content[i].1, sampler) == Ok(SampleAt(r.value, content[i].0)))
              && (r.value.None? <==> forall i :: 0 <= i < |content| ==> MediaSample(content[i].1, sampler) == Ok(None))
  {
    var d :- ContentSamples([], content, sampler);
    if DistinctKeys(content) then
      ContentSamplesFresh(content, sampler);
      Ok(NoneIfEmpty(d))
    else Ok(NoneIfEmpty(d))
  }

  /** `get_request_body`: per present method, the samples of its request body. */
  function GetRequestBody(doc: Document, path: string, sampler: Sampler): (r: Result<Dict<string, Option<Dict<string, Value>>>, ParserError>)
    ensures GetPathItem(doc, path).Err? ==> r.Err?
    ensures r.Ok? <==> (GetPathItem(doc, path).Ok? &&
              forall m :: OperationFor(GetPathItem(doc, path).value, m).Some? ==>
                RequestSamples(OperationFor(GetPathItem(doc, path).value, m).value, sampler).Ok?)
    ensures r.Ok? ==> Keys(r.value) == MethodNames(PresentMethods(GetPathItem(doc, path).value))
    ensures GetPathItem(doc, path).Ok? ==>
              var pi := GetPathItem(doc, path).value;
              r == RequestBodies(pi, PresentMethods(pi), sampler)
  {
    var pi :- GetPathItem(doc, path);
    var ms := PresentMethods(pi);
    assert (forall m :: OperationFor(pi, m).Some? ==> RequestSamples(OperationFor(pi, m).value, sampler).Ok?)
           <==> (forall i :: 0 <= i < |ms| ==> RequestSamples(OperationFor(pi, ms[i]).value, sampler).Ok?) by {
      assert forall i :: 0 <= i < |ms| ==> ms[i] in ms;
    }
    RequestBodies(pi, ms, sampler)
  }

  function RequestBodies(pi: PathItem, ms: seq<Method>, sampler: Sampler): (r: Result<Dict<string, Option<Dict<string, Value>>>, ParserError>)
    requires forall m :: m in ms ==> OperationFor(pi, m).Some?
    ensures r.Ok? ==> Keys(r.value) == MethodNames(ms)
    ensures r.Ok? ==> forall i :: 0 <= i < |ms| ==> RequestSamples(OperationFor(pi, ms[i]).value, sampler) == Ok(r.value[i].1)
    ensures r.Ok? <==> forall i :: 0 <= i < |ms| ==> RequestSamples(OperationFor(pi, ms[i]).value, sampler).Ok?
    decreases |ms|
  {
    if |ms| == 0 then Ok([])
    else
      var first :- RequestSamples(OperationFor(pi, ms[0]).value, sampler);
      var rest :- RequestBodies(pi, ms[1..], sampler);
      assert forall i :: 1 <= i < |ms| ==> ms[i] == ms[1..][i - 1];
      Ok([(MethodName(ms[0]), first)] + rest)
  }

  /** The samples of one response: a Reference or an empty content map gives `None`. */
  function ResponseSamples(response: ResponseArg, sampler: Sampler): (r: Result<Option<Dict<string, Value>>, ParserError>)
    ensures response.ResponseRef? ==> r == Ok(None)
    ensures response.Response? && response.content == [] ==> r == Ok(None)
    ensures response.Response? ==> (r.Ok? <==> ContentOk(response.content, sampler))
    ensures r.Ok? && r.value.Some? ==> |r.value.value| > 0 && forall k :: k in Keys(r.value.value) ==> k in Keys(response.content)
    ensures r.Ok? && response.Response? && DistinctKeys(response.content) ==>
              && (forall i :: 0 <= i < |response.content| ==>
                    MediaSample(response.content[i].1, sampler) == Ok(SampleAt(r.value, response.content[i].0)))
              && (r.value.None? <==> forall i :: 0 <= i < |response.content| ==> MediaSample(response.content[i].1, sampler) == Ok(None))
  {
    if response.ResponseRef? then Ok(None)
    else ContentOutcome(response.content, sampler)
  }

  /** The statuses of one operation: every declared status is kept, in order. */
  function StatusSamples(responses: seq<(string, ResponseArg)>, sampler: Sampler): (r: Result<Dict<string, Option<Dict<string, Value>>>, ParserError>)
    ensures r.Ok? ==> Keys(r.value) == Keys(responses)
    ensures r.Ok? ==> forall i :: 0 <= i < |responses| ==> ResponseSamples(responses[i].1, sampler) == Ok(r.value[i].1)
    ensures r.Ok? <==> forall i :: 0 <= i < |responses| ==> ResponseSamples(responses[i].1, sampler).Ok?
    decreases |responses|
  {
    if |responses| == 0 then Ok([])
    else
      var first :- ResponseSamples(responses[0].1, sampler);
      var rest :- StatusSamples(responses[1..], sampler);
      assert forall i :: 1 <= i < |responses| ==> responses[i] == responses[1..][i - 1];
      assert Keys(responses) == [responses[0].0] + Keys(responses[1..]);
      Ok([(responses[0].0, first)] + rest)
  }

  /** `get_response_body` for one operation: `{}` without responses. */
  function OperationResponses(op: Operation, sampler: Sampler): (r: Result<Dict<string, Option<Dict<string, Value>>>, ParserError>)
    ensures op.responses.None? || op.responses.value == [] ==> r == Ok([])
    ensures r.Ok? && op.responses.Some? ==> Keys(r.value) == Keys(op.responses.value)
    ensures r.Ok? && op.responses.Some? ==> forall i :: 0 <= i < |op.responses.value| ==>
              ResponseSamples(op.responses.value[i].1, sampler) == Ok(r.value[i].1)
    ensures op.responses.Some? ==>
              (r.Ok? <==> forall i :: 0 <= i < |op.responses.value| ==> ResponseSamples(op.responses.value[i].1, sampler).Ok?)
  {
    if op.responses.None? || op.responses.value == [] then Ok([])
    else StatusSamples(op.responses.value, sampler)
  }

  function ResponseBodies(pi: PathItem, ms: seq<Method>, sampler: Sampler): (r: Result<Dict<string, Dict<string, Option<Dict<string, Value>>>>, ParserError>)
    requires forall m :: m in ms ==> OperationFor(pi, m).Some?
    ensures r.Ok? ==> Keys(r.value) == MethodNames(ms)
    ensures r.Ok? ==> forall i :: 0 <= i < |ms| ==> OperationResponses(OperationFor(pi, ms[i]).value, sampler) == Ok(r.value[i].1)
    ensures r.Ok? <==> forall i :: 0 <= i < |ms| ==> OperationResponses(OperationFor(pi, ms[i]).value, sampler).Ok?
    decreases |ms|
  {
    if |ms| == 0 then Ok([])
    else
      var first :- OperationResponses(OperationFor(pi, ms[0]).value, sampler);
      var rest :- ResponseBodies(pi, ms[1..], sampler);
      assert forall i :: 1 <= i < |ms| ==> ms[i] == ms[1..][i - 1];
      Ok([(MethodName(ms[0]), first)] + rest)
  }

  /** `get_response_body`. */
  function GetResponseBody(doc: Document, path: string, sampler: Sampler): (r: Result<Dict<string, Dict<string, Option<Dict<string, Value>>>>, ParserError>)
    ensures GetPathItem(doc, path).Err? ==> r.Err?
    ensures r.Ok? <==> (GetPathItem(doc, path).Ok? &&
              forall m :: OperationFor(GetPathItem(doc, path).value, m).Some? ==>
                OperationResponses(OperationFor(GetPathItem(doc, path).value, m).value, sampler).Ok?)
    ensures r.Ok? ==> Keys(r.value) == MethodNames(PresentMethods(GetPathItem(doc, path).value))
    ensures GetPathItem(doc, path).Ok? ==>
              var pi := GetPathItem(doc, path).value;
              r == ResponseBodies(pi, PresentMethods(pi), sampler)
  {
    var pi :- GetPathItem(doc, path);
    var ms := PresentMethods(pi);
    assert (forall m :: OperationFor(pi, m).Some? ==> OperationResponses(OperationFor(pi, m).value, sampler).Ok?)
           <==> (forall i :: 0 <= i < |ms| ==> OperationResponses(OperationFor(pi, ms[i]).value, sampler).Ok?) by {
      assert forall i :: 0 <= i < |ms| ==> ms[i] in ms;
    }
    ResponseBodies(pi, ms, sampler)
  }

  /**
   * The sample of one operation in `get_sample_for_path`, from its first
   * content type only: `Some(None)` stands for a stored `None`, `None` for a
   * method left out of the map (a first `examples` entry that is a
   * Reference).
   */
  function FirstContentSample(op: Operation): (r: Result<Option<Value>, ParserError>)
    ensures op.requestBody.Some? && op.requestBody.value.BodyRef? <==> r.Err?
    ensures op.requestBody.None? ==> r == Ok(Some(VNull))
    ensures op.requestBody.Some? && op.requestBody.value.Body? && op.requestBody.value.content == [] ==> r == Ok(Some(VNull))
    ensures r.Ok? && r.value.Some? && r.value.value != VNull ==>
              var m := op.requestBody.value.content[0].1;
              r.value.value == m.example || (|m.examples| > 0 && m.examples[0].1 == ExampleObj(r.value.value))
    ensures op.requestBody.Some? && op.requestBody.value.Body? && op.requestBody.value.content != [] ==>
              var m := op.requestBody.value.content[0].1;
              && (Truthy(m.example) ==> r == Ok(Some(m.example)))
              && (!Truthy(m.example) && |m.examples| > 0 ==>
                    r == Ok(match m.examples[0].1 case ExampleObj(v) => Some(v) case ExampleRef(_) => None))
              && (!Truthy(m.example) && m.examples == [] ==> r == Ok(Some(VNull)))
  {
    if op.requestBody.None? then Ok(Some(VNull))
    else if op.requestBody.value.BodyRef? then Err(ContentOfReference)
    else if op.requestBody.value.content == [] then Ok(Some(VNull))
    else
      var m := op.requestBody.value.content[0].1;
      if Truthy(m.example) then Ok(Some(m.example))
      else if |m.examples| > 0 then
        match m.examples[0].1
        case ExampleObj(v) => Ok(Some(v))
        case ExampleRef(_) => Ok(None)
      else Ok(Some(VNull))
  }

  function SamplesFor(pi: PathItem, ms: seq<Method>): (r: Result<Dict<string, Value>, ParserError>)
    requires forall m :: m in ms ==> OperationFor(pi, m).Some?
    ensures r.Ok? ==> forall k :: k in Keys(r.value) ==> k in MethodNames(ms)
    ensures r.Ok? <==> forall i :: 0 <= i < |ms| ==> FirstContentSample(OperationFor(pi, ms[i]).value).Ok?
    ensures r.Ok? ==> forall i :: 0 <= i < |ms| ==> (FirstContentSample(OperationFor(pi, ms[i]).value).value.Some? ==> MethodName(ms[i]) in Keys(r.value))
    decreases |ms|
  {
    if |ms| == 0 then Ok([])
    else
      var first :- FirstContentSample(OperationFor(pi, ms[0]).value);
      var rest :- SamplesFor(pi, ms[1..]);
      assert forall i :: 1 <= i < |ms| ==> ms[i] == ms[1..][i - 1];
      assert MethodNames(ms) == [MethodName(ms[0])] + MethodNames(ms[1..]);
      if first.Some? then Ok([(MethodName(ms[0]), first.value)] + rest) else Ok(rest)
  }

  /**
   * The map holds, under each method's name, exactly what that method's
   * first content type gave: absent for a skipped method, `None` stored as
   * `Some(VNull)`.
   */
  lemma {:induction false} SamplesForGet(pi: PathItem, ms: seq<Method>, i: int)
    requires forall m :: m in ms ==> OperationFor(pi, m).Some?
    requires SamplesFor(pi, ms).Ok? && 0 <= i < |ms|
    ensures FirstContentSample(OperationFor(pi, ms[i]).value) == Ok(Get(SamplesFor(pi, ms).value, MethodName(ms[i])))
    decreases |ms|
  {
    var first := FirstContentSample(OperationFor(pi, ms[0]).value).value;
    var rest := SamplesFor(pi, ms[1..]).value;
    var r := SamplesFor(pi, ms).value;
    assert r == if first.Some? then [(MethodName(ms[0]), first.value)] + rest else rest;
    if i > 0 {
      assert ms[1..][i - 1] == ms[i];
      SamplesForGet(pi, ms[1..], i - 1);
    }
    if i > 0 && first.Some? && MethodName(ms[i]) == MethodName(ms[0]) {
      MethodNameInjective(ms[i], ms[0]);
    }
    if i == 0 && first.None? && Get(rest, MethodName(ms[0])).Some? {
      var j :| 0 <= j < |rest| && rest[j].0 == MethodName(ms[0]);
      assert MethodName(ms[0]) in MethodNames(ms[1..]);
      var k :| 0 <= k < |ms[1..]| && MethodName(ms[1..][k]) == MethodName(ms[0]);
      MethodNameInjective(ms[1..][k], ms[0]);
      SamplesForGet(pi, ms[1..], k);
    }
  }

  /** `get_sample_for_path`. */
  function GetSampleForPath(doc: Document, path: string): (r: Result<Dict<string, Value>, ParserError>)
    ensures GetPathItem(doc, path).Err? ==> r.Err?
    ensures r.Ok? <==> (GetPathItem(doc, path).Ok? &&
              forall m :: OperationFor(GetPathItem(doc, path).value, m).Some? ==>
                FirstContentSample(OperationFor(GetPathItem(doc, path).value, m).value).Ok?)
    ensures r.Ok? ==> forall k :: k in Keys(r.value) ==> k in MethodNames(PresentMethods(GetPathItem(doc, path).value))
    ensures r.Ok? ==> forall m :: OperationFor(GetPathItem(doc, path).value, m).Some? ==>
              FirstContentSample(OperationFor(GetPathItem(doc, path).value, m).value) == Ok(Get(r.value, MethodName(m)))
  {
    var pi :- GetPathItem(doc, path);
    var ms := PresentMethods(pi);
    assert (forall m :: OperationFor(pi, m).Some? ==> FirstContentSample(OperationFor(pi, m).value).Ok?)
           <==> (forall i :: 0 <= i < |ms| ==> FirstContentSample(OperationFor(pi, ms[i]).value).Ok?) by {
      assert forall i :: 0 <= i < |ms| ==> ms[i] in ms;
    }
    var r :- SamplesFor(pi, ms);
    assert forall m :: OperationFor(pi, m).Some? ==> FirstContentSample(OperationFor(pi, m).value) == Ok(Get(r, MethodName(m))) by {
      forall m | OperationFor(pi, m).Some?
        ensures FirstContentSample(OperationFor(pi, m).value) == Ok(Get(r, MethodName(m)))
      {
        var i :| 0 <= i < |ms| && ms[i] == m;
        SamplesForGet(pi, ms, i);
      }
    }
    Ok(r)
  }
}
