/**
 * `HttpRequest`: one operation turned into a request record, and its text
 * in an .http file (frontmatter comment, variables, request line, headers,
 * body).
 */
module Requests {
  import opened Results
  import opened Text
  import opened Dicts
  import opened OpenApi
  import opened Vars
  import ParameterParsing
  import BodyParsing

  type Headers = Dict<string, string>

  /** A request record; a `body` of `VNull` is Python's `None`. */
  datatype HttpRequest = HttpRequest(
    verb: Method,
    path: string,
    headers: Option<Headers>,
    body: Value,
    summary: Option<string>,
    description: Option<string>,
    params: seq<HttpVariable>)

  datatype RequestError =
    | BodyFailed(bodyError: BodyParsing.BodyError)
    | ParamsFailed(paramError: ParameterParsing.ParamError)
    | BodyNotADict      // the record's `body: dict | None` field rejects the value

  /** What the `body: dict | None` field accepts. */
  function ValidateBody(p: BodyParsing.Payload): (r: Result<Value, RequestError>)
    ensures r.Ok? <==> p.JsonBody? && (p.v.VDict? || p.v == VNull)
    ensures r.Ok? ==> r.value == p.v
  {
    match p
    case JsonBody(v) => if v.VDict? || v == VNull then Ok(v) else Err(BodyNotADict)
    case ExampleBody(_) => Err(BodyNotADict)
  }

  function LiftBodyError(e: BodyParsing.BodyError): RequestError { BodyFailed(e) }

  function LiftParamError(e: ParameterParsing.ParamError): RequestError { ParamsFailed(e) }

  /**
   * `HttpRequest.from_operation`: the body and headers of the first
   * `handle_body` entry (none when there is none), the path and variables of
   * `handle_params` on the original path, summary and description verbatim.
   */
  function FromOperation(verb: Method, path: string, op: Operation,
                         bodySampler: Sampler, paramSampler: Sampler): (r: Result<HttpRequest, RequestError>)
    ensures r.Ok? ==> BodyParsing.HandleBody(op.requestBody, bodySampler).Ok?
    ensures r.Ok? ==> ParameterParsing.HandleParams(path, op.parameters, paramSampler).Ok?
    ensures r.Ok? ==> r.value.verb == verb && r.value.summary == op.summary && r.value.description == op.description
    ensures r.Ok? ==>
              var handled := ParameterParsing.HandleParams(path, op.parameters, paramSampler).value;
              r.value.path == handled.0 && r.value.params == handled.1
    ensures r.Ok? ==>
              var bodies := BodyParsing.HandleBody(op.requestBody, bodySampler).value;
              (bodies == [] ==> r.value.headers.None? && r.value.body == VNull)
              && (bodies != [] ==> r.value.headers == Some(bodies[0].1.1) && bodies[0].1.0 == BodyParsing.JsonBody(r.value.body))
    ensures var b := BodyParsing.HandleBody(op.requestBody, bodySampler);
      b.Err? ==> r == Err(BodyFailed(b.error))
    ensures var b := BodyParsing.HandleBody(op.requestBody, bodySampler);
      var h := ParameterParsing.HandleParams(path, op.parameters, paramSampler);
      b.Ok? && h.Err? ==> r == Err(ParamsFailed(h.error))
    ensures var b := BodyParsing.HandleBody(op.requestBody, bodySampler);
      var h := ParameterParsing.HandleParams(path, op.parameters, paramSampler);
      b.Ok? && h.Ok? ==> (r.Ok? <==> b.value == [] || ValidateBody(b.value[0].1.0).Ok?)
                         && (r.Err? ==> r.error == BodyNotADict)
  {
    var bodies :- BodyParsing.HandleBody(op.requestBody, bodySampler).MapError(LiftBodyError);
    var first := if |bodies| > 0 then Some(bodies[0].1) else None;
    var handled :- ParameterParsing.HandleParams(path, op.parameters, paramSampler).MapError(LiftParamError);
    var body :- if first.None? then Ok(VNull) else ValidateBody(first.value.0);
    Ok(HttpRequest(verb, handled.0, if first.None? then None else Some(first.value.1), body,
                   op.summary, op.description, handled.1))
  }

  /** A body-less operation has neither body nor headers. */
  lemma NoBodyNoHeaders(verb: Method, path: string, op: Operation, bodySampler: Sampler, paramSampler: Sampler)
    requires op.requestBody.None?
    requires ParameterParsing.HandleParams(path, op.parameters, paramSampler).Ok?
    ensures FromOperation(verb, path, op, bodySampler, paramSampler).Ok?
    ensures FromOperation(verb, path, op, bodySampler, paramSampler).value.headers.None?
    ensures FromOperation(verb, path, op, bodySampler, paramSampler).value.body == VNull
  {
  }

  /** `"#" * 53 + "\n"`. */
  const Separator: string := "#####################################################\n"

  /** `summary.rstrip("\n") or 'No summary provided'`. */
  function SummaryText(summary: string): (r: string)
    ensures r != ""
    ensures r == "No summary provided" || IsPrefix(r, summary)
  {
    var s := RStripChar(summary, '\n');
    if s == "" then "No summary provided" else s
  }

  /**
   * The description text: a multi-line description becomes a newline and
   * its lines, each behind `###  ` with trailing whitespace removed.
   */
  function DescriptionText(description: string): string {
    if '\n' in description then "\n" + Join("\n", CommentLines(SplitLines(description)))
    else description
  }

  /** Each line behind `###  `, trailing whitespace removed. */
  function CommentLines(lines: seq<string>): (r: seq<string>)
    ensures |r| == |lines|
    ensures forall i :: 0 <= i < |lines| ==> r[i] == RStrip("###  " + lines[i])
  {
    if |lines| == 0 then [] else [RStrip("###  " + lines[0])] + CommentLines(lines[1..])
  }

  /** `desc or 'No description provided'` never needs its fallback. */
  lemma DescriptionTextNonEmpty(description: string)
    requires description != ""
    ensures DescriptionText(description) != ""
    ensures '\n' in description ==> DescriptionText(description)[0] == '\n'
    ensures '\n' !in description ==> DescriptionText(description) == description
  {
  }

  /** `### Request: METHOD path`, with the newlines of the path removed. */
  function RequestLine(r: HttpRequest): string {
    "### Request: " + (RequestTarget(r) + "\n")
  }

  /** `METHOD path` with the newlines of the path removed. */
  function RequestTarget(r: HttpRequest): string {
    MethodName(r.verb) + " " + ReplaceAll(r.path, "\n", "")
  }

  /** `HttpRequest._frontmatter`. */
  function Frontmatter(r: HttpRequest): string {
    FrontmatterHead(r) + Separator + "\n\n"
  }

  /** The description line, or else the request line and the summary line. */
  function FrontmatterHead(r: HttpRequest): string {
    if r.description.Some? && r.description.value != "" then
      var desc := DescriptionText(r.description.value);
      "### Description: " + (if desc == "" then "No description provided" else desc) + "\n"
    else
      Separator + RequestLine(r)
      + (if r.summary.Some? && r.summary.value != "" then "### Summary: " + SummaryText(r.summary.value) + "\n" else "")
  }

  /** The shape of the frontmatter, with and without a description. */
  lemma FrontmatterShape(r: HttpRequest)
    ensures IsSuffix(Separator + "\n\n", Frontmatter(r))
    ensures r.description.Some? && r.description.value != "" ==> IsPrefix("### Description: ", Frontmatter(r))
    ensures !(r.description.Some? && r.description.value != "") ==> IsPrefix(Separator + "### Request: ", Frontmatter(r))
    ensures r.description.Some? && r.description.value != "" ==>
              Frontmatter(r) == "### Description: " + DescriptionText(r.description.value) + "\n" + Separator + "\n\n"
  {
    var head := FrontmatterHead(r);
    var tail := Separator + "\n\n";
    assert Frontmatter(r) == head + tail;
    if r.description.Some? && r.description.value != "" {
      var desc := DescriptionText(r.description.value);
      var text := if desc == "" then "No description provided" else desc;
      DescriptionTextNonEmpty(r.description.value);
      assert head == "### Description: " + text + "\n";
      PrefixOfThree("### Description: ", text, "\n");
      HeadAndTail("### Description: ", head, tail);
    } else {
      var summary := if r.summary.Some? && r.summary.value != "" then "### Summary: " + SummaryText(r.summary.value) + "\n" else "";
      assert head == Separator + RequestLine(r) + summary;
      PrefixOfParts(Separator, "### Request: ", RequestTarget(r) + "\n", summary);
      HeadAndTail(Separator + "### Request: ", head, tail);
    }
  }

  /** A prefix of `head` starts `head + tail`, which ends with `tail`. */
  lemma HeadAndTail(p: string, head: string, tail: string)
    requires IsPrefix(p, head)
    ensures IsPrefix(p, head + tail) && IsSuffix(tail, head + tail)
  {
    ConcatEnds(head, tail);
    PrefixTrans(p, head, head + tail);
  }

  /** The request line of the frontmatter stays one line, whatever the path. */
  lemma RequestLineSingle(r: HttpRequest)
    ensures '\n' !in RequestLine(r)[..|RequestLine(r)| - 1]
  {
    ReplaceAllDeletesChar(r.path, '\n');
    assert '\n' !in MethodName(r.verb);
    assert '\n' !in RequestTarget(r);
    assert RequestLine(r)[..|RequestLine(r)| - 1] == "### Request: " + RequestTarget(r);
  }

  /** Each variable's text followed by a newline. */
  function ParamLines(ps: seq<HttpVariable>): (r: seq<string>)
    ensures |r| == |ps|
    ensures forall i :: 0 <= i < |ps| ==> r[i] == Render(ps[i]) + "\n"
  {
    if |ps| == 0 then [] else [Render(ps[0]) + "\n"] + ParamLines(ps[1..])
  }

  /** `_params`: the variables block. */
  function ParamsText(ps: seq<HttpVariable>): string {
    Concat(ParamLines(ps))
  }

  /** Every variable's rendering occurs in the variables block. */
  lemma ParamsTextListsEach(ps: seq<HttpVariable>, i: int)
    requires 0 <= i < |ps|
    ensures Contains(ParamsText(ps), Render(ps[i]))
  {
    var line := Render(ps[i]);
    ConcatContainsEach(ParamLines(ps), i);
    ContainsWhole("", line, "\n");
    assert "" + line + "\n" == ParamLines(ps)[i];
    ContainsTrans(ParamsText(ps), ParamLines(ps)[i], line);
  }

  /** The `k: v` line of one header. */
  function HeaderLine(h: (string, string)): string {
    h.0 + ": " + h.1 + "\n"
  }

  function HeaderLineSeq(h: Headers): (r: seq<string>)
    ensures |r| == |h|
    ensures forall i :: 0 <= i < |h| ==> r[i] == HeaderLine(h[i])
  {
    if |h| == 0 then [] else [HeaderLine(h[0])] + HeaderLineSeq(h[1..])
  }

  /** One `k: v` line per header, in order. */
  function HeaderLines(h: Headers): string {
    Concat(HeaderLineSeq(h))
  }

  /** Every header of the record has its line. */
  lemma HeaderLinesListEach(h: Headers, i: int)
    requires 0 <= i < |h|
    ensures Contains(HeaderLines(h), HeaderLine(h[i]))
  {
    ConcatContainsEach(HeaderLineSeq(h), i);
  }

  /** The `METHOD base_url+path` line. */
  function MethodLine(r: HttpRequest, baseUrl: string): string {
    MethodName(r.verb) + " " + baseUrl + r.path + "\n"
  }

  /**
   * `HttpRequest.to_http_file`; `dumps` is `json.dumps(..., indent=4)`,
   * whose formatting is not modelled.
   */
  function RenderRequest(r: HttpRequest, baseUrl: string, dumps: Value -> string): string {
    Frontmatter(r) + ParamsText(r.params) + MethodLine(r, baseUrl)
    + HeaderLines(r.headers.GetOr([])) + "\n"
    + (if Truthy(r.body) then dumps(r.body) else "")
  }

  /**
   * The rendered request starts with its frontmatter, lists each variable
   * and each header, holds the request line, and ends with a blank line
   * when it has no body.
   */
  lemma RenderRequestContents(r: HttpRequest, baseUrl: string, dumps: Value -> string)
    ensures IsPrefix(Frontmatter(r), RenderRequest(r, baseUrl, dumps))
    ensures IsPrefix(Frontmatter(r) + ParamsText(r.params) + MethodLine(r, baseUrl), RenderRequest(r, baseUrl, dumps))
    ensures Contains(RenderRequest(r, baseUrl, dumps), MethodLine(r, baseUrl))
    ensures forall i :: 0 <= i < |r.params| ==> Contains(RenderRequest(r, baseUrl, dumps), Render(r.params[i]))
    ensures forall i :: 0 <= i < |r.headers.GetOr([])| ==>
              Contains(RenderRequest(r, baseUrl, dumps), HeaderLine(r.headers.GetOr([])[i]))
    ensures !Truthy(r.body) ==> IsSuffix(HeaderLines(r.headers.GetOr([])) + "\n", RenderRequest(r, baseUrl, dumps))
  {
    var tail := if Truthy(r.body) then dumps(r.body) else "";
    FiveParts(Frontmatter(r), ParamsText(r.params), MethodLine(r, baseUrl), HeaderLines(r.headers.GetOr([])), tail);
    HeadOfFive(Frontmatter(r), ParamsText(r.params), MethodLine(r, baseUrl), HeaderLines(r.headers.GetOr([])), tail);
    forall i | 0 <= i < |r.params|
      ensures Contains(RenderRequest(r, baseUrl, dumps), Render(r.params[i]))
    {
      ParamsTextListsEach(r.params, i);
    }
    forall i | 0 <= i < |r.headers.GetOr([])|
      ensures Contains(RenderRequest(r, baseUrl, dumps), HeaderLine(r.headers.GetOr([])[i]))
    {
      HeaderLinesListEach(r.headers.GetOr([]), i);
    }
  }

  /** The first three parts, in order, start the whole. */
  lemma HeadOfFive(fm: string, pt: string, ml: string, hl: string, tail: string)
    ensures IsPrefix(fm + pt + ml, fm + pt + ml + hl + "\n" + tail)
  {
    assert fm + pt + ml + hl + "\n" + tail == (fm + pt + ml) + (hl + "\n" + tail);
    ConcatEnds(fm + pt + ml, hl + "\n" + tail);
  }

  /** The layout of `fm + pt + ml + hl + "\n" + tail`, for any five strings. */
  lemma FiveParts(fm: string, pt: string, ml: string, hl: string, tail: string)
    ensures IsPrefix(fm, fm + pt + ml + hl + "\n" + tail)
    ensures Contains(fm + pt + ml + hl + "\n" + tail, ml)
    ensures forall t :: Contains(pt, t) ==> Contains(fm + pt + ml + hl + "\n" + tail, t)
    ensures forall t :: Contains(hl, t) ==> Contains(fm + pt + ml + hl + "\n" + tail, t)
    ensures tail == "" ==> IsSuffix(hl + "\n", fm + pt + ml + hl + "\n" + tail)
  {
    var out := fm + pt + ml + hl + "\n" + tail;
    assert out == fm + (pt + ml + hl + "\n" + tail);
    ConcatEnds(fm, pt + ml + hl + "\n" + tail);
    assert out == fm + pt + ml + (hl + "\n" + tail);
    Infix(out, fm + pt, ml, hl + "\n" + tail);
    assert out == fm + pt + (ml + hl + "\n" + tail);
    Infix(out, fm, pt, ml + hl + "\n" + tail);
    assert out == fm + pt + ml + hl + ("\n" + tail);
    Infix(out, fm + pt + ml, hl, "\n" + tail);
    forall t | Contains(pt, t)
      ensures Contains(out, t)
    {
      ContainsTrans(out, pt, t);
    }
    forall t | Contains(hl, t)
      ensures Contains(out, t)
    {
      ContainsTrans(out, hl, t);
    }
    if tail == "" {
      assert out == fm + pt + ml + (hl + "\n");
      ConcatEnds(fm + pt + ml, hl + "\n");
    }
  }

  /** The middle of a three-part split occurs in the whole. */
  lemma Infix(s: string, a: string, b: string, c: string)
    requires s == a + b + c
    ensures Contains(s, b)
  {
    ContainsWhole(a, b, c);
  }
}
