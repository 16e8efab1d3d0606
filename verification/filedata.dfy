/**
 * `HttpFileData`: the requests of every operation of a document, the set
 * of base URLs of its servers, and the whole .http text (a Shared block
 * with exactly one active `@BASE_URL`, then the requests).
 */
module HttpFileData {
  import opened Results
  import opened Text
  import opened OpenApi
  import opened Vars
  import opened Ordering
  import OpenApiParser
  import AuthParsing
  import Requests

  datatype FileData = FileData(baseUrls: seq<HttpVariable>, requests: seq<Requests.HttpRequest>)

  datatype FileError =
    | UnexpectedKeyword(callee: string, keyword: string)   // Python's `TypeError` for a keyword argument the callee lacks
    | RequestFailed(requestError: Requests.RequestError)
    | SecurityFailed(authError: AuthParsing.AuthError)

  /** One operation `from_paths` turns into a request. */
  datatype Visit = Visit(path: string, verb: Method, op: Operation)

  /** The operations of one Path Item, for the verbs `ms` it has, in that order. */
  function VisitsOf(path: string, pi: PathItem, ms: seq<Method>): (r: seq<Visit>)
    requires forall m :: m in ms ==> OperationFor(pi, m).Some?
    ensures |r| == |ms|
    ensures forall k :: 0 <= k < |r| ==> r[k] == Visit(path, ms[k], OperationFor(pi, ms[k]).value)
    decreases |ms|
  {
    if |ms| == 0 then []
    else [Visit(path, ms[0], OperationFor(pi, ms[0]).value)] + VisitsOf(path, pi, ms[1..])
  }

  /**
   * The loops of `from_paths`: paths in order, and in each the operation
   * fields of the Path Item that are set, in declaration order.
   */
  function Visits(paths: seq<(string, PathItem)>): seq<Visit>
    decreases |paths|
  {
    if |paths| == 0 then []
    else
      var ms := OpenApiParser.Present(paths[0].1, FieldOrder);
      VisitsOf(paths[0].0, paths[0].1, ms) + Visits(paths[1..])
  }

  /** `v` is the visit of a set operation field of the `i`-th listed path. */
  predicate VisitAt(paths: seq<(string, PathItem)>, i: int, v: Visit) {
    0 <= i < |paths| && v.path == paths[i].0 && v.verb in FieldOrder && OperationFor(paths[i].1, v.verb) == Some(v.op)
  }

  /** The visits of one path item are exactly its set operation fields. */
  lemma VisitsOfItem(path: string, pi: PathItem, v: Visit)
    ensures v in VisitsOf(path, pi, OpenApiParser.Present(pi, FieldOrder))
            <==> v.path == path && v.verb in FieldOrder && OperationFor(pi, v.verb) == Some(v.op)
  {
    var ms := OpenApiParser.Present(pi, FieldOrder);
    var here := VisitsOf(path, pi, ms);
    if v in here {
      var k :| 0 <= k < |here| && here[k] == v;
      assert ms[k] in ms;
    }
    if v.path == path && v.verb in FieldOrder && OperationFor(pi, v.verb) == Some(v.op) {
      assert v.verb in ms;
      var k :| 0 <= k < |ms| && ms[k] == v.verb;
      assert here[k] == v;
    }
  }

  /** A visit is exactly a set operation field of some listed path. */
  lemma {:induction false} VisitsComplete(paths: seq<(string, PathItem)>, v: Visit)
    ensures v in Visits(paths) <==> exists i :: VisitAt(paths, i, v)
    decreases |paths|
  {
    if |paths| > 0 {
      var here := VisitsOf(paths[0].0, paths[0].1, OpenApiParser.Present(paths[0].1, FieldOrder));
      var rest := Visits(paths[1..]);
      assert Visits(paths) == here + rest;
      assert v in Visits(paths) <==> v in here || v in rest;
      VisitsOfItem(paths[0].0, paths[0].1, v);
      assert v in here <==> VisitAt(paths, 0, v);
      VisitsComplete(paths[1..], v);
      if v in rest {
        var i :| VisitAt(paths[1..], i, v);
        assert VisitAt(paths, i + 1, v);
      }
      if exists i :: VisitAt(paths, i, v) {
        var i :| VisitAt(paths, i, v);
        if i > 0 {
          assert VisitAt(paths[1..], i - 1, v);
        }
      }
    }
  }

  /**
   * `from_paths` as written: every call of `from_operation` passes the
   * keywords `root_security` and `security_schemes`, which that method does
   * not accept, so the first operation raises `TypeError`.
   */
  function FromPathsAsWritten(servers: seq<Server>, paths: seq<(string, PathItem)>): (r: Result<FileData, FileError>)
    ensures r.Ok? ==> r.value.requests == []
  {
    if |Visits(paths)| > 0 then Err(UnexpectedKeyword("from_operation", "root_security"))
    else Ok(FileData(BaseUrls(servers), []))
  }

  /** As written, `from_paths` succeeds only on a document without operations. */
  lemma FromPathsAsWrittenFails(servers: seq<Server>, paths: seq<(string, PathItem)>)
    ensures FromPathsAsWritten(servers, paths).Err? <==> exists v :: v in Visits(paths)
    ensures FromPathsAsWritten(servers, paths).Err? ==>
              FromPathsAsWritten(servers, paths).error == UnexpectedKeyword("from_operation", "root_security")
  {
    if |Visits(paths)| > 0 {
      assert Visits(paths)[0] in Visits(paths);
    }
  }

  /** The smallest input that shows it: one path with one `get`. */
  lemma OneGetRaises(op: Operation)
    ensures var pi := PathItem(None, Some(op), None, None, None, None, None, None, None);
      FromPathsAsWritten([], [("/p", pi)]).Err?
  {
    var pi := PathItem(None, Some(op), None, None, None, None, None, None, None);
    var ms := OpenApiParser.Present(pi, FieldOrder);
    assert GET in ms;
    assert |VisitsOf("/p", pi, ms)| > 0;
    assert Visits([("/p", pi)]) == VisitsOf("/p", pi, ms) + Visits([]);
  }

  function LiftRequestError(e: Requests.RequestError): FileError { RequestFailed(e) }

  function LiftAuthError(e: AuthParsing.AuthError): FileError { SecurityFailed(e) }

  /**
   * The request of one operation with the security the keywords were
   * meant to carry: `from_operation`, then `apply_security` on its path,
   * headers and variables.
   */
  function SecuredRequest(v: Visit, rootSecurity: Option<seq<Alternative>>,
                          schemes: Option<seq<(string, SchemeArg)>>,
                          bodySampler: Sampler, paramSampler: Sampler): (r: Result<Requests.HttpRequest, FileError>)
    ensures r.Ok? ==> Requests.FromOperation(v.verb, v.path, v.op, bodySampler, paramSampler).Ok?
    ensures r.Ok? ==>
              var plain := Requests.FromOperation(v.verb, v.path, v.op, bodySampler, paramSampler).value;
              r.value.verb == plain.verb && r.value.body == plain.body && r.value.params == plain.params
              && r.value.summary == plain.summary && r.value.description == plain.description
              && IsPrefix(plain.path, r.value.path)
    ensures var plain := Requests.FromOperation(v.verb, v.path, v.op, bodySampler, paramSampler);
      plain.Err? ==> r == Err(RequestFailed(plain.error))
    ensures var plain := Requests.FromOperation(v.verb, v.path, v.op, bodySampler, paramSampler);
      plain.Ok? ==>
        var applied := AuthParsing.ApplySecurity(plain.value.path, plain.value.headers, Some(plain.value.params),
                                                 v.op, rootSecurity, schemes);
        && (applied.Err? ==> r == Err(SecurityFailed(applied.error)))
        && (applied.Ok? ==> r == Ok(plain.value.(path := applied.value.0, headers := Some(applied.value.1))))
  {
    var req :- Requests.FromOperation(v.verb, v.path, v.op, bodySampler, paramSampler).MapError(LiftRequestError);
    var applied :- AuthParsing.ApplySecurity(req.path, req.headers, Some(req.params), v.op, rootSecurity, schemes)
                   .MapError(LiftAuthError);
    Ok(req.(path := applied.0, headers := Some(applied.1), params := applied.2))
  }

  /** An operation with `security: []` gets the plain request, headers defaulted to `{}`. */
  lemma DisabledSecurityKeepsRequest(v: Visit, rootSecurity: Option<seq<Alternative>>,
                                     schemes: Option<seq<(string, SchemeArg)>>,
                                     bodySampler: Sampler, paramSampler: Sampler)
    requires v.op.security == Some([])
    ensures var plain := Requests.FromOperation(v.verb, v.path, v.op, bodySampler, paramSampler);
      SecuredRequest(v, rootSecurity, schemes, bodySampler, paramSampler)
      == if plain.Ok? then Ok(plain.value.(headers := Some(plain.value.headers.GetOr([]))))
         else Err(RequestFailed(plain.error))
  {
  }

  /**
   * The loop of `from_paths` over the visits: one request each, built by
   * `build`, in order; the first failure stops it.
   */
  function SecuredRequests(vs: seq<Visit>, build: Visit -> Result<Requests.HttpRequest, FileError>): (r: Result<seq<Requests.HttpRequest>, FileError>)
    ensures r.Ok? ==> |r.value| == |vs|
    ensures r.Ok? ==> forall k :: 0 <= k < |vs| ==> build(vs[k]) == Ok(r.value[k])
    ensures r.Err? ==>
              exists k :: (0 <= k < |vs| && build(vs[k]) == Err(r.error) && forall j :: 0 <= j < k ==> build(vs[j]).Ok?)
    ensures r.Err? <==> exists k :: 0 <= k < |vs| && build(vs[k]).Err?
    decreases |vs|
  {
    if |vs| == 0 then Ok([])
    else
      var first :- build(vs[0]);
      assert forall k :: 1 <= k < |vs| ==> vs[k] == vs[1..][k - 1];
      var rest :- SecuredRequests(vs[1..], build);
      Ok([first] + rest)
  }

  /**
   * `from_paths` with the security keywords taken by the request builder:
   * one request per visited operation, and the base URLs of the servers.
   */
  function FromPaths(servers: seq<Server>, paths: seq<(string, PathItem)>,
                     rootSecurity: Option<seq<Alternative>>, schemes: Option<seq<(string, SchemeArg)>>,
                     bodySampler: Sampler, paramSampler: Sampler): (r: Result<FileData, FileError>)
    ensures r.Ok? ==> r.value.baseUrls == BaseUrls(servers)
    ensures r.Ok? ==> |r.value.requests| == |Visits(paths)|
    ensures r.Ok? ==> forall k :: 0 <= k < |Visits(paths)| ==>
              r.value.requests[k].verb == Visits(paths)[k].verb
              && r.value.requests[k].summary == Visits(paths)[k].op.summary
    ensures r == match SecuredRequests(Visits(paths), Secure(rootSecurity, schemes, bodySampler, paramSampler))
                 case Ok(rs) => Ok(FileData(BaseUrls(servers), rs))
                 case Err(e) => Err(e)
  {
    var vs := Visits(paths);
    var build := Secure(rootSecurity, schemes, bodySampler, paramSampler);
    assert forall k :: 0 <= k < |vs| ==> build(vs[k]) == SecuredRequest(vs[k], rootSecurity, schemes, bodySampler, paramSampler);
    var requests := SecuredRequests(vs, build);
    if requests.Err? then Err(requests.error)
    else
      SecuredRequestsFollowVisits(vs, requests.value, rootSecurity, schemes, bodySampler, paramSampler);
      Ok(FileData(BaseUrls(servers), requests.value))
  }

  /** The per-visit builder `from_paths` was meant to use. */
  function Secure(rootSecurity: Option<seq<Alternative>>, schemes: Option<seq<(string, SchemeArg)>>,
                  bodySampler: Sampler, paramSampler: Sampler): Visit -> Result<Requests.HttpRequest, FileError>
  {
    v => SecuredRequest(v, rootSecurity, schemes, bodySampler, paramSampler)
  }

  /** Request `k` of `from_paths` is the secured request of visit `k`. */
  lemma FromPathsFollowsVisits(servers: seq<Server>, paths: seq<(string, PathItem)>,
                               rootSecurity: Option<seq<Alternative>>, schemes: Option<seq<(string, SchemeArg)>>,
                               bodySampler: Sampler, paramSampler: Sampler, k: int)
    requires FromPaths(servers, paths, rootSecurity, schemes, bodySampler, paramSampler).Ok?
    requires 0 <= k < |Visits(paths)|
    ensures SecuredRequest(Visits(paths)[k], rootSecurity, schemes, bodySampler, paramSampler)
            == Ok(FromPaths(servers, paths, rootSecurity, schemes, bodySampler, paramSampler).value.requests[k])
  {
    var rs := SecuredRequests(Visits(paths), Secure(rootSecurity, schemes, bodySampler, paramSampler));
    assert Secure(rootSecurity, schemes, bodySampler, paramSampler)(Visits(paths)[k])
           == SecuredRequest(Visits(paths)[k], rootSecurity, schemes, bodySampler, paramSampler);
  }

  /**
   * `from_paths` fails iff some visit fails, and then with the error of the
   * first failing visit.
   */
  lemma FromPathsFirstFailure(servers: seq<Server>, paths: seq<(string, PathItem)>,
                              rootSecurity: Option<seq<Alternative>>, schemes: Option<seq<(string, SchemeArg)>>,
                              bodySampler: Sampler, paramSampler: Sampler)
    ensures FromPaths(servers, paths, rootSecurity, schemes, bodySampler, paramSampler).Err? <==>
      exists k :: 0 <= k < |Visits(paths)| && SecuredRequest(Visits(paths)[k], rootSecurity, schemes, bodySampler, paramSampler).Err?
    ensures var r := FromPaths(servers, paths, rootSecurity, schemes, bodySampler, paramSampler);
      r.Err? ==> exists k :: (0 <= k < |Visits(paths)|
        && SecuredRequest(Visits(paths)[k], rootSecurity, schemes, bodySampler, paramSampler) == Err(r.error)
        && forall j :: 0 <= j < k ==> SecuredRequest(Visits(paths)[j], rootSecurity, schemes, bodySampler, paramSampler).Ok?)
  {
    var vs := Visits(paths);
    var build := Secure(rootSecurity, schemes, bodySampler, paramSampler);
    assert forall k :: 0 <= k < |vs| ==> build(vs[k]) == SecuredRequest(vs[k], rootSecurity, schemes, bodySampler, paramSampler);
  }

  /** Each secured request keeps the method and summary of its visit. */
  lemma SecuredRequestsFollowVisits(vs: seq<Visit>, requests: seq<Requests.HttpRequest>,
                                    rootSecurity: Option<seq<Alternative>>, schemes: Option<seq<(string, SchemeArg)>>,
                                    bodySampler: Sampler, paramSampler: Sampler)
    requires |requests| == |vs|
    requires forall k :: 0 <= k < |vs| ==>
               SecuredRequest(vs[k], rootSecurity, schemes, bodySampler, paramSampler) == Ok(requests[k])
    ensures forall k :: 0 <= k < |vs| ==> requests[k].verb == vs[k].verb && requests[k].summary == vs[k].op.summary
  {
    forall k | 0 <= k < |vs|
      ensures requests[k].verb == vs[k].verb && requests[k].summary == vs[k].op.summary
    {
      assert SecuredRequest(vs[k], rootSecurity, schemes, bodySampler, paramSampler) == Ok(requests[k]);
      assert Requests.FromOperation(vs[k].verb, vs[k].path, vs[k].op, bodySampler, paramSampler).Ok?;
    }
  }

  /** `set.add`: an element already present (by full equality) is not added again. */
  function AddUnique(xs: seq<HttpVariable>, x: HttpVariable): (r: seq<HttpVariable>)
    ensures forall y :: y in r <==> y in xs || y == x
    ensures x in xs ==> r == xs
  {
    if x in xs then xs else xs + [x]
  }

  predicate Distinct<T(==)>(xs: seq<T>) {
    forall i, j :: 0 <= i < j < |xs| ==> xs[i] != xs[j]
  }

  /** The `BaseURL` of a server, its description `""` when it has none. */
  function ServerBaseUrl(s: Server): HttpVariable {
    BaseUrl(s.url, s.description.GetOr(""))
  }

  /** The set of `BaseURL`s of the servers, in first-seen order. */
  function BaseUrls(servers: seq<Server>): (r: seq<HttpVariable>)
    ensures Distinct(r)
    ensures forall b :: b in r ==> b.name == BaseUrlName
    decreases |servers|
  {
    if |servers| == 0 then []
    else AddUnique(BaseUrls(servers[..|servers| - 1]), ServerBaseUrl(servers[|servers| - 1]))
  }

  /** Each server contributes its URL, and nothing else is in the set. */
  lemma {:induction false} BaseUrlsOfServers(servers: seq<Server>, b: HttpVariable)
    ensures b in BaseUrls(servers) <==> exists s :: s in servers && b == ServerBaseUrl(s)
    decreases |servers|
  {
    if |servers| > 0 {
      var init := servers[..|servers| - 1];
      var last := servers[|servers| - 1];
      BaseUrlsOfServers(init, b);
      assert servers == init + [last];
      if b in BaseUrls(servers) && b != ServerBaseUrl(last) {
        var s :| s in init && b == ServerBaseUrl(s);
        assert s in servers;
      }
      if exists s :: s in servers && b == ServerBaseUrl(s) {
        var s :| s in servers && b == ServerBaseUrl(s);
        if s != last {
          assert s in init;
        }
      }
    }
  }

  /** The sort key of a base URL: its value. */
  function UrlValue(b: HttpVariable): string {
    b.value
  }

  /** A line of a commented-out base URL: `# ln`, or `""` for a blank line. */
  function CommentOut(ln: string): (r: string)
    ensures Strip(ln) != "" ==> r == "# " + ln
    ensures Strip(ln) == "" ==> r == ""
  {
    if Strip(ln) != "" then "# " + ln else ""
  }

  /** The lines of one base URL's text. */
  function UrlLines(b: HttpVariable): seq<string> {
    SplitLines(Render(b))
  }

  /** The commented lines of the base URLs after the first. */
  function CommentedLines(bus: seq<HttpVariable>): (r: seq<string>)
    ensures forall i :: 0 <= i < |r| ==> r[i] == "" || IsPrefix("# ", r[i])
  {
    CommentChunks(bus, UrlLines)
  }

  /** The lines `f` gives each element, all commented, in order. */
  function CommentChunks<T>(xs: seq<T>, f: T -> seq<string>): (r: seq<string>)
    ensures forall i :: 0 <= i < |r| ==> r[i] == "" || IsPrefix("# ", r[i])
    decreases |xs|
  {
    if |xs| == 0 then []
    else CommentAll(f(xs[0])) + CommentChunks(xs[1..], f)
  }

  function CommentAll(lines: seq<string>): (r: seq<string>)
    ensures |r| == |lines|
    ensures forall i :: 0 <= i < |r| ==> r[i] == CommentOut(lines[i])
    ensures forall i :: 0 <= i < |r| ==> r[i] == "" || IsPrefix("# ", r[i])
  {
    if |lines| == 0 then []
    else
      assert IsPrefix("# ", CommentOut(lines[0])) || CommentOut(lines[0]) == "" by {
        if Strip(lines[0]) != "" {
          ConcatEnds("# ", lines[0]);
        }
      }
      [CommentOut(lines[0])] + CommentAll(lines[1..])
  }

  /** `base_lines`: the first URL stays active, the others are commented out. */
  function BaseLines(sorted: seq<HttpVariable>): seq<string> {
    if |sorted| == 0 then []
    else [RStripChar(Render(sorted[0]), '\n')] + CommentedLines(sorted[1..])
  }

  /** The Shared block: the base-URL lines, sorted by value, and two blank lines. */
  function SharedBlock(baseUrls: seq<HttpVariable>): string {
    "### Shared\n\n" + Join("\n", BaseLines(SortBy(baseUrls, UrlValue))) + "\n\n\n"
  }

  /**
   * Only the first base-URL line is left uncommented, and it is the one of
   * a base URL whose value is the smallest.
   */
  lemma OnlySmallestActive(baseUrls: seq<HttpVariable>)
    requires |baseUrls| > 0
    ensures var lines := BaseLines(SortBy(baseUrls, UrlValue));
      && |lines| > 0
      && (exists b :: b in baseUrls && lines[0] == RStripChar(Render(b), '\n')
                      && forall c :: c in baseUrls ==> LexLe(b.value, c.value))
      && forall i :: 1 <= i < |lines| ==> lines[i] == "" || IsPrefix("# ", lines[i])
  {
    var sorted := SortBy(baseUrls, UrlValue);
    SortByHeadLeast(baseUrls, UrlValue);
    var b := sorted[0];
    forall c | c in baseUrls
      ensures LexLe(b.value, c.value)
    {
      assert LexLe(UrlValue(b), UrlValue(c));
    }
    BaseLinesShape(sorted);
  }

  /** The first line renders the first URL; every later line is blank or commented. */
  lemma BaseLinesShape(sorted: seq<HttpVariable>)
    requires |sorted| > 0
    ensures var lines := BaseLines(sorted);
      && |lines| > 0 && lines[0] == RStripChar(Render(sorted[0]), '\n')
      && forall i :: 1 <= i < |lines| ==> lines[i] == "" || IsPrefix("# ", lines[i])
  {
    var first := RStripChar(Render(sorted[0]), '\n');
    var rest := CommentedLines(sorted[1..]);
    assert BaseLines(sorted) == [first] + rest;
    ConsCommented(first, rest);
  }

  /** Lines that are blank or commented stay so behind a new first line. */
  lemma ConsCommented(first: string, rest: seq<string>)
    requires forall i :: 0 <= i < |rest| ==> rest[i] == "" || IsPrefix("# ", rest[i])
    ensures forall i :: 1 <= i < |[first] + rest| ==> ([first] + rest)[i] == "" || IsPrefix("# ", ([first] + rest)[i])
  {
    forall i | 1 <= i < |[first] + rest|
      ensures ([first] + rest)[i] == "" || IsPrefix("# ", ([first] + rest)[i])
    {
      assert ([first] + rest)[i] == rest[i - 1];
    }
  }

  /** Every non-blank line of a later base URL comes out commented. */
  lemma LaterUrlsCommented(bus: seq<HttpVariable>, j: int, k: int)
    requires 0 <= j < |bus| && 0 <= k < |SplitLines(Render(bus[j]))|
    requires Strip(SplitLines(Render(bus[j]))[k]) != ""
    ensures "# " + SplitLines(Render(bus[j]))[k] in CommentedLines(bus)
  {
    assert UrlLines(bus[j]) == SplitLines(Render(bus[j]));
    ChunksHold(bus, UrlLines, j, k);
  }

  /** Each line of `lines` is kept, commented, by `CommentAll`. */
  lemma CommentAllHolds(lines: seq<string>, k: int)
    requires 0 <= k < |lines|
    ensures CommentOut(lines[k]) in CommentAll(lines)
  {
    assert CommentAll(lines)[k] == CommentOut(lines[k]);
  }

  lemma InEither<T>(x: T, a: seq<T>, b: seq<T>)
    requires x in a || x in b
    ensures x in a + b
  {
  }

  /** Every line `f` gives any element is kept, commented. */
  lemma {:induction false} ChunksHold<T>(xs: seq<T>, f: T -> seq<string>, j: int, k: int)
    requires 0 <= j < |xs| && 0 <= k < |f(xs[j])|
    ensures CommentOut(f(xs[j])[k]) in CommentChunks(xs, f)
    decreases |xs|
  {
    var here := CommentAll(f(xs[0]));
    var rest := CommentChunks(xs[1..], f);
    if j == 0 {
      CommentAllHolds(f(xs[j]), k);
    } else {
      assert xs[1..][j - 1] == xs[j];
      ChunksHold(xs[1..], f, j - 1, k);
    }
    InEither(CommentOut(f(xs[j])[k]), here, rest);
  }

  /** Each request rendered against the `{{BASE_URL}}` variable. */
  function RenderAll(rs: seq<Requests.HttpRequest>, dumps: Value -> string): (r: seq<string>)
    ensures |r| == |rs|
    ensures forall i :: 0 <= i < |rs| ==> r[i] == Requests.RenderRequest(rs[i], "{{BASE_URL}}", dumps)
  {
    if |rs| == 0 then []
    else [Requests.RenderRequest(rs[0], "{{BASE_URL}}", dumps)] + RenderAll(rs[1..], dumps)
  }

  /**
   * `to_http_file` as written: the generator passes `include_examples` and
   * `include_schema` to `HttpRequest.to_http_file`, which does not accept
   * them, so the join raises `TypeError` at the first request.
   */
  function ToHttpFileAsWritten(data: FileData, dumps: Value -> string): (r: Result<string, FileError>)
    ensures r.Ok? ==> r.value == SharedBlock(data.baseUrls)
  {
    if |data.requests| > 0 then Err(UnexpectedKeyword("to_http_file", "include_examples"))
    else Ok(SharedBlock(data.baseUrls) + Join("\n\n", []))
  }

  /** As written, `to_http_file` renders nothing but an empty file data. */
  lemma ToHttpFileAsWrittenFails(data: FileData, dumps: Value -> string)
    ensures ToHttpFileAsWritten(data, dumps).Err? <==> |data.requests| > 0
  {
  }

  /** `to_http_file` with the request renderer called as it is declared. */
  function ToHttpFile(data: FileData, dumps: Value -> string): string {
    SharedBlock(data.baseUrls) + Join("\n\n", RenderAll(data.requests, dumps))
  }

  /** The file opens with the Shared block, and is only that without requests. */
  lemma ToHttpFileStartsShared(data: FileData, dumps: Value -> string)
    ensures IsPrefix("### Shared\n\n", ToHttpFile(data, dumps))
    ensures IsPrefix(SharedBlock(data.baseUrls), ToHttpFile(data, dumps))
    ensures data.requests == [] ==> ToHttpFile(data, dumps) == SharedBlock(data.baseUrls)
  {
    var shared := SharedBlock(data.baseUrls);
    ConcatEnds(shared, Join("\n\n", RenderAll(data.requests, dumps)));
    SharedBlockStart(data.baseUrls);
    PrefixTrans("### Shared\n\n", shared, ToHttpFile(data, dumps));
  }

  lemma SharedBlockStart(baseUrls: seq<HttpVariable>)
    ensures IsPrefix("### Shared\n\n", SharedBlock(baseUrls))
  {
    PrefixOfThree("### Shared\n\n", Join("\n", BaseLines(SortBy(baseUrls, UrlValue))), "\n\n\n");
  }

  /** Every request is rendered, against `{{BASE_URL}}`, somewhere in the file. */
  lemma ToHttpFileHoldsRequests(data: FileData, dumps: Value -> string)
    ensures forall i :: 0 <= i < |data.requests| ==>
              Contains(ToHttpFile(data, dumps), Requests.RenderRequest(data.requests[i], "{{BASE_URL}}", dumps))
  {
    var shared := SharedBlock(data.baseUrls);
    var parts := RenderAll(data.requests, dumps);
    forall i | 0 <= i < |data.requests|
      ensures Contains(ToHttpFile(data, dumps), parts[i])
    {
      JoinContainsEach("\n\n", parts, i);
      ContainsInfix(shared, Join("\n\n", parts), "", parts[i]);
      assert shared + Join("\n\n", parts) + "" == ToHttpFile(data, dumps);
    }
  }

  /** Where there is nothing to fail, the corrected renderer agrees with the code as written. */
  lemma ToHttpFileAgrees(data: FileData, dumps: Value -> string)
    requires data.requests == []
    ensures ToHttpFileAsWritten(data, dumps) == Ok(ToHttpFile(data, dumps))
  {
  }
}
