/**
 * The already-parsed OpenAPI 3.0/3.1 object model the generator reads, and the
 * Python values that appear in it (examples, samples, JSON bodies).
 *
 * Absent optional fields are `None`; an absent `example` is `VNull`, which is
 * what Python's `None` is. A missing `examples` mapping and an empty one are
 * both the empty sequence, since the source only tests it for truthiness.
 */
module OpenApi {
  import opened Results
  import opened Text

  /** A JSON-like Python value. Floats are not modelled. */
  datatype Value =
    | VNull
    | VBool(b: bool)
    | VInt(i: int)
    | VStr(s: string)
    | VList(items: seq<Value>)
    | VDict(entries: seq<(string, Value)>)

  const EmptyDict: Value := VDict([])

  /** Python truthiness (`bool(v)`). */
  predicate Truthy(v: Value) {
    match v
    case VNull => false
    case VBool(b) => b
    case VInt(i) => i != 0
    case VStr(s) => s != ""
    case VList(xs) => |xs| > 0
    case VDict(es) => |es| > 0
  }

  /** `isinstance(v, (int, str, float, bool))`. */
  predicate IsScalar(v: Value) {
    v.VBool? || v.VInt? || v.VStr?
  }

  /** Python's `repr(v)`; escaping inside string literals is not modelled. */
  function Repr(v: Value): string {
    match v
    case VNull => "None"
    case VBool(b) => if b then "True" else "False"
    case VInt(i) => IntToString(i)
    case VStr(s) => "'" + s + "'"
    case VList(xs) =>
      "[" + Join(", ", seq(|xs|, i requires 0 <= i < |xs| => Repr(xs[i]))) + "]"
    case VDict(es) =>
      "{" + Join(", ", seq(|es|, i requires 0 <= i < |es| => "'" + es[i].0 + "': " + Repr(es[i].1))) + "}"
  }

  /** Python's `str(v)`: a string is itself, anything else its `repr`. */
  function Show(v: Value): string {
    if v.VStr? then v.s else Repr(v)
  }

  /** `str(v)` is empty only for the empty string. */
  lemma ShowEmptyIff(v: Value)
    ensures Show(v) == "" <==> v == VStr("")
  {
  }

  /**
   * One entry of an `examples` mapping: an Example Object (whose `value` may
   * be `None`), or an unresolved Reference Object, of which only its textual
   * form (`str(ref)`) is kept.
   */
  datatype ExampleEntry = ExampleObj(value: Value) | ExampleRef(text: string)

  /** A Schema Object as its `model_dump(by_alias=True, exclude_none=True)`. */
  datatype Schema = Schema(dump: seq<(string, Value)>)

  /** The JSON-Schema sample generator: a value, or the message it raised. */
  type Sampler = Schema -> Result<Value, string>

  /** Which revision of the specification the object was parsed as. */
  datatype Revision = OAS30 | OAS31

  /** A Parameter Object; `location` is the value of its `in` field. */
  datatype Parameter = Parameter(
    rev: Revision,
    name: string,
    location: string,
    description: string,
    example: Value,
    examples: seq<(string, ExampleEntry)>,
    schema: Option<Schema>)

  /** An entry of a `parameters` list: a Parameter Object or a Reference Object. */
  datatype ParamArg = Param(p: Parameter) | ParamRef(text: string)

  /** A Media Type Object. */
  datatype MediaType = MediaType(
    example: Value,
    examples: seq<(string, ExampleEntry)>,
    schema: Option<Schema>)

  /** A `requestBody`: a Request Body Object or a Reference Object. */
  datatype BodyArg = Body(content: seq<(string, MediaType)>) | BodyRef(text: string)

  /** An entry of `responses`: a Response Object or a Reference Object. */
  datatype ResponseArg = Response(content: seq<(string, MediaType)>) | ResponseRef(text: string)

  /**
   * One alternative of a security requirement list: the mapping from scheme
   * name to scopes, or an entry that is not a mapping at all.
   */
  datatype Alternative = Alt(schemes: seq<(string, seq<string>)>) | NotAMapping

  datatype Operation = Operation(
    summary: Option<string>,
    description: Option<string>,
    parameters: Option<seq<ParamArg>>,
    requestBody: Option<BodyArg>,
    responses: Option<seq<(string, ResponseArg)>>,
    security: Option<seq<Alternative>>)

  /** The `METHOD` enumeration, in declaration order. */
  datatype Method =
    OPTIONS | GET | HEAD | POST | PUT | PATCH | DELETE | TRACE | CONNECT | GRAPHQL | GRPC | WS

  const AllMethods: seq<Method> :=
    [OPTIONS, GET, HEAD, POST, PUT, PATCH, DELETE, TRACE, CONNECT, GRAPHQL, GRPC, WS]

  lemma AllMethodsComplete(m: Method)
    ensures m in AllMethods
  {
  }

  function MethodName(m: Method): string {
    match m
    case OPTIONS => "OPTIONS"
    case GET => "GET"
    case HEAD => "HEAD"
    case POST => "POST"
    case PUT => "PUT"
    case PATCH => "PATCH"
    case DELETE => "DELETE"
    case TRACE => "TRACE"
    case CONNECT => "CONNECT"
    case GRAPHQL => "GRAPHQL"
    case GRPC => "GRPC"
    case WS => "WS"
  }

  /** Distinct methods have distinct names. */
  lemma MethodNameInjective(a: Method, b: Method)
    ensures MethodName(a) == MethodName(b) ==> a == b
  {
  }

  /** A Path Item Object: shared parameters and one optional operation per verb. */
  datatype PathItem = PathItem(
    parameters: Option<seq<ParamArg>>,
    get: Option<Operation>,
    put: Option<Operation>,
    post: Option<Operation>,
    delete: Option<Operation>,
    options: Option<Operation>,
    head: Option<Operation>,
    patch: Option<Operation>,
    trace: Option<Operation>)

  /** `getattr(path_item, m.lower(), None)`: the verbs a Path Item lacks give `None`. */
  function OperationFor(pi: PathItem, m: Method): Option<Operation> {
    match m
    case GET => pi.get
    case PUT => pi.put
    case POST => pi.post
    case DELETE => pi.delete
    case OPTIONS => pi.options
    case HEAD => pi.head
    case PATCH => pi.patch
    case TRACE => pi.trace
    case _ => None
  }

  /** The operation fields of a Path Item in their declaration order. */
  const FieldOrder: seq<Method> := [GET, PUT, POST, DELETE, OPTIONS, HEAD, PATCH, TRACE]

  datatype OAuthFlow = OAuthFlow(
    authorizationUrl: Option<string>,
    tokenUrl: Option<string>,
    refreshUrl: Option<string>,
    scopes: seq<(string, string)>)

  datatype OAuthFlows = OAuthFlows(
    implicit: Option<OAuthFlow>,
    password: Option<OAuthFlow>,
    clientCredentials: Option<OAuthFlow>,
    authorizationCode: Option<OAuthFlow>)

  /**
   * A Security Scheme Object: `stype` is its `type`, `scheme` the HTTP auth
   * scheme, `name` and `location` the apiKey parameter name and its `in`.
   */
  datatype SecurityScheme = SecurityScheme(
    stype: string,
    scheme: Option<string>,
    name: Option<string>,
    location: Option<string>,
    flows: Option<OAuthFlows>)

  datatype SchemeArg = Scheme(s: SecurityScheme) | SchemeRef(text: string)

  datatype Server = Server(url: string, description: Option<string>)

  /** The parts of the OpenAPI Object the generator reads. */
  datatype Document = Document(
    servers: seq<Server>,
    paths: Option<seq<(string, PathItem)>>,
    securitySchemes: Option<seq<(string, SchemeArg)>>,
    security: Option<seq<Alternative>>)
}
