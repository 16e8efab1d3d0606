# httpfilegen core, modelled in Dafny

httpfilegen turns an OpenAPI 3.0/3.1 description into `.http` request files
and Kulala environment files. This project models the part between the
parsed OpenAPI object model and the output text:

- **parameter resolution**: path tokens `{x}` become `{{x}}`, and query
  parameters become `?`/`&` lines. Every parameter yields a variable whose
  value follows the precedence example > examples > schema sample > `{}`.
  A scan reports the first undeclared single-braced token;
- **security application**: the operation's own requirement, else the
  document's. Only its first alternative is applied, and each scheme is
  rendered as an exact header, query or cookie string;
- **body resolution**: the same precedence, applied per content type, with
  a `Content-Type` header;
- **the parser's helpers**: path lists, per-method parameter lists, and
  request and response samples;
- **request records and rendering**: `HttpVariable`, `HttpRequest` and
  `HttpFileData`, including the Shared block, where exactly one base URL
  stays active;
- **the environment skeleton builder and its validators**: OAuth2 flow
  choice, public configs without secrets and private placeholder configs.
  Typed validation (`OAuth2Auth`, NTLM, environment sections) silently
  drops invalid public entries;
- **the command line's pure helpers**: the option parsers, the
  configuration lookup, the `sample` filters and the batch pattern list.

Files:

| file | module | models |
|---|---|---|
| results.dfy | Results | `Option`/`Result` with `:-` |
| text.dfy | Text | Python string operations (`strip`, `split`, `join`, `upper`, `lower`, `splitlines`, `replace`, `str(int)`) |
| dicts.dfy | Dicts | insertion-ordered dicts as sequences of pairs |
| ordering.dfy | Ordering | string ordering and a stable sort (`sorted(key=...)`) |
| openapi.dfy | OpenApi | the parsed OpenAPI object model, JSON-like values, Python truthiness and `str()` |
| vars.dfy | Vars | `var.py` |
| params.dfy | ParameterParsing | `parameter_parsing.py` |
| auth.dfy | AuthParsing | `auth_parsing.py` |
| body.dfy | BodyParsing | `body_parsing.py` |
| parser.dfy | OpenApiParser | `open_api_parser.py` |
| request.dfy | Requests | `request.py` |
| filedata.dfy | HttpFileData | `http_file_data.py` |
| envfiles.dfy | EnvFiles | the auth-config models of `env_files.py` |
| envgen.dfy | EnvGenerator | `env_file/generator.py` |
| cli.dfy | Cli | the pure helpers of `cli.py` |

Python exceptions, and the command line's `_abort`, become the `Err`
branch of a `Result`. Each failure has its own constructor.

Some collaborators are parameters rather than code:
- the JSON-Schema sampler (`JSF`) is a `Sampler`, a function that may fail;
- `json.dumps` is a `Value -> string` parameter;
- `PrivateOAuth2Auth`, whose class is not part of this model, is a parse
  parameter;
- the `$schema` defaults of the two environment models are parameters.

Where the project's design notes or tests describe behaviour the code does
not have, the model follows the code:
- query names and values are not percent-encoded;
- cookie parameters are not merged into a `Cookie` header;
- the generator writes one environment section, not several;
- a body with several content types is not rejected; the first entry is taken;
- only the first undeclared path token is reported;
- `HttpVariable` renders as `var.py` does, including a description line and
  the `# @prompt` form, which some test expectations do not match.

## Model

| member | source | states |
|---|---|---|
| Text.ReplaceAllFirst | src/http_file_generator/models/utils/parameter_parsing.py:75 | `str.replace` rewrites the first occurrence: the text before it is kept, the token becomes the replacement, and the scan carries on after it |
| Vars.BaseUrl | src/http_file_generator/models/http_file/var.py:17-18 | a `BaseURL` is named `BASE_URL` and keeps the value and description it is given |
| Vars.RenderLayout | src/http_file_generator/models/http_file/var.py:9-12 | the rendering ends in a newline. It ends with `@name=value` when the value is non-empty, else with `# @prompt name`. A non-empty description puts `# description` first; without one, the text starts with `@` iff the value is non-empty |
| Vars.HashIgnoresDescription | src/http_file_generator/models/http_file/var.py:14-15 | two variables hash alike iff their names and values agree, whatever their descriptions |
| Vars.PromptNeverAssigns | src/http_file_generator/models/http_file/var.py:12 | a variable with an empty value, whose description holds no `@`, never renders an `@name=` assignment |
| Vars.Render | src/http_file_generator/models/http_file/var.py:9-12 | `str(var)`; `RenderLayout` states the optional `# description` line, then `@name=value` or the `# @prompt` line, ending in a newline |
| Vars.HashKey | src/http_file_generator/models/http_file/var.py:14-15 | the hashed tuple; `HashIgnoresDescription` states two variables hash alike iff name and value agree |
| ParameterParsing.NormalizeParamSample | src/http_file_generator/models/utils/parameter_parsing.py:121-131 | a non-empty list gives its first element; every other sample comes out scalar, and a scalar is kept |
| ParameterParsing.NormalizeKeepsText | src/http_file_generator/models/utils/parameter_parsing.py:126-130 | a non-scalar sample keeps its `str()` text |
| ParameterParsing.SampleParam | src/http_file_generator/models/utils/parameter_parsing.py:116-133 | a sampler failure becomes `SampleFailed` with the sampler's error; success is the normalised sample |
| ParameterParsing.ResolveValue | src/http_file_generator/models/utils/parameter_parsing.py:78-91 | a failure is exactly the sampler's, wrapped in `SampleFailed`, and happens only in the schema branch. A schema sample gives `str()` of the normalised sample, or `{}` when that is falsy |
| ParameterParsing.ResolveValuePrecedence | src/http_file_generator/models/utils/parameter_parsing.py:78-91 | a truthy example wins. Else the first `examples` entry wins. Else the sample is used, and it is the only branch that consults the sampler. Without a schema the value is the text of `{}` |
| ParameterParsing.ResolveValueSample | src/http_file_generator/models/utils/parameter_parsing.py:83-91 | read off the raw sample: a list gives its truthy first item's text, else `{}`; a scalar gives its text when truthy, else `{}`; a dict or `None` gives its text |
| ParameterParsing.ResolveValueEmptyIff | src/http_file_generator/models/utils/parameter_parsing.py:78-95 | the value text is empty iff there is no truthy example and the first `examples` entry has empty text |
| ParameterParsing.ParamVariable | src/http_file_generator/models/utils/parameter_parsing.py:92-96 | the variable has the parameter's name, its resolved value and its description |
| ParameterParsing.AppendQuerySegment | src/http_file_generator/models/utils/parameter_parsing.py:140-143 | the path gains exactly `\n&name={{var}}` when it already holds `?`, else `\n?name={{var}}` |
| ParameterParsing.AppendQuery | src/http_file_generator/models/utils/parameter_parsing.py:140-143 | the old path is a strict prefix of the new one, which always holds `?` |
| ParameterParsing.SecondQueryUsesAmpersand | src/http_file_generator/models/utils/parameter_parsing.py:140-143 | after one query parameter, the next is joined with `&` |
| ParameterParsing.HandlePathParam | src/http_file_generator/models/utils/parameter_parsing.py:66-96 | it fails with `NotFoundInPath` iff `{name}` is absent from the path. On success the path is the old one with every `{name}` replaced by `{{name}}`, and the variable is the parameter's |
| ParameterParsing.HandlePathParamFirst | src/http_file_generator/models/utils/parameter_parsing.py:73-75 | the text before the first `{name}` is kept, that token becomes `{{name}}`, and the rest of the path is rewritten the same way |
| ParameterParsing.HandleQueryParam | src/http_file_generator/models/utils/parameter_parsing.py:136-162 | the path is extended by one query segment, and the variable is the parameter's |
| ParameterParsing.ApplyParam | src/http_file_generator/models/utils/parameter_parsing.py:34-59 | a non-parameter raises TypeError and an unknown location raises NotImplementedError. Header and cookie parameters keep the path; query parameters extend it; a path parameter needs its token |
| ParameterParsing.ApplyParams | src/http_file_generator/models/utils/parameter_parsing.py:32-59 | one variable per parameter, in declaration order, with its name, description and `ResolveValue` text. Each handler sees the path the previous ones left (`PathAt`). The loop succeeds iff every handler does on its path, and the result's path is the path after the last one. An error is the first failing handler's |
| ParameterParsing.HeadersAndCookiesKeepPath | src/http_file_generator/models/utils/parameter_parsing.py:44-55 | header and cookie parameters never change the path |
| ParameterParsing.QueriesExtendPath | src/http_file_generator/models/utils/parameter_parsing.py:40-55 | with header, cookie and query parameters only, the old path is a prefix of the new one |
| ParameterParsing.Search | src/http_file_generator/models/utils/parameter_parsing.py:220 | `re.search` of `(?<!\{)\{([^}]+)\}(?!\})`: it finds the leftmost match, and finds none iff there is none |
| ParameterParsing.MatchCloseUnique | src/http_file_generator/models/utils/parameter_parsing.py:220 | a match closes at the first `}` after its brace |
| ParameterParsing.DoubleBracedNotMatched | src/http_file_generator/models/utils/parameter_parsing.py:220 | a `{{name}}` token is never matched |
| ParameterParsing.HandleMissing | src/http_file_generator/models/utils/parameter_parsing.py:218-240 | the path is unchanged. At most one variable comes back, with empty value and description, and none iff nothing matches |
| ParameterParsing.MissingReportsFirstToken | src/http_file_generator/models/utils/parameter_parsing.py:220-240 | the reported name is the group of the leftmost match |
| ParameterParsing.HandleParams | src/http_file_generator/models/utils/parameter_parsing.py:26-63 | the declared variables come in order, then exactly the `HandleMissing` variable of the resulting path (with no parameters, only that). It succeeds iff every declared parameter does |
| AuthParsing.Sanitize | src/http_file_generator/models/utils/auth_parsing.py:14-15 | the length is kept. A position is `_` iff the input character is not alphanumeric; other letters are upper-cased |
| AuthParsing.SanitizeIdempotent | src/http_file_generator/models/utils/auth_parsing.py:14-15 | sanitizing twice equals sanitizing once |
| AuthParsing.SanitizeFixesIdentifiers | src/http_file_generator/models/utils/auth_parsing.py:14-15 | an upper-case identifier is its own alias |
| AuthParsing.ChooseEffectiveSecurity | src/http_file_generator/models/utils/auth_parsing.py:25-31 | the operation's own list wins, else the root's, else `[]` |
| AuthParsing.EmptyOwnSecurityDisables | src/http_file_generator/models/utils/auth_parsing.py:28-31 | an explicit empty list disables the root's requirement |
| AuthParsing.AddCookie | src/http_file_generator/models/utils/auth_parsing.py:107-112 | the pair is appended with `"; "` to a non-empty `Cookie`, else it becomes the `Cookie`. Every other header is unchanged |
| AuthParsing.ApplyScheme | src/http_file_generator/models/utils/auth_parsing.py:70-127 | only an apiKey in the query moves the path, and only by extending it |
| AuthParsing.ApplySchemeHeaders | src/http_file_generator/models/utils/auth_parsing.py:72-127 | the exact `Authorization` value for http, oauth2 and openIdConnect; `name: {{ALIAS}}` for a header apiKey. Other scheme types leave the headers alone, and unrelated headers keep their values |
| AuthParsing.ApplySchemeKeepsKeys | src/http_file_generator/models/utils/auth_parsing.py:62-127 | existing header keys stay, in order |
| AuthParsing.ApplySchemeGet | src/http_file_generator/models/utils/auth_parsing.py:70-127 | header by header, one scheme writes its value, appends its cookie pair to `Cookie`, or keeps the old value |
| AuthParsing.HttpAuthorization | src/http_file_generator/models/utils/auth_parsing.py:72-92 | the `Authorization` value per http scheme; `ApplySchemeHeaders` states the header is set to it |
| AuthParsing.ApplyAlternative | src/http_file_generator/models/utils/auth_parsing.py:65-127 | the path only grows. It fails iff some named scheme of the alternative is a reference |
| AuthParsing.ApplyAlternativeUntouched | src/http_file_generator/models/utils/auth_parsing.py:65-127 | a header that no resolved scheme touches keeps its value |
| AuthParsing.ApplyAlternativeLastWrite | src/http_file_generator/models/utils/auth_parsing.py:65-127 | a header written outright by some scheme and untouched by every later one holds that scheme's value |
| AuthParsing.ApplyAlternativeCookies | src/http_file_generator/models/utils/auth_parsing.py:65-112 | unless a scheme writes `Cookie` outright, the cookie pairs are appended to it in order, joined by `"; "` after a non-empty old value |
| AuthParsing.CookiePairs | src/http_file_generator/models/utils/auth_parsing.py:107-112 | the cookie pairs of an alternative, in order; `ApplyAlternativeCookies` states they are joined onto the old `Cookie` |
| AuthParsing.UnknownSchemeSkipped | src/http_file_generator/models/utils/auth_parsing.py:66-68 | a scheme name missing from the table changes nothing |
| AuthParsing.ApplyRequirement | src/http_file_generator/models/utils/auth_parsing.py:49-129 | params are returned unchanged. With no table, an empty list or a non-mapping first alternative, headers and params come back defaulted |
| AuthParsing.OnlyFirstAlternative | src/http_file_generator/models/utils/auth_parsing.py:57 | alternatives after the first never matter |
| AuthParsing.ApplySecurity | src/http_file_generator/models/utils/auth_parsing.py:34-129 | params are returned unchanged and the path only grows; `security: []` changes nothing. With a non-empty table and a mapping first alternative, it fails iff applying that alternative fails, and otherwise gives that alternative's path and headers |
| AuthParsing.ApiKeyHeaderExample | src/http_file_generator/models/utils/auth_parsing.py:99-104 | the scheme `ApiKeyAuth` in header `X-API-Key` gives `X-API-Key: {{APIKEYAUTH}}` |
| AuthParsing.CookiesJoined | src/http_file_generator/models/utils/auth_parsing.py:107-112 | two cookie apiKeys share one `Cookie` header, joined with `"; "` |
| BodyParsing.NormalizeBodySample | src/http_file_generator/models/utils/body_parsing.py:65-72 | a dict is kept; a list gives its first element or `{}`; anything else gives a dict |
| BodyParsing.SampleBody | src/http_file_generator/models/utils/body_parsing.py:60-74 | it fails iff the sampler fails, with the sampler's error. A truthy dict is kept, a list with a truthy first item gives that item, and everything else becomes `{}` |
| BodyParsing.ChoosePayload | src/http_file_generator/models/utils/body_parsing.py:39-54 | nothing is chosen iff there is no example, no examples and no schema. Only the schema branch can fail, and there the result is `SampleBody`'s sample as a JSON body, or its error |
| BodyParsing.PayloadPrecedence | src/http_file_generator/models/utils/body_parsing.py:39-51 | a truthy example wins, else the first raw `examples` entry; the sampler is consulted only after both |
| BodyParsing.ContentTypeHeader | src/http_file_generator/models/utils/body_parsing.py:55 | the header is `Content-Type: key` exactly when the key is non-empty, else absent |
| BodyParsing.HandleContent | src/http_file_generator/models/utils/body_parsing.py:38-56 | keys stay distinct, and every entry's header matches its key. The loop succeeds iff every media type's payload can be chosen, and an error is the first failing media type's |
| BodyParsing.HandleContentKeys | src/http_file_generator/models/utils/body_parsing.py:38-56 | a key is in the result iff it was there before or comes from some media type |
| BodyParsing.HandleContentPuts | src/http_file_generator/models/utils/body_parsing.py:38-56 | the loop is the plain sequence of assignments `out[key] = (body, header)`, one per media type, in order |
| BodyParsing.HandleContentOrder | src/http_file_generator/models/utils/body_parsing.py:38-56 | the keys are the old ones, then each new key where it first occurs |
| BodyParsing.HandleContentUnassigned | src/http_file_generator/models/utils/body_parsing.py:38-56 | a key no media type gives keeps its old entry |
| BodyParsing.HandleContentLast | src/http_file_generator/models/utils/body_parsing.py:38-56 | a key holds the payload of the last media type giving it, with that key's header |
| BodyParsing.HandleBody | src/http_file_generator/models/utils/body_parsing.py:29-57 | a missing or reference body gives `{}`. Keys are distinct and headers match keys. Otherwise it succeeds iff every media type's payload can be chosen, and an error is the first failing media type's |
| BodyParsing.HandleBodyKeys | src/http_file_generator/models/utils/body_parsing.py:35-57 | the keys are exactly those the media types give |
| BodyParsing.HandleBodyOrder | src/http_file_generator/models/utils/body_parsing.py:35-57 | the first entry is keyed by the first media type, and keys come in order of first occurrence |
| BodyParsing.HandleBodyGet | src/http_file_generator/models/utils/body_parsing.py:35-57 | each key holds the payload of the last media type giving it, and the key's `Content-Type` header |
| BodyParsing.EmptyMediaTypeUnderNone | src/http_file_generator/models/utils/body_parsing.py:52-56 | a media type with nothing to offer lands under `None` with `{}` and no header |
| BodyParsing.ExampleUnderMediaType | src/http_file_generator/models/utils/body_parsing.py:39-56 | a media type with an example lands under its own name with its `Content-Type` |
| OpenApiParser.GetPaths | src/http_file_generator/models/http_file/open_api_parser.py:28-32 | `[]` without paths, else the path keys in document order, one per path |
| OpenApiParser.GetPathItem | src/http_file_generator/models/http_file/open_api_parser.py:38-42 | it fails without paths or for an unknown path, and otherwise returns that path's item |
| OpenApiParser.PresentMethods | src/http_file_generator/models/http_file/open_api_parser.py:48 | the methods whose operation is set, and only those |
| OpenApiParser.PresentKeepsOrder | src/http_file_generator/models/http_file/open_api_parser.py:48 | the present methods keep the `METHOD` order |
| OpenApiParser.Present | src/http_file_generator/models/http_file/open_api_parser.py:48 | exactly the listed methods that have an operation, no more than listed |
| OpenApiParser.ParamsIn | src/http_file_generator/models/http_file/open_api_parser.py:78-94 | exactly the 3.1 `Parameter`s at that location are kept |
| OpenApiParser.ParamsInConcat | src/http_file_generator/models/http_file/open_api_parser.py:78-94 | filtering two lists laid end to end is filtering each; one entry is kept iff it is a 3.1 `Parameter` at the location |
| OpenApiParser.ParamsByMethod | src/http_file_generator/models/http_file/open_api_parser.py:74-96 | one list per present method: the path item's parameters, then the operation's |
| OpenApiParser.GetPathParams | src/http_file_generator/models/http_file/open_api_parser.py:70-96 | it fails iff the path is unknown. Otherwise it is exactly the per-method lists for `path`, keyed by the present methods, and every listed parameter is a 3.1 path parameter |
| OpenApiParser.GetQueryParams | src/http_file_generator/models/http_file/open_api_parser.py:98-124 | it fails iff the path is unknown. Otherwise it is exactly the per-method lists for `query`, keyed by the present methods, and every listed parameter is a 3.1 query parameter |
| OpenApiParser.ThirtyParametersDropped | src/http_file_generator/models/http_file/open_api_parser.py:83 | no 3.0 parameter passes the `isinstance` filter |
| OpenApiParser.MediaSample | src/http_file_generator/models/http_file/open_api_parser.py:139-157 | a non-`None` example wins. Else the first `examples` entry's value, with `None` for a reference. Else a non-empty schema's sample, failing exactly when the sampler does. Nothing is given iff there is none of the three |
| OpenApiParser.ExampleValue | src/http_file_generator/models/http_file/open_api_parser.py:142-144 | an `examples` entry's value, `None` for a reference; `MediaSample` states it is used for the first entry |
| OpenApiParser.ContentSamples | src/http_file_generator/models/http_file/open_api_parser.py:137-157 | keys are distinct, earlier keys stay, and new keys come from the content map. It succeeds iff every media type's `MediaSample` does |
| OpenApiParser.ContentSamplesGet | src/http_file_generator/models/http_file/open_api_parser.py:137-157 | with distinct content types, each type holds the value its media type gave; a type that gave nothing, and every other key, keeps its old entry |
| OpenApiParser.ContentSamplesFresh | src/http_file_generator/models/http_file/open_api_parser.py:135-157 | from `{}`, each content type maps to exactly its media type's value, and the map is empty iff no media type gave one |
| OpenApiParser.NoneIfEmpty | src/http_file_generator/models/http_file/open_api_parser.py:158 | `None` exactly for an empty map |
| OpenApiParser.RequestSamples | src/http_file_generator/models/http_file/open_api_parser.py:134-160 | no body or a reference gives `None`. Otherwise it succeeds iff every media type's sample does. With distinct content types, each type holds its media type's value, and the result is `None` iff none gave one |
| OpenApiParser.ContentOutcome | src/http_file_generator/models/http_file/open_api_parser.py:135-158 | `requests or None` after one content loop. It succeeds iff every media type's sample does. Each distinct content type holds its media type's value, and `None` comes back iff none gave one |
| OpenApiParser.GetRequestBody | src/http_file_generator/models/http_file/open_api_parser.py:126-161 | an unknown path fails. Otherwise it succeeds iff every operation's request samples do, and each present method, in order, holds its operation's request samples |
| OpenApiParser.RequestBodies | src/http_file_generator/models/http_file/open_api_parser.py:130-160 | each method's entry is its operation's samples; it succeeds iff every method's samples do |
| OpenApiParser.ResponseSamples | src/http_file_generator/models/http_file/open_api_parser.py:176-199 | a reference or empty content gives `None`. Otherwise it succeeds iff every media type's sample does; each distinct content type holds its media type's value, and the result is `None` iff none gave one |
| OpenApiParser.StatusSamples | src/http_file_generator/models/http_file/open_api_parser.py:175-199 | every declared status is kept, in order, holding its response's samples; it succeeds iff every response's samples do |
| OpenApiParser.OperationResponses | src/http_file_generator/models/http_file/open_api_parser.py:173-202 | no responses give `{}`. Otherwise the statuses are the declared ones, each holding exactly its `ResponseSamples`; it succeeds iff every response's samples do |
| OpenApiParser.ResponseBodies | src/http_file_generator/models/http_file/open_api_parser.py:169-202 | each method's entry is its operation's responses; it succeeds iff every method's responses do |
| OpenApiParser.GetResponseBody | src/http_file_generator/models/http_file/open_api_parser.py:163-203 | an unknown path fails. Otherwise it succeeds iff every operation's responses do, and each present method, in order, holds its operation's responses |
| OpenApiParser.FirstContentSample | src/http_file_generator/models/http_file/open_api_parser.py:50-67 | no body, or empty content, stores `None`; a reference body fails. For the first content type: a truthy `example` wins, else the first `examples` value (`None` for a reference), else `None` |
| OpenApiParser.SamplesFor | src/http_file_generator/models/http_file/open_api_parser.py:49-67 | keys are method names, and every method with a stored sample has its key. It succeeds iff every method's first-content sample does, that is, iff no method's body is a reference |
| OpenApiParser.SamplesForGet | src/http_file_generator/models/http_file/open_api_parser.py:49-67 | under each method's name the map holds exactly what its first content type gave, and nothing for a skipped method |
| OpenApiParser.GetSampleForPath | src/http_file_generator/models/http_file/open_api_parser.py:44-68 | it succeeds iff the path is known and no operation's body is a reference. Keys are among the present methods, and each method with an operation maps to exactly its first content type's sample |
| Requests.ValidateBody | src/http_file_generator/models/http_file/request.py:39 | the body field takes a dict or `None` and nothing else |
| Requests.FromOperation | src/http_file_generator/models/http_file/request.py:101-124 | a body failure, then a parameter failure, is passed on as is; otherwise it succeeds iff there is no body or the first body is a dict, else `BodyNotADict`. Headers and body come from the first `handle_body` entry, path and params from `handle_params`, summary and description verbatim |
| Requests.NoBodyNoHeaders | src/http_file_generator/models/http_file/request.py:109-111 | an operation without a request body gives neither body nor headers |
| Requests.SummaryText | src/http_file_generator/models/http_file/request.py:58 | the summary line is never empty and is a prefix of the summary or the fallback |
| Requests.CommentLines | src/http_file_generator/models/http_file/request.py:62-65 | each line gets the `###  ` prefix, with trailing whitespace removed |
| Requests.DescriptionTextNonEmpty | src/http_file_generator/models/http_file/request.py:59-68 | a multi-line description starts with a newline; a one-line one is kept as is |
| Requests.FrontmatterShape | src/http_file_generator/models/http_file/request.py:53-71 | it always ends with the separator and two newlines. With a description it is exactly `### Description: `, the description text, a newline and the separator, so the Request and Summary lines are dropped; otherwise it starts with the separator and `### Request: ` |
| Requests.RequestLineSingle | src/http_file_generator/models/http_file/request.py:56 | the Request line is one line, whatever the path |
| Requests.ParamLines | src/http_file_generator/models/http_file/request.py:80-86 | one rendered variable and a newline per variable, in order |
| Requests.ParamsTextListsEach | src/http_file_generator/models/http_file/request.py:80-86 | every variable's rendering occurs in the block |
| Requests.HeaderLineSeq | src/http_file_generator/models/http_file/request.py:93-95 | one `k: v` line per header, in order |
| Requests.HeaderLinesListEach | src/http_file_generator/models/http_file/request.py:93-95 | every header's line occurs |
| Requests.RenderRequestContents | src/http_file_generator/models/http_file/request.py:88-99 | the text starts with the frontmatter, then the variable lines, then the method line. Every header line occurs, and without a truthy body the text ends with the headers and a blank line |
| Requests.Frontmatter | src/http_file_generator/models/http_file/request.py:53-71 | the frontmatter; `FrontmatterShape` gives its exact text with a description, and its `### Request: ` start otherwise |
| Requests.DescriptionText | src/http_file_generator/models/http_file/request.py:59-68 | the description text; `DescriptionTextNonEmpty` and `CommentLines` state it is non-empty, and how a multi-line one is commented |
| Requests.ParamsText | src/http_file_generator/models/http_file/request.py:80-86 | the variables block; `ParamsTextListsEach` states every variable's text occurs in it |
| Requests.MethodLine | src/http_file_generator/models/http_file/request.py:92 | `method base_url+path`; `RenderRequestContents` places it right after the variables |
| Requests.RenderRequest | src/http_file_generator/models/http_file/request.py:88-99 | `to_http_file`; `RenderRequestContents` states frontmatter, variables, method line in that order, then each header, and a final blank line without a body |
| HttpFileData.VisitsOf | src/http_file_generator/models/http_file/http_file_data.py:38-41 | one visit per present method, in order |
| HttpFileData.VisitsOfItem | src/http_file_generator/models/http_file/http_file_data.py:37-41 | the visits of one path item are exactly its set operation fields |
| HttpFileData.VisitsComplete | src/http_file_generator/models/http_file/http_file_data.py:36-49 | a visit is exactly a set operation field of a listed path |
| HttpFileData.FromPathsAsWritten | src/http_file_generator/models/http_file/http_file_data.py:42-48 | as written, `from_paths` never returns requests |
| HttpFileData.FromPathsAsWrittenFails | src/http_file_generator/models/http_file/http_file_data.py:42-48 | as written, `from_paths` raises iff the document has an operation |
| HttpFileData.OneGetRaises | src/http_file_generator/models/http_file/http_file_data.py:42-48 | one path with one `get` already raises |
| HttpFileData.SecuredRequest | src/http_file_generator/models/http_file/http_file_data.py:42-49 | a `from_operation` failure or an `apply_security` failure is passed on; otherwise the request is `from_operation`'s with exactly `apply_security`'s path and headers |
| HttpFileData.DisabledSecurityKeepsRequest | src/http_file_generator/models/http_file/http_file_data.py:42-48 | with `security: []` the request is the plain one |
| HttpFileData.SecuredRequests | src/http_file_generator/models/http_file/http_file_data.py:36-49 | on success request `k` is visit `k` built; it fails iff some visit fails, with the error of the first failing visit |
| HttpFileData.FromPaths | src/http_file_generator/models/http_file/http_file_data.py:26-59 | the base URLs are the servers'; there is one request per operation, in path order, and the result is `SecuredRequests` over the visits |
| HttpFileData.FromPathsFollowsVisits | src/http_file_generator/models/http_file/http_file_data.py:36-49 | request `k` of a successful run is exactly `SecuredRequest` of visit `k` |
| HttpFileData.FromPathsFirstFailure | src/http_file_generator/models/http_file/http_file_data.py:36-49 | the run fails iff some visit's request fails, and then with the first failing visit's error |
| HttpFileData.Visits | src/http_file_generator/models/http_file/http_file_data.py:37-41 | the (path, method, operation) visits; `VisitsComplete` states each visit is a present method of a listed path, and every such pair is visited |
| HttpFileData.ServerBaseUrl | src/http_file_generator/models/http_file/http_file_data.py:50-54 | a server's `BaseURL`; `BaseUrlsOfServers` states the base URLs are exactly those of the servers |
| HttpFileData.BaseLines | src/http_file_generator/models/http_file/http_file_data.py:70-81 | the first line active, the rest commented; `OnlySmallestActive` and `LaterUrlsCommented` state it |
| HttpFileData.SharedBlock | src/http_file_generator/models/http_file/http_file_data.py:65-81 | the Shared block; `SharedBlockStart` and `OnlySmallestActive` state its heading and that only the smallest URL is active |
| HttpFileData.ToHttpFile | src/http_file_generator/models/http_file/http_file_data.py:84-91 | the file text; `ToHttpFileStartsShared`, `ToHttpFileHoldsRequests` and `ToHttpFileAgrees` state its layout |
| HttpFileData.AddUnique | src/http_file_generator/models/http_file/http_file_data.py:52-54 | `set.add`: membership grows by exactly the element |
| HttpFileData.BaseUrls | src/http_file_generator/models/http_file/http_file_data.py:50-54 | no duplicates, and every entry is named `BASE_URL` |
| HttpFileData.BaseUrlsOfServers | src/http_file_generator/models/http_file/http_file_data.py:50-54 | a base URL is in the set iff some server gives it |
| HttpFileData.CommentOut | src/http_file_generator/models/http_file/http_file_data.py:76-80 | a non-blank line gets `# `; a blank line becomes empty |
| HttpFileData.CommentedLines | src/http_file_generator/models/http_file/http_file_data.py:75-80 | every line for the later URLs is commented out or empty |
| HttpFileData.CommentAll | src/http_file_generator/models/http_file/http_file_data.py:76-80 | each line commented out, in order |
| HttpFileData.OnlySmallestActive | src/http_file_generator/models/http_file/http_file_data.py:70-81 | after sorting by value, the first line is the smallest URL's assignment, and every later line is commented or empty |
| HttpFileData.LaterUrlsCommented | src/http_file_generator/models/http_file/http_file_data.py:75-80 | every non-blank line of a later URL appears commented |
| HttpFileData.RenderAll | src/http_file_generator/models/http_file/http_file_data.py:84-91 | each request is rendered against `{{BASE_URL}}`, in order |
| HttpFileData.ToHttpFileAsWritten | src/http_file_generator/models/http_file/http_file_data.py:84-91 | as written, a successful `to_http_file` is the Shared block alone |
| HttpFileData.ToHttpFileAsWrittenFails | src/http_file_generator/models/http_file/http_file_data.py:84-91 | as written, `to_http_file` raises iff there is a request |
| HttpFileData.ToHttpFileStartsShared | src/http_file_generator/models/http_file/http_file_data.py:65-81 | the file starts with `### Shared`, then the Shared block; without requests it is only that |
| HttpFileData.SharedBlockStart | src/http_file_generator/models/http_file/http_file_data.py:68 | the Shared block starts with `### Shared` and a blank line |
| HttpFileData.ToHttpFileHoldsRequests | src/http_file_generator/models/http_file/http_file_data.py:84-92 | every request's rendering occurs in the file |
| HttpFileData.ToHttpFileAgrees | src/http_file_generator/models/http_file/http_file_data.py:84-91 | without requests the corrected and as-written renderers agree |
| EnvFiles.ValidateUrl | src/modules/http_file_generator/modules/env_files.py:14-30 | `None` passes. A string passes iff the URL pattern matches, and is returned unchanged; otherwise it fails with `InvalidUrl` |
| EnvFiles.AcceptedUrlShape | src/modules/http_file_generator/modules/env_files.py:18-28 | an accepted URL is longer than `http://` and starts with `http` in any case |
| EnvFiles.HttpsAccepted | src/modules/http_file_generator/modules/env_files.py:18-28 | `https://` followed by any valid host, port and path is accepted |
| EnvFiles.FtpRejected | src/modules/http_file_generator/modules/env_files.py:18-28 | an `ftp://` URL is rejected |
| EnvFiles.SchemeAloneRejected | src/modules/http_file_generator/modules/env_files.py:18-28 | `http://` and `https://` alone are rejected |
| EnvFiles.LocalhostWithPortAccepted | src/modules/http_file_generator/modules/env_files.py:18-28 | `http://localhost:8080` is accepted |
| EnvFiles.DomainOfParts | src/modules/http_file_generator/modules/env_files.py:20-22 | a label, a dot and a top-level label or a domain make a domain |
| EnvFiles.AuthorityOfParts | src/modules/http_file_generator/modules/env_files.py:20-27 | a host, a port and a path, in that order, make the part after the scheme |
| EnvFiles.DomainUrlAccepted | src/modules/http_file_generator/modules/env_files.py:18-28 | `https://`, then any label, a dot, a domain or top-level label, a port and a path, is accepted |
| EnvFiles.TrailingNewlineAccepted | src/modules/http_file_generator/modules/env_files.py:18-28 | `$` also accepts one final newline |
| EnvFiles.GrantOf | src/modules/http_file_generator/modules/env_files.py:35-41 | a label names at most the grant whose label it is |
| EnvFiles.GrantLabelRoundTrip | src/modules/http_file_generator/modules/env_files.py:35-41 | every grant is read back from its label |
| EnvFiles.CheckGrant | src/modules/http_file_generator/modules/env_files.py:82-117 | it passes iff the grant's required fields are all truthy |
| EnvFiles.DefaultResponseType | src/modules/http_file_generator/modules/env_files.py:119-120 | a blank response type becomes `code` for Authorization Code and `token` for Implicit; nothing else changes |
| EnvFiles.CheckPkce | src/modules/http_file_generator/modules/env_files.py:122-127 | it passes iff the value is not a dict, or the dict's method is `Plain` or `S256` |
| EnvFiles.CheckJwt | src/modules/http_file_generator/modules/env_files.py:129-148 | it passes iff the JWT is falsy or well formed: Header and Payload dicts, alg RS256 or HS256, typ JWT, and int `exp`/`iat` |
| EnvFiles.CheckCustomParams | src/modules/http_file_generator/modules/env_files.py:150-162 | it passes iff every dict parameter has `Value` and an allowed `Use`. A failure names a bad one |
| EnvFiles.ValidateOAuth2 | src/modules/http_file_generator/modules/env_files.py:80-163 | it passes iff the grant, PKCE, JWT and custom-parameter rules all hold; the only change is the response-type default |
| EnvFiles.ValidateOAuth2Idempotent | src/modules/http_file_generator/modules/env_files.py:118-120 | validating a validated config changes nothing |
| EnvFiles.OptStr | src/modules/http_file_generator/modules/env_files.py:42-62 | an optional string field holds the config's string; absent means `None` |
| EnvFiles.StrOr | src/modules/http_file_generator/modules/env_files.py:34 | an absent string field takes its default |
| EnvFiles.IntOr | src/modules/http_file_generator/modules/env_files.py:59 | an absent int field takes its default |
| EnvFiles.BoolOr | src/modules/http_file_generator/modules/env_files.py:60 | an absent bool field takes its default |
| EnvFiles.OptUrl | src/modules/http_file_generator/modules/env_files.py:68-78 | a URL field holds the given string only when the pattern matches it; absent means `None` |
| EnvFiles.ReqStr | src/modules/http_file_generator/modules/env_files.py:43-46 | a required field passes iff it is a non-empty string; absent fails with `MissingField` |
| EnvFiles.DictOrNone | src/modules/http_file_generator/modules/env_files.py:55-65 | the value is a dict or `None` (or a bool where allowed); absent means `None` |
| EnvFiles.LiteralOr | src/modules/http_file_generator/modules/env_files.py:52-54 | the value is one of the literals; absent means the default |
| EnvFiles.GrantField | src/modules/http_file_generator/modules/env_files.py:35-41 | it passes iff `Grant Type` is a string naming a grant |
| EnvFiles.ParseOAuth2 | src/modules/http_file_generator/modules/env_files.py:33-163 | on success, the grant, token URL and client id are the config's, the URLs match the pattern and the grant's requirements hold. A missing required key fails, and absent secrets stay `None` |
| EnvFiles.ParseIdentity | src/modules/http_file_generator/modules/env_files.py:34-46 | the type, grant, URLs and client id come from the config; every other field is at its default |
| EnvFiles.ParseClientFields | src/modules/http_file_generator/modules/env_files.py:47-57 | only the client fields change; an absent secret stays `None` |
| EnvFiles.ParseOptions | src/modules/http_file_generator/modules/env_files.py:58-66 | only the option fields change; an absent username or password stays `None` |
| EnvFiles.OptUrlGiven | src/modules/http_file_generator/modules/env_files.py:68-78 | a URL field that is absent, or holds a string the pattern accepts, parses to exactly that value |
| EnvFiles.IdentityAccepted | src/modules/http_file_generator/modules/env_files.py:33-78 | a config with valid identity fields gives exactly those fields and the defaults |
| EnvFiles.ValidateNtlm | src/modules/http_file_generator/modules/env_files.py:178-189 | it passes iff username and password are both blank or both set. A failure names the missing one |
| EnvFiles.Extra | src/modules/http_file_generator/modules/env_files.py:248 | `model_extra` is exactly the undeclared entries |
| EnvFiles.ValidateVariables | src/modules/http_file_generator/modules/env_files.py:250-261 | it passes iff every extra key matches `^[A-Za-z0-9_]+$` and holds a str, number or dict |
| EnvFiles.ValidateSection | src/modules/http_file_generator/modules/env_files.py:242-261 | valid iff the default headers are a str-to-str dict or `None`, `Security` is absent, `None` or accepted, and every extra entry has a matching key and an allowed value; the first two failures give `WrongType` of that field |
| EnvFiles.ValidateExtraSections | src/modules/http_file_generator/modules/env_files.py:273-282 | it passes iff every extra entry is a dict forming a valid section |
| EnvFiles.ValidateEnv | src/modules/http_file_generator/modules/env_files.py:264-282 | valid iff `$schema` is absent, a string or `None`, `$shared` is absent, `None` or a valid section, and every extra entry is a dict that makes a valid section; otherwise it is `ValidateExtraSections` over the extra entries |
| EnvFiles.UrlMatches | src/modules/http_file_generator/modules/env_files.py:18-28 | the URL pattern; `AcceptedUrlShape` and `DomainUrlAccepted` state what it accepts |
| EnvFiles.KeyMatches | src/modules/http_file_generator/modules/env_files.py:253 | the variable-key pattern; `KeyTrailingNewline` and `KeyWithDashRejected` show the `$` and character-class edges |
| EnvFiles.KeyTrailingNewline | src/modules/http_file_generator/modules/env_files.py:253 | `API_KEY` followed by a newline passes the key check |
| EnvFiles.KeyWithDashRejected | src/modules/http_file_generator/modules/env_files.py:253 | `API-KEY` and the empty key fail it |
| EnvGenerator.ChooseFlow | src/http_file_generator/models/env_file/generator.py:37-58 | a chosen flow is one the scheme has. There is none iff there are no flows or every preferred flow is absent |
| EnvGenerator.ChooseFlowPreference | src/http_file_generator/models/env_file/generator.py:41-50 | every flow preferred to the chosen one is absent |
| EnvGenerator.FlowScopes | src/http_file_generator/models/env_file/generator.py:61-65 | `None` iff there are no scopes |
| EnvGenerator.FlowScopesListEach | src/http_file_generator/models/env_file/generator.py:61-65 | every scope name occurs in the string |
| EnvGenerator.FlowScopesSorted | src/http_file_generator/models/env_file/generator.py:65 | the names are listed sorted, joined by spaces |
| EnvGenerator.PublicConfig | src/http_file_generator/models/env_file/generator.py:68-97 | `None` iff no flow is chosen or the flow is Implicit |
| EnvGenerator.PublicConfigHead | src/http_file_generator/models/env_file/generator.py:79-83 | it starts with `Type: OAuth2`, the grant label and `Client ID: CHANGE_ME` |
| EnvGenerator.PublicConfigKeys | src/http_file_generator/models/env_file/generator.py:79-96 | every key is a public one, and `Auth URL` appears only for Authorization Code |
| EnvGenerator.PublicConfigHoldsNoSecret | src/http_file_generator/models/env_file/generator.py:68-97 | there is no `Client Secret`, `Username` or `Password` |
| EnvGenerator.PublicConfigUrls | src/http_file_generator/models/env_file/generator.py:84-90 | each URL is present exactly when the flow declares a non-empty one |
| EnvGenerator.PublicConfigLacks | src/http_file_generator/models/env_file/generator.py:79-97 | every non-public key is absent |
| EnvGenerator.PublicConfigScope | src/http_file_generator/models/env_file/generator.py:91-93 | `Scope` is present iff the flow's scope names, sorted and joined by spaces, give a non-empty string, and then it holds that string |
| EnvGenerator.PublicHead | src/http_file_generator/models/env_file/generator.py:79-83 | type, grant label and placeholder client id; `PublicConfigHead` and `HeadGets` state a config starts with them |
| EnvGenerator.PublicUrls | src/http_file_generator/models/env_file/generator.py:84-90 | the flow URLs per grant; `PublicUrlsGet` and `ConfigUrls` state which URL appears under which grant |
| EnvGenerator.ScopeField | src/http_file_generator/models/env_file/generator.py:91-93 | the scope entry; `PublicConfigScope` states it is present iff the joined scopes are non-empty |
| EnvGenerator.PublicConfigWithoutSecretDropped | src/http_file_generator/models/env_file/generator.py:196-203 | Client Credentials and Password public configs always fail typed validation |
| EnvGenerator.WithoutSecretRejected | src/modules/http_file_generator/modules/env_files.py:92-117 | a Client Credentials or Password config with neither a client secret nor a username fails |
| EnvGenerator.AuthCodeConfigAccepted | src/modules/http_file_generator/modules/env_files.py:80-120 | an Authorization Code config with valid URLs and a client id passes |
| EnvGenerator.AuthCodePublicSurvives | src/http_file_generator/models/env_file/generator.py:196-203 | an Authorization Code public config survives iff both URLs are declared, non-empty and valid |
| EnvGenerator.AcceptedAuthCodeHasUrls | src/modules/http_file_generator/modules/env_files.py:83-91 | an accepted Authorization Code config holds both URLs, non-empty and valid |
| EnvGenerator.AuthCodePublicAccepted | src/http_file_generator/models/env_file/generator.py:196-203 | an Authorization Code public config with both URLs valid passes typed validation |
| EnvGenerator.PrivateConfig | src/http_file_generator/models/env_file/generator.py:100-121 | `None` iff the flow is Implicit; every entry is the `CHANGE_ME` placeholder |
| EnvGenerator.PrivateConfigTable | src/http_file_generator/models/env_file/generator.py:100-121 | the private keys by grant: `Client Secret` without a flow or for Client Credentials and Authorization Code; `Username`, `Password` and `Client Secret` for Password |
| EnvGenerator.SchemeVariables | src/http_file_generator/models/env_file/generator.py:171-186 | an apiKey gives its alias; types other than http and apiKey give nothing |
| EnvGenerator.HttpSchemeVariables | src/http_file_generator/models/env_file/generator.py:171-183 | basic and digest give `_USERNAME` and `_PASSWORD`, and bearer gives `_TOKEN`, in any case; other http schemes give nothing |
| EnvGenerator.CollectInvariant | src/http_file_generator/models/env_file/generator.py:147-194 | the scan keeps every private variable a placeholder and every public config secret-free |
| EnvGenerator.Collect | src/http_file_generator/models/env_file/generator.py:147-194 | each of the three tables is the old one with the loop's assignments made in order: the `oauth2` configs under the scheme name, the placeholders under each http/apiKey variable name |
| EnvGenerator.Step | src/http_file_generator/models/env_file/generator.py:149-194 | one pass: a reference changes nothing, an `oauth2` scheme stores its configs, any other scheme its placeholders |
| EnvGenerator.CollectAll | src/http_file_generator/models/env_file/generator.py:143-148 | the scan from empty tables; its properties are stated by `CollectInvariant` and `PrivateSectionVariables` |
| EnvGenerator.OAuthEntriesFrom | src/http_file_generator/models/env_file/generator.py:157-165 | every assignment to an auth table is an `oauth2` scheme's config under that scheme's name |
| EnvGenerator.OAuthEntriesGet | src/http_file_generator/models/env_file/generator.py:157-165 | with distinct names, an `oauth2` scheme's name holds its config when one is built, else its old value |
| EnvGenerator.VariableNamesMembers | src/http_file_generator/models/env_file/generator.py:171-186 | a name is assigned a placeholder iff some non-reference, non-`oauth2` scheme gives it |
| EnvGenerator.CollectVariableKeys | src/http_file_generator/models/env_file/generator.py:171-186 | the private variable keys are the old ones, then each collected name at its first occurrence |
| EnvGenerator.CollectAuthKeys | src/http_file_generator/models/env_file/generator.py:157-165 | the auth tables gain exactly the names of their assignments, in first-assignment order, and nothing else |
| EnvGenerator.CollectAuthGet | src/http_file_generator/models/env_file/generator.py:157-165 | with distinct names, an `oauth2` scheme's public and private configs are stored under its name when built |
| EnvGenerator.StepInvariant | src/http_file_generator/models/env_file/generator.py:149-194 | one pass keeps private variables placeholders and public configs secret-free |
| EnvGenerator.ExcludeNone | src/http_file_generator/models/env_file/generator.py:225 | the entries kept are exactly those whose value is not `None` |
| EnvGenerator.DumpOAuth2Holds | src/http_file_generator/models/env_file/generator.py:200 | the dump holds the grant label, the token URL and any client secret |
| EnvGenerator.DumpOAuth2 | src/http_file_generator/models/env_file/generator.py:225 | the `exclude_none` dump of an `OAuth2Auth`; `DumpOAuth2Holds` states what it keeps |
| EnvGenerator.Survivors | src/http_file_generator/models/env_file/generator.py:196-214 | each survivor is some entry's parse, under its name |
| EnvGenerator.SurvivorsKeep | src/http_file_generator/models/env_file/generator.py:198-203 | an entry survives iff it parses, whatever its siblings do |
| EnvGenerator.PublicParse | src/http_file_generator/models/env_file/generator.py:200 | it gives a value iff `OAuth2Auth(**cfg)` succeeds |
| EnvGenerator.SecurityEntry | src/http_file_generator/models/env_file/generator.py:204-205 | `Security` is attached iff some entry survived |
| EnvGenerator.GenerateEnvDicts | src/http_file_generator/models/env_file/generator.py:124-237 | each tree is `$schema` plus exactly one section, keyed by the environment name |
| EnvGenerator.PublicSectionHoldsNoVariables | src/http_file_generator/models/env_file/generator.py:216-226 | the public section holds nothing but `Security` |
| EnvGenerator.PrivateSectionShape | src/http_file_generator/models/env_file/generator.py:216-231 | every private entry but `Security` is a `CHANGE_ME` placeholder |
| EnvGenerator.PublicSecurityIffSurvivor | src/http_file_generator/models/env_file/generator.py:196-205 | the public section is non-empty iff some public config validates |
| EnvGenerator.PrivateSectionKeys | src/http_file_generator/models/env_file/generator.py:206-231 | apart from `Security`, the private section's keys are the collected variables |
| EnvGenerator.CollectedVariable | src/http_file_generator/models/env_file/generator.py:171-186 | a name is a collected variable iff some non-reference, non-`oauth2` scheme asks for it |
| EnvGenerator.PrivateSectionEntries | src/http_file_generator/models/env_file/generator.py:206-231 | the private section is `Security` over the private survivors, then the variables |
| EnvGenerator.SchemeVariableInPrivate | src/http_file_generator/models/env_file/generator.py:171-231 | a placeholder of a non-`oauth2` scheme is a key of the private section |
| EnvGenerator.PrivateSectionVariables | src/http_file_generator/models/env_file/generator.py:171-231 | a key other than `Security` is in the private section iff some non-reference, non-`oauth2` scheme asks for it |
| EnvGenerator.BasicSchemeCredentials | src/http_file_generator/models/env_file/generator.py:177-179 | an http basic scheme `n` puts `N_USERNAME` and `N_PASSWORD`, with `N` the sanitised name, in the private section |
| EnvGenerator.SurvivorsNonEmpty | src/http_file_generator/models/env_file/generator.py:198-205 | one entry that parses is enough for a non-empty result |
| Cli.IsUrl | src/cli.py:32-36 | true iff the argument is a string, not a path, starting with `http://` or `https://` |
| Cli.IsUrlOfScheme | src/cli.py:32-36 | any text after either scheme is a URL; a path never is |
| Cli.GetConfigValue | src/cli.py:69-73 | a `defaults` table holding the key wins, then the top level, then the default. A non-table `defaults` either falls back to the top level or raises TypeError; a `defaults` string equal to the key raises |
| Cli.DefaultsShadowTopLevel | src/cli.py:71-72 | a key under `defaults` shadows the same key at the top level |
| Cli.MethodUpperList | src/cli.py:76-85 | `None` stays `None`. It succeeds iff every entry upper-cases to a method name, giving those upper-cased entries in order; a failure names a bad entry |
| Cli.MethodUpperListAcceptsNames | src/cli.py:76-85 | the method names come back unchanged |
| Cli.ParseFilemode | src/cli.py:88-96 | `None` gives SINGLE. Stripped and lower-cased, `single`/`s` gives SINGLE and `multi`/`m` gives MULTI; anything else fails |
| Cli.ParseEditorMode | src/cli.py:99-113 | `None` gives DEFAULT; otherwise each mode is chosen exactly by its spellings, stripped and lower-cased |
| Cli.Normalize | src/cli.py:91 | `value.strip().lower()`; `ParseFilemode` and `ParseEditorMode` state the spellings accepted after it |
| Cli.ModeValuesRoundTrip | src/cli.py:88-113 | every mode parses back from its own value |
| Cli.SampleMethod | src/cli.py:597-602 | an empty or missing method filters nothing. Otherwise the upper-cased method must be a method name |
| Cli.OnlyContentType | src/cli.py:617-623 | `{ct: body[ct]}` iff the body holds the type, else `None` |
| Cli.FilterRequestTypes | src/cli.py:615-624 | every method is kept, each body cut down to the type |
| Cli.SampleRequests | src/cli.py:611-625 | with a method, exactly `{method: reqs.get(method)}`, cut to `{ct: body[ct]}` (or `None`) under a content type; without one, every method kept in order, each body cut the same way |
| Cli.OnlyStatus | src/cli.py:632 | `{status: bodies.get(status)}`, or `{}` exactly when there are no bodies |
| Cli.StatusesWithType | src/cli.py:641-645 | over distinct statuses, a status is kept iff its samples hold the type, and then it maps to exactly `{ct: cts[ct]}` |
| Cli.AddIfTyped | src/cli.py:643-644 | one loop turn: the status now maps to `{ct: cts[ct]}` when its samples hold the type, added at the end when new; every other key keeps its value |
| Cli.FilterStatuses | src/cli.py:641-645 | the loop keeps every status built before; any status it adds held the type |
| Cli.FilterStatusesGet | src/cli.py:641-645 | over distinct statuses, each status ends as `{ct: cts[ct]}` when its samples hold the type, else as before; keys outside the statuses are untouched |
| Cli.FilterKeepsMatches | src/cli.py:642-645 | a status that holds the type is in the loop's result |
| Cli.ContentTypeFilterExact | src/cli.py:642-645 | a status is kept iff it holds the type |
| Cli.MapStatus | src/cli.py:630-634 | every method is kept, with its status filtered |
| Cli.MapContentType | src/cli.py:635-646 | every method is kept, with its statuses filtered by type |
| Cli.SampleResponses | src/cli.py:626-647 | with a method, exactly that method's statuses filtered by status and then by type; without one, every method kept, each filtered the same way |
| Cli.Sample | src/cli.py:596-647 | it succeeds iff the method check passes. The path is copied, and each part is present iff its flag asks for it. The request part is `SampleRequests` and the response part `SampleResponses` of the checked method |
| Cli.SampleOneMethod | src/cli.py:613-629 | asking for one method shows exactly that method in both parts |
| Cli.NonEmpty | src/cli.py:707 | the `if p.strip()` filter: every entry is a non-empty input string, every non-empty input string appears, and a list with no empty string is kept whole |
| Cli.SplitPatterns | src/cli.py:707 | every pattern is some comma-separated piece, stripped, non-empty and comma-free; and every piece that strips to non-empty text is a pattern |
| Cli.SplitPatternsJoin | src/cli.py:707 | comma-joined bare patterns split back into the same list |
| Cli.DefaultPatterns | src/cli.py:658 | the default `*.json,*.yaml,*.yml` gives the three patterns |

## Left out

- JSON-Schema sampling (`JSF`, faker): a `Sampler` parameter that may fail. `json.dumps` formatting is a `Value -> string` parameter.
- OpenAPI loading and pydantic `parse_obj`: the model starts from the parsed object model.
- Floating-point numbers: `Value` has no float case, so float samples, float variables and `Expires In` as a float are not modelled.
- Repr: Python's choice of quote and its escapes inside string literals are not modelled. A string is always shown in single quotes with its characters as they are, so a string holding `'`, `\\` or a control character renders differently in variable values.
- Character classes: `upper`, `lower`, `isalnum` and the URL pattern's `[A-Z]`/`\d`/`\S` are modelled for ASCII only. `isspace` and `splitlines` use Python's full sets.
- HttpFileData.FromPaths: `base_urls` is a set sorted by value, so two URLs with the same value but different descriptions sort in set-iteration order. The model keeps first-seen order for such ties.
- EnvFiles.ParseOAuth2: pydantic's lax coercion (e.g. `"10"` for an int field) and its collection of several errors are not modelled. Values must have the field's own type, and the first error is reported.
- EnvFiles.ValidateSection: the `Security` union (`AuthConfig`) is a predicate parameter, and `SSLClientCertAuth`'s file check is filesystem I/O.
- EnvGenerator.GenerateEnvDicts:
  - `PrivateOAuth2Auth` and the `$schema` defaults of `HttpClientEnv`/`HttpClientPrivateEnv` in the module `generator.py` imports are not part of this model, so they are parameters;
  - an environment name that collides with a declared field of the environment model is not modelled;
  - pydantic's `setattr` rules are not modelled: a variable or environment name starting with `_`, or equal to a `BaseModel` attribute such as `copy`, `json` or `schema`, is stored outside `model_extra` and so left out of `model_dump` (generator.py:216-236). The model keeps every such name in the dump.
- EnvGenerator.DumpOAuth2Holds: states what the dump holds, not the full field order of `model_dump`.
- Cli.Sample: takes the bodies `get_request_body`/`get_response_body` produced. Reading the OpenAPI document, the path check and printing are I/O. A dict comprehension over a dict with repeated keys, which cannot arise, is not modelled.
- Cli.GetConfigValue: TOML loading is I/O; a float under `defaults` is not modelled.
- The command bodies of `cli.py` (file checks, writes, overwrite refusal, globbing, `sorted(set(files))`, output): I/O.
- Scripts (`pre_script`/`post_script`) and the `include_examples`/`include_schema` flags: the renderer shown does not use them.
- `HttpFileData.to_http_file`'s joining of rendered requests with blank lines is modelled; the `json.dumps` text of a body is not.

## Findings

| source | as written | input that shows it | evidently intended | confidence | as-written member | corrected member |
|---|---|---|---|---|---|---|
| src/http_file_generator/models/http_file/http_file_data.py:42-48 | `from_paths` passes `root_security=` and `security_schemes=` to `HttpRequest.from_operation`, which takes only `method`, `path` and `operation`, so Python raises TypeError | a document with one path whose item has one `get` operation | build the request with `from_operation`, then apply the operation's security to its path and headers | not executed | HttpFileData.FromPathsAsWritten | HttpFileData.FromPaths |
| src/http_file_generator/models/http_file/http_file_data.py:84-91 | `to_http_file` passes `include_examples=` and `include_schema=` to `HttpRequest.to_http_file`, which takes only `base_url`, so Python raises TypeError | a file data with one request | render each request with `base_url="{{BASE_URL}}"` | not executed | HttpFileData.ToHttpFileAsWritten | HttpFileData.ToHttpFile |
