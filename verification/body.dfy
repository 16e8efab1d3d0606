/**
 * Body resolution: one `(body, headers)` entry per media type of a request
 * body, keyed by the media type, or by `None` for media types that give no
 * body at all.
 */
module BodyParsing {
  import opened Results
  import opened Dicts
  import opened OpenApi

  /** The `ValueError` wrapping a failure of the body sampler. */
  datatype BodyError = BodySampleFailed(message: string)

  /**
   * What a media type yields: a JSON value (an `example` or a sample), or
   * the raw first entry of `examples` (an Example or a Reference object).
   */
  datatype Payload = JsonBody(v: Value) | ExampleBody(e: ExampleEntry)

  type Headers = Dict<string, string>

  /** The key a media type is stored under: `None` for one with nothing to offer. */
  type BodyKey = Option<string>

  type Bodies = Dict<BodyKey, (Payload, Headers)>

  /**
   * The post-processing of `_generate_sample_body_from_schema`: a list
   * becomes its first element (or `{}`), any other non-dict becomes `{}`.
   */
  function NormalizeBodySample(sample: Value): (r: Value)
    ensures sample.VDict? ==> r == sample
    ensures !sample.VList? ==> r.VDict?
    ensures sample.VList? ==> r == (if |sample.items| > 0 then sample.items[0] else EmptyDict)
  {
    match sample
    case VDict(_) => sample
    case VList(xs) => if |xs| > 0 then xs[0] else EmptyDict
    case _ => EmptyDict
  }

  /** The sampler call, failures becoming `ValueError`, a falsy sample `{}`. */
  function SampleBody(sampler: Sampler, schema: Schema): (r: Result<Value, BodyError>)
    ensures r.Err? <==> sampler(schema).Err?
    ensures r.Ok? ==> Truthy(r.value) || r.value == EmptyDict
    ensures r.Err? ==> r.error == BodySampleFailed(sampler(schema).error)
    ensures sampler(schema).Ok? && sampler(schema).value.VDict? && Truthy(sampler(schema).value)
            ==> r == Ok(sampler(schema).value)
    ensures sampler(schema).Ok? && sampler(schema).value.VList? && |sampler(schema).value.items| > 0
              && Truthy(sampler(schema).value.items[0])
            ==> r == Ok(sampler(schema).value.items[0])
    ensures sampler(schema).Ok?
              && !(sampler(schema).value.VDict? && Truthy(sampler(schema).value))
              && !(sampler(schema).value.VList? && |sampler(schema).value.items| > 0 && Truthy(sampler(schema).value.items[0]))
            ==> r == Ok(EmptyDict)
  {
    match sampler(schema)
    case Err(m) => Err(BodySampleFailed(m))
    case Ok(v) =>
      var n := NormalizeBodySample(v);
      Ok(if Truthy(n) then n else EmptyDict)
  }

  /**
   * The body of one media type: a truthy `example`, else the first raw
   * `examples` entry, else the schema sample; `None` when there is none.
   */
  function ChoosePayload(m: MediaType, sampler: Sampler): (r: Result<Option<Payload>, BodyError>)
    ensures r.Err? ==> !Truthy(m.example) && |m.examples| == 0 && m.schema.Some?
    ensures r.Ok? && r.value.None? <==> !Truthy(m.example) && |m.examples| == 0 && m.schema.None?
    ensures !Truthy(m.example) && |m.examples| == 0 && m.schema.Some? ==>
              r == match SampleBody(sampler, m.schema.value) case Ok(s) => Ok(Some(JsonBody(s))) case Err(e) => Err(e)
  {
    if Truthy(m.example) then Ok(Some(JsonBody(m.example)))
    else if |m.examples| > 0 then Ok(Some(ExampleBody(m.examples[0].1)))
    else if m.schema.Some? then
      var s :- SampleBody(sampler, m.schema.value);
      Ok(Some(JsonBody(s)))
    else Ok(None)
  }

  /** The order of preference, and that the sampler is asked only as a last resort. */
  lemma PayloadPrecedence(m: MediaType, s1: Sampler, s2: Sampler)
    ensures Truthy(m.example) ==> ChoosePayload(m, s1) == Ok(Some(JsonBody(m.example)))
    ensures !Truthy(m.example) && |m.examples| > 0
            ==> ChoosePayload(m, s1) == Ok(Some(ExampleBody(m.examples[0].1)))
    ensures Truthy(m.example) || |m.examples| > 0 || m.schema.None?
            ==> ChoosePayload(m, s1) == ChoosePayload(m, s2)
  {
  }

  /** `{"Content-Type": media_type} if media_type else {}`. */
  function ContentTypeHeader(key: BodyKey): (h: Headers)
    ensures |h| <= 1
    ensures h == [] <==> key.None? || key.value == ""
    ensures h != [] ==> h[0] == ("Content-Type", key.value)
  {
    if key.Some? && key.value != "" then [("Content-Type", key.value)] else []
  }

  /** Every entry carries the header its key calls for. */
  ghost predicate HeadersMatchKeys(out: Bodies) {
    forall i :: 0 <= i < |out| ==> out[i].1.1 == ContentTypeHeader(out[i].0)
  }

  /** The loop over `requestBody.content.items()`, assigning `out[media_type]`. */
  function HandleContent(out: Bodies, content: seq<(string, MediaType)>, sampler: Sampler): (r: Result<Bodies, BodyError>)
    requires HeadersMatchKeys(out) && DistinctKeys(out)
    ensures r.Ok? ==> HeadersMatchKeys(r.value) && DistinctKeys(r.value)
    ensures r.Ok? <==> forall i :: 0 <= i < |content| ==> ChoosePayload(content[i].1, sampler).Ok?
    ensures r.Err? ==> exists i :: FirstPayloadError(content, sampler, i, r.error)
    decreases |content|
  {
    if |content| == 0 then Ok(out)
    else
      match ChoosePayload(content[0].1, sampler)
      case Err(e) =>
        assert FirstPayloadError(content, sampler, 0, e);
        Err(e)
      case Ok(payload) =>
        var key := if payload.Some? then Some(content[0].0) else None;
        var entry := (payload.GetOr(JsonBody(EmptyDict)), ContentTypeHeader(key));
        PutPreserves(out, key, entry, (e: (BodyKey, (Payload, Headers))) => e.1.1 == ContentTypeHeader(e.0));
        PutDistinct(out, key, entry);
        var r := HandleContent(Put(out, key, entry), content[1..], sampler);
        assert forall i :: 1 <= i < |content| ==> content[i] == content[1..][i - 1];
        if r.Err? then
          var i: nat :| FirstPayloadError(content[1..], sampler, i, r.error);
          assert FirstPayloadError(content, sampler, i + 1, r.error);
          r
        else r
  }

  /** The `i`-th media type is the first whose sampler fails, failing with `e`. */
  predicate FirstPayloadError(content: seq<(string, MediaType)>, sampler: Sampler, i: nat, e: BodyError) {
    && i < |content|
    && ChoosePayload(content[i].1, sampler) == Err(e)
    && forall j :: 0 <= j < i ==> ChoosePayload(content[j].1, sampler).Ok?
  }

  /** The keys after the loop: the old ones, and one per media type, in content order. */
  lemma {:induction false} HandleContentKeys(out: Bodies, content: seq<(string, MediaType)>, sampler: Sampler, k: BodyKey)
    requires HeadersMatchKeys(out) && DistinctKeys(out)
    requires HandleContent(out, content, sampler).Ok?
    ensures k in Keys(HandleContent(out, content, sampler).value) <==> k in Keys(out) || KeyOf(content, k, sampler)
    decreases |content|
  {
    if |content| > 0 {
      var payload := ChoosePayload(content[0].1, sampler).value;
      var key := if payload.Some? then Some(content[0].0) else None;
      var entry := (payload.GetOr(JsonBody(EmptyDict)), ContentTypeHeader(key));
      var next := Put(out, key, entry);
      PutPreserves(out, key, entry, (e: (BodyKey, (Payload, Headers))) => e.1.1 == ContentTypeHeader(e.0));
      PutDistinct(out, key, entry);
      assert HandleContent(out, content, sampler) == HandleContent(next, content[1..], sampler);
      HandleContentKeys(next, content[1..], sampler, k);
      PutKeys(out, key, entry);
      assert k in Keys(next) <==> k in Keys(out) || k == key;
      KeyOfCons(content, k, sampler);
    }
  }

  /** A media type list holds `k` exactly when its head or its tail does. */
  lemma KeyOfCons(content: seq<(string, MediaType)>, k: BodyKey, sampler: Sampler)
    requires |content| > 0
    ensures KeyOf(content, k, sampler) <==> BodyKeyOf(content[0], sampler) == k || KeyOf(content[1..], k, sampler)
  {
    if KeyOf(content[1..], k, sampler) {
      var j :| 0 <= j < |content[1..]| && BodyKeyOf(content[1..][j], sampler) == k;
      assert BodyKeyOf(content[j + 1], sampler) == k;
    }
    if KeyOf(content, k, sampler) && BodyKeyOf(content[0], sampler) != k {
      var j :| 0 <= j < |content| && BodyKeyOf(content[j], sampler) == k;
      assert content[j] == content[1..][j - 1];
    }
  }

  /** The key a media type ends up under, when its payload can be chosen. */
  function BodyKeyOf(item: (string, MediaType), sampler: Sampler): BodyKey {
    match ChoosePayload(item.1, sampler)
    case Ok(Some(_)) => Some(item.0)
    case _ => None
  }

  /** The payload a media type stores when its payload can be chosen: `{}` for none. */
  function PayloadOf(item: (string, MediaType), sampler: Sampler): Payload {
    match ChoosePayload(item.1, sampler)
    case Ok(Some(p)) => p
    case _ => JsonBody(EmptyDict)
  }

  /** The keys of the media types, one per entry, in content order. */
  function BodyKeys(content: seq<(string, MediaType)>, sampler: Sampler): (r: seq<BodyKey>)
    ensures |r| == |content|
    ensures forall i :: 0 <= i < |content| ==> r[i] == BodyKeyOf(content[i], sampler)
  {
    seq(|content|, i requires 0 <= i < |content| => BodyKeyOf(content[i], sampler))
  }

  /** One step of the loop, as the key it assigns and the entry it stores. */
  lemma HandleContentStep(out: Bodies, content: seq<(string, MediaType)>, sampler: Sampler)
    requires HeadersMatchKeys(out) && DistinctKeys(out) && |content| > 0
    requires HandleContent(out, content, sampler).Ok?
    ensures var next := Put(out, BodyKeyOf(content[0], sampler), (PayloadOf(content[0], sampler), ContentTypeHeader(BodyKeyOf(content[0], sampler))));
      && HeadersMatchKeys(next) && DistinctKeys(next)
      && HandleContent(out, content, sampler) == HandleContent(next, content[1..], sampler)
  {
    var payload := ChoosePayload(content[0].1, sampler).value;
    var key := if payload.Some? then Some(content[0].0) else None;
    var entry := (payload.GetOr(JsonBody(EmptyDict)), ContentTypeHeader(key));
    assert key == BodyKeyOf(content[0], sampler) && entry.0 == PayloadOf(content[0], sampler);
    PutPreserves(out, key, entry, (e: (BodyKey, (Payload, Headers))) => e.1.1 == ContentTypeHeader(e.0));
    PutDistinct(out, key, entry);
  }

  /** What the loop assigns, one `(key, entry)` per media type, in content order. */
  function BodyEntries(content: seq<(string, MediaType)>, sampler: Sampler): (r: seq<(BodyKey, (Payload, Headers))>)
    ensures |r| == |content|
    ensures forall i :: 0 <= i < |content| ==> r[i].0 == BodyKeyOf(content[i], sampler)
  {
    seq(|content|, i requires 0 <= i < |content| =>
      (BodyKeyOf(content[i], sampler), (PayloadOf(content[i], sampler), ContentTypeHeader(BodyKeyOf(content[i], sampler)))))
  }

  /** The loop is the plain sequence of assignments `out[key] = entry`. */
  lemma {:induction false} HandleContentPuts(out: Bodies, content: seq<(string, MediaType)>, sampler: Sampler)
    requires HeadersMatchKeys(out) && DistinctKeys(out)
    requires HandleContent(out, content, sampler).Ok?
    ensures HandleContent(out, content, sampler).value == PutAll(out, BodyEntries(content, sampler))
    decreases |content|
  {
    if |content| > 0 {
      var es := BodyEntries(content, sampler);
      HandleContentStep(out, content, sampler);
      HandleContentPuts(Put(out, es[0].0, es[0].1), content[1..], sampler);
      assert es[1..] == BodyEntries(content[1..], sampler);
    }
  }

  /** The keys after the loop: the old ones, then each new key where it first occurs. */
  lemma HandleContentOrder(out: Bodies, content: seq<(string, MediaType)>, sampler: Sampler)
    requires HeadersMatchKeys(out) && DistinctKeys(out)
    requires HandleContent(out, content, sampler).Ok?
    ensures Keys(HandleContent(out, content, sampler).value) == AppendNew(Keys(out), BodyKeys(content, sampler))
  {
    var es := BodyEntries(content, sampler);
    HandleContentPuts(out, content, sampler);
    PutAllKeys(out, es);
    assert Keys(es) == BodyKeys(content, sampler);
  }

  /** A key no media type gives keeps its old entry. */
  lemma HandleContentUnassigned(out: Bodies, content: seq<(string, MediaType)>, sampler: Sampler, k: BodyKey)
    requires HeadersMatchKeys(out) && DistinctKeys(out)
    requires HandleContent(out, content, sampler).Ok?
    requires forall j :: 0 <= j < |content| ==> BodyKeyOf(content[j], sampler) != k
    ensures Get(HandleContent(out, content, sampler).value, k) == Get(out, k)
  {
    HandleContentPuts(out, content, sampler);
    PutAllUnassigned(out, BodyEntries(content, sampler), k);
  }

  /**
   * The entry under a key after the loop: the payload of the last media
   * type giving that key, with the key's header.
   */
  lemma HandleContentLast(out: Bodies, content: seq<(string, MediaType)>, sampler: Sampler, i: int)
    requires HeadersMatchKeys(out) && DistinctKeys(out)
    requires HandleContent(out, content, sampler).Ok?
    requires 0 <= i < |content|
    requires forall j :: i < j < |content| ==> BodyKeyOf(content[j], sampler) != BodyKeyOf(content[i], sampler)
    ensures var k := BodyKeyOf(content[i], sampler);
      Get(HandleContent(out, content, sampler).value, k) == Some((PayloadOf(content[i], sampler), ContentTypeHeader(k)))
  {
    HandleContentPuts(out, content, sampler);
    PutAllLast(out, BodyEntries(content, sampler), i);
  }

  /** Some media type of `content` is stored under `k`. */
  ghost predicate KeyOf(content: seq<(string, MediaType)>, k: BodyKey, sampler: Sampler) {
    exists j :: 0 <= j < |content| && BodyKeyOf(content[j], sampler) == k
  }

  /**
   * `handle_body`: a missing body or one without `content` (a Reference)
   * gives nothing; otherwise one entry per distinct key.
   */
  function HandleBody(requestBody: Option<BodyArg>, sampler: Sampler): (r: Result<Bodies, BodyError>)
    ensures requestBody.None? || requestBody.value.BodyRef? ==> r == Ok([])
    ensures r.Ok? ==> HeadersMatchKeys(r.value) && DistinctKeys(r.value)
    ensures requestBody.Some? && requestBody.value.Body? ==>
              var content := requestBody.value.content;
              && (r.Ok? <==> forall i :: 0 <= i < |content| ==> ChoosePayload(content[i].1, sampler).Ok?)
              && (r.Err? ==> exists i :: FirstPayloadError(content, sampler, i, r.error))
  {
    if requestBody.None? || requestBody.value.BodyRef? then Ok([])
    else HandleContent([], requestBody.value.content, sampler)
  }

  /** The keys of the result: one per media type, empty ones sharing `None`. */
  lemma HandleBodyKeys(content: seq<(string, MediaType)>, sampler: Sampler, k: BodyKey)
    requires HandleBody(Some(Body(content)), sampler).Ok?
    ensures k in Keys(HandleBody(Some(Body(content)), sampler).value) <==> KeyOf(content, k, sampler)
  {
    HandleContentKeys([], content, sampler, k);
  }

  /**
   * The first entry is keyed by the first media type, and the keys follow
   * first occurrence: a key first given at `j` comes after the key given at
   * any earlier `i`.
   */
  lemma HandleBodyOrder(content: seq<(string, MediaType)>, sampler: Sampler, i: int, j: int)
    requires HandleBody(Some(Body(content)), sampler).Ok?
    requires 0 <= i < j < |content|
    requires forall l :: 0 <= l < j ==> BodyKeyOf(content[l], sampler) != BodyKeyOf(content[j], sampler)
    ensures var r := HandleBody(Some(Body(content)), sampler).value;
      && |r| > 0 && r[0].0 == BodyKeyOf(content[0], sampler)
      && exists p, q :: 0 <= p < q < |r| && r[p].0 == BodyKeyOf(content[i], sampler) && r[q].0 == BodyKeyOf(content[j], sampler)
  {
    var ks := BodyKeys(content, sampler);
    var r := HandleBody(Some(Body(content)), sampler).value;
    HandleContentOrder([], content, sampler);
    assert Keys(r) == AppendNew([], ks);
    AppendNewSplit([], [ks[0]], ks[1..]);
    assert [ks[0]] + ks[1..] == ks;
    assert AppendNew([], [ks[0]]) == [ks[0]];
    AppendNewPrefix([ks[0]], ks[1..]);
    assert Keys(r)[0] == ks[0];
    assert ks[j] !in ks[..j] by {
      forall l | 0 <= l < j ensures ks[..j][l] != ks[j] {
        assert ks[..j][l] == BodyKeyOf(content[l], sampler);
      }
    }
    AppendNewOrder([], ks, i, j);
    var p, q :| 0 <= p < q < |Keys(r)| && Keys(r)[p] == ks[i] && Keys(r)[q] == ks[j];
    assert r[p].0 == ks[i] && r[q].0 == ks[j];
  }

  /**
   * The entry under a key some media type gives: the payload of the last
   * media type with that key, and the `Content-Type` header of the key.
   */
  lemma HandleBodyGet(content: seq<(string, MediaType)>, sampler: Sampler, i: int)
    requires HandleBody(Some(Body(content)), sampler).Ok?
    requires 0 <= i < |content|
    requires forall j :: i < j < |content| ==> BodyKeyOf(content[j], sampler) != BodyKeyOf(content[i], sampler)
    ensures var k := BodyKeyOf(content[i], sampler);
      Get(HandleBody(Some(Body(content)), sampler).value, k) == Some((PayloadOf(content[i], sampler), ContentTypeHeader(k)))
  {
    HandleContentLast([], content, sampler, i);
  }

  /** A media type with nothing to offer is stored under `None`, with `{}` and no header. */
  lemma EmptyMediaTypeUnderNone(mediaType: string, m: MediaType, sampler: Sampler)
    requires !Truthy(m.example) && |m.examples| == 0 && m.schema.None?
    ensures var r := HandleBody(Some(Body([(mediaType, m)])), sampler);
      r == Ok([(None, (JsonBody(EmptyDict), []))])
  {
    var content := [(mediaType, m)];
    assert ChoosePayload(m, sampler) == Ok(None);
    assert HandleContent([], content, sampler) == HandleContent([(None, (JsonBody(EmptyDict), []))], content[1..], sampler);
  }

  /** A media type with an example is stored under its own name with its header. */
  lemma ExampleUnderMediaType(mediaType: string, m: MediaType, sampler: Sampler)
    requires Truthy(m.example) && mediaType != ""
    ensures var r := HandleBody(Some(Body([(mediaType, m)])), sampler);
      r == Ok([(Some(mediaType), (JsonBody(m.example), [("Content-Type", mediaType)]))])
  {
    var content := [(mediaType, m)];
    var entry := (JsonBody(m.example), [("Content-Type", mediaType)]);
    assert ChoosePayload(m, sampler) == Ok(Some(JsonBody(m.example)));
    assert HandleContent([], content, sampler) == HandleContent([(Some(mediaType), entry)], content[1..], sampler);
  }
}
