/*
 * `_resp_postprocess` of civitai/client/client.py: what the client makes of a
 * tRPC response. The HTTP response is reduced to its decoded JSON body (None
 * when the body is not JSON) and whether its status is a success.
 */
module Responses {
  import opened Values
  import opened SuperJson
  import SuperJsonLaws

  /** The parts of a `requests.Response` the client looks at. */
  datatype Response = Response(body: Option<Value>, statusOk: bool)

  /** What `_resp_postprocess` does: return a value, raise `APIError`, raise `HTTPError`, or let a Python error through. */
  datatype Outcome = Returned(value: Value) | ApiError(payload: Value) | HttpError | Raised(error: PyError)

  /** `p in s` for strings. */
  predicate IsSubstring(p: string, s: string) {
    p <= s || (s != [] && IsSubstring(p, s[1..]))
  }

  /** `name in v`: keys of a dict, members of a list or tuple, substrings of a string. */
  function Contains(v: Value, name: string): (r: Result<bool>)
    ensures r.Ok? <==> v.Dict? || v.List? || v.Tuple? || v.Str?
    ensures v.Dict? ==> r == Ok(name in KeysOf(v.entries))
  {
    match v
    case Dict(es) => Ok(name in KeysOf(es))
    case List(xs) => Ok(Str(name) in xs)
    case Tuple(xs) => Ok(Str(name) in xs)
    case Str(s) => Ok(IsSubstring(name, s))
    case _ => Err(TypeError)
  }

  /** `resp_data_parse`, as written or with the corrected last-segment handling. */
  function Decode(v: Value, dc: DateCodec, indexLast: bool): Result<Value> {
    ParseWith(v, dc, indexLast)
  }

  /** `raise APIError(resp, resp_data_parse(payload))`, unless decoding raises first. */
  function Fail(payload: Result<Value>, dc: DateCodec, indexLast: bool): Outcome {
    match payload
    case Err(e) => Raised(e)
    case Ok(p) =>
      match Decode(p, dc, indexLast)
      case Err(e) => Raised(e)
      case Ok(d) => ApiError(d)
  }

  /** `resp_data_parse(json_['result']['data'])` returned. */
  function Succeed(result: Value, dc: DateCodec, indexLast: bool): Outcome {
    match Subscript(result, Name("data"))
    case Err(e) => Raised(e)
    case Ok(data) =>
      match Decode(data, dc, indexLast)
      case Err(e) => Raised(e)
      case Ok(d) => Returned(d)
  }

  /** `_resp_postprocess(resp, parse)`. */
  function Postprocess(resp: Response, parse: bool, dc: DateCodec, indexLast: bool): Outcome {
    match resp.body
    case None => if resp.statusOk then Returned(Null) else HttpError
    case Some(j) =>
      match Contains(j, "error")
      case Err(e) => Raised(e)
      case Ok(true) => Fail(Subscript(j, Name("error")), dc, indexLast)
      case Ok(false) =>
        match Subscript(j, Name("result"))
        case Err(e) => Raised(e)
        case Ok(result) =>
          match Contains(result, "error")
          case Err(e) => Raised(e)
          case Ok(true) => Fail(Subscript(result, Name("data")), dc, indexLast)
          case Ok(false) => if parse then Succeed(result, dc, indexLast) else Returned(j)
  }

  // ---------------------------------------------------------------------------
  // Decision properties
  // ---------------------------------------------------------------------------

  /** A body that is not JSON returns None on a success status and raises `HTTPError` otherwise. */
  lemma NotJson(statusOk: bool, parse: bool, dc: DateCodec, indexLast: bool)
    ensures Postprocess(Response(None, statusOk), parse, dc, indexLast).Returned? <==> statusOk
    ensures Postprocess(Response(None, statusOk), parse, dc, indexLast) in {Returned(Null), HttpError}
  {
  }

  /** Once the body is JSON the status code is never consulted. */
  lemma StatusIgnored(j: Value, parse: bool, dc: DateCodec, indexLast: bool)
    ensures Postprocess(Response(Some(j), true), parse, dc, indexLast)
         == Postprocess(Response(Some(j), false), parse, dc, indexLast)
  {
  }

  /** A top-level `error` key wins over everything under `result`, whatever `parse` says. */
  lemma TopErrorFirst(es: seq<Entry>, statusOk: bool, parse: bool, dc: DateCodec, indexLast: bool)
    requires "error" in KeysOf(es)
    ensures Postprocess(Response(Some(Dict(es)), statusOk), parse, dc, indexLast) == Fail(Ok(DictGet(es, "error")), dc, indexLast)
    ensures Postprocess(Response(Some(Dict(es)), statusOk), parse, dc, indexLast).ApiError?
         || Postprocess(Response(Some(Dict(es)), statusOk), parse, dc, indexLast).Raised?
  {
    assert Contains(Dict(es), "error") == Ok(true);
    assert Subscript(Dict(es), Name("error")) == Ok(DictGet(es, "error"));
  }

  /** A body with `result` holding `error` raises with the decoded `result.data`. */
  lemma ResultErrorNext(es: seq<Entry>, rs: seq<Entry>, statusOk: bool, parse: bool, dc: DateCodec, indexLast: bool)
    requires "error" !in KeysOf(es) && Lookup(es, "result") == Some(Dict(rs)) && "error" in KeysOf(rs)
    ensures Postprocess(Response(Some(Dict(es)), statusOk), parse, dc, indexLast) == Fail(Subscript(Dict(rs), Name("data")), dc, indexLast)
    ensures Postprocess(Response(Some(Dict(es)), statusOk), parse, dc, indexLast).ApiError?
         || Postprocess(Response(Some(Dict(es)), statusOk), parse, dc, indexLast).Raised?
  {
    assert Contains(Dict(es), "error") == Ok(false);
    assert Subscript(Dict(es), Name("result")) == Ok(Dict(rs));
    assert Contains(Dict(rs), "error") == Ok(true);
  }

  /** Without errors, `parse=False` gives back the whole body. */
  lemma RawBody(es: seq<Entry>, rs: seq<Entry>, statusOk: bool, dc: DateCodec, indexLast: bool)
    requires "error" !in KeysOf(es) && Lookup(es, "result") == Some(Dict(rs)) && "error" !in KeysOf(rs)
    ensures Postprocess(Response(Some(Dict(es)), statusOk), false, dc, indexLast) == Returned(Dict(es))
  {
    assert Contains(Dict(es), "error") == Ok(false);
    assert Subscript(Dict(es), Name("result")) == Ok(Dict(rs));
    assert Contains(Dict(rs), "error") == Ok(false);
  }

  // ---------------------------------------------------------------------------
  // Together with the codec
  // ---------------------------------------------------------------------------

  lemma KeysOfSingle(k: string, v: Value)
    ensures KeysOf([Entry(k, v)]) == [k]
  {
  }

  /**
   * A successful tRPC answer `{"result": {"data": req_data_format(v)}}` comes
   * back as `v` with every `undefined` turned into None.
   */
  lemma ResultRoundTrip(v: Value, statusOk: bool, dc: DateCodec, indexLast: bool)
    requires SuperJsonLaws.KeysSafe(v) && (indexLast || SuperJsonLaws.NoTypedItems(v)) && SuperJsonLaws.DatesRoundTrip(dc)
    ensures Postprocess(Response(Some(Dict([Entry("result", Dict([Entry("data", Format(v, dc))]))])), statusOk), true, dc, indexLast)
         == Returned(SuperJsonLaws.Restored(v))
  {
    var result := Dict([Entry("data", Format(v, dc))]);
    var body := Dict([Entry("result", result)]);
    SuperJsonLaws.RoundTripWith(v, dc, indexLast);
    KeysOfSingle("result", result);
    KeysOfSingle("data", Format(v, dc));
    assert Contains(body, "error") == Ok(false);
    assert Subscript(body, Name("result")) == Ok(result);
    assert Contains(result, "error") == Ok(false);
    assert Subscript(result, Name("data")) == Ok(Format(v, dc));
  }

  /** An error answer `{"error": req_data_format(e)}` raises `APIError` carrying `e` back. */
  lemma ErrorRoundTrip(e: Value, statusOk: bool, parse: bool, dc: DateCodec, indexLast: bool)
    requires SuperJsonLaws.KeysSafe(e) && (indexLast || SuperJsonLaws.NoTypedItems(e)) && SuperJsonLaws.DatesRoundTrip(dc)
    ensures Postprocess(Response(Some(Dict([Entry("error", Format(e, dc))])), statusOk), parse, dc, indexLast)
         == ApiError(SuperJsonLaws.Restored(e))
  {
    var body := Dict([Entry("error", Format(e, dc))]);
    SuperJsonLaws.RoundTripWith(e, dc, indexLast);
    KeysOfSingle("error", Format(e, dc));
    assert Contains(body, "error") == Ok(true);
    assert Subscript(body, Name("error")) == Ok(Format(e, dc));
  }
}
