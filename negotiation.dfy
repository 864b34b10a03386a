/** Content negotiation (`contentType`) and response shaping (`respond`). */
module Negotiation {
  import opened Wrappers
  import opened Http

  /** The two supported encodings, `"txt"` and `"json"`. */
  datatype Encoding = Txt | Json {
    /** The file extension that names this encoding. */
    function Extension(): (ext: string) {
      match this
      case Txt => "txt"
      case Json => "json"
    }
  }

  const JsonMime := "application/json"
  const TextMime := "text/plain"

  /** `ext` names one of the supported encodings. */
  predicate IsSupported(ext: Option<string>) {
    ext == Some("txt") || ext == Some("json")
  }

  /** `contentType(ct, defaultct)`: the encoding of the extension that
      `mime.getExtension` infers from `ct`, or `defaultct` when that extension
      is absent or neither `txt` nor `json`. Total: no input makes it fail. */
  function ContentType(getExtension: string -> Option<string>, ct: string, defaultct: Encoding): (r: Encoding)
    ensures IsSupported(getExtension(ct)) ==> getExtension(ct) == Some(r.Extension())
    ensures !IsSupported(getExtension(ct)) ==> r == defaultct
  {
    var ext := getExtension(ct);
    if ext == Some("txt") then Txt
    else if ext == Some("json") then Json
    else defaultct
  }

  /** The optional `status` and `defaultct` of a `respond` call. */
  datatype RespondOptions = RespondOptions(status: Option<int>, defaultct: Option<Encoding>)

  /** The two body producers handed to `respond`; `None` is a producer that
      yields `undefined`. */
  datatype Encoders = Encoders(txt: Option<string>, json: Option<string>)

  /** `opts.status || 200`: a missing or zero status becomes 200. */
  function EffectiveStatus(status: Option<int>): (r: int)
    ensures r != 0
    ensures status.Some? && status.value != 0 ==> r == status.value
    ensures status.None? || status == Some(0) ==> r == 200
  {
    if status.Some? && status.value != 0 then status.value else 200
  }

  /** `resp` carries the body that belongs to its `content-type`. */
  predicate Carries(resp: Response, enc: Encoders) {
    || (resp.contentType == JsonMime && resp.body == enc.json)
    || (resp.contentType == TextMime && resp.body == enc.txt)
  }

  /** `respond(request, encode, opts)`. The encoding is negotiated from the
      `accept` header (absent reads as `""`) with `opts.defaultct`, or `json`,
      as the default; the body and `content-type` follow that one choice. The
      `throw` after the switch has no counterpart: the match is exhaustive. */
  function Respond(getExtension: string -> Option<string>, accept: Option<string>, enc: Encoders, opts: RespondOptions): (r: Response)
    ensures r.status == EffectiveStatus(opts.status)
    ensures Carries(r, enc)
    ensures r.contentType == JsonMime <==>
      ContentType(getExtension, accept.GetOr(""), opts.defaultct.GetOr(Json)) == Json
    ensures r.contentType == TextMime <==>
      ContentType(getExtension, accept.GetOr(""), opts.defaultct.GetOr(Json)) == Txt
  {
    var status := EffectiveStatus(opts.status);
    match ContentType(getExtension, accept.GetOr(""), opts.defaultct.GetOr(Json))
    case Json => Response(status, JsonMime, enc.json)
    case Txt => Response(status, TextMime, enc.txt)
  }

  /** A missing `accept` header negotiates exactly as an empty one. */
  lemma MissingAcceptIsEmpty(getExtension: string -> Option<string>, enc: Encoders, opts: RespondOptions)
    ensures Respond(getExtension, None, enc, opts) == Respond(getExtension, Some(""), enc, opts)
  {
  }

  /** The default matters only when the header names no supported encoding. */
  lemma DefaultOnlyOnFallback(getExtension: string -> Option<string>, ct: string, d1: Encoding, d2: Encoding)
    ensures ContentType(getExtension, ct, d1) != ContentType(getExtension, ct, d2) ==>
      !IsSupported(getExtension(ct)) && d1 != d2
  {
  }
}
