/** `parseUUIDVersion` and the `Options` record built by `parseOptions`. */
module RequestOptions {
  import opened Wrappers
  import opened Http

  /** The name-based UUID version selected for the HTML form. */
  datatype Version = V3 | V5

  /** Per-request options, derived once from the request's parameters. */
  datatype Options = Options(
    uppercase: bool,
    uuidVersion: Version,
    uuidHashNS: string,
    uuidHashName: string)

  const ParamUppercase := "uppercase"
  const ParamUuidVersion := "uuidvers"
  const ParamUuidHashNs := "uuidns"
  const ParamUuidHashName := "uuidname"

  /** `parseUUIDVersion`: `v3` exactly when the `uuidvers` parameter is the
      string `"v3"`; `v5` otherwise, including when it is absent, empty or in
      another case (`"V3"`). */
  function ParseUuidVersion(params: Params): (r: Version)
    ensures r == V3 <==> Get(params, ParamUuidVersion) == Some("v3")
  {
    var v := Get(params, ParamUuidVersion).GetOr("");
    if v == "v3" then V3
    else if v == "v5" then V5
    else V5
  }

  /** The parameters `parseOptions` reads: the decoded body for POST, the URL's
      query otherwise. */
  function SelectParams(req: Request): (p: Params)
    ensures req.verb == "POST" ==> p == req.form
    ensures req.verb != "POST" ==> p == req.query
  {
    if req.verb == "POST" then req.form else req.query
  }

  /** The option record of `parseOptions`: `uppercase` holds iff its parameter
      is present and non-empty; namespace and name default to `""`. */
  function ParseOptions(req: Request): (r: Options)
    ensures r.uppercase <==> exists v :: Get(SelectParams(req), ParamUppercase) == Some(v) && v != ""
    ensures r.uuidVersion == ParseUuidVersion(SelectParams(req))
    ensures Get(SelectParams(req), ParamUuidHashNs).None? ==> r.uuidHashNS == ""
    ensures Get(SelectParams(req), ParamUuidHashNs).Some? ==> r.uuidHashNS == Get(SelectParams(req), ParamUuidHashNs).value
    ensures Get(SelectParams(req), ParamUuidHashName).None? ==> r.uuidHashName == ""
    ensures Get(SelectParams(req), ParamUuidHashName).Some? ==> r.uuidHashName == Get(SelectParams(req), ParamUuidHashName).value
  {
    var params := SelectParams(req);
    Options(
      Get(params, ParamUppercase).GetOr("") != "",
      ParseUuidVersion(params),
      Get(params, ParamUuidHashNs).GetOr(""),
      Get(params, ParamUuidHashName).GetOr(""))
  }

  /** A POST's options come from its body alone and any other request's from
      its query alone: replacing the parameters that are not read changes
      nothing. */
  lemma ParseOptionsReadsOneSource(req: Request, other: Params)
    ensures req.verb == "POST" ==> ParseOptions(req.(query := other)) == ParseOptions(req)
    ensures req.verb != "POST" ==> ParseOptions(req.(form := other)) == ParseOptions(req)
  {
  }

  /** With no parameters at all every option takes its default. */
  lemma EmptyParamsDefaults(req: Request)
    requires SelectParams(req) == []
    ensures ParseOptions(req) == Options(false, V5, "", "")
  {
  }
}
