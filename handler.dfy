/** `handleRequest` and the exported wrapper that turns an escaping exception
    into a 500 response. */
module Handler {
  import opened Wrappers
  import opened Http
  import opened Casing
  import opened Negotiation
  import opened RequestOptions
  import opened Routing
  import opened Form

  /** The objects given to `JSON.stringify`: `{result}` (`None` when the result
      is `undefined`) and `{error}`. */
  datatype JsonObject = ResultObject(result: Option<string>) | ErrorObject(error: string)

  /** The collaborators whose internals are not part of this model. Hashers
      return `Failure` with the error text when they throw. */
  datatype Runtime = Runtime(
    getExtension: string -> Option<string>,             // mime.getExtension
    validate: string -> bool,                            // uuid.validate
    v3: (string, string) -> Result<string, string>,      // uuid.v3(name, ns)
    v5: (string, string) -> Result<string, string>,      // uuid.v5(name, ns)
    stringify: JsonObject -> string,                     // JSON.stringify
    renderPage: Props -> string)                         // the HTML page around render(mp)

  /** What `handleRequest` does: return a response, or throw an error. */
  datatype Outcome = Returned(response: Response) | Threw(error: string)

  const HtmlMime := "text/html"
  const NotFoundMessage := "404 page not found"

  /** The 400 message for a namespace that fails validation. */
  function InvalidUuidMessage(ns: string): (msg: string) {
    "invalid uuid: '" + ns + "'"
  }

  /** The body producers of a successful API response. */
  function ResultEncoders(stringify: JsonObject -> string, result: Option<string>): (enc: Encoders) {
    Encoders(result, Some(stringify(ResultObject(result))))
  }

  /** The body producers of an error response: `error: <msg>` and `{error}`. */
  function ErrorEncoders(stringify: JsonObject -> string, msg: string): (enc: Encoders) {
    Encoders(Some("error: " + msg), Some(stringify(ErrorObject(msg))))
  }

  const NoOptions := RespondOptions(None, None)

  /** The `/api/v4` branch: the drawn random identifier, case-conditioned. */
  function V4Response(req: Request, uc: bool, rando: Result<string, string>, rt: Runtime): (r: Outcome)
    ensures rando.Failure? ==> r == Threw(rando.error)
    ensures r.Returned? ==>
      (r.response.contentType == JsonMime <==> ContentType(rt.getExtension, req.accept.GetOr(""), Json) == Json)
    ensures rando.Success? ==>
      && r.Returned? && r.response.status == 200
      && Carries(r.response, ResultEncoders(rt.stringify, Some(ConditionUppercase(uc, rando.value))))
  {
    match rando
    case Failure(e) => Threw(e)
    case Success(v) =>
      var result := ConditionUppercase(uc, v);
      Returned(Respond(rt.getExtension, req.accept, ResultEncoders(rt.stringify, Some(result)), NoOptions))
  }

  /** The hasher the path's case-sensitive version marker selects, applied. */
  function HashFor(path: string, ns: string, name: string, rt: Runtime): (r: Option<Result<string, string>>)
    ensures r.None? <==> HashVersion(path).None?
    ensures HashVersion(path) == Some(V3) ==> r == Some(rt.v3(name, ns))
    ensures HashVersion(path) == Some(V5) ==> r == Some(rt.v5(name, ns))
  {
    match HashVersion(path)
    case Some(V3) => Some(rt.v3(name, ns))
    case Some(V5) => Some(rt.v5(name, ns))
    case None => None
  }

  /** The hash branch. An invalid namespace is answered with 400 before any
      hasher is consulted; otherwise the status is 200 and the result is the
      case-conditioned hash, or `undefined` when no marker selected a version. */
  function HashResponse(req: Request, uc: bool, ns: string, name: string, rt: Runtime): (r: Outcome)
    ensures r.Returned? ==>
      (r.response.contentType == JsonMime <==> ContentType(rt.getExtension, req.accept.GetOr(""), Json) == Json)
    ensures !rt.validate(ns) ==>
      && r.Returned? && r.response.status == 400
      && Carries(r.response, ErrorEncoders(rt.stringify, InvalidUuidMessage(ns)))
    ensures rt.validate(ns) && HashFor(req.pathname, ns, name, rt).None? ==>
      && r.Returned? && r.response.status == 200
      && Carries(r.response, ResultEncoders(rt.stringify, None))
    ensures rt.validate(ns) && HashFor(req.pathname, ns, name, rt).Some? ==>
      match HashFor(req.pathname, ns, name, rt).value
      case Failure(e) => r == Threw(e)
      case Success(h) =>
        && r.Returned? && r.response.status == 200
        && Carries(r.response, ResultEncoders(rt.stringify, Some(ConditionUppercase(uc, h))))
  {
    if !rt.validate(ns) then
      var msg := InvalidUuidMessage(ns);
      Returned(Respond(rt.getExtension, req.accept, ErrorEncoders(rt.stringify, msg), RespondOptions(Some(400), None)))
    else
      var hashed := HashFor(req.pathname, ns, name, rt);
      if hashed.Some? && hashed.value.Failure? then Threw(hashed.value.error)
      else
        var result := if hashed.Some? then Some(ConditionUppercase(uc, hashed.value.value)) else None;
        Returned(Respond(rt.getExtension, req.accept, ResultEncoders(rt.stringify, result), NoOptions))
  }

  /** When the namespace is invalid the hashers play no part in the answer. */
  lemma InvalidNamespaceHashesNothing(req: Request, uc: bool, ns: string, name: string, rt: Runtime,
                                      v3: (string, string) -> Result<string, string>,
                                      v5: (string, string) -> Result<string, string>)
    requires !rt.validate(ns)
    ensures HashResponse(req, uc, ns, name, rt.(v3 := v3, v5 := v5)) == HashResponse(req, uc, ns, name, rt)
  {
  }

  /** The fallback branch: 404 with a fixed message in both encodings. */
  function NotFoundResponse(req: Request, rt: Runtime): (r: Response)
    ensures r.status == 404
    ensures r.contentType == JsonMime <==> ContentType(rt.getExtension, req.accept.GetOr(""), Json) == Json
    ensures Carries(r, Encoders(Some(NotFoundMessage), Some(rt.stringify(ErrorObject(NotFoundMessage)))))
  {
    Respond(rt.getExtension, req.accept,
      Encoders(Some(NotFoundMessage), Some(rt.stringify(ErrorObject(NotFoundMessage)))),
      RespondOptions(Some(404), None))
  }

  /** The hasher of a form's selected version. */
  function Hasher(rt: Runtime, v: Version): (fn: (string, string) -> Result<string, string>) {
    match v
    case V3 => rt.v3
    case V5 => rt.v5
  }

  /** The record the form branch renders: options copied, `resultRando` set
      from the random draw, then `dohash` with the selected version's hasher. */
  function FormProps(opts: Options, rando: Result<string, string>, year: int, rt: Runtime): (r: Result<Props, string>)
    ensures rando.Failure? ==> r == Failure(rando.error)
    ensures r.Failure? <==>
      || rando.Failure?
      || (&& opts.uuidHashNS != "" && opts.uuidHashName != "" && rt.validate(opts.uuidHashNS)
          && Hasher(rt, opts.uuidVersion)(opts.uuidHashName, opts.uuidHashNS).Failure?)
    ensures rando.Success? && r.Failure? ==>
      r.error == Hasher(rt, opts.uuidVersion)(opts.uuidHashName, opts.uuidHashNS).error
    ensures r.Success? ==> rando.Success? && r.value.resultRando == ConditionUppercase(opts.uppercase, rando.value)
    ensures r.Success? ==>
      && r.value.uppercase == opts.uppercase && r.value.uuidVersion == opts.uuidVersion
      && r.value.uuidHashNS == opts.uuidHashNS && r.value.uuidHashName == opts.uuidHashName
      && r.value.currentYear == year
    ensures r.Success? && (opts.uuidHashNS == "" || opts.uuidHashName == "") ==>
      r.value.resultHash == "" && r.value.problems == map[]
    ensures r.Success? && opts.uuidHashNS != "" && opts.uuidHashName != "" ==>
      if rt.validate(opts.uuidHashNS) then
        && r.value.problems == map[]
        && Hasher(rt, opts.uuidVersion)(opts.uuidHashName, opts.uuidHashNS).Success?
        && r.value.resultHash ==
           ConditionUppercase(opts.uppercase, Hasher(rt, opts.uuidVersion)(opts.uuidHashName, opts.uuidHashNS).value)
      else
        && r.value.resultHash == ""
        && r.value.problems == map[HashUuid := [InvalidNamespaceProblem(opts.uuidHashNS)]]
  {
    match rando
    case Failure(e) => Failure(e)
    case Success(v) =>
      var p := InitialProps(opts, year).(resultRando := ConditionUppercase(opts.uppercase, v));
      assert ProblemsAt(p.problems, HashUuid) + [InvalidNamespaceProblem(opts.uuidHashNS)]
        == [InvalidNamespaceProblem(opts.uuidHashNS)];
      assert p.problems[HashUuid := [InvalidNamespaceProblem(opts.uuidHashNS)]]
        == map[HashUuid := [InvalidNamespaceProblem(opts.uuidHashNS)]];
      DoHashSpec(p, Hasher(rt, opts.uuidVersion), rt.validate)
  }

  /** The HTML response of the form branch. */
  function FormOutcome(opts: Options, rando: Result<string, string>, year: int, rt: Runtime): (r: Outcome)
    ensures r.Returned? <==> FormProps(opts, rando, year, rt).Success?
    ensures r.Threw? ==> r.error == FormProps(opts, rando, year, rt).error
    ensures r.Returned? ==>
      r.response == Response(200, HtmlMime, Some(rt.renderPage(FormProps(opts, rando, year, rt).value)))
  {
    match FormProps(opts, rando, year, rt)
    case Success(p) => Returned(Response(200, HtmlMime, Some(rt.renderPage(p))))
    case Failure(e) => Threw(e)
  }

  /** The form branch as the source runs it: build `mp`, set `resultRando`,
      run `dohash` on it, render it. */
  method FormPage(opts: Options, rando: Result<string, string>, year: int, rt: Runtime) returns (r: Outcome)
    ensures r == FormOutcome(opts, rando, year, rt)
  {
    var mp := new MainProps(opts, year);
    if rando.Failure? {
      return Threw(rando.error);
    }
    mp.resultRando := ConditionUppercase(mp.uppercase, rando.value);
    var thrown: Option<string>;
    match mp.uuidVersion {
      case V3 => thrown := mp.DoHash(rt.v3, rt.validate);
      case V5 => thrown := mp.DoHash(rt.v5, rt.validate);
    }
    if thrown.Some? {
      return Threw(thrown.value);
    }
    r := Returned(Response(200, HtmlMime, Some(rt.renderPage(mp.Snapshot()))));
  }

  /** `handleRequest` as a function of the request, the collaborators, the
      random draw and the current year. */
  function HandleSpec(req: Request, rt: Runtime, rando: Result<string, string>, year: int): (r: Outcome)
    ensures r.Returned? ==> r.response.status in {200, 400, 404}
    ensures (r.Returned? && r.response.status == 404) <==> Classify(req.pathname) == NotFound
    ensures (r.Returned? && r.response.status == 400) <==>
      Classify(req.pathname).HashRoute? && !rt.validate(Classify(req.pathname).ns)
    ensures (r.Returned? && r.response.contentType == HtmlMime) <==>
      Classify(req.pathname) == FormRoute && r.Returned?
    ensures r.Threw? ==> Classify(req.pathname) != NotFound
    ensures r.Threw? <==>
      match Classify(req.pathname)
      case ApiV4 => rando.Failure?
      case HashRoute(ns, name) =>
        rt.validate(ns) && HashFor(req.pathname, ns, name, rt).Some? && HashFor(req.pathname, ns, name, rt).value.Failure?
      case FormRoute => FormProps(ParseOptions(req), rando, year, rt).Failure?
      case NotFound => false
  {
    var opts := ParseOptions(req);
    match Classify(req.pathname)
    case ApiV4 => V4Response(req, opts.uppercase, rando, rt)
    case HashRoute(ns, name) => HashResponse(req, opts.uppercase, ns, name, rt)
    case FormRoute => FormOutcome(opts, rando, year, rt)
    case NotFound => Returned(NotFoundResponse(req, rt))
  }

  /** A hash path whose version segment is written in upper case reaches the
      hash branch, passes validation and answers 200 with an `undefined` result:
      an empty text body, or `JSON.stringify({})` in the json encoding. */
  lemma UpperCaseHashPathAnswersUndefined(req: Request, rt: Runtime, rando: Result<string, string>, year: int,
                                          ns: string, name: string)
    requires req.pathname == "/API/V3/" + ns + "/" + name
    requires ns != "" && name != "" && '/' !in ns && '/' !in name
    requires ns != "v3" && ns != "v5"
    requires rt.validate(ns)
    ensures HandleSpec(req, rt, rando, year).Returned?
    ensures HandleSpec(req, rt, rando, year).response.status == 200
    ensures Carries(HandleSpec(req, rt, rando, year).response, ResultEncoders(rt.stringify, None))
  {
    var path := req.pathname;
    assert path[..8] == "/API/V3/";
    assert ToLowerCase("/API/V3/") == "/api/v3/";
    assert path[8..] == ns + "/" + name;
    UpperCaseVersionChoosesNothing(path, ns, name);
  }

  /** A `/api/v3/<ns>/<name>` request whose namespace fails validation answers
      400 with the message `invalid uuid: '<ns>'`, whatever the hashers do. */
  lemma InvalidNamespaceAnswers400(req: Request, rt: Runtime, rando: Result<string, string>, year: int,
                                   ns: string, name: string)
    requires req.pathname == "/api/v3/" + ns + "/" + name
    requires ns != "" && name != "" && '/' !in ns && '/' !in name
    requires !rt.validate(ns)
    ensures HandleSpec(req, rt, rando, year).Returned?
    ensures HandleSpec(req, rt, rando, year).response.status == 400
    ensures Carries(HandleSpec(req, rt, rando, year).response,
                    ErrorEncoders(rt.stringify, "invalid uuid: '" + ns + "'"))
  {
    var path := req.pathname;
    assert path[..8] == "/api/v3/";
    assert ToLowerCase("/api/v3/") == "/api/v3/";
    assert path[8..] == ns + "/" + name;
    assert HashPathSpec(path, ns, name);
  }

  /** `handleRequest`. */
  method HandleRequest(req: Request, rt: Runtime, rando: Result<string, string>, year: int) returns (r: Outcome)
    ensures r == HandleSpec(req, rt, rando, year)
  {
    var opts := ParseOptions(req);
    match Classify(req.pathname) {
      case ApiV4 => r := V4Response(req, opts.uppercase, rando, rt);
      case HashRoute(ns, name) => r := HashResponse(req, opts.uppercase, ns, name, rt);
      case FormRoute => r := FormPage(opts, rando, year, rt);
      case NotFound => r := Returned(NotFoundResponse(req, rt));
    }
  }

  /** The `catch` of the exported wrapper: a thrown error becomes a 500 whose
      encoding defaults to `txt`. */
  function Recover(req: Request, o: Outcome, rt: Runtime): (r: Response)
    ensures o.Returned? ==> r == o.response
    ensures o.Threw? ==> r.status == 500 && Carries(r, ErrorEncoders(rt.stringify, o.error))
    ensures o.Threw? ==>
      (r.contentType == TextMime <==> ContentType(rt.getExtension, req.accept.GetOr(""), Txt) == Txt)
  {
    match o
    case Returned(resp) => resp
    case Threw(e) => Respond(rt.getExtension, req.accept, ErrorEncoders(rt.stringify, e), RespondOptions(Some(500), Some(Txt)))
  }

  /** The exported `handleRequest` wrapper: every request gets a response. */
  method Serve(req: Request, rt: Runtime, rando: Result<string, string>, year: int) returns (r: Response)
    ensures r == Recover(req, HandleSpec(req, rt, rando, year), rt)
    ensures r.status in {200, 400, 404, 500}
    ensures r.status == 500 <==> HandleSpec(req, rt, rando, year).Threw?
  {
    var o := HandleRequest(req, rt, rando, year);
    r := Recover(req, o, rt);
  }
}
