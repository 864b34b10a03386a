/** The parts of a fetch `Request` and `Response` the handler looks at. */
module Http {
  import opened Wrappers

  /** Decoded `application/x-www-form-urlencoded` parameters, in order. */
  type Params = seq<(string, string)>

  /** `i` is the position of the first parameter named `key`. */
  predicate FirstAt(params: Params, key: string, i: int) {
    0 <= i < |params| && params[i].0 == key &&
    forall j :: 0 <= j < i ==> params[j].0 != key
  }

  /** `URLSearchParams.get`: the value of the first parameter named `key`,
      or `None` (JavaScript `null`) when there is none. */
  function Get(params: Params, key: string): (r: Option<string>)
    ensures r.None? <==> forall i :: 0 <= i < |params| ==> params[i].0 != key
    ensures r.Some? ==> exists i :: FirstAt(params, key, i) && params[i].1 == r.value
  {
    if params == [] then None
    else if params[0].0 == key then
      assert FirstAt(params, key, 0);
      Some(params[0].1)
    else
      var r := Get(params[1..], key);
      if r.Some? then
        var i :| FirstAt(params[1..], key, i) && params[1..][i].1 == r.value;
        assert FirstAt(params, key, i + 1);
        r
      else
        r
  }

  /** An incoming request, already parsed by the runtime: the HTTP method (`verb`), the URL's
      path, its query parameters, the form parameters of the body (read only
      for POST) and the `accept` header (`None` when absent). */
  datatype Request = Request(
    verb: string,
    pathname: string,
    query: Params,
    form: Params,
    accept: Option<string>)

  /** A response: status code, `content-type` header and body (`None` when the
      body is JavaScript `undefined`, an empty response). */
  datatype Response = Response(status: int, contentType: string, body: Option<string>)
}
