# uuid.ninja request handling, modelled in Dafny

This project models the request-decision layer of uuid.ninja's Cloudflare
Worker (`src/main.ts`). The worker hands out RFC 4122 identifiers: random (v4)
and name-based (v3, v5). It also serves an HTML form. The model covers:

- **Content negotiation** (`contentType`, `respond`). The `accept` header is
  reduced to `txt` or `json`. The status, the `content-type` header and the
  body follow from that one choice.
- **Option parsing** (`parseUUIDVersion`, `parseOptions`). The query, or the
  form body of a POST, becomes an `Options` record with fixed defaults.
- **Case conditioning** (`conditionUppercase`). One shared upper/lower
  transform.
- **Routing and the validation gate** (`handleRequest`). Each path reaches
  exactly one of four outcomes, in this order: `/api/v4`, the hash pattern,
  the `/` form, or 404. A hash request whose namespace fails validation gets a
  400, and no hash is computed for it.
- **The form branch**. A mutable `MainProps` record is built. `resultRando` is
  set in place, and the `dohash` closure either appends a problem to the
  `hash_uuid` list or sets `resultHash`. Here this is the class
  `Form.MainProps`, whose method `DoHash` is proved against the pure
  `Form.DoHashSpec`.
- **The exported wrapper**. Any exception becomes a 500 response whose default
  encoding is `txt`.

The code's collaborators are fields of a `Handler.Runtime` value of function
type. They are `mime.getExtension`, `uuid.validate`, `uuid.v3`, `uuid.v5`,
`JSON.stringify` and the page renderer. No property depends on what these
functions compute. Each request draws `uuid.v4()` at most once, so that draw
is a parameter. So is the current year. A hasher or the random draw can
throw; `Result.Failure` carries the thrown error's text, and `Handler.Outcome`
separates a returned response from a thrown error.

One quirk of the code is reproduced on purpose. The hash route's pattern
ignores case (`/API/V3/<ns>/<name>` matches), but the version is then chosen
with the case-sensitive tests `includes("/v3/")` and `includes("/v5/")`. For
such a path whose namespace passes validation (and is neither `v3` nor `v5`),
no hash is assigned, and the answer is 200 with an `undefined` result (`Routing.UpperCaseVersionChoosesNothing`,
`Handler.UpperCaseHashPathAnswersUndefined`). The same substring test reads
the whole path, so a namespace segment equal to `v3` selects v3 even on a
`/api/v5/` path (`Routing.LowerCaseV5ChoosesV5`).

Worth noting about the code itself, which the model follows:
- There is no time-ordered (v7) generator and no sequence counter.
- The 404 text body is the bare message `404 page not found`, without the
  `error: ` prefix.
- The form's problem message is `invalid uuid: <ns>`, without the quotes the
  API's 400 message uses.

Modules: `Wrappers` (Option, Result), `Http` (request, response, parameter
lookup), `Casing`, `Negotiation`, `RequestOptions`, `Routing`, `Form`,
`Handler`.

## Model

| member | source | states |
|---|---|---|
| Http.Get | src/main.ts:91-94 | `params.get(key)` is absent exactly when no parameter has that key; otherwise it is the value of the first parameter with that key |
| Casing.ToUpperCase | src/main.ts:53 | keeps the length and upper-cases each character |
| Casing.ToLowerCase | src/main.ts:55 | keeps the length and lower-cases each character |
| Casing.ConditionUppercase | src/main.ts:51-56 | keeps the length; with the flag set, no lower-case ASCII letter is left; without it, no upper-case one; every character keeps its letter up to case |
| Casing.ConditionIdempotent | src/main.ts:51-56 | conditioning twice with the same flag is the same as conditioning once |
| Casing.ConditionAbsorbs | src/main.ts:51-56 | re-conditioning an already conditioned string depends only on the last flag |
| Negotiation.ContentType | src/main.ts:9-20 | always `txt` or `json`; the inferred extension when it is `txt` or `json`, otherwise the supplied default |
| Negotiation.DefaultOnlyOnFallback | src/main.ts:9-20 | two defaults give different encodings only when the extension is unsupported |
| Negotiation.Respond | src/main.ts:27-49 | status from `EffectiveStatus`; the json body goes with `application/json` and the txt body with `text/plain`; json is chosen exactly when negotiation over the header (`""` when absent) and the default (`json` when absent) yields json |
| Negotiation.MissingAcceptIsEmpty | src/main.ts:35 | a missing `accept` header gives the same response as an empty one |
| RequestOptions.ParseUuidVersion | src/main.ts:70-78 | `v3` exactly when the `uuidvers` parameter is the string `v3`; `v5` in every other case, including absent and `V3` |
| RequestOptions.ParseOptions | src/main.ts:89-95 | `uppercase` iff its parameter is present and non-empty; version from `ParseUuidVersion`; namespace and name are the parameter values, or `""` when absent |
| RequestOptions.ParseOptionsReadsOneSource | src/main.ts:84-95 | a POST's options do not depend on its query, and any other request's do not depend on its form body |
| RequestOptions.EmptyParamsDefaults | src/main.ts:89-95 | with no parameters the options are `false`, `v5`, `""`, `""` |
| Routing.IndexOf | src/main.ts:114 | the first occurrence of a character: it is there, with none before it; absent means it does not occur |
| Routing.HashPrefixAgrees | src/main.ts:114 | the character-wise prefix test equals "lower-cases to `/api/v3/` or `/api/v5/`" |
| Routing.MatchHashPathCorrect | src/main.ts:114-115 | the matcher returns `(ns, name)` exactly when the path is a case-insensitive `/api/v3/` or `/api/v5/` prefix followed by two non-empty, slash-free segments `ns` and `name` |
| Routing.Classify | src/main.ts:101-217 | `/api/v4` goes to v4; any other path that the hash pattern matches goes to the hash branch with its captures; `/` goes to the form; everything else is not found; the outcomes exclude one another |
| Routing.Contains | src/main.ts:134-136 | `includes` holds exactly when the text occurs at some position, case-sensitively |
| Routing.MarkerPositions | src/main.ts:114-138 | in a matched hash path, a `/xy/` marker can only be the version segment or the namespace segment |
| Routing.UpperCaseVersionChoosesNothing | src/main.ts:114-138 | a matched path with an upper-case `V` version segment is routed to the hash branch, but neither marker occurs, so no version is chosen (unless the namespace is `v3` or `v5`) |
| Routing.LowerCaseV3ChoosesV3 | src/main.ts:134-135 | a lower-case `v3` version segment chooses v3 |
| Routing.LowerCaseV5ChoosesV5 | src/main.ts:134-138 | a lower-case `v5` version segment chooses v5, except that a namespace segment `v3` chooses v3 |
| Form.DoHashSpec | src/main.ts:159-172 | with an empty namespace or name the record is unchanged; otherwise, unless the hasher throws, exactly one thing happens: an invalid namespace appends `invalid uuid: <ns>` after the existing `hash_uuid` problems (other keys kept), or a valid one sets `resultHash` to the conditioned hash; it fails exactly when the namespace is valid and the hasher throws; no other field changes |
| Form.MainProps.constructor | src/main.ts:149-158 | the record copies the options and the year, with empty results and no problems |
| Form.MainProps.DoHash | src/main.ts:159-172 | updates the record in place to the state `DoHashSpec` gives, or reports the hasher's error and leaves the record as it was |
| Handler.V4Response | src/main.ts:103-113 | a throwing draw throws; otherwise 200 carrying the conditioned random identifier as text or as `{result}`; json is chosen exactly when negotiation over the `accept` header (`""` when absent) with default `json` yields json |
| Handler.HashResponse | src/main.ts:116-147 | an invalid namespace gives 400 with `error: invalid uuid: '<ns>'` or `{error}`, with no hasher involved; a valid one gives 200 with the conditioned hash, an `undefined` result when no marker chose a version, or the hasher's exception; every returned answer is json exactly when negotiation over the `accept` header (`""` when absent) with default `json` yields json |
| Handler.InvalidNamespaceHashesNothing | src/main.ts:118-132 | with an invalid namespace, replacing both hashers does not change the response |
| Handler.NotFoundResponse | src/main.ts:209-216 | 404 carrying `404 page not found` as text or as `{error}`; json exactly when negotiation over the `accept` header (`""` when absent) with default `json` yields json |
| Handler.FormProps | src/main.ts:148-181 | fails exactly when the draw throws or the selected hasher throws on a non-empty, valid namespace and name, with that error; otherwise the options and year are copied, `resultRando` is the conditioned draw, and `dohash` with the selected version's hasher either leaves results empty, records one problem, or sets `resultHash` |
| Handler.FormOutcome | src/main.ts:182-207 | the form branch returns exactly when `FormProps` succeeds, with a 200 `text/html` page rendered from that record, and otherwise throws `FormProps`'s error |
| Handler.FormPage | src/main.ts:148-207 | the imperative form branch (build `mp`, set `resultRando`, run `dohash`, render) gives the outcome `FormOutcome` specifies |
| Handler.HandleSpec | src/main.ts:101-217 | returned statuses are 200, 400 or 404; 404 exactly on unrouted paths; 400 exactly on hash paths with an invalid namespace; `text/html` exactly on the form page; it throws exactly when the v4 or form route's random draw throws, when the selected hasher throws on a valid namespace (hash or form route), and never on an unrouted path |
| Handler.UpperCaseHashPathAnswersUndefined | src/main.ts:114-146 | `/API/V3/<ns>/<name>` with a valid namespace answers 200 with an `undefined` result |
| Handler.InvalidNamespaceAnswers400 | src/main.ts:114-132 | `/api/v3/<ns>/<name>` with an invalid namespace answers 400 carrying `invalid uuid: '<ns>'` |
| Handler.HandleRequest | src/main.ts:101-217 | the method, with its imperative form branch, computes `HandleSpec` |
| Handler.Recover | src/main.ts:225-237 | a returned response passes through; a thrown error becomes 500 carrying `error: <e>` or `{error: "<e>"}`, and text is chosen unless negotiation with default `txt` yields json |
| Handler.Serve | src/main.ts:220-239 | every request gets a response with status 200, 400, 404 or 500, and 500 exactly when `handleRequest` threw |

## Left out

- Request parsing is not modelled: `new URL`, `URLSearchParams` decoding of the query or POST body, and awaiting `request.text()`. `Http.Request` holds the path, the decoded parameters and the `accept` header already parsed, so a failure while reading the body is not modelled.
- The internals of `mime.getExtension`, `uuid.validate`, `uuid.v3`, `uuid.v4` and `uuid.v5` (MD5, SHA-1, the RNG, the validation regex) are not modelled. These are fields of `Handler.Runtime` (the v4 draw is a parameter), because their source is not in the repository.
- The exact escaping of `JSON.stringify` is not modelled. It is the abstract `Runtime.stringify` over `{result}` and `{error}` objects.
- The HTML markup (`src/view.tsx` and the page text around `render(mp)`) is presentation. `Runtime.renderPage` stands for the whole document.
- `new Date().getFullYear()` reads the clock, so it is the `year` parameter.
- Casing.ConditionUppercase: maps only ASCII letters and leaves every other character unchanged. JavaScript's full Unicode case mapping (e.g. `ß` to `SS`) is not modelled. Generated identifiers are ASCII hexadecimal.
- Negotiation.ContentType: the JavaScript default argument `"json"` is not modelled. The only caller always passes the default explicitly.
- A JavaScript `undefined` body is `None`, standing for an empty response body. `Response` construction and headers other than `content-type` are not modelled.
- The `async` code and the event wiring (`src/add_event_listener.js`) are not modelled: the model is sequential. The Go/wasm wrapper `un.go` is also not modelled.
- Time-ordered identifiers and a sequence counter do not exist in this code, so nothing models them.
