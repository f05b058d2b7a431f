# Private-note bridge: a Dafny model

The repository is a small HTTP bridge that takes one call,
`POST /sendPrivateNote`, and forwards it to the CX Genie messaging API as a
private note on a conversation. This project models the core of its worker,
`src/index.js`. The model has two parts.

- **`normalizeApiBase_`** turns a configured API root into the root the bridge
  posts to. It trims the input, falls back to the default root when the input
  is blank, and strips trailing slashes. It adds `/api/v1` or `/v1` when no
  version segment is present, and rewrites a trailing `/api/v2` to `/api/v1`.
  Module `ApiBase` defines it as `Normalize`. It is built on a JavaScript
  `String.prototype.trim` (module `JsString`) and on the regular-expression
  tests of the source, written as predicates over positions. The tests are
  `\/api\/v\d$`, `\/api\/v\d\/`, `\/api$` and `\/api\/v2$`, with the `i`
  flag. Without the `u` flag, case folding never maps a non-ASCII character
  onto an ASCII one. So `a`, `p`, `i` and `v` match only their two ASCII
  cases, and `\d` matches only ASCII digits.
- **The handler's decisions** for `POST /sendPrivateNote` are modelled in
  module `PrivateNote`:
  - the optional `x-api-key` check, giving 401;
  - reading and trimming `bot_id`, `session_id` and `content`, giving 400 when
    one is empty;
  - building the endpoint and the outbound call: its `Authorization` header
    and its payload of exactly the three trimmed fields;
  - mapping the upstream answer: 2xx gives 200 with the body, any other status
    gives 502 with the status, the body and the endpoint, and an exception
    gives 500.

  The handler is a pure function. What the runtime supplies is an input:
  - the parsed body, or the error raised while reading it. That error is
    `request.json()` rejecting, or a field read on a body that parsed to
    `null`;
  - the upstream response (status, text, and what `JSON.parse` made of the
    text), or the error raised when `fetch` or `resp.text()` rejected.

  `Plan` covers everything before the outbound call, `Complete` everything
  after it, and `Handle` composes the two.

Module `ApiBaseExamples` works the normaliser through the typical input shapes
for an arbitrary host name.

### Behaviour worth knowing

- The normaliser is not idempotent on every input. Normalising twice equals
  normalising once exactly when the normalised root does not end in whitespace
  (`NormalizeIdempotentIff`). Such a root arises only when whitespace stands
  just before the trailing slashes, and the stripped root is then returned
  unchanged: it ends in `/api/v<digit>` or holds `/api/v<digit>/` inside, and
  does not end in `/api/v2`. For example, `host.com/api/v1/x /` gives
  `host.com/api/v1/x `, because the slash is stripped after the trim. A second
  pass then trims the space (`NormalizeNotIdempotentExample`). A root without
  a version, such as `host.com /`, gets `/api/v1` appended and is a fixed
  point. Idempotence does hold for every input whose trimmed form has no
  whitespace at all (`NormalizeIdempotent`).
- Only a trailing `/api/v2` is rewritten. `/api/v3` and `/api/v1/...` are kept.
  A two-digit version such as `/api/v12` is not recognised at all, so it gets
  `/api/v1` appended. `NormalizeKeepsOtherVersions`, `NormalizeV3Example` and
  `NormalizeTwoDigitVersionExample` state this.

## Model

| member | source | states |
|---|---|---|
| `JsString.IsWhitespace` | src/index.js:98 | the characters `trim` removes: the ECMAScript WhiteSpace and LineTerminator characters (tab, vertical tab, form feed, space, no-break space, U+FEFF, the other Zs characters, line feed, carriage return, U+2028, U+2029) |
| `JsString.SkipWhitespace` | src/index.js:98 | the index where leading whitespace ends: it is within bounds, and the end or a non-whitespace character |
| `JsString.SkipWhitespaceBack` | src/index.js:98 | the index where trailing whitespace begins, never below the given lower bound: the bound or just after a non-whitespace character |
| `JsString.SkipWhitespaceSkipsOnlyWhitespace` | src/index.js:98 | every character the forward scan passes over is whitespace |
| `JsString.SkipWhitespaceBackSkipsOnlyWhitespace` | src/index.js:98 | every character the backward scan passes over is whitespace |
| `JsString.Trim` | src/index.js:98 | `trim` never lengthens a string, and its result is empty or begins and ends with non-whitespace |
| `JsString.TrimRemovesOnlyEdgeWhitespace` | src/index.js:98 | `trim` returns a slice of its input, and everything before and after that slice is whitespace |
| `JsString.TrimEmptyIff` | src/index.js:98-99 | a string trims to empty exactly when it is all whitespace, which is when the default root is used |
| `JsString.TrimIdentity` | src/index.js:98 | `trim` leaves unchanged a string that neither begins nor ends with whitespace |
| `JsString.TrimShortens` | src/index.js:98 | `trim` strictly shortens a string that ends with whitespace |
| `JsString.TrimOfPadded` | src/index.js:98 | `trim` removes one trailing whitespace character from an otherwise trimmed string |
| `ApiBase.SlashRunStart` | src/index.js:102 | the start of the final run of `/`, which is never past its end and is preceded by a character other than `/` |
| `ApiBase.SlashRunIsSlashes` | src/index.js:102 | every character the backward scan for the final run of `/` passes over is a `/` |
| `ApiBase.StripTrailingSlashes` | src/index.js:101-102 | `replace(/\/+$/, "")` gives a prefix of the input, which does not end in `/`, and removes only `/` characters |
| `ApiBase.VersionDirFromIff` | src/index.js:105 | the recursive search for `/api/v<digit>/` succeeds exactly when such a match exists at or after the start position |
| `ApiBase.EndsWithApi` | src/index.js:107 | the test `/\/api$/i`: `/`, then `a`, `p` and `i` in either case, at the end |
| `ApiBase.EndsWithVersion` | src/index.js:105 | the test `/\/api\/v\d$/i`: `/api/v` in either case and an ASCII digit, at the end |
| `ApiBase.ContainsVersionDir` | src/index.js:105 | the unanchored test `/\/api\/v\d\//i`: `/api/v<digit>/` anywhere |
| `ApiBase.EndsWithV2` | src/index.js:113 | the test `/\/api\/v2$/i`: a version ending whose digit is `2` |
| `ApiBase.IsVersioned` | src/index.js:105 | a root counts as versioned when it ends in `/api/v<digit>` or holds `/api/v<digit>/`, case ignored; its negation is the condition for appending a version |
| `ApiBase.Stripped` | src/index.js:98-102 | the trimmed, slash-stripped root is a prefix of the trimmed input and does not end in `/` |
| `ApiBase.Normalize` | src/index.js:97-117 | the normalised root is never empty, never ends in `/`, and always ends with or contains a version segment; a blank input gives the default root |
| `ApiBase.Versioned` | src/index.js:104-116 | from a root that does not end in `/`, each branch gives a non-empty, versioned root that does not end in `/` |
| `ApiBase.DefaultIsVersioned` | src/index.js:99 | the default root ends in a version segment |
| `ApiBase.AppendVersionToApi` | src/index.js:107 | appending `/v1` to a root ending in `/api` gives a version ending |
| `ApiBase.AppendApiVersion` | src/index.js:109 | appending `/api/v1` to any root gives a version ending |
| `ApiBase.NormalizeAppendsVersion` | src/index.js:105-107 | an unversioned root ending in `/api` (any case) gets `/v1` appended |
| `ApiBase.NormalizeAppendsApiVersion` | src/index.js:105-109 | a non-blank, unversioned root not ending in `/api` gets `/api/v1` appended |
| `ApiBase.NormalizeRewritesV2` | src/index.js:112-113 | a root ending in `/api/v2` (any case) has those seven characters replaced by `/api/v1` |
| `ApiBase.NormalizeKeepsOtherVersions` | src/index.js:105-116 | a versioned root that does not end in `/api/v2` is returned as stripped, unchanged |
| `ApiBase.VersionedEnding` | src/index.js:104-116 | the versioning step never leaves a root ending in `/api/v2`, and its result ends in `1` or is its input unchanged |
| `ApiBase.VersionedStart` | src/index.js:104-116 | the versioning step keeps the first character of a non-empty root, and starts an empty root with `/` |
| `ApiBase.NormalizeEnds` | src/index.js:97-116 | the normalised root never begins with whitespace and never ends in `/api/v2`; it is the trimmed, slash-stripped input or ends in `1` |
| `ApiBase.VersionedFixesVersioned` | src/index.js:115-116 | the versioning step leaves unchanged a root that does not end in `/`, is already versioned, and does not end in `/api/v2` |
| `ApiBase.NormalizeOfStripped` | src/index.js:97-116 | on a root already trimmed and free of trailing `/`, normalising is just the versioning step |
| `ApiBase.StrippedIdentity` | src/index.js:98-102 | a root with no surrounding whitespace and no trailing `/` passes trimming and stripping unchanged |
| `ApiBase.StrippedOfSlashed` | src/index.js:98-102 | a `/` after a root that does not begin with whitespace or end in `/` is stripped, and nothing else is removed, even trailing whitespace before it |
| `ApiBase.NormalizeMovesTrailingWhitespace` | src/index.js:98-102 | an input ending in whitespace is never a fixed point of the normaliser |
| `ApiBase.NormalizeIdempotentIff` | src/index.js:97-117 | normalising twice equals normalising once exactly when the normalised root does not end in whitespace |
| `ApiBase.NormalizeIdempotent` | src/index.js:97-117 | normalising is idempotent on every input whose trimmed form holds no whitespace |
| `ApiBase.NormalizeDefaultFixed` | src/index.js:99 | the default root is a fixed point of the normaliser |
| `ApiBase.NormalizeBlank` | src/index.js:98-99 | an empty or all-whitespace root normalises to the default root |
| `ApiBaseExamples.NormalizeBareHostExample` | src/index.js:104-109 | `host` becomes `host/api/v1` |
| `ApiBaseExamples.NormalizeApiRootExample` | src/index.js:106-107 | `host/api` becomes `host/api/v1` |
| `ApiBaseExamples.NormalizeV2Example` | src/index.js:112-113 | `host/api/v2` becomes `host/api/v1` |
| `ApiBaseExamples.NormalizeV2UpperSlashExample` | src/index.js:101-113 | `host/API/V2/` becomes `host/api/v1`: the slash is stripped and the match ignores case |
| `ApiBaseExamples.NormalizeV1Example` | src/index.js:101-116 | `host/api/v1/` becomes `host/api/v1` |
| `ApiBaseExamples.NormalizeV3Example` | src/index.js:105-116 | `host/api/v3` is kept as it is |
| `ApiBaseExamples.NormalizeInnerVersionExample` | src/index.js:105-116 | `host/api/v1/foo` is kept, because it contains a version directory |
| `ApiBaseExamples.NormalizeTwoDigitVersionExample` | src/index.js:105-109 | `host/api/v12` is not recognised as versioned, so it becomes `host/api/v12/api/v1` |
| `ApiBaseExamples.NormalizeNotIdempotentExample` | src/index.js:97-117 | `host/api/v1/x /` becomes `host/api/v1/x `, which a second pass turns into `host/api/v1/x` |
| `ApiBaseExamples.SpaceSurvivesFirstPass` | src/index.js:98-102 | the first pass of the counterexample keeps the space |
| `ApiBaseExamples.SpaceTrimmedBySecondPass` | src/index.js:98-102 | the second pass of the counterexample trims the space |
| `PrivateNote.KeyAccepted` | src/index.js:20-21 | an unset or empty `API_KEY` accepts every request; a configured key accepts exactly the requests whose `x-api-key` header equals it |
| `PrivateNote.TrimFields` | src/index.js:28-30 | each of `bot_id`, `session_id` and `content` is trimmed |
| `PrivateNote.AllPresent` | src/index.js:32 | the request goes on only when none of the three trimmed fields is empty |
| `PrivateNote.Endpoint` | src/index.js:40-41 | the endpoint is the normalised root followed by `/messages/private-notes` |
| `PrivateNote.Reply.HttpStatus` | src/index.js:22-73 | each answer has its own status: 401 exactly for the key rejection, 400 exactly for a missing field, 502 exactly for an upstream failure, 500 exactly for an exception, and 200 exactly for delivery |
| `PrivateNote.IsOkStatus` | src/index.js:57 | `resp.ok` of the Fetch standard: a status from 200 to 299 |
| `PrivateNote.OrElse` | src/index.js:20 | the JavaScript or-default of a string gives the string when it is set and non-empty, and the fallback otherwise (also used at lines 40 and 48) |
| `PrivateNote.Reply.Envelope` | src/index.js:22-73 | every answer is a JSON object whose first field is `ok`, true only for delivery, and whose second field is `error` otherwise; delivery carries exactly `ok` and `result`; the key rejection, the missing-field answer and an exception carry their exact error text; an upstream failure carries `CXG API failed`, then `status`, `detail` and `endpoint_used` with the upstream status, body and endpoint |
| `PrivateNote.Plan` | src/index.js:17-51 | 401 exactly when a configured key is not matched; a body that cannot be read gives a 500 with its message; 400 exactly when a trimmed field is empty; otherwise one call, to the normalised endpoint, with `Bearer <token>` and the three trimmed fields |
| `PrivateNote.BodyOf` | src/index.js:53-55 | the upstream body is the parsed JSON, or `{ raw: text }` when parsing fails |
| `PrivateNote.Complete` | src/index.js:44-73 | an error from `fetch` or `resp.text()` gives 500 with its message; a 2xx status gives 200 with the body; any other status gives 502 with that status, the body and the endpoint used |
| `PrivateNote.Handle` | src/index.js:17-74 | an unmatched key always gives 401; 200 happens exactly when the key matches, all fields are present and the upstream answers 2xx, and it carries the upstream body; a 502 carries the upstream's non-2xx status, its body and the configured endpoint |
| `PrivateNote.UnauthorizedReadsNothing` | src/index.js:20-25 | with an unmatched key the answer depends neither on the body nor on the upstream |
| `PrivateNote.MissingFieldsCallsNothing` | src/index.js:28-37 | with a missing field the answer does not depend on the upstream, so no call is made |
| `PrivateNote.EndpointShape` | src/index.js:40-41 | the endpoint is exactly the normalised root followed by `/messages/private-notes`; the root is versioned and has no trailing `/`, so exactly one `/` joins the two |
| `PrivateNote.DefaultEndpoint` | src/index.js:40-41 | with no configured root, the endpoint is the default root followed by `/messages/private-notes` |
| `PrivateNote.EnvelopeOkMatchesStatus` | src/index.js:22-73 | `ok` is true exactly when the HTTP status is 200 |

## Left out

- `server.js`, the alternative Node/socket.io front end, is not part of this model.
- CORS headers, the `OPTIONS` preflight, `GET /health` and the 404 fallback
  (src/index.js:5-13, 77, 81-88) are routing around the handler and are not
  modelled. Dispatch to the handler on method and path is taken as given.
- `jsonOut_`'s serialisation (`JSON.stringify` with indentation, and the
  response headers) is left out. The model stops at the JSON value
  (`Reply.Envelope`) and the status (`Reply.HttpStatus`).
- `request.json()`, `fetch`, `resp.text()` and `JSON.parse` are I/O or runtime
  parsing. They are inputs to the model: a parsed body or an error message,
  and an upstream response or an error message. The outbound request is a
  value (`Outbound`). The fixed `Content-Type` header and the
  `JSON.stringify` of the payload are not modelled.
- `String(body.x || "")` on a non-string body field is not modelled. A number,
  object or array field is taken as already converted to its string form, and
  `NoteFields` holds the converted strings.
- `String(err && err.message ? err.message : err)` is summarised as the error
  message carried by the failing input.
- `PrivateNote.Json`: JSON numbers are integers, so upstream JSON with
  fractional numbers is not represented. The handler never inspects the
  numbers it passes on, and it builds only integer statuses.
- `JsString.Trim`: strings are sequences of characters. UTF-16 surrogate pairs
  are not distinguished, which does not affect `trim`, because no whitespace
  character lies outside the Basic Multilingual Plane.
- `PrivateNote.Handle`: the error message of a failed body parse is taken as
  given. Its text comes from the runtime.
- The `String(base || "")` in `normalizeApiBase_` is not modelled separately.
  The only caller passes a string, and `OrElse` models its `||`.
