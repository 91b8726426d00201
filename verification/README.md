# LinkedIn URL validator and image proxy: a Dafny model

This project models the two pieces of logic in `src/index.js` of the cool_app_be
backend:

- `isValidLinkedinUrl(url)`: an allow-list check on a value of any type. It accepts
  only a non-empty string that parses as an absolute URL whose protocol is exactly
  `https:` and whose hostname is exactly `www.linkedin.com` or `linkedin.com`, and
  whose raw text is at most 256 UTF-16 code units long (JavaScript's `length`). Every failure returns `false`,
  including a parser exception.
- The `GET /proxy/image` handler's decisions. A missing or invalid `url` gets 400
  and no upstream fetch is made. A failed fetch gets 502. A successful fetch is
  streamed back; the handler hands `res.set` the upstream `Content-Type` /
  `Content-Length` plus fixed caching, cross-origin and no-sniff headers.

Files:

- `wrappers.dfy`: `Option`.
- `js.dfy`: the JavaScript semantics the code relies on. `JsValue` holds the value kinds,
  `Truthy` is ToBoolean (what `!v` negates), and strings are sequences of UTF-16 code units
  (`CodeUnit`), so `url.length` is `|s|`. `Utf16` encodes Dafny text as UTF-16 and `Literal`
  gives the source's ASCII string literals. `Includes` is `Array.prototype.includes`.
- `linkedin_url.dfy`: `LinkedinVerdict` follows the validator's guards in source order and
  names the early return that fires. `IsValidLinkedinUrl` is the validator, and its contract
  is the closed-form acceptance condition.
- `image_proxy.dfy`: `ProxyImage` returns the response (status, error body or headers) and
  the value handed to the upstream fetch, if any.

The collaborators the code calls but does not define are function-typed parameters, and
every property holds for all of them. They are: the platform URL parser behind `new URL(…)`
(`UrlParser`, where `None` stands for the thrown TypeError), `isValidImageUrl`, and the
`axios.get` fetch (`FetchOutcome`).

## Model

| member | source | states |
|---|---|---|
| `Js.Truthy` | src/index.js:3 | `!v` holds, and the guard rejects, exactly for the falsy values: `undefined`, `null`, `false`, `0` and the empty string. The same test is applied to `url` at src/index.js:21. |
| `LinkedinUrl.LinkedinVerdict` | src/index.js:3-14 | Names the early return that fires. It is `NotANonEmptyString` exactly for a non-string or empty string, and `Unparseable` exactly when a non-empty string makes the parser throw. `ProtocolNotHttps` means the parsed protocol is not `https:`. `HostNotAllowed` means the protocol is `https:` but the host is neither allowed name. `TooLong` means both checks passed and the raw input exceeds 256 code units. |
| `LinkedinUrl.IsValidLinkedinUrl` | src/index.js:2-16 | Returns true exactly when the input is a non-empty string, the parser accepts it, the protocol is `https:`, the hostname is `www.linkedin.com` or `linkedin.com`, and the raw input is at most 256 code units. Otherwise it returns false, never an error. |
| `LinkedinUrl.NonStringRejectedBeforeParsing` | src/index.js:3 | A missing, empty or non-string value is rejected by the first guard. The verdict is the same whatever the parser would do, so no parse is attempted. |
| `LinkedinUrl.ParseFailureRejected` | src/index.js:4-14 | Input the URL parser throws on yields the `Unparseable` verdict and `false`, not an exception. |
| `LinkedinUrl.NonHttpsRejected` | src/index.js:7 | Any parsed protocol other than exactly `https:` is rejected, whatever the hostname. |
| `LinkedinUrl.HostNotAllowedRejected` | src/index.js:9 | A parsed hostname outside the two allowed names is rejected, even over https. |
| `LinkedinUrl.OtherSubdomainsRejected` | src/index.js:9 | The host match is exact. `<sub>.linkedin.com` is rejected for every `sub` other than `www`, for example `m.linkedin.com`. |
| `LinkedinUrl.LengthMeasuredOnRawInput` | src/index.js:11 | The length limit applies to the raw input, not to the parsed URL. Two inputs that parse identically differ in verdict when only one is longer than 256. The longer one is rejected as `TooLong`. |
| `LinkedinUrl.LengthCountsCodeUnits` | src/index.js:11 | `url.length` counts UTF-16 code units. Text with n characters, k of them outside the Basic Multilingual Plane, is rejected once n + k exceeds 256. |
| `LinkedinUrl.AllowedUrlAccepted` | src/index.js:7-12 | A non-empty input of at most 256 code units that parses to `https:` on `linkedin.com` passes every guard. |
| `Js.Includes` | src/index.js:9 | The allow-list scan finds a hostname exactly when the hostname is an element of the list, comparing strings by content. |
| `ImageProxy.ProxyImage` | src/index.js:19-43 | The fetch is made, with the request's `url`, exactly when `url` is truthy and passes `isValidImageUrl`. The status is 400 exactly when no fetch was made, with body `Invalid or missing URL`. It is 502 exactly when the fetch failed, with body `Failed to fetch image`. The response is streamed exactly when the fetch succeeded. No other status occurs. |
| `ImageProxy.RejectedUrlNeverFetched` | src/index.js:20-23 | A missing or rejected `url` gets 400, and the response is independent of the fetch function, so no upstream request is made. |
| `ImageProxy.FetchFailureIsBadGateway` | src/index.js:39-41 | Any fetch failure yields 502 with the fixed error body. |
| `ImageProxy.FetchSuccessHeaders` | src/index.js:31-37 | A successful fetch yields 200, and the object handed to `res.set` has exactly five distinct keys: `Cache-Control: public, max-age=3600`, `Access-Control-Allow-Origin: *`, `X-Content-Type-Options: nosniff`, and the upstream `Content-Type` and `Content-Length`, handed over unchanged. |
| `Js.LiteralIsUtf16` | src/index.js:7-9 | For text inside the Basic Multilingual Plane, such as the ASCII literals `'https:'`, `'www.linkedin.com'` and `'linkedin.com'`, the model's literal is exactly the literal's UTF-16 encoding. |

## Left out

- The URL parser: its parsing, host lower-casing and normalisation are not modelled. The
  validator is proved for every parser, and only the `protocol` and `hostname` it yields are
  kept.
- `isValidImageUrl`: it is called at src/index.js:21 but src/index.js does not define it.
  `app`, `axios`, `https` and `proxyLimiter` are not defined there either. The model treats
  `isValidImageUrl` as an arbitrary total predicate. A validator that throws is therefore not
  modelled. That call is outside the `try`, so a throw would reject the async handler's
  promise instead of producing a 400 or 502 response.
- The upstream fetch. Its network I/O, TLS agent, 5 s timeout and 2 MB `maxContentLength`
  are abstracted to a success with headers, or a failure of any kind.
- Streaming the upstream body to the client (`pipe`), the `console.error` log line, and the
  JSON content type that `res.json` adds.
- What Express's `res.set` does to the values handed to it. It turns every value into a
  string, so `undefined` becomes the text `undefined`. For `Content-Type` it also appends
  the mime type's default charset, so an upstream `text/html` is sent as
  `text/html; charset=utf-8`. The model records the values handed to `res.set`, not the
  header lines sent.
- A failure that happens after the headers are set, while piping, is not modelled.
- The Express app, route registration and the `proxyLimiter` rate-limit middleware. None of
  them is defined in src/index.js.
- NaN. `JsValue.Num` has no NaN, which is falsy in JavaScript. Both the validator and
  the handler reject it, through the type check and the truthiness check respectively.
- Symbol, BigInt, ±Infinity and -0. `JsValue` has no Symbol or BigInt, and `Num` is a
  `real`, so there is no ±Infinity and -0 is the same as 0. No verdict changes: `typeof`
  rejects every non-string in the validator. For truthiness, `Object` and `Num(0.0)` stand for
  the truthy and falsy cases of the missing values.
