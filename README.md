# NetworkRepository, modelled in Dafny

NetworkRepository is a thin Swift layer over `URLSession`. This project models
the logic it adds on top of the platform client and proves properties of that
model:

- **Request shaping.** `SessionRequest` is a class with mutable fields:
  identifier, URL, HTTP method, optional header map, optional body and priority.
  - `appendUrl(with:)` replaces the URL's query. Afterwards no `+` is left in
    the percent-encoded query, because each `+` is written `%2B`.
  - Both `setHttpBody` overloads replace the body only when encoding produced
    data. They always write `Content-Type`: the other headers are kept, and a
    nil or empty header map becomes the one-entry map.
- **Responses.** `DataSessionResponse` starts with the status sentinel `-1`
  and the request's identifier. The status predicates `isValid`, `isSuccess`,
  `hasClientError` and `hasServerError` are integer range tests.
- **The dispatcher.** `NetworkRepository` holds session headers and an OAuth2
  delegate.
  - `execute` layers the outgoing headers in order: request headers, then
    session headers, then the delegate's headers. A later layer overrides an
    earlier one.
  - When the data task finishes, the completion handler delivers the response
    exactly once. After that, only on a 401 and only when a delegate is
    registered, it asks the delegate to refresh.
- **Query strings.** `Dictionary.queryString` joins the `key=value` fragments
  with `&` and does no escaping. `queryData` is that string's UTF-8 data.

Modules:

| module | file | what it holds |
|---|---|---|
| `Wrappers` | `wrappers.dfy` | `Option` (Swift's `T?`) and `Bytes` (`Data`) |
| `Headers` | `headers.dfy` | header maps, right-biased overlay, and the `for (key, value)` write loop |
| `Status` | `status.dfy` | the status constants and predicates |
| `Query` | `query.dfy` | `queryString` and `queryData`, and a reader that inverts them |
| `Session` | `session.dfy` | `SessionRequest`, the `+` rewrite, the Content-Type update, `DataSessionResponse` |
| `Repository` | `repository.dfy` | `NetworkRepository`, header layering, the completion decision |

How foreign code appears in the model:

- Calls into Foundation and into the delegate are inputs of the operations.
  - `jsonData: Option<Bytes>` is the outcome of JSON serialisation.
  - `utf8` is the UTF-8 encoder.
  - `parsable` says whether `URLComponents` accepts the URL.
  - `percentEncode` is the percent-encoded query that `URLComponents` builds
    from the query items.
  - `delegateHeaders` is what `oAuth2SessionRequestHeaders()` answers at the
    moment of the call.
- The transport's result (`data`, `response`, `error`) is a `TransportOutcome`.
- What the completion handler does is an ordered list of `Event`s.

## Where the code differs from its doc comments, and what the code does

The model follows the code throughout.

- `appendUrl`'s doc comment (SessionRequestResponse.swift:81) says the passed
  parameters are added without replacing the existing ones. Line 85 assigns
  `queryItems`, so any prior query is discarded. See
  `Session.AppendedUrlReplacesQuery`.
- `hasServerError`'s doc comment (SessionRequestResponse.swift:184) gives the
  range 400–499. The code tests 500–599 (line 187).
- Both body helpers overwrite an existing `Content-Type`, so the last call
  wins (SessionRequestResponse.swift:122-128, 139-145; see
  `Session.ContentTypeLastWins`).
- On a 401 with a delegate registered, the completion receives the 401
  response first; only then is `unauthoriseOAuth2SessionRequestFor` called
  (NetworkRepository.swift:97-101; see `Repository.CompletionEvents`).
- When `data` is nil and there is no error, the completion receives the
  response with status `-1` and no status inspection happens
  (NetworkRepository.swift:90-93), so a 401 with nil `data` never triggers a
  refresh.
- Session headers are written over the request headers, and the delegate's
  headers over both (NetworkRepository.swift:71-81; see
  `Repository.LayeredHeaders`).

## Model

| member | source | states |
|---|---|---|
| `Headers.Overlay` | Sources/NetworkRepository/SessionRequestResponse.swift:123-125 | the result has the keys of both maps; the second map's value wins where it has one, and the first map's value is kept elsewhere |
| `Headers.WriteAll` | Sources/NetworkRepository/NetworkRepository.swift:73-75 | assigning every entry of a layer in any iteration order leaves exactly the right-biased overlay |
| `Status.RangesAreClasses` | Sources/NetworkRepository/SessionRequestResponse.swift:172-188 | `isSuccess`, `hasClientError` and `hasServerError` each hold exactly for status class 2, 4 and 5 in the sense of section 15 of RFC 9110 (the first digit of a three-digit code) |
| `Status.RangesDisjointAndValid` | Sources/NetworkRepository/SessionRequestResponse.swift:165-188 | the three range predicates are pairwise exclusive, and each implies `isValid` |
| `Status.IsValid` | Sources/NetworkRepository/SessionRequestResponse.swift:165-167 | the sentinel `-1` is the only status that is not valid; every status in the success, client-error or server-error range is valid |
| `Status.IsSuccess` | Sources/NetworkRepository/SessionRequestResponse.swift:172-174 | holds exactly for the three-digit codes whose first digit is 2 |
| `Status.HasClientError` | Sources/NetworkRepository/SessionRequestResponse.swift:179-181 | holds exactly for the three-digit codes whose first digit is 4 |
| `Status.HasServerError` | Sources/NetworkRepository/SessionRequestResponse.swift:186-188 | holds exactly for the three-digit codes whose first digit is 5 |
| `Status.SentinelSatisfiesNone` | Sources/NetworkRepository/SessionRequestResponse.swift:37 | the sentinel `-1` satisfies none of the four predicates |
| `Query.QueryString` | Sources/NetworkRepository/Extensions.swift:59-66 | appending `key=value&` per entry and then dropping the last character gives exactly the fragments joined by `&` |
| `Query.QueryData` | Sources/NetworkRepository/Extensions.swift:75-77 | the query data is always present and is the UTF-8 encoding of the query string |
| `Query.JoinEmpty` | Sources/NetworkRepository/Extensions.swift:60-65 | an empty dictionary gives the empty string |
| `Query.JoinLength` | Sources/NetworkRepository/Extensions.swift:61-64 | for n >= 1 entries the length is the sum of `|key| + 1 + |value|` plus n - 1 separators |
| `Query.JoinVerbatim` | Sources/NetworkRepository/Extensions.swift:62 | every key and value appears unescaped at its offset, followed by `&` except for the last entry |
| `Query.AmbiguousWithoutEscaping` | Sources/NetworkRepository/Extensions.swift:62 | `{a: "1&b=2"}` and `{a: "1", b: "2"}` give the same string `a=1&b=2` |
| `Query.ParseJoin` | Sources/NetworkRepository/Extensions.swift:59-66 | when keys hold no `&` or `=` and values hold no `&`, splitting at `&` and then at the first `=` gives back the entries in order |
| `Session.UrlSessionMethod.RawValue` | Sources/NetworkRepository/SessionRequestResponse.swift:11-17 | every method is sent under an upper-case name of at least three letters |
| `Session.RawValueInjective` | Sources/NetworkRepository/SessionRequestResponse.swift:11-17 | different methods are sent under different names |
| `Session.EscapePlus` | Sources/NetworkRepository/SessionRequestResponse.swift:89 | the rewritten query holds no `+`; a query without `+` is left identical; it is empty iff the input is; each first character is kept, or is `%` when it was `+` |
| `Session.EscapePlusLength` | Sources/NetworkRepository/SessionRequestResponse.swift:89 | the rewrite grows the query by exactly two characters per `+` |
| `Session.EscapePlusRoundTrip` | Sources/NetworkRepository/SessionRequestResponse.swift:89 | on a query that holds no `%2B` already, decoding `%2B` back to `+` restores the query |
| `Session.EscapePlusExample` | Sources/NetworkRepository/SessionRequestResponse.swift:89 | the query `a=x+y` is sent as `a=x%2By` |
| `Session.AppendedUrl` | Sources/NetworkRepository/SessionRequestResponse.swift:83-92 | no parameters, or a URL that `URLComponents` rejects, leave the URL unchanged; otherwise the query is present and holds no `+`, and a query without `+` is sent as encoded; the non-query part of the URL is kept (see `AppendedUrl` under Left out) |
| `Session.AppendedUrlReplacesQuery` | Sources/NetworkRepository/SessionRequestResponse.swift:85 | the new query does not depend on the old one: URLs that differ only in their query end up equal |
| `Session.WithContentType` | Sources/NetworkRepository/SessionRequestResponse.swift:122-128 | `Content-Type` is present with the new value, overwriting any old one; other keys and their values are kept when the headers were non-empty; nil or empty headers become exactly the one-entry map |
| `Session.ContentTypeLastWins` | Sources/NetworkRepository/SessionRequestResponse.swift:122-128 | after two body updates the headers are those of the second alone |
| `Session.ContentTypeFor` | Sources/NetworkRepository/SessionRequestResponse.swift:117 | the content type is form encoding exactly when `urlEncoding` is set, JSON otherwise |
| `Session.SessionRequest.constructor` | Sources/NetworkRepository/SessionRequestResponse.swift:66-73 | all six fields are stored verbatim |
| `Session.SessionRequest.AppendUrl` | Sources/NetworkRepository/SessionRequestResponse.swift:83-92 | the URL becomes `AppendedUrl` of the old URL; no other field changes |
| `Session.SessionRequest.SetContentType` | Sources/NetworkRepository/SessionRequestResponse.swift:122-128 | the headers become `WithContentType` of the old headers |
| `Session.SessionRequest.SetHttpBodyItem` | Sources/NetworkRepository/SessionRequestResponse.swift:116-129 | with form encoding the body always becomes the UTF-8 query string; with JSON the body is replaced only when serialisation produced data and is kept otherwise; the headers get the matching content type in both cases; identifier, URL, method and priority are unchanged |
| `Session.SessionRequest.SetHttpBodyItems` | Sources/NetworkRepository/SessionRequestResponse.swift:134-146 | the body is replaced only on successful serialisation; the content type is always JSON; other fields are unchanged |
| `Session.NewDataSessionResponse` | Sources/NetworkRepository/SessionRequestResponse.swift:201-216 | a fresh response carries the request's identifier, data and error, and status `-1`, so `isValid` and every range predicate are false |
| `Repository.LayeredHeaders` | Sources/NetworkRepository/NetworkRepository.swift:71-81 | with request headers present, a key is sent iff some layer holds it; its value comes from the delegate if the delegate's headers hold it, else from the session headers if they hold it, else from the request; without request headers nothing is sent |
| `Repository.WriteThrough` | Sources/NetworkRepository/NetworkRepository.swift:72-76 | an optional layer is written over present header fields and nothing is written into absent ones |
| `Repository.CompletionEvents` | Sources/NetworkRepository/NetworkRepository.swift:85-102 | completion comes first and exactly once, with the request's identifier, data and error; a transport error or nil data gives status `-1`; otherwise the status is the HTTP status, or `-1` for a non-HTTP response; a refresh follows iff there was no error and data was present and a delegate is registered and the status is 401; a 2xx status never triggers a refresh |
| `Repository.NetworkRepository.constructor` | Sources/NetworkRepository/NetworkRepository.swift:18-31 | a new repository has no session headers and no delegate |
| `Repository.NetworkRepository.SetSessionHeaders` | Sources/NetworkRepository/NetworkRepository.swift:58-62 | an empty map leaves the session headers unchanged; a non-empty map replaces them wholesale; the delegate is untouched |
| `Repository.NetworkRepository.SetOAuth2Delegate` | Sources/NetworkRepository/NetworkRepository.swift:64-66 | the delegate becomes the given one; the session headers are untouched |
| `Repository.NetworkRepository.Execute` | Sources/NetworkRepository/NetworkRepository.swift:69-105 | the task sends the request's URL, method name and body unchanged; its description is the request's identifier; its headers are the request, session and delegate layers, with the delegate asked only when one is registered |
| `Repository.NetworkRepository.TaskFinished` | Sources/NetworkRepository/NetworkRepository.swift:83-103 | the completion handler produces exactly `CompletionEvents`, using the delegate registered when the task finishes |

## Left out

- `URLSession`, `dataTask`, `resume`, the hop to the main queue, `timeout(_:waitsForConnectivity:)` and the `sharedSession` field: these are asynchronous I/O and scheduling. The transport's result is an input of `TaskFinished`.
- JSON (de)serialisation: `JSONSerialization`, `JSONEncoder`/`JSONDecoder`, and the `dataValue`, `dictValue`, `arrayValue`, `parse`, `parseArray` and `stringValue` helpers, all foreign calls. Their outcome is only the `Option<Bytes>` input `jsonData`.
- `setHttpBody(with:)` for one `Codable` value and for an array of them: their body comes from foreign encoding through `dictValue`, and the array form force-unwraps it, so it crashes when encoding fails.
- `keyPathValue`, `DateFormatter`, `dateFormat(format:)`, `enableLogs`: these are library configuration and logging.
- `URLComponents` parsing, its percent-encoding of query items, and the force-unwrap `sUrl.url!`: these are inputs (`parsable`, `percentEncode`). Only the empty-parameters guard and the `+` rewrite are modelled.
- `UUID()` default identifiers and the defaults of the parameters: identifiers are plain inputs.
- Priorities are modelled as exact `real` values, with no single-precision rounding.
- Dictionary values of type `Any` are strings, as `String(describing:)` would render them.
- Header names are compared exactly. The case-insensitive matching that `URLRequest` may apply to header names is not modelled.
- Strings are sequences of Unicode scalar values, not Swift's grapheme-cluster `String`:
  - dictionary and header keys are equal only when their scalars are equal, so canonically equivalent keys (`"\u{e9}"` and `"e\u{301}"`) are two keys in the model and one in Swift;
  - `dropLast()` in `queryString` (Extensions.swift:64) is modelled as removing one scalar, the final `&`; Swift removes the last grapheme cluster, which differs when the last value ends in a Prepend scalar such as U+0600, where Swift also drops that scalar.
- AppendedUrl: keeps the non-query part of the URL as it was. The source builds the components with `resolvingAgainstBaseURL: true` (SessionRequestResponse.swift:84) and stores `sUrl.url!` (line 90), so a URL relative to a base comes back absolute, with its non-query part changed; the model does not capture that.
- Execute with nil request headers: the reading taken is that optional chaining writes nothing into absent header fields, so the task is sent without header fields. What Foundation's getter returns after nil was assigned is not modelled.
- `OAuth2SessionRequestDelegate`'s methods are caller code. Their part in the model:
  - The answer of `oAuth2SessionRequestHeaders()` is an input.
  - A call of `unauthoriseOAuth2SessionRequestFor` is an `UnauthorisedRefresh` event.
  - The refresh and the re-execution in the example app are not modelled.
- `SessionRequest.execute(completion:)` forwards to the `shared` singleton. The model passes a `NetworkRepository` explicitly.
- `DataSessionResponse` is modelled as a value with identifier, status, data and error. The `response: URLResponse?` field enters only as its HTTP status, and the `sessionRequest` back-reference is not kept.
- Examples/Example-iOS/Example-iOS/ViewController.swift is sample UI code and is not part of this model.
