/**
 * `SessionRequest` (a mutable request descriptor with its query and body
 * helpers) and `DataSessionResponse` (what a completed call delivers).
 */
module Session {
  import opened Wrappers
  import opened Headers
  import opened Status
  import opened Query

  datatype UrlSessionMethod = GET | POST | PATCH | PUT | DELETE {
    /** The method's name as sent on the wire: an upper-case token of at least three letters. */
    function RawValue(): (name: string)
      ensures |name| >= 3 && forall c :: c in name ==> 'A' <= c <= 'Z'
    {
      match this
      case GET => "GET"
      case POST => "POST"
      case PATCH => "PATCH"
      case PUT => "PUT"
      case DELETE => "DELETE"
    }
  }

  /** Different methods are sent under different names. */
  lemma RawValueInjective(a: UrlSessionMethod, b: UrlSessionMethod)
    ensures a.RawValue() == b.RawValue() ==> a == b
  {
  }

  const ContentTypeKey: string := "Content-Type"
  const Json: string := "application/json"
  const FormUrlEncoding: string := "application/x-www-form-urlencoded"
  const Gzip: string := "gzip"

  const HeaderFormEncoding: Headers := map[ContentTypeKey := FormUrlEncoding]
  const HeaderJsonEncoding: Headers := map[ContentTypeKey := Json]

  /** `URLSessionTask`'s priority constants. */
  const PriorityLow: real := 0.25
  const PriorityDefault: real := 0.5
  const PriorityHigh: real := 0.75

  /**
   * A URL: everything but the query is opaque; the query is kept in its
   * percent-encoded form, absent when the URL has none.
   */
  datatype Url = Url(resource: string, percentEncodedQuery: Option<string>)

  // ---------------------------------------------------------------------------
  // The `+` rewrite of `appendUrl`.

  /** Every `+` replaced by `%2B`, everything else kept in place. */
  function EscapePlus(q: string): (r: string)
    ensures '+' !in r
    ensures '+' !in q ==> r == q
    ensures |r| == 0 <==> |q| == 0
    ensures |q| > 0 ==> r[0] == (if q[0] == '+' then '%' else q[0])
  {
    if |q| == 0 then ""
    else (if q[0] == '+' then "%2B" else [q[0]]) + EscapePlus(q[1..])
  }

  /** The rewrite grows the query by two characters per `+`. */
  lemma {:induction false} EscapePlusLength(q: string)
    ensures |EscapePlus(q)| == |q| + 2 * multiset(q)['+']
  {
    if |q| > 0 {
      assert q == [q[0]] + q[1..];
      EscapePlusLength(q[1..]);
    }
  }

  /** `s` starts with the three characters `%2B`. */
  predicate StartsWithEncodedPlus(s: string) {
    |s| >= 3 && s[0] == '%' && s[1] == '2' && s[2] == 'B'
  }

  /** Decodes `%2B` back to `+`. */
  function UnescapePlus(s: string): string {
    if |s| == 0 then ""
    else if StartsWithEncodedPlus(s) then "+" + UnescapePlus(s[3..])
    else [s[0]] + UnescapePlus(s[1..])
  }

  /**
   * `q` holds no `%2B` already. True of every query Foundation percent-encodes:
   * a literal `%` there is written `%25`, and `+` is left as it is.
   */
  predicate NoEncodedPlus(q: string) {
    |q| == 0 || (!StartsWithEncodedPlus(q) && NoEncodedPlus(q[1..]))
  }

  /** A `%2B` at the start of the rewrite that does not come from a `+` was there before. */
  lemma EncodedPlusWasThere(q: string)
    requires |q| > 0 && q[0] != '+'
    requires StartsWithEncodedPlus(EscapePlus(q))
    ensures StartsWithEncodedPlus(q)
  {
  }

  /** The rewrite loses nothing: decoding `%2B` afterwards restores the query. */
  lemma {:induction false} EscapePlusRoundTrip(q: string)
    requires NoEncodedPlus(q)
    ensures UnescapePlus(EscapePlus(q)) == q
  {
    if |q| > 0 {
      var tail := q[1..];
      EscapePlusRoundTrip(tail);
      var e := EscapePlus(tail);
      if q[0] == '+' {
        assert EscapePlus(q) == "%2B" + e;
        assert ("%2B" + e)[3..] == e;
      } else {
        var s := [q[0]] + e;
        assert EscapePlus(q) == s;
        if StartsWithEncodedPlus(s) {
          EncodedPlusWasThere(q);
          assert false;
        }
        assert s[1..] == e;
        assert [q[0]] + tail == q;
      }
    }
  }

  /** The case the rewrite exists for: a literal `+` is not read as a space. */
  lemma EscapePlusExample()
    ensures EscapePlus("a=x+y") == "a=x%2By"
  {
  }

  /**
   * The URL `appendUrl` leaves. `parsable` says whether Foundation's
   * `URLComponents` accepts the URL; `percentEncode` stands for the
   * percent-encoded query Foundation builds from the query items.
   */
  function AppendedUrl(url: Url, params: Dictionary, parsable: bool, percentEncode: seq<Pair> -> string): (r: Url)
    ensures r.resource == url.resource
    ensures (|params| == 0 || !parsable) ==> r == url
    ensures |params| > 0 && parsable ==>
              r.percentEncodedQuery.Some? && '+' !in r.percentEncodedQuery.value
    ensures |params| > 0 && parsable && '+' !in percentEncode(params) ==>
              r.percentEncodedQuery == Some(percentEncode(params))
  {
    if |params| > 0 && parsable then Url(url.resource, Some(EscapePlus(percentEncode(params))))
    else url
  }

  /**
   * The query is rebuilt from the passed parameters alone: two URLs that differ
   * only in their existing queries end up equal, so a prior query is not kept.
   */
  lemma AppendedUrlReplacesQuery(u1: Url, u2: Url, params: Dictionary, percentEncode: seq<Pair> -> string)
    requires u1.resource == u2.resource && |params| > 0
    ensures AppendedUrl(u1, params, true, percentEncode) == AppendedUrl(u2, params, true, percentEncode)
  {
  }

  // ---------------------------------------------------------------------------
  // The Content-Type update of `setHttpBody`.

  /**
   * The headers `setHttpBody` leaves: `Content-Type` set to `contentType`
   * (overwriting any earlier value), every other existing header kept; a nil
   * or empty map becomes the one-entry map.
   */
  function WithContentType(current: Option<Headers>, contentType: string): (r: Headers)
    ensures ContentTypeKey in r && r[ContentTypeKey] == contentType
    ensures current.Some? && |current.value| > 0 ==>
              r.Keys == current.value.Keys + {ContentTypeKey} &&
              forall k :: k in current.value && k != ContentTypeKey ==> r[k] == current.value[k]
    ensures current.None? || |current.value| == 0 ==> r == map[ContentTypeKey := contentType]
  {
    if current.Some? && |current.value| > 0 then Overlay(current.value, map[ContentTypeKey := contentType])
    else map[ContentTypeKey := contentType]
  }

  /** A second `setHttpBody` decides the content type alone; the first leaves no trace in it. */
  lemma ContentTypeLastWins(current: Option<Headers>, first: string, second: string)
    ensures WithContentType(Some(WithContentType(current, first)), second) == WithContentType(current, second)
  {
  }

  /** The content type an encoding flag selects. */
  function ContentTypeFor(urlEncoding: bool): (ct: string)
    ensures ct == Json || ct == FormUrlEncoding
    ensures ct == FormUrlEncoding <==> urlEncoding
  {
    if urlEncoding then FormUrlEncoding else Json
  }

  class SessionRequest {
    var identifier: string
    var url: Url
    var httpMethod: UrlSessionMethod
    var headers: Option<Headers>
    var httpBody: Option<Bytes>
    var priority: real

    constructor(identifier: string, url: Url, httpMethod: UrlSessionMethod, headers: Option<Headers>,
                httpBody: Option<Bytes>, priority: real)
      ensures this.identifier == identifier && this.url == url && this.httpMethod == httpMethod
      ensures this.headers == headers && this.httpBody == httpBody && this.priority == priority
    {
      this.identifier := identifier;
      this.url := url;
      this.httpMethod := httpMethod;
      this.headers := headers;
      this.httpBody := httpBody;
      this.priority := priority;
    }

    /**
     * Replaces the query by the parameters' (with `+` written `%2B`); does
     * nothing for no parameters or a URL Foundation cannot take apart.
     */
    method AppendUrl(params: Dictionary, parsable: bool, percentEncode: seq<Pair> -> string)
      modifies this
      ensures url == AppendedUrl(old(url), params, parsable, percentEncode)
      ensures identifier == old(identifier) && httpMethod == old(httpMethod) && headers == old(headers)
      ensures httpBody == old(httpBody) && priority == old(priority)
    {
      if parsable && |params| > 0 {
        var query := percentEncode(params);
        var escaped := EscapePlus(query);
        url := Url(url.resource, Some(escaped));
      }
    }

    /** Writes the content type into the headers, as both `setHttpBody` overloads do. */
    method SetContentType(newHeaders: Headers)
      modifies this`headers
      requires newHeaders.Keys == {ContentTypeKey}
      ensures headers == Some(WithContentType(old(headers), newHeaders[ContentTypeKey]))
    {
      assert newHeaders == map[ContentTypeKey := newHeaders[ContentTypeKey]];
      if headers.Some? && |headers.value| > 0 {
        var merged := WriteAll(headers.value, newHeaders);
        headers := Some(merged);
      } else {
        headers := Some(newHeaders);
      }
    }

    /**
     * `setHttpBody(item:urlEncoding:)`. With `urlEncoding` the body is the
     * UTF-8 data of `item`'s query string, which is always produced; otherwise
     * it is `jsonData`, the outcome of JSON serialisation, and the old body is
     * kept when that failed. The content type is written either way.
     */
    method SetHttpBodyItem(item: Dictionary, urlEncoding: bool, jsonData: Option<Bytes>, utf8: string -> Bytes)
      modifies this
      ensures httpBody == if urlEncoding then Some(utf8(Join(item)))
                          else if jsonData.Some? then jsonData else old(httpBody)
      ensures headers == Some(WithContentType(old(headers), ContentTypeFor(urlEncoding)))
      ensures identifier == old(identifier) && url == old(url) && httpMethod == old(httpMethod)
      ensures priority == old(priority)
    {
      var newHeaders := if urlEncoding then HeaderFormEncoding else HeaderJsonEncoding;
      var data: Option<Bytes>;
      if urlEncoding {
        data := QueryData(item, utf8);
      } else {
        data := jsonData;
      }
      if data.Some? {
        httpBody := data;
      }
      SetContentType(newHeaders);
    }

    /**
     * `setHttpBody(items:)`: the body is the JSON serialisation `jsonData` of
     * the array when it succeeded, and the content type is always JSON.
     */
    method SetHttpBodyItems(jsonData: Option<Bytes>)
      modifies this
      ensures httpBody == if jsonData.Some? then jsonData else old(httpBody)
      ensures headers == Some(WithContentType(old(headers), Json))
      ensures identifier == old(identifier) && url == old(url) && httpMethod == old(httpMethod)
      ensures priority == old(priority)
    {
      var newHeaders := HeaderJsonEncoding;
      if jsonData.Some? {
        httpBody := jsonData;
      }
      SetContentType(newHeaders);
    }
  }

  // ---------------------------------------------------------------------------
  // Responses.

  /** A transport-level error, by its description. */
  type TransportError = string

  /** A `DataSessionResponse` as its completion handler sees it. */
  datatype DataSessionResponse = DataSessionResponse(
    identifier: string,
    statusCode: int,
    data: Option<Bytes>,
    error: Option<TransportError>)

  /**
   * A fresh response for `request`: it carries the request's identifier and
   * the given data and error, and no status yet, so none of the status
   * predicates holds.
   */
  function NewDataSessionResponse(request: SessionRequest, data: Option<Bytes>, error: Option<TransportError>)
    : (r: DataSessionResponse)
    reads request
    ensures r.identifier == request.identifier && r.data == data && r.error == error
    ensures !IsValid(r.statusCode) && r.statusCode == InvalidStatusCode
    ensures !IsSuccess(r.statusCode) && !HasClientError(r.statusCode) && !HasServerError(r.statusCode)
  {
    DataSessionResponse(request.identifier, InvalidStatusCode, data, error)
  }
}
