/**
 * `NetworkRepository`: the dispatcher that holds the session headers and the
 * OAuth2 delegate, shapes the outgoing request in `execute`, and decides what
 * happens when the data task finishes.
 */
module Repository {
  import opened Wrappers
  import opened Headers
  import opened Status
  import opened Session

  /**
   * A registered `OAuth2SessionRequestDelegate`, by identity. Its two methods
   * run caller code: what `oAuth2SessionRequestHeaders()` answers is an input
   * of `Execute`; a call of `unauthoriseOAuth2SessionRequestFor` is an event.
   */
  datatype OAuth2Delegate = OAuth2Delegate(handle: nat)

  /** What the data task hands its completion handler. */
  datatype TransportOutcome = TransportOutcome(
    data: Option<Bytes>,
    httpStatus: Option<int>,   // the status code when the response is an HTTPURLResponse
    error: Option<TransportError>)

  /** What happens, in order, once the task has finished. */
  datatype Event =
    | Completion(response: DataSessionResponse)
    | UnauthorisedRefresh(requestIdentifier: string)

  /** The data task `execute` creates and resumes. */
  datatype DataTask = DataTask(
    url: Url,
    httpMethod: string,
    allHttpHeaderFields: Option<Headers>,
    httpBody: Option<Bytes>,
    taskDescription: string)

  /** Whether `k` is set by an optional layer. */
  predicate InLayer(layer: Option<Headers>, k: string) {
    layer.Some? && k in layer.value
  }

  /**
   * The outgoing header fields: the request's, then the session headers, then
   * the delegate's, each layer overriding the one before. The overlays write
   * through optional chaining, so a request without headers stays without.
   */
  function LayeredHeaders(request: Option<Headers>, session: Option<Headers>, auth: Option<Headers>)
    : (r: Option<Headers>)
    ensures r.Some? <==> request.Some?
    ensures request.Some? ==> forall k ::
              (k in r.value <==> k in request.value || InLayer(session, k) || InLayer(auth, k))
    ensures request.Some? ==> forall k :: InLayer(auth, k) ==> r.value[k] == auth.value[k]
    ensures request.Some? ==> forall k :: !InLayer(auth, k) && InLayer(session, k) ==>
              r.value[k] == session.value[k]
    ensures request.Some? ==> forall k :: !InLayer(auth, k) && !InLayer(session, k) && k in request.value ==>
              r.value[k] == request.value[k]
  {
    if request.None? then None
    else Some(Overlay(Overlay(request.value, session.GetOr(map[])), auth.GetOr(map[])))
  }

  /**
   * Overwrites `fields` with every entry of `layer`, if both are there
   * (`if let headers = ... { for ... allHTTPHeaderFields?[key] = value }`).
   */
  method WriteThrough(fields: Option<Headers>, layer: Option<Headers>) returns (r: Option<Headers>)
    ensures r == if fields.Some? then Some(Overlay(fields.value, layer.GetOr(map[]))) else None
  {
    r := fields;
    if fields.Some? {
      OverlayEmpty(fields.value);
    }
    if layer.Some? && fields.Some? {
      var merged := WriteAll(fields.value, layer.value);
      r := Some(merged);
    }
  }

  /**
   * The events of the completion handler for a request with identifier `id`:
   * the completion is delivered exactly once and first; a transport error or
   * missing data delivers the status-less response; otherwise the response
   * carries the HTTP status, and a 401 then asks a registered delegate to
   * refresh.
   */
  function CompletionEvents(id: string, outcome: TransportOutcome, delegateRegistered: bool)
    : (events: seq<Event>)
    ensures 1 <= |events| <= 2
    ensures events[0].Completion?
    ensures events[0].response.identifier == id
    ensures events[0].response.data == outcome.data && events[0].response.error == outcome.error
    ensures forall i :: 1 <= i < |events| ==> events[i] == UnauthorisedRefresh(id)
    ensures |events| == 2 <==>
              outcome.error.None? && outcome.data.Some? && delegateRegistered &&
              outcome.httpStatus == Some(Unauthorised)
    ensures outcome.error.Some? || outcome.data.None? ==> !IsValid(events[0].response.statusCode)
    ensures outcome.error.None? && outcome.data.Some? ==>
              events[0].response.statusCode == outcome.httpStatus.GetOr(InvalidStatusCode)
    ensures IsSuccess(events[0].response.statusCode) ==> |events| == 1
  {
    var initial := DataSessionResponse(id, InvalidStatusCode, outcome.data, outcome.error);
    if outcome.error.Some? || outcome.data.None? then [Completion(initial)]
    else
      var response := initial.(statusCode := outcome.httpStatus.GetOr(InvalidStatusCode));
      [Completion(response)] +
      (if delegateRegistered && response.statusCode == Unauthorised then [UnauthorisedRefresh(id)] else [])
  }

  class NetworkRepository {
    var sessionHeaders: Option<Headers>
    var oAuth2SessionRequestDelegate: Option<OAuth2Delegate>

    constructor()
      ensures sessionHeaders == None && oAuth2SessionRequestDelegate == None
    {
      sessionHeaders := None;
      oAuth2SessionRequestDelegate := None;
    }

    /** Replaces the session headers wholesale; an empty map is ignored. */
    method SetSessionHeaders(headers: Headers)
      modifies this
      ensures sessionHeaders == if |headers| > 0 then Some(headers) else old(sessionHeaders)
      ensures oAuth2SessionRequestDelegate == old(oAuth2SessionRequestDelegate)
    {
      if |headers| > 0 {
        sessionHeaders := Some(headers);
      }
    }

    method SetOAuth2Delegate(delegate: OAuth2Delegate)
      modifies this
      ensures oAuth2SessionRequestDelegate == Some(delegate)
      ensures sessionHeaders == old(sessionHeaders)
    {
      oAuth2SessionRequestDelegate := Some(delegate);
    }

    /**
     * The synchronous part of `execute`: the task it creates for `request`.
     * `delegateHeaders` is what the registered delegate's
     * `oAuth2SessionRequestHeaders()` answers now; with no delegate it is
     * not asked.
     */
    method Execute(request: SessionRequest, delegateHeaders: Option<Headers>) returns (task: DataTask)
      ensures task.url == request.url && task.httpMethod == request.httpMethod.RawValue()
      ensures task.httpBody == request.httpBody
      ensures task.taskDescription == request.identifier
      ensures task.allHttpHeaderFields ==
                LayeredHeaders(request.headers, sessionHeaders,
                               if oAuth2SessionRequestDelegate.Some? then delegateHeaders else None)
    {
      var fields := request.headers;
      fields := WriteThrough(fields, sessionHeaders);
      if oAuth2SessionRequestDelegate.Some? && delegateHeaders.Some? {
        fields := WriteThrough(fields, delegateHeaders);
      } else if fields.Some? {
        OverlayEmpty(fields.value);
      }
      task := DataTask(request.url, request.httpMethod.RawValue(), fields, request.httpBody, request.identifier);
    }

    /**
     * The completion handler of the task `Execute` created for `request`,
     * run when it finishes with `outcome`. It consults the delegate then
     * registered, not the one registered at `Execute`.
     */
    method TaskFinished(request: SessionRequest, outcome: TransportOutcome) returns (events: seq<Event>)
      ensures events == CompletionEvents(request.identifier, outcome, oAuth2SessionRequestDelegate.Some?)
    {
      var response := NewDataSessionResponse(request, outcome.data, outcome.error);
      if outcome.error.Some? {
        return [Completion(response)];
      }
      if outcome.data.None? {
        return [Completion(response)];
      }
      if outcome.httpStatus.Some? {
        response := response.(statusCode := outcome.httpStatus.value);
      }
      events := [Completion(response)];
      if oAuth2SessionRequestDelegate.Some? {
        if response.statusCode == Unauthorised {
          events := events + [UnauthorisedRefresh(request.identifier)];
        }
      }
    }
  }
}
