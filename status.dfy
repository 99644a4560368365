/**
 * Status codes (the `Int` constants) and the status predicates that every
 * `SessionResponse` gets from its protocol extension.
 */
module Status {

  /** The sentinel a response carries until an HTTP status has been read. */
  const InvalidStatusCode: int := -1
  const Unauthorised: int := 401
  const UrlNotFound: int := 404
  const BadRequest: int := 400

  /**
   * The request reached the server and a status was read. The sentinel is the
   * only status that is not valid, and every status in a success or error
   * range is valid.
   */
  function IsValid(statusCode: int): (valid: bool)
    ensures !valid ==> statusCode == InvalidStatusCode
    ensures IsSuccess(statusCode) || HasClientError(statusCode) || HasServerError(statusCode) ==> valid
  {
    statusCode != InvalidStatusCode
  }

  /** 2xx: exactly the three-digit codes of class 2. */
  function IsSuccess(statusCode: int): (success: bool)
    ensures success <==> 100 <= statusCode < 1000 && StatusClass(statusCode) == 2
  {
    200 <= statusCode < 300
  }

  /** 4xx: exactly the three-digit codes of class 4. */
  function HasClientError(statusCode: int): (clientError: bool)
    ensures clientError <==> 100 <= statusCode < 1000 && StatusClass(statusCode) == 4
  {
    400 <= statusCode < 500
  }

  /** 5xx (the code's range; its doc comment repeats the 4xx range): exactly the codes of class 5. */
  function HasServerError(statusCode: int): (serverError: bool)
    ensures serverError <==> 100 <= statusCode < 1000 && StatusClass(statusCode) == 5
  {
    500 <= statusCode < 600
  }

  /**
   * The class of a three-digit status code as section 15 of RFC 9110 defines
   * it: its first digit. Used as an independent reference for the predicates.
   */
  function StatusClass(statusCode: int): (c: int)
    requires 100 <= statusCode < 1000
    ensures 1 <= c <= 9
    ensures c * 100 <= statusCode < c * 100 + 100
  {
    statusCode / 100
  }

  /** Each range predicate picks out exactly one RFC 9110 class. */
  lemma RangesAreClasses(statusCode: int)
    requires 100 <= statusCode < 1000
    ensures IsSuccess(statusCode) <==> StatusClass(statusCode) == 2
    ensures HasClientError(statusCode) <==> StatusClass(statusCode) == 4
    ensures HasServerError(statusCode) <==> StatusClass(statusCode) == 5
  {
  }

  /** The three range predicates never hold together, and each implies `IsValid`. */
  lemma RangesDisjointAndValid(statusCode: int)
    ensures !(IsSuccess(statusCode) && HasClientError(statusCode))
    ensures !(IsSuccess(statusCode) && HasServerError(statusCode))
    ensures !(HasClientError(statusCode) && HasServerError(statusCode))
    ensures IsSuccess(statusCode) || HasClientError(statusCode) || HasServerError(statusCode)
            ==> IsValid(statusCode)
  {
  }

  /** The sentinel satisfies none of the predicates. */
  lemma SentinelSatisfiesNone()
    ensures !IsValid(InvalidStatusCode) && !IsSuccess(InvalidStatusCode)
    ensures !HasClientError(InvalidStatusCode) && !HasServerError(InvalidStatusCode)
  {
  }
}
