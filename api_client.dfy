/**
 * The shared HTTP client's two interceptors (src/api/axios.ts): the request
 * interceptor that attaches the bearer token, and the response interceptor that
 * turns every failure shape into one error with a human-readable message.
 */
module ApiClient {
  import opened Wrappers

  const UnexpectedError := "An unexpected error occurred."
  const ServerError := "A server error occurred."
  const NetworkError := "A network error occurred."

  const AuthorizationHeader := "Authorization"
  const BearerPrefix := "Bearer "

  /** The JSON envelope the server wraps its payloads in: `{ success, message, ... }`. */
  datatype Body = Body(success: Option<bool>, message: Option<string>)

  /** An HTTP response; `data` is `None` when the body is empty. */
  datatype Response = Response(status: int, data: Option<Body>)

  /**
   * What the transport rejects with: an axios error that carries the server's
   * response (its status and its JSON body), or anything else (no response
   * arrived, or the request never left).
   */
  datatype RequestError = HttpError(status: int, body: Body) | NoResponse

  /** A request either reaches a response or fails in transport. */
  datatype Transport = Delivered(response: Response) | Failed(error: RequestError)

  /** What the caller of `apiClient` sees: the response, or a rejection with an `Error`. */
  datatype Settled = Resolved(response: Response) | Rejected(message: string)

  /** `message || fallback`: a missing or empty message gives way to the fallback. */
  function MessageOr(message: Option<string>, fallback: string): (r: string)
    requires fallback != []
    ensures r != []
    ensures r == fallback || (message.Some? && r == message.value)
    ensures message.Some? && message.value != [] ==> r == message.value
  {
    if message.Some? && message.value != [] then message.value else fallback
  }

  /** The success handler of the response interceptor. */
  function OnResponse(response: Response): (r: Settled)
    ensures r.Rejected? <==> response.data.Some? && response.data.value.success == Some(false)
    ensures r.Resolved? ==> r.response == response
    ensures r.Rejected? ==> r.message != []
    ensures r.Rejected? && response.data.value.message.Some? && response.data.value.message.value != [] ==>
      r.message == response.data.value.message.value
    ensures r.Rejected? && (response.data.value.message.None? || response.data.value.message.value == []) ==>
      r.message == UnexpectedError
  {
    match response.data
    case Some(body) =>
      if body.success == Some(false) then Rejected(MessageOr(body.message, UnexpectedError))
      else Resolved(response)
    case None => Resolved(response)
  }

  /** The error handler of the response interceptor: it always rejects. */
  function OnResponseError(error: RequestError): (r: Settled)
    ensures r.Rejected? && r.message != []
    ensures error.NoResponse? ==> r.message == NetworkError
    ensures error.HttpError? && error.body.message.Some? && error.body.message.value != [] ==>
      r.message == error.body.message.value
    ensures error.HttpError? && (error.body.message.None? || error.body.message.value == []) ==>
      r.message == ServerError
  {
    match error
    case HttpError(_, body) => Rejected(MessageOr(body.message, ServerError))
    case NoResponse => Rejected(NetworkError)
  }

  /** A request's settled result: the transport result passed through the response interceptor. */
  function Intercept(t: Transport): Settled
  {
    match t
    case Delivered(response) => OnResponse(response)
    case Failed(error) => OnResponseError(error)
  }

  /**
   * Every failure path ends in exactly one rejection with a non-empty message,
   * and a response survives only when it is not an explicit `success: false`.
   */
  lemma InterceptNormalises(t: Transport)
    ensures Intercept(t).Rejected? ==> Intercept(t).message != []
    ensures Intercept(t).Resolved? <==>
      t.Delivered? && !(t.response.data.Some? && t.response.data.value.success == Some(false))
    ensures Intercept(t).Resolved? ==> Intercept(t).response == t.response
  {
  }

  /** The three fallbacks are distinct, so the fallback names the failure shape. */
  lemma FallbacksAreDistinct()
    ensures UnexpectedError != ServerError && ServerError != NetworkError && UnexpectedError != NetworkError
  {
    assert UnexpectedError[3] == 'u' && ServerError[3] == 'e' && NetworkError[2] == 'n';
    assert ServerError[2] == 's';
  }

  /** A cookie value is truthy when it is present and not the empty string. */
  predicate HasToken(accessToken: Option<string>)
  {
    accessToken.Some? && accessToken.value != []
  }

  /** The headers after the request interceptor has looked at the token cookie. */
  function WithAuthorization(headers: map<string, string>, accessToken: Option<string>): (r: map<string, string>)
    ensures HasToken(accessToken) ==> AuthorizationHeader in r && r[AuthorizationHeader] == BearerPrefix + accessToken.value
    ensures !HasToken(accessToken) ==> r == headers
    ensures forall k :: k in headers && k != AuthorizationHeader ==> k in r && r[k] == headers[k]
    ensures r.Keys == headers.Keys + (if HasToken(accessToken) then {AuthorizationHeader} else {})
  {
    if HasToken(accessToken) then headers[AuthorizationHeader := BearerPrefix + accessToken.value] else headers
  }

  /** The token the server reads back from an `Authorization` header. */
  function BearerToken(value: string): Option<string>
  {
    if |value| >= |BearerPrefix| && value[..|BearerPrefix|] == BearerPrefix then Some(value[|BearerPrefix|..])
    else None
  }

  /** The header written by the interceptor carries exactly the cookie's token. */
  lemma AuthorizationRoundTrip(headers: map<string, string>, accessToken: Option<string>)
    requires HasToken(accessToken)
    ensures BearerToken(WithAuthorization(headers, accessToken)[AuthorizationHeader]) == accessToken
  {
    var v := BearerPrefix + accessToken.value;
    assert v[..|BearerPrefix|] == BearerPrefix;
    assert v[|BearerPrefix|..] == accessToken.value;
  }

  /** Running the interceptor again on an already prepared request changes nothing. */
  lemma WithAuthorizationIdempotent(headers: map<string, string>, accessToken: Option<string>)
    ensures WithAuthorization(WithAuthorization(headers, accessToken), accessToken) ==
      WithAuthorization(headers, accessToken)
  {
  }

  /** The mutable request configuration the request interceptor receives. */
  class RequestConfig {
    var headers: map<string, string>

    constructor(headers: map<string, string>)
      ensures this.headers == headers
    {
      this.headers := headers;
    }

    /** The request interceptor: attach `Bearer <token>` when the cookie holds a token. */
    method AttachAuthorization(accessToken: Option<string>)
      modifies this
      ensures headers == WithAuthorization(old(headers), accessToken)
    {
      if HasToken(accessToken) {
        headers := headers[AuthorizationHeader := BearerPrefix + accessToken.value];
      }
    }
  }
}
