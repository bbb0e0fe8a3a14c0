/**
 * The remote API as the app sees it (Task1/Services/APIService.swift): the
 * error taxonomy and its user-facing descriptions, the two endpoints, the
 * request `performRequest` builds, and the ladder that turns what the network
 * delivers into a `Result`.
 *
 * JSON encoding and decoding and the transport are parameters: an encoder from
 * the request value to its JSON object, a transport that answers a request with
 * an optional error and optional data, a decoder for the expected response and
 * a decoder for the generic `ErrorResponse`.
 */
module ApiService {
  import opened Common
  import opened RegistrationModels

  /**
   * `APIError`. The `Error` values carried by `decodingError` and
   * `networkError` are represented by their `localizedDescription`.
   */
  datatype APIError =
    | InvalidURL
    | NoData
    | DecodingError(detail: string)
    | NetworkError(detail: string)
    | ServerError(message: string)
    | Unknown

  const DecodingPrefix: string := "Decoding error: "
  const NetworkPrefix: string := "Network error: "

  /** `errorDescription`: a fixed text per case, the wrapped error's text after a prefix, or the server's message verbatim. */
  function ErrorDescription(e: APIError): (d: string)
    ensures e == InvalidURL ==> d == "Invalid URL"
    ensures e == NoData ==> d == "No data received"
    ensures e.DecodingError? ==> d == DecodingPrefix + e.detail
    ensures e.NetworkError? ==> d == NetworkPrefix + e.detail
    ensures e.ServerError? ==> d == e.message
    ensures e == Unknown ==> d == "Unknown error occurred"
  {
    match e
    case InvalidURL => "Invalid URL"
    case NoData => "No data received"
    case DecodingError(detail) => DecodingPrefix + detail
    case NetworkError(detail) => NetworkPrefix + detail
    case ServerError(message) => message
    case Unknown => "Unknown error occurred"
  }

  /** Only a server message can produce an empty description. */
  lemma DescriptionNonEmpty(e: APIError)
    requires !e.ServerError?
    ensures ErrorDescription(e) != ""
  {
  }

  /**
   * Apart from server messages, which are shown verbatim, the description
   * determines the error: no two other errors read the same.
   */
  lemma DescriptionDeterminesError(e1: APIError, e2: APIError)
    requires !e1.ServerError? && !e2.ServerError?
    requires ErrorDescription(e1) == ErrorDescription(e2)
    ensures e1 == e2
  {
    var d1, d2 := ErrorDescription(e1), ErrorDescription(e2);
    if e1.DecodingError? || e1.NetworkError? || e2.DecodingError? || e2.NetworkError? {
      // the prefixed descriptions share their second letter, which no fixed text has there
      assert d1[0] == d2[0] && d1[1] == d2[1];
      if (e1.DecodingError? || e1.NetworkError?) && (e2.DecodingError? || e2.NetworkError?) {
        var p := if e1.DecodingError? then DecodingPrefix else NetworkPrefix;
        assert d1[..|p|] == p;
        assert e1.detail == d1[|p|..] == e2.detail;
      }
    }
  }

  /** A server message can read exactly like any other error, so the user cannot tell them apart. */
  lemma ServerMessageMimicsAnyError(e: APIError)
    ensures exists m :: ErrorDescription(ServerError(m)) == ErrorDescription(e)
  {
    assert ErrorDescription(ServerError(ErrorDescription(e))) == ErrorDescription(e);
  }

  // ---------------------------------------------------------------------------
  // Endpoints and requests

  const BaseURL: string := "https://admin-cp.rimashaar.com/api/v1"
  const RegisterURL: string := BaseURL + "/register-new?lang=en"
  const VerifyURL: string := BaseURL + "/verify-code?lang=en"
  const JsonMediaType: string := "application/json"

  /** The parts of a `URLRequest` the service sets. */
  datatype UrlRequest = UrlRequest(url: string, httpMethod: string, headers: map<string, string>, body: Option<JsonObject>)

  /** What the transport delivers: the task's optional `error` and optional `data` (the `URLResponse` is not read). */
  datatype TransportReply<D> = TransportReply(error: Option<string>, data: Option<D>)

  /** The fallback body the server sends on errors. */
  datatype ErrorResponse = ErrorResponse(success: bool, message: string)

  /**
   * The completion ladder of `performRequest`: a transport error first, then
   * missing data, then the expected response, then an `ErrorResponse`, and
   * otherwise the original decoding error.
   */
  function Respond<D, R>(reply: TransportReply<D>, decode: D -> Result<R, string>, decodeError: D -> Option<ErrorResponse>)
    : (outcome: Result<R, APIError>)
    ensures reply.error.Some? ==> outcome == Failure(NetworkError(reply.error.value))
    ensures reply.error.None? && reply.data.None? ==> outcome == Failure(NoData)
    ensures outcome.Success? <==> reply.error.None? && reply.data.Some? && decode(reply.data.value).Success?
    ensures outcome.Success? ==> outcome.value == decode(reply.data.value).value
    ensures outcome.Failure? && outcome.error.ServerError? <==>
      reply.error.None? && reply.data.Some? && decode(reply.data.value).Failure? && decodeError(reply.data.value).Some?
    ensures outcome.Failure? && outcome.error.ServerError? ==> outcome.error.message == decodeError(reply.data.value).value.message
    ensures outcome.Failure? && outcome.error.DecodingError? ==>
      reply.data.Some? && outcome.error.detail == decode(reply.data.value).error && decodeError(reply.data.value).None?
    ensures reply.error.None? && reply.data.Some? && decode(reply.data.value).Failure? && decodeError(reply.data.value).None? ==>
      outcome == Failure(DecodingError(decode(reply.data.value).error))
    ensures outcome != Failure(InvalidURL) && outcome != Failure(Unknown)
  {
    if reply.error.Some? then Failure(NetworkError(reply.error.value))
    else if reply.data.None? then Failure(NoData)
    else
      match decode(reply.data.value)
      case Success(response) => Success(response)
      case Failure(decodeFailure) =>
        match decodeError(reply.data.value)
        case Some(errorResponse) => Failure(ServerError(errorResponse.message))
        case None => Failure(DecodingError(decodeFailure))
  }

  /** A transport error wins whatever data came with it, and whatever the decoders would have made of it. */
  lemma TransportErrorTakesPrecedence<D, R>(error: string, data: Option<D>,
      decode: D -> Result<R, string>, decodeError: D -> Option<ErrorResponse>)
    ensures Respond(TransportReply(Some(error), data), decode, decodeError) == Failure(NetworkError(error))
  {
  }

  /** A body the expected decoder accepts is never reported as a server error, even if it also reads as an `ErrorResponse`. */
  lemma ExpectedResponseWins<D, R>(data: D, decode: D -> Result<R, string>, decodeError: D -> Option<ErrorResponse>)
    requires decode(data).Success?
    ensures Respond(TransportReply(None, Some(data)), decode, decodeError) == Success(decode(data).value)
  {
  }

  /** The headers every request carries. */
  function JsonHeaders(): (h: map<string, string>)
    ensures h.Keys == {"Content-Type", "Accept"}
    ensures h["Content-Type"] == JsonMediaType && h["Accept"] == JsonMediaType
  {
    map["Content-Type" := JsonMediaType, "Accept" := JsonMediaType]
  }

  /**
   * `performRequest`: builds a POST request with JSON headers, encodes the
   * body into it, hands it to the transport and classifies the reply. An
   * encoding failure completes with `DecodingError` before anything is sent.
   * `sent` is the request handed to the transport, if any; `outcome` is the
   * one value passed to `completion`.
   */
  method PerformRequest<T, D, R>(url: string, body: T, encode: T -> Result<JsonObject, string>,
      transport: UrlRequest -> TransportReply<D>,
      decode: D -> Result<R, string>, decodeError: D -> Option<ErrorResponse>)
    returns (sent: Option<UrlRequest>, outcome: Result<R, APIError>)
    ensures encode(body).Failure? ==> sent.None? && outcome == Failure(DecodingError(encode(body).error))
    ensures encode(body).Success? ==>
      sent == Some(UrlRequest(url, "POST", JsonHeaders(), Some(encode(body).value)))
    ensures sent.Some? ==> outcome == Respond(transport(sent.value), decode, decodeError)
  {
    var request := UrlRequest(url, "GET", map[], None);
    request := request.(httpMethod := "POST");
    request := request.(headers := request.headers["Content-Type" := JsonMediaType]);
    request := request.(headers := request.headers["Accept" := JsonMediaType]);
    var encoded := encode(body);
    if encoded.Failure? {
      return None, Failure(DecodingError(encoded.error));
    }
    request := request.(body := Some(encoded.value));
    var reply := transport(request);
    sent := Some(request);
    outcome := Respond(reply, decode, decodeError);
  }

  /** `registerUser`: posts the encoded registration request to the register endpoint. */
  method RegisterUser<D>(request: RegistrationRequest, transport: UrlRequest -> TransportReply<D>,
      decode: D -> Result<RegistrationResponse, string>, decodeError: D -> Option<ErrorResponse>)
    returns (sent: UrlRequest, outcome: Result<RegistrationResponse, APIError>)
    ensures sent == UrlRequest(RegisterURL, "POST", JsonHeaders(), Some(EncodeRegistrationRequest(request)))
    ensures outcome == Respond(transport(sent), decode, decodeError)
  {
    var s;
    // encoding never fails: every field is a string or an integer
    s, outcome := PerformRequest(RegisterURL, request, r => Success(EncodeRegistrationRequest(r)), transport, decode, decodeError);
    sent := s.value;
  }

  /** `verifyOTP`: posts the encoded OTP request to the verify endpoint. */
  method VerifyOTP<D>(request: OTPRequest, transport: UrlRequest -> TransportReply<D>,
      decode: D -> Result<OTPResponse, string>, decodeError: D -> Option<ErrorResponse>)
    returns (sent: UrlRequest, outcome: Result<OTPResponse, APIError>)
    ensures sent == UrlRequest(VerifyURL, "POST", JsonHeaders(), Some(EncodeOTPRequest(request)))
    ensures outcome == Respond(transport(sent), decode, decodeError)
  {
    var s;
    s, outcome := PerformRequest(VerifyURL, request, r => Success(EncodeOTPRequest(r)), transport, decode, decodeError);
    sent := s.value;
  }

  /** The two endpoints share the base URL and differ in their path. */
  lemma EndpointsDiffer()
    ensures RegisterURL[..|BaseURL|] == BaseURL && VerifyURL[..|BaseURL|] == BaseURL
    ensures RegisterURL != VerifyURL
  {
    assert RegisterURL[|BaseURL| + 1] == 'r' && VerifyURL[|BaseURL| + 1] == 'v';
  }
}
