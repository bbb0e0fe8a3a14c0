/**
 * The OTP verification flow (Task1/Controllers/OTPController.swift): check the
 * code's format, send the code as typed with the user id, and judge the answer
 * by its message text alone.
 *
 * As for registration, the API service's answer is the `Result` its completion
 * receives, given to each call, and the delegate is a log of the callbacks it
 * receives while attached.
 */
module OtpController {
  import opened Common
  import opened Text
  import opened RegistrationModels
  import opened ValidationService
  import opened ApiService

  /** The verification callbacks of `OTPControllerDelegate`. */
  datatype OTPEvent =
    | OtpVerificationDidSucceed
    | OtpVerificationDidFail(error: string)
    | OtpValidationDidFail(error: string)

  const VerifiedMarker: string := "otp verified"
  const InvalidOtpMessage: string := "Invalid OTP. Please try again."

  /**
   * The server's message says the code was verified: "otp verified" occurs in
   * it, ignoring ASCII case, i.e. some window of the lower-cased message is
   * the marker.
   */
  function IsVerifiedMessage(message: string): (verified: bool)
    ensures verified <==> exists i :: OccursAt(Lowercased(message), VerifiedMarker, i)
  {
    Contains(Lowercased(message), VerifiedMarker)
  }

  /**
   * `handleOTPVerificationSuccess`: success exactly when the message says so,
   * whatever the `success` flag; otherwise the fixed text, never the server's.
   */
  function VerificationEvent(response: OTPResponse): (e: OTPEvent)
    ensures e == OtpVerificationDidSucceed <==> IsVerifiedMessage(response.message)
    ensures !IsVerifiedMessage(response.message) ==> e == OtpVerificationDidFail(InvalidOtpMessage)
  {
    if IsVerifiedMessage(response.message) then OtpVerificationDidSucceed
    else OtpVerificationDidFail(InvalidOtpMessage)
  }

  /** The `success` flag and the `data` object play no part in the verdict. */
  lemma VerdictIgnoresFlagAndData(response: OTPResponse, success: bool, data: Option<OTPGenericData>)
    ensures VerificationEvent(response.(success := success, data := data)) == VerificationEvent(response)
  {
  }

  /** Case does not matter: the message and its lower-cased form get the same verdict. */
  lemma VerdictIgnoresCase(response: OTPResponse)
    ensures VerificationEvent(response.(message := Lowercased(response.message))) == VerificationEvent(response)
  {
    LowercasedIdempotent(response.message);
  }

  /** A message that carries the marker, in any case, anywhere, is a success. */
  lemma MarkerAnywhereSucceeds(prefix: string, suffix: string, response: OTPResponse)
    requires Lowercased(response.message) == prefix + VerifiedMarker + suffix
    ensures VerificationEvent(response) == OtpVerificationDidSucceed
  {
    var low := Lowercased(response.message);
    assert low[|prefix|..|prefix| + |VerifiedMarker|] == VerifiedMarker;
    assert OccursAt(low, VerifiedMarker, |prefix|);
  }

  /** "OTP verified successfully" passes, even with the success flag cleared. */
  lemma VerifiedMessageExample()
    ensures VerificationEvent(OTPResponse(false, "OTP verified successfully", None)) == OtpVerificationDidSucceed
  {
    var low := Lowercased("OTP verified successfully");
    assert low[..|VerifiedMarker|] == VerifiedMarker;
  }

  /** "Invalid code" fails with the fixed text, even with the success flag set. */
  lemma RejectedMessageExample()
    ensures VerificationEvent(OTPResponse(true, "Invalid code", None)) == OtpVerificationDidFail(InvalidOtpMessage)
  {
    var low := Lowercased("Invalid code");
    assert |low| == |VerifiedMarker| && low[0] != VerifiedMarker[0];
    assert low[..|VerifiedMarker|] != VerifiedMarker;
  }

  /** `handleOTPVerificationFailure`: the error's description as a failure. */
  function FailureEvent(error: APIError): (e: OTPEvent)
    ensures e.OtpVerificationDidFail? && e.error == ErrorDescription(error)
  {
    OtpVerificationDidFail(ErrorDescription(error))
  }

  /** The completion closure of `verifyOTP`. */
  function CompletionEvent(result: Result<OTPResponse, APIError>): (e: OTPEvent)
    ensures result.Success? ==> e == VerificationEvent(result.value)
    ensures result.Failure? ==> e == FailureEvent(result.error)
  {
    match result
    case Success(response) => VerificationEvent(response)
    case Failure(error) => FailureEvent(error)
  }

  /** Every completion is a verification success or failure, never a format complaint; success needs a decoded, verified message. */
  lemma CompletionIsVerdict(result: Result<OTPResponse, APIError>)
    ensures CompletionEvent(result).OtpVerificationDidSucceed? || CompletionEvent(result).OtpVerificationDidFail?
    ensures CompletionEvent(result).OtpVerificationDidSucceed? <==> result.Success? && IsVerifiedMessage(result.value.message)
  {
  }

  /** The callbacks `validateOTP` makes: none when the code passes, else its error message. */
  function ValidationEvents(otp: string): (es: seq<OTPEvent>)
    ensures ValidateOTP(otp).isValid <==> es == []
    ensures !ValidateOTP(otp).isValid ==> es == [OtpValidationDidFail(ValidateOTP(otp).errorMessage.value)]
  {
    var verdict := ValidateOTP(otp);
    if verdict.isValid then []
    else match verdict.errorMessage
      case Some(message) => [OtpValidationDidFail(message)]
      case None => []
  }

  class OTPController {
    /** Whether the weak `delegate` is set. */
    var delegateAttached: bool
    /** The callbacks the delegate has received, oldest first. */
    ghost var events: seq<OTPEvent>
    /** The requests handed to the API service, oldest first. */
    ghost var sent: seq<OTPRequest>

    constructor(delegateAttached: bool)
      ensures this.delegateAttached == delegateAttached
      ensures events == [] && sent == []
    {
      this.delegateAttached := delegateAttached;
      events := [];
      sent := [];
    }

    /** `delegate?.callback(...)`. */
    method Notify(e: OTPEvent)
      modifies this
      ensures events == old(events) + Delivered(delegateAttached, [e])
      ensures sent == old(sent) && delegateAttached == old(delegateAttached)
    {
      if delegateAttached {
        events := events + [e];
      }
    }

    /** `validateOTP`: true iff the code has the right format; otherwise its message goes to the delegate. */
    method ValidateOTP(otp: string) returns (ok: bool)
      modifies this
      ensures ok <==> ValidationService.ValidateOTP(otp).isValid
      ensures events == old(events) + Delivered(delegateAttached, ValidationEvents(otp))
      ensures sent == old(sent) && delegateAttached == old(delegateAttached)
    {
      var verdict := ValidationService.ValidateOTP(otp);
      if verdict.isValid {
        return true;
      }
      if verdict.errorMessage.Some? {
        Notify(OtpValidationDidFail(verdict.errorMessage.value));
      }
      return false;
    }

    /**
     * `verifyOTP`: a badly formed code is reported and nothing is sent;
     * otherwise the code exactly as typed and the user id are sent once, and
     * the answer produces one callback. `answer` is the `Result` the API
     * service's completion delivers for this call; it comes from the network,
     * so each call is given its own.
     */
    method VerifyOTP(otp: string, userId: string, answer: Result<OTPResponse, APIError>)
      modifies this
      ensures !ValidationService.ValidateOTP(otp).isValid ==>
        sent == old(sent) && events == old(events) + Delivered(delegateAttached, ValidationEvents(otp))
      ensures ValidationService.ValidateOTP(otp).isValid ==>
        sent == old(sent) + [OTPRequest(otp, userId)]
        && events == old(events) + Delivered(delegateAttached, [CompletionEvent(answer)])
      ensures delegateAttached == old(delegateAttached)
      ensures delegateAttached ==> |events| == |old(events)| + 1
    {
      var ok := ValidateOTP(otp);
      if !ok {
        return;
      }
      var request := OTPRequest(otp, userId);
      sent := sent + [request];
      Notify(CompletionEvent(answer));
    }
  }

  /** A non-digit between two runs of digits is dropped: the code is judged on its digits alone. */
  lemma SeparatorIgnored(a: string, sep: char, b: string)
    requires AllDigits(a) && AllDigits(b) && a + b != [] && !IsDigit(sep)
    ensures ValidationService.ValidateOTP(a + [sep] + b) == ValidationService.ValidateOTP(a + b)
  {
    DigitsOnlyAppend(a + [sep], b);
    DigitsOnlyAppend(a, [sep]);
    DigitsOnlyOfNoDigits([sep]);
    DigitsOnlyAppend(a, b);
  }

  /** "123-456" gets the verdict of "123456". */
  lemma SeparatedCodeDigits()
    ensures ValidationService.ValidateOTP("123-456") == ValidationService.ValidateOTP("123456")
  {
    assert "123" + ['-'] + "456" == "123-456";
    assert "123" + "456" == "123456";
    SeparatorIgnored("123", '-', "456");
  }

  /**
   * A code typed with a separator passes validation on its six digits, so
   * `VerifyOTP` sends it separator and all.
   */
  lemma SeparatedCodeIsValid()
    ensures ValidationService.ValidateOTP("123-456").isValid
  {
    SeparatedCodeDigits();
    OtpOfDigits("123456");
  }
}
