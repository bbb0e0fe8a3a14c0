/**
 * The registration flow (Task1/Controllers/RegistrationController.swift):
 * validate the form, stop at the first error, otherwise build the request, send
 * it, and turn the API's answer into exactly one delegate callback.
 *
 * The injected API service is seen through the requests handed to it and the
 * `Result` its completion receives, which each call is given; the delegate is a log of the callbacks it receives, kept
 * only while a delegate is attached (`delegate?.` does nothing otherwise).
 */
module RegistrationController {
  import opened Common
  import opened Text
  import opened RegistrationModels
  import opened ValidationService
  import opened ApiService

  /** The callbacks of `RegistrationControllerDelegate`. */
  datatype RegistrationEvent =
    | RegistrationDidSucceed(userId: string, verificationCode: string)
    | RegistrationDidFail(error: string)
    | ValidationDidFail(error: string)

  /** The callbacks `validateForm` makes for a list of verdicts: none when all pass, else the first error, if it has one. */
  function ValidationEvents(results: seq<ValidationResult>): (es: seq<RegistrationEvent>)
    ensures IsFormValid(results) ==> es == []
    ensures GetFirstError(results).None? ==> es == []
    ensures !IsFormValid(results) && GetFirstError(results).Some? ==> es == [ValidationDidFail(GetFirstError(results).value)]
  {
    if IsFormValid(results) then []
    else match GetFirstError(results)
      case Some(message) => [ValidationDidFail(message)]
      case None => []
  }

  /** For the form's own verdicts: a failing form reports exactly one error, its first; a passing form reports nothing. */
  lemma FormValidationEvents(data: UserRegistrationData)
    ensures IsFormValid(FormResults(data)) <==> ValidationEvents(FormResults(data)) == []
    ensures !IsFormValid(FormResults(data)) ==>
      GetFirstError(FormResults(data)).Some?
      && ValidationEvents(FormResults(data)) == [ValidationDidFail(GetFirstError(FormResults(data)).value)]
  {
    FormFirstErrorIffInvalid(data);
  }

  /**
   * `handleRegistrationSuccess`: with the success flag set, the id as a
   * decimal string (0 when absent) and the code (empty when absent); without
   * it, the server's message as a failure.
   */
  function SuccessEvent(response: RegistrationResponse): (e: RegistrationEvent)
    ensures e.RegistrationDidSucceed? <==> response.success
    ensures !response.success ==> e == RegistrationDidFail(response.message)
    ensures response.success && response.data.Some? && response.data.value.id.Some? ==>
      e.userId == IntToString(response.data.value.id.value)
    ensures response.success && (response.data.None? || response.data.value.id.None?) ==> e.userId == "0"
    ensures response.success && (response.data.None? || response.data.value.code.None?) ==> e.verificationCode == ""
    ensures response.success && response.data.Some? && response.data.value.code.Some? ==>
      e.verificationCode == response.data.value.code.value
  {
    if response.success then
      var id := if response.data.Some? then response.data.value.id.OrElse(0) else 0;
      var code := if response.data.Some? then response.data.value.code.OrElse("") else "";
      RegistrationDidSucceed(IntToString(id), code)
    else
      RegistrationDidFail(response.message)
  }

  /** The reported user id reads back as the server's id, or as 0 when it sent none. */
  lemma SuccessUserIdReadsBack(response: RegistrationResponse)
    requires response.success
    ensures response.data.Some? && response.data.value.id.Some? ==>
      ParseInt(SuccessEvent(response).userId) == response.data.value.id
    ensures response.data.None? || response.data.value.id.None? ==> ParseInt(SuccessEvent(response).userId) == Some(0)
  {
    var id := if response.data.Some? then response.data.value.id.OrElse(0) else 0;
    IntToStringRoundTrip(id);
  }

  /** Responses with the success flag set and different ids produce different user ids. */
  lemma DistinctIdsDistinctUserIds(r1: RegistrationResponse, r2: RegistrationResponse)
    requires r1.success && r2.success
    requires r1.data.Some? && r1.data.value.id.Some? && r2.data.Some? && r2.data.value.id.Some?
    requires r1.data.value.id != r2.data.value.id
    ensures SuccessEvent(r1).userId != SuccessEvent(r2).userId
  {
    SuccessUserIdReadsBack(r1);
    SuccessUserIdReadsBack(r2);
  }

  /** A response carrying id 42 and code "98765" yields "42" and "98765"; one with no data yields "0" and "". */
  lemma SuccessEventExamples()
    ensures SuccessEvent(RegistrationResponse(true, Some(200), "ok", Some(RegistrationData(Some(42), Some("98765")))))
      == RegistrationDidSucceed("42", "98765")
    ensures SuccessEvent(RegistrationResponse(true, None, "ok", None)) == RegistrationDidSucceed("0", "")
  {
    assert IntToString(42) == NatToString(4) + [DigitChar(2)];
  }

  /** `handleRegistrationFailure`: the error's description as a failure. */
  function FailureEvent(error: APIError): (e: RegistrationEvent)
    ensures e.RegistrationDidFail? && e.error == ErrorDescription(error)
  {
    RegistrationDidFail(ErrorDescription(error))
  }

  /** The completion closure of `registerUser`: success or failure handler by the result's case. */
  function CompletionEvent(result: Result<RegistrationResponse, APIError>): (e: RegistrationEvent)
    ensures result.Success? ==> e == SuccessEvent(result.value)
    ensures result.Failure? ==> e == FailureEvent(result.error)
  {
    match result
    case Success(response) => SuccessEvent(response)
    case Failure(error) => FailureEvent(error)
  }

  /** Registration succeeds exactly on an answer that decoded and carries the success flag; validation is never blamed. */
  lemma CompletionSucceedsIff(result: Result<RegistrationResponse, APIError>)
    ensures CompletionEvent(result).RegistrationDidSucceed? <==> result.Success? && result.value.success
    ensures !CompletionEvent(result).ValidationDidFail?
  {
  }

  class RegistrationController {
    /** Whether the weak `delegate` is set. */
    var delegateAttached: bool
    /** The callbacks the delegate has received, oldest first. */
    ghost var events: seq<RegistrationEvent>
    /** The requests handed to the API service, oldest first. */
    ghost var sent: seq<RegistrationRequest>

    constructor(delegateAttached: bool)
      ensures this.delegateAttached == delegateAttached
      ensures events == [] && sent == []
    {
      this.delegateAttached := delegateAttached;
      events := [];
      sent := [];
    }

    /** `delegate?.callback(...)`. */
    method Notify(e: RegistrationEvent)
      modifies this
      ensures events == old(events) + Delivered(delegateAttached, [e])
      ensures sent == old(sent) && delegateAttached == old(delegateAttached)
    {
      if delegateAttached {
        events := events + [e];
      }
    }

    /** `validateForm`: true iff all six checks pass; otherwise the first error goes to the delegate. */
    method ValidateForm(data: UserRegistrationData) returns (ok: bool)
      modifies this
      ensures ok <==> IsFormValid(FormResults(data))
      ensures events == old(events) + Delivered(delegateAttached, ValidationEvents(FormResults(data)))
      ensures sent == old(sent) && delegateAttached == old(delegateAttached)
    {
      var results := ValidateRegistrationForm(data);
      if IsFormValid(results) {
        return true;
      }
      var firstError := GetFirstError(results);
      if firstError.Some? {
        Notify(ValidationDidFail(firstError.value));
      }
      return false;
    }

    /**
     * `registerUser`: a form that fails validation reports its first error
     * and sends nothing; a valid form is converted, sent once, and its answer
     * produces one callback. `answer` is the `Result` the API service's
     * completion delivers for this call; it comes from the network, so each
     * call is given its own.
     */
    method RegisterUser(data: UserRegistrationData, device: DeviceInfo, answer: Result<RegistrationResponse, APIError>)
      modifies this
      ensures !IsFormValid(FormResults(data)) ==>
        sent == old(sent) && events == old(events) + Delivered(delegateAttached, ValidationEvents(FormResults(data)))
      ensures IsFormValid(FormResults(data)) ==>
        var request := ToRegistrationRequest(data, device);
        sent == old(sent) + [request] && events == old(events) + Delivered(delegateAttached, [CompletionEvent(answer)])
      ensures delegateAttached == old(delegateAttached)
      ensures delegateAttached ==> |events| == |old(events)| + 1
    {
      var ok := ValidateForm(data);
      if !ok {
        FormValidationEvents(data);
        return;
      }
      var request := ToRegistrationRequest(data, device);
      sent := sent + [request];
      Notify(CompletionEvent(answer));
    }
  }
}
