# Registration and OTP verification: a Dafny model

This project models the logic behind the screens of an iOS registration app.
The user fills in a registration form. The app validates it field by field and
posts it to a remote API. The API answers with a user id and a verification
code. The user then enters a one-time password (OTP), which the app validates
and posts for verification.

Modules, one per file:

- `Common` (`common.dfy`): Swift's optionals and `Result`.
- `Text` (`text.dfy`): the string operations the app relies on. These are ASCII
  character classes, the digit filter
  `components(separatedBy: CharacterSet.decimalDigits.inverted).joined()`,
  `lowercased()`, `contains(_:)`, and `String(Int)` with its inverse.
- `RegistrationModels` (`registration_models.dfy`): the form, its default
  values and its conversion into the registration request. Also the JSON
  objects the two requests encode to under their coding keys, and the response
  shapes.
- `ValidationService` (`validation_service.dfy`): the six field validators,
  with their exact verdicts and messages, and the whole-form check.
  - Each regular expression is restated as the set of strings it matches.
  - The email validator is proved to accept exactly the strings the anchored
    expression matches. The email test vectors are therefore stated on
    `MatchesEmailPattern`, the meaning of the expression.
- `ApiService` (`api_service.dfy`): the error taxonomy and its descriptions, the
  endpoints and headers, the request `performRequest` builds, and the ladder
  that classifies what the network delivers.
- `RegistrationController` (`registration_controller.dfy`) and `OtpController`
  (`otp_controller.dfy`): the two flows.
  - Each is a class with a ghost log of the delegate callbacks it makes and of
    the requests it hands to the API.
  - The interpretation of an API answer is a pure function.
  - The injected API service is seen through the requests handed to it and
    the `Result` its completion receives. Each `RegisterUser` or `VerifyOTP`
    call is given its own result, since the answer comes from the network.
  - The weak delegate is a flag. A callback reaches the log only while a
    delegate is attached.

## Model

| member | source | states |
|---|---|---|
| Text.DigitsOnly | Task1/Services/ValidationService.swift:104 | the filtered string holds only digits and is no longer than the input |
| Text.DigitsOnlyKeepsEveryDigit | Task1/Services/ValidationService.swift:104 | every digit survives the filter, as often as it occurs in the input |
| Text.DigitsOnlyAppend | Task1/Services/ValidationService.swift:104 | filtering a concatenation is concatenating the filtered parts |
| Text.DigitsOnlyKeepsDigits | Task1/Services/ValidationService.swift:120 | a string of digits passes through unchanged, so the filter is idempotent |
| Text.DigitsOnlyOfNoDigits | Task1/Services/ValidationService.swift:120 | a string without digits filters to the empty string |
| Text.Lowercased | Task1/Controllers/OTPController.swift:97 | same length, and each character is lower-cased in place |
| Text.LowercasedIdempotent | Task1/Controllers/OTPController.swift:97 | lower-casing twice equals lower-casing once |
| Text.Contains | Task1/Controllers/OTPController.swift:99 | `contains` holds exactly when the needle occurs at some index of the haystack |
| Text.NatToString | Task1/Controllers/RegistrationController.swift:65 | a decimal numeral is non-empty, all digits, has no leading zero, and starts with '0' only for zero |
| Text.IntToString | Task1/Controllers/RegistrationController.swift:65 | `String(n)` is the canonical numeral: a leading '-' exactly when n is negative, then digits with no leading zero, "0" for zero |
| Text.ParseNatToString | Task1/Controllers/RegistrationController.swift:65 | reading back the numeral of n gives n |
| Text.IntToStringRoundTrip | Task1/Controllers/RegistrationController.swift:65 | `Int(String(n)) == n` for every integer, negative ones included |
| Text.IntToStringInjective | Task1/Controllers/RegistrationController.swift:65 | different integers render differently |
| RegistrationModels.NewUserRegistrationData | Task1/Models/RegistrationModels.swift:141-151 | a fresh form has dialling code "965", no newsletter and every other text empty |
| RegistrationModels.ToRegistrationRequest | Task1/Models/RegistrationModels.swift:153-170 | newsletter flag sent as 1 or 0 (1 iff subscribed); token "" and type "I"; app version falls back to "1.0"; device fields and the eight form fields copied unchanged |
| RegistrationModels.ConfirmPasswordNeverSent | Task1/Models/RegistrationModels.swift:153-170 | forms differing only in the confirmation build the same request |
| RegistrationModels.EncodeRegistrationRequest | Task1/Models/RegistrationModels.swift:27-42 | the encoded request's keys are exactly the fourteen coding keys |
| RegistrationModels.RegistrationKeysDistinct | Task1/Models/RegistrationModels.swift:27-42 | the fourteen coding keys are pairwise distinct |
| RegistrationModels.RegistrationRequestKeys | Task1/Models/RegistrationModels.swift:27-42 | the encoded request has exactly the fourteen coding keys, one entry each |
| RegistrationModels.EncodedDeviceFields | Task1/Models/RegistrationModels.swift:28-31 | the device fields sit under `app_version`, `device_model`, `device_token`, `device_type` and `os_version` |
| RegistrationModels.EncodedFormFields | Task1/Models/RegistrationModels.swift:32-41 | the form fields sit under their keys, e.g. `first_name`, with `newsletter_subscribed` as an integer |
| RegistrationModels.RegistrationRequestRoundTrip | Task1/Models/RegistrationModels.swift:11-42 | decoding the encoded registration request gives the request back |
| RegistrationModels.EncodeOTPRequest | Task1/Models/RegistrationModels.swift:103-111 | the OTP request encodes as exactly `otp` and `user_id`, carrying the given values |
| RegistrationModels.OTPRequestRoundTrip | Task1/Models/RegistrationModels.swift:103-111 | decoding the encoded OTP request gives it back |
| ValidationService.EmailMatcherCorrect | Task1/Services/ValidationService.swift:24-27 | splitting at the first '@' and the last '.' accepts exactly the strings the anchored email expression matches |
| ValidationService.ValidateEmail | Task1/Services/ValidationService.swift:19-32 | empty: "Email is required"; otherwise valid iff the expression matches, else "Please enter a valid email address"; message absent iff valid |
| ValidationService.ValidateName | Task1/Services/ValidationService.swift:36-53 | empty, then shorter than 2, then a character outside letters and white space, each message led by the field name; valid iff length ≥ 2 and only letters and white space |
| ValidationService.ValidatePassword | Task1/Services/ValidationService.swift:57-80 | empty, then shorter than 8 (before any composition check), then missing class; valid iff length ≥ 8 and each of the three patterns matches |
| ValidationService.ValidateConfirmPassword | Task1/Services/ValidationService.swift:84-94 | valid iff non-empty and equal to the password; the two messages |
| ValidationService.ValidatePhone | Task1/Services/ValidationService.swift:98-111 | valid iff non-empty with 8 to 15 digits after filtering; the two messages |
| ValidationService.ValidateOTP | Task1/Services/ValidationService.swift:115-127 | valid iff non-empty with 5 or 6 digits after filtering; the two messages |
| ValidationService.ValidateRegistrationForm | Task1/Services/ValidationService.swift:131-142 | six appends produce exactly the six verdicts in the order first name, last name, email, password, confirmation, phone |
| ValidationService.IsFormValid | Task1/Services/ValidationService.swift:144-146 | true iff every verdict is valid |
| ValidationService.FirstInvalid | Task1/Services/ValidationService.swift:148-150 | for a failing list, the index of the first invalid verdict |
| ValidationService.GetFirstError | Task1/Services/ValidationService.swift:148-150 | none for a valid list; otherwise the message of the first invalid verdict |
| ValidationService.FirstErrorIffInvalid | Task1/Services/ValidationService.swift:148-150 | for consistent verdicts, the first error is absent iff the list is valid |
| ValidationService.GetFirstErrorIsEarliest | Task1/Services/ValidationService.swift:148-150 | an invalid verdict preceded only by valid ones supplies the first error |
| ValidationService.EmptyInputRejected | Task1/Services/ValidationService.swift:19-127 | each validator rejects "" with its own message |
| ValidationService.BadLocalCharRejected | Task1/Services/ValidationService.swift:24 | a character outside the local-part class before any '@' rules the address out |
| ValidationService.EmailAcceptsPlainAddress | Task1Tests/Task1Tests.swift:29-42 | "test@example.com" matches |
| ValidationService.EmailAcceptsDottedParts | Task1Tests/Task1Tests.swift:29-42 | "user.name@domain.co.uk" matches |
| ValidationService.EmailAcceptsTag | Task1Tests/Task1Tests.swift:29-42 | "user+tag@example.org" matches |
| ValidationService.EmailAcceptsDigits | Task1Tests/Task1Tests.swift:29-42 | "123@test.com" matches |
| ValidationService.EmailRejectedExamples | Task1Tests/Task1Tests.swift:44-60 | "invalid-email", "@domain.com", "user@", "user name@domain.com", "user@domain" and "user@.com" do not match |
| ValidationService.NameExamples | Task1/Services/ValidationService.swift:36-53 | "John", "Mary Jane" and two spaces pass; "O'Connor" and "Jean-Pierre" fail on the character rule; "A" fails on length; "John123" and "John@Doe" fail |
| ValidationService.PasswordAcceptedExamples | Task1Tests/Task1Tests.swift:96-108 | "Password123" and "Test1234" pass |
| ValidationService.PasswordAcceptedMixedExample | Task1Tests/Task1Tests.swift:96-108 | "MySecure1Pass" passes |
| ValidationService.PasswordTooShortExamples | Task1/Services/ValidationService.swift:62-64 | "short" and "short1A" get the length message, whatever they contain |
| ValidationService.PasswordTooWeakExamples | Task1Tests/Task1Tests.swift:110-125 | "password", "PASSWORD123", "Password" and "password123" get the composition message |
| ValidationService.PasswordLineBreakExample | Task1/Services/ValidationService.swift:67-73 | "Password123" followed by a line feed gets the composition message, since `.` does not match a line terminator |
| ValidationService.PhoneOfDigits | Task1/Services/ValidationService.swift:98-111 | for a string of digits, valid iff its length is 8 to 15 |
| ValidationService.OtpOfDigits | Task1/Services/ValidationService.swift:115-127 | for a string of digits, valid iff its length is 5 or 6 |
| ValidationService.PhoneIgnoresPrefix | Task1/Services/ValidationService.swift:103-104 | non-digit characters before the number do not change the verdict |
| ValidationService.NoDigitsRejected | Task1/Services/ValidationService.swift:98-127 | non-empty input without digits fails both checks with their length messages |
| ValidationService.VerdictsDependOnDigitCount | Task1/Services/ValidationService.swift:98-127 | non-empty inputs with equally many digits get the same phone and OTP verdicts |
| ValidationService.PhoneLengthExamples | Task1Tests/Task1Tests.swift:129-156 | "12345678" passes, "1234567" fails |
| ValidationService.PhoneThirteenDigitsExample | Task1Tests/Task1Tests.swift:129-141 | "1234567890123" passes |
| ValidationService.PhoneTooLongExample | Task1Tests/Task1Tests.swift:143-156 | "12345678901234567" fails |
| ValidationService.PlusPrefixIgnored | Task1Tests/Task1Tests.swift:129-141 | "+1234567890" gets the verdict of "1234567890" |
| ValidationService.PhoneTenDigitsExample | Task1Tests/Task1Tests.swift:129-141 | "1234567890" passes |
| ValidationService.PhoneWithPlusExample | Task1Tests/Task1Tests.swift:129-141 | "+1234567890" passes |
| ValidationService.LettersOnlyExamples | Task1Tests/Task1Tests.swift:143-178 | "abcdefgh" fails as a phone number and "abcde" as an OTP |
| ValidationService.OtpShortExamples | Task1Tests/Task1Tests.swift:160-178 | "12345" passes, "123" fails |
| ValidationService.OtpLongExamples | Task1Tests/Task1Tests.swift:160-178 | "567890" passes, "12345678" fails |
| ValidationService.FormResults | Task1/Services/ValidationService.swift:131-142 | the form yields six verdicts, each consistent (valid iff it has no message) |
| ValidationService.FormValidIff | Task1/Services/ValidationService.swift:131-146 | the form passes iff each of its six fields satisfies its rule |
| ValidationService.FormFirstErrorIffInvalid | Task1/Services/ValidationService.swift:131-150 | a form has a first error iff it fails |
| ValidationService.FirstNameErrorComesFirst | Task1Tests/Task1Tests.swift:284-297 | an empty first name is the error reported, whatever else is wrong |
| ValidationService.NewFormFailsOnFirstName | Task1/Services/ValidationService.swift:131-150 | a fresh form fails, reporting "First name is required" |
| ValidationService.ValidFormFields | Task1Tests/Task1Tests.swift:270-282 | "John", "Doe" and "john.doe@example.com" pass their checks |
| ValidationService.ValidFormExample | Task1Tests/Task1Tests.swift:270-282 | the valid form passes and has no first error |
| ApiService.ErrorDescription | Task1/Services/APIService.swift:28-43 | the fixed text per case, the two prefixes before the wrapped error's text, and the server message verbatim |
| ApiService.DescriptionNonEmpty | Task1/Services/APIService.swift:28-43 | only a server message can give an empty description |
| ApiService.DescriptionDeterminesError | Task1/Services/APIService.swift:28-43 | two errors other than server errors with the same description are equal |
| ApiService.ServerMessageMimicsAnyError | Task1/Services/APIService.swift:38-39 | every description can also come from a server error |
| ApiService.Respond | Task1/Services/APIService.swift:98-124 | transport error first, then no data, then success iff the expected decode succeeds, then a server error iff the `ErrorResponse` decodes, else the original decoding error; never `invalidURL` or `unknown` |
| ApiService.TransportErrorTakesPrecedence | Task1/Services/APIService.swift:100-103 | a transport error wins whatever data came with it |
| ApiService.ExpectedResponseWins | Task1/Services/APIService.swift:113-115 | a body the expected decoder accepts succeeds even if it also reads as an `ErrorResponse` |
| ApiService.JsonHeaders | Task1/Services/APIService.swift:82-83 | exactly `Content-Type` and `Accept`, both `application/json` |
| ApiService.PerformRequest | Task1/Services/APIService.swift:74-127 | an encoding failure sends nothing and completes with a decoding error; otherwise exactly one POST with the JSON headers and the encoded body is sent, and the outcome is the ladder's |
| ApiService.RegisterUser | Task1/Services/APIService.swift:56-63 | posts the encoded registration request to base + "/register-new?lang=en" |
| ApiService.VerifyOTP | Task1/Services/APIService.swift:65-72 | posts the encoded OTP request to base + "/verify-code?lang=en" |
| ApiService.EndpointsDiffer | Task1/Services/APIService.swift:51-66 | both endpoints extend the base URL, and they differ |
| RegistrationController.ValidationEvents | Task1/Controllers/RegistrationController.swift:52-59 | no callback for a valid list or when the first invalid verdict has no message; otherwise one `validationDidFail` with that message |
| RegistrationController.FormValidationEvents | Task1/Controllers/RegistrationController.swift:50-60 | for a form, no callback iff it passes; a failing form reports exactly its first error |
| RegistrationController.SuccessEvent | Task1/Controllers/RegistrationController.swift:62-74 | success iff the flag is set; a sent id as its `String(Int)` numeral, "0" when absent; the code as sent, "" when absent; the server message on a cleared flag |
| RegistrationController.SuccessUserIdReadsBack | Task1/Controllers/RegistrationController.swift:65 | the reported user id reads back as the server's id, or as 0 |
| RegistrationController.DistinctIdsDistinctUserIds | Task1/Controllers/RegistrationController.swift:65 | different server ids give different user ids |
| RegistrationController.SuccessEventExamples | Task1/Controllers/RegistrationController.swift:62-70 | id 42 with code "98765" gives "42" and "98765"; no data gives "0" and "" |
| RegistrationController.FailureEvent | Task1/Controllers/RegistrationController.swift:76-78 | an API error becomes `registrationDidFail` with its description |
| RegistrationController.CompletionEvent | Task1/Controllers/RegistrationController.swift:40-47 | a success goes to the success handler, a failure to the failure handler |
| RegistrationController.CompletionSucceedsIff | Task1/Controllers/RegistrationController.swift:40-47 | success is reported iff the answer decoded and carries the success flag, and an answer is never reported as a validation failure |
| RegistrationController.RegistrationController.Notify | Task1/Controllers/RegistrationController.swift:56-77 | `delegate?.…`: the callback is appended to the log iff a delegate is attached; nothing else changes |
| RegistrationController.RegistrationController.constructor | Task1/Controllers/RegistrationController.swift:27-31 | a new controller has the given delegate and empty logs |
| RegistrationController.RegistrationController.ValidateForm | Task1/Controllers/RegistrationController.swift:50-60 | returns true iff all six checks pass; logs the first error on failure; sends nothing |
| RegistrationController.RegistrationController.RegisterUser | Task1/Controllers/RegistrationController.swift:33-48 | a failing form sends nothing and reports its first error; a valid form sends exactly its converted request once and logs the one callback for the answer given to this call; with a delegate attached, every attempt adds exactly one callback |
| OtpController.IsVerifiedMessage | Task1/Controllers/OTPController.swift:97-99 | the verdict holds iff "otp verified" occurs at some index of the lower-cased message |
| OtpController.VerificationEvent | Task1/Controllers/OTPController.swift:94-106 | success iff the message says "otp verified" in any case; otherwise "Invalid OTP. Please try again." |
| OtpController.VerdictIgnoresFlagAndData | Task1/Controllers/OTPController.swift:94-106 | the `success` flag and `data` do not affect the verdict |
| OtpController.VerdictIgnoresCase | Task1/Controllers/OTPController.swift:97 | a message and its lower-cased form get the same verdict |
| OtpController.MarkerAnywhereSucceeds | Task1/Controllers/OTPController.swift:97-101 | any message containing the marker, anywhere and in any case, is a success |
| OtpController.VerifiedMessageExample | Task1/Controllers/OTPController.swift:97-101 | "OTP verified successfully" succeeds even with the flag cleared |
| OtpController.RejectedMessageExample | Task1/Controllers/OTPController.swift:102-105 | "Invalid code" fails with the fixed text even with the flag set |
| OtpController.FailureEvent | Task1/Controllers/OTPController.swift:108-110 | an API error becomes `otpVerificationDidFail` with its description |
| OtpController.CompletionEvent | Task1/Controllers/OTPController.swift:58-65 | a success goes to the verdict, a failure to the failure handler |
| OtpController.CompletionIsVerdict | Task1/Controllers/OTPController.swift:58-65 | every completion is a verification success or failure, and success needs a decoded, verified message |
| OtpController.ValidationEvents | Task1/Controllers/OTPController.swift:68-79 | no callback iff the code passes; otherwise one `otpValidationDidFail` with its message |
| OtpController.OTPController.Notify | Task1/Controllers/OTPController.swift:75-109 | `delegate?.…`: the callback is appended to the log iff a delegate is attached; nothing else changes |
| OtpController.OTPController.constructor | Task1/Controllers/OTPController.swift:40-44 | a new controller has the given delegate and empty logs |
| OtpController.OTPController.ValidateOTP | Task1/Controllers/OTPController.swift:68-79 | returns true iff the code passes; logs its message otherwise; sends nothing |
| OtpController.OTPController.VerifyOTP | Task1/Controllers/OTPController.swift:48-66 | a bad code sends nothing and is reported; a good one sends the code as typed with the unchanged user id, once, and logs the one callback for the answer given to this call; with a delegate attached, every attempt adds exactly one callback |
| OtpController.SeparatorIgnored | Task1/Services/ValidationService.swift:115-127 | a non-digit between two runs of digits does not change the OTP verdict |
| OtpController.SeparatedCodeIsValid | Task1/Controllers/OTPController.swift:55 | "123-456" passes on its six digits, so it is sent with the hyphen |

## Left out

- The view controllers are not part of this model. That covers layout, keyboard handling, alerts, navigation, per-box OTP entry and the resend timer.
- Networking and threading are not modelled: `URLSession`, the hop to the main queue, and all `print` logging (requests, raw responses, error paths and the controllers' results). The transport is a parameter that answers a request with an optional error and optional data.
- `[weak self]` is not modelled: the controller is assumed alive when the completion runs. The weak delegate is only a flag.
- JSON internals are not modelled.
  - An encoded request is a map from key to string or integer.
  - The response decoders are parameters.
  - The registration request's encoding cannot fail, so the encoding-failure rung is reached only through `ApiService.PerformRequest`'s own parameter.
- The `invalidURL` path of `registerUser` and `verifyOTP` is not modelled: `URL(string:)` succeeds on both constant URLs. `ApiService.Respond` proves that the ladder never produces it.
- `resendOTP` only schedules a simulated success after a delay. It is not part of this model, nor is the delegate's `otpResendDidSucceed`/`otpResendDidFail`.
- `Bundle.main` and `UIDevice` are not read; their values come in as a `DeviceInfo` parameter.
- Unicode is reduced to ASCII.
  - The digit filter and the phone/OTP checks know only '0' to '9'; Foundation's `decimalDigits` also counts other scripts' digits.
  - White space in names is the ASCII part of ICU's `\s`, which is Unicode's White_Space property (space, tab, line feed, vertical tab, form feed, carriage return); the non-ASCII white space is left out.
  - Swift's `String` `==`, used by `validateConfirmPassword`, compares by canonical equivalence; the model compares code points, so a password and a differently composed but canonically equal confirmation are told apart.
  - Lengths are counted in characters, not grapheme clusters, so a "\r\n" pair counts as two.
  - `lowercased()` maps only 'A' to 'Z'.
- The test suite expects "O'Connor" and "Jean-Pierre" to be accepted, but the name expression admits only letters and white space. The model follows the code, and `ValidationService.NameExamples` proves that both are rejected.
- `error.localizedDescription` of an `APIError` is taken to be its `errorDescription`, the usual behaviour of a `LocalizedError`.
- The `Error` values inside `decodingError` and `networkError` are represented by their description text.
- Of `RegistrationData`, only `id` and `code` are modelled, since the app reads only those. The other twenty optional fields and the unused `OTPData` are left out.
- There is no re-entry guard: a second `RegisterUser` simply sends a second request, as in the code, and receives whatever answer that call is given.
