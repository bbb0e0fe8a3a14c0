/**
 * The value types exchanged between the form, the validators, the controllers
 * and the remote API (Task1/Models/RegistrationModels.swift), the conversion of
 * the form into the registration request, and the JSON objects the two
 * requests encode to under their `CodingKeys`.
 *
 * A JSON object is modelled as a map from key to value; only the two kinds of
 * value these requests use (strings and integers) are represented.
 */
module RegistrationModels {
  import opened Common

  /** The verdict of one field check. */
  datatype ValidationResult = ValidationResult(isValid: bool, errorMessage: Option<string>)

  /** The registration form as the user fills it in. */
  datatype UserRegistrationData = UserRegistrationData(
    firstName: string,
    lastName: string,
    email: string,
    password: string,
    confirmPassword: string,
    phone: string,
    phoneCode: string,
    dob: string,
    gender: string,
    newsletterSubscribed: bool)

  /** `UserRegistrationData()`: a fresh form, with dialling code "965", no newsletter and every other text empty. */
  function NewUserRegistrationData(): (d: UserRegistrationData)
    ensures d.phoneCode == "965" && !d.newsletterSubscribed
    ensures d.firstName == d.lastName == d.email == d.password == d.confirmPassword == ""
    ensures d.phone == d.dob == d.gender == ""
  {
    UserRegistrationData("", "", "", "", "", "", "965", "", "", false)
  }

  /**
   * What the platform reports about the running app and device:
   * the bundle's `CFBundleShortVersionString` (absent when the bundle has none),
   * `UIDevice.current.model` and `UIDevice.current.systemVersion`.
   */
  datatype DeviceInfo = DeviceInfo(bundleShortVersion: Option<string>, model: string, systemVersion: string)

  /** The body of `POST /register-new`. */
  datatype RegistrationRequest = RegistrationRequest(
    appVersion: string,
    deviceModel: string,
    deviceToken: string,
    deviceType: string,
    dob: string,
    email: string,
    firstName: string,
    gender: string,
    lastName: string,
    newsletterSubscribed: int,
    osVersion: string,
    password: string,
    phone: string,
    phoneCode: string)

  /**
   * `UserRegistrationData.toRegistrationRequest()`: the form's fields copied
   * unchanged (the confirmation excepted), the newsletter flag as 0 or 1, an
   * empty device token, the platform letter "I", and the app version falling
   * back to "1.0".
   */
  function ToRegistrationRequest(data: UserRegistrationData, device: DeviceInfo): (r: RegistrationRequest)
    ensures r.newsletterSubscribed in {0, 1}
    ensures r.newsletterSubscribed == 1 <==> data.newsletterSubscribed
    ensures r.deviceToken == "" && r.deviceType == "I"
    ensures device.bundleShortVersion.None? ==> r.appVersion == "1.0"
    ensures device.bundleShortVersion.Some? ==> r.appVersion == device.bundleShortVersion.value
    ensures r.deviceModel == device.model && r.osVersion == device.systemVersion
    ensures r.dob == data.dob && r.email == data.email && r.firstName == data.firstName
    ensures r.gender == data.gender && r.lastName == data.lastName && r.password == data.password
    ensures r.phone == data.phone && r.phoneCode == data.phoneCode
  {
    RegistrationRequest(
      device.bundleShortVersion.OrElse("1.0"),
      device.model,
      "",
      "I",
      data.dob,
      data.email,
      data.firstName,
      data.gender,
      data.lastName,
      if data.newsletterSubscribed then 1 else 0,
      device.systemVersion,
      data.password,
      data.phone,
      data.phoneCode)
  }

  /** The confirmation field never reaches the request: forms that differ only there build the same request. */
  lemma ConfirmPasswordNeverSent(data: UserRegistrationData, other: string, device: DeviceInfo)
    ensures ToRegistrationRequest(data.(confirmPassword := other), device) == ToRegistrationRequest(data, device)
  {
  }

  // ---------------------------------------------------------------------------
  // Wire form under the CodingKeys

  datatype WireValue = Text(text: string) | Number(number: int)

  type JsonObject = map<string, WireValue>

  /** The raw values of `RegistrationRequest.CodingKeys`, in declaration order. */
  const RegistrationKeys: seq<string> := [
    "app_version", "device_model", "device_token", "device_type", "dob", "email",
    "first_name", "gender", "last_name", "newsletter_subscribed", "os_version",
    "password", "phone", "phone_code"]

  /** The fourteen keys are pairwise distinct, so no field shadows another. */
  lemma RegistrationKeysDistinct()
    ensures |RegistrationKeys| == 14
    ensures forall i, j | 0 <= i < j < |RegistrationKeys| :: RegistrationKeys[i] != RegistrationKeys[j]
  {
  }

  /** The JSON object `JSONEncoder` produces for a registration request: one entry per coding key and no other. */
  function EncodeRegistrationRequest(r: RegistrationRequest): (m: JsonObject)
    ensures m.Keys == {"app_version", "device_model", "device_token", "device_type", "dob", "email",
      "first_name", "gender", "last_name", "newsletter_subscribed", "os_version",
      "password", "phone", "phone_code"}
  {
    map[
      "app_version" := Text(r.appVersion),
      "device_model" := Text(r.deviceModel),
      "device_token" := Text(r.deviceToken),
      "device_type" := Text(r.deviceType),
      "dob" := Text(r.dob),
      "email" := Text(r.email),
      "first_name" := Text(r.firstName),
      "gender" := Text(r.gender),
      "last_name" := Text(r.lastName),
      "newsletter_subscribed" := Number(r.newsletterSubscribed),
      "os_version" := Text(r.osVersion),
      "password" := Text(r.password),
      "phone" := Text(r.phone),
      "phone_code" := Text(r.phoneCode)]
  }

  /** A registration request encodes under exactly the fourteen coding keys, one entry each. */
  lemma RegistrationRequestKeys(r: RegistrationRequest)
    ensures EncodeRegistrationRequest(r).Keys == set k | k in RegistrationKeys
    ensures |EncodeRegistrationRequest(r)| == |RegistrationKeys| == 14
  {
    var m := EncodeRegistrationRequest(r);
    assert m.Keys == set k | k in RegistrationKeys;
    RegistrationKeysDistinct();
    DistinctCardinality(RegistrationKeys);
  }

  /** A sequence without repeats has as many distinct elements as entries. */
  lemma {:induction false} DistinctCardinality(s: seq<string>)
    requires forall i, j | 0 <= i < j < |s| :: s[i] != s[j]
    ensures |set k | k in s| == |s|
  {
    if s != [] {
      var rest := s[1..];
      DistinctCardinality(rest);
      assert (set k | k in s) == {s[0]} + (set k | k in rest);
      assert s[0] !in (set k | k in rest) by {
        forall i | 0 <= i < |rest| ensures rest[i] != s[0] { assert rest[i] == s[i + 1]; }
      }
    }
  }

  /** The string under `key`, if the object has one there. */
  function TextAt(m: JsonObject, key: string): (v: Option<string>)
    ensures v.Some? <==> key in m && m[key].Text?
  {
    if key in m && m[key].Text? then Some(m[key].text) else None
  }

  /** The integer under `key`, if the object has one there. */
  function NumberAt(m: JsonObject, key: string): (v: Option<int>)
    ensures v.Some? <==> key in m && m[key].Number?
  {
    if key in m && m[key].Number? then Some(m[key].number) else None
  }

  /** `JSONDecoder` for `RegistrationRequest`: every key must be present with a value of the field's type. */
  function DecodeRegistrationRequest(m: JsonObject): Option<RegistrationRequest> {
    var appVersion :- TextAt(m, "app_version");
    var deviceModel :- TextAt(m, "device_model");
    var deviceToken :- TextAt(m, "device_token");
    var deviceType :- TextAt(m, "device_type");
    var dob :- TextAt(m, "dob");
    var email :- TextAt(m, "email");
    var firstName :- TextAt(m, "first_name");
    var gender :- TextAt(m, "gender");
    var lastName :- TextAt(m, "last_name");
    var newsletterSubscribed :- NumberAt(m, "newsletter_subscribed");
    var osVersion :- TextAt(m, "os_version");
    var password :- TextAt(m, "password");
    var phone :- TextAt(m, "phone");
    var phoneCode :- TextAt(m, "phone_code");
    Some(RegistrationRequest(appVersion, deviceModel, deviceToken, deviceType, dob, email,
      firstName, gender, lastName, newsletterSubscribed, osVersion, password, phone, phoneCode))
  }

  /** The five device entries of the encoded request sit under their snake_case keys. */
  lemma EncodedDeviceFields(r: RegistrationRequest)
    ensures var m := EncodeRegistrationRequest(r);
      TextAt(m, "app_version") == Some(r.appVersion)
      && TextAt(m, "device_model") == Some(r.deviceModel)
      && TextAt(m, "device_token") == Some(r.deviceToken)
      && TextAt(m, "device_type") == Some(r.deviceType)
      && TextAt(m, "os_version") == Some(r.osVersion)
  {
  }

  /** The nine form entries of the encoded request sit under their keys, the newsletter flag as an integer. */
  lemma EncodedFormFields(r: RegistrationRequest)
    ensures var m := EncodeRegistrationRequest(r);
      TextAt(m, "dob") == Some(r.dob)
      && TextAt(m, "email") == Some(r.email)
      && TextAt(m, "first_name") == Some(r.firstName)
      && TextAt(m, "gender") == Some(r.gender)
      && TextAt(m, "last_name") == Some(r.lastName)
      && NumberAt(m, "newsletter_subscribed") == Some(r.newsletterSubscribed)
      && TextAt(m, "password") == Some(r.password)
      && TextAt(m, "phone") == Some(r.phone)
      && TextAt(m, "phone_code") == Some(r.phoneCode)
  {
  }

  /** Every field of a registration request survives the trip through its JSON object. */
  lemma RegistrationRequestRoundTrip(r: RegistrationRequest)
    ensures DecodeRegistrationRequest(EncodeRegistrationRequest(r)) == Some(r)
  {
    EncodedDeviceFields(r);
    EncodedFormFields(r);
  }

  /** The body of `POST /verify-code`. */
  datatype OTPRequest = OTPRequest(otp: string, userId: string)

  /** The JSON object `JSONEncoder` produces for an OTP request: exactly `otp` and `user_id`. */
  function EncodeOTPRequest(r: OTPRequest): (m: JsonObject)
    ensures m.Keys == {"otp", "user_id"}
    ensures m["otp"] == Text(r.otp) && m["user_id"] == Text(r.userId)
  {
    map["otp" := Text(r.otp), "user_id" := Text(r.userId)]
  }

  function DecodeOTPRequest(m: JsonObject): Option<OTPRequest> {
    var otp :- TextAt(m, "otp");
    var userId :- TextAt(m, "user_id");
    Some(OTPRequest(otp, userId))
  }

  lemma OTPRequestRoundTrip(r: OTPRequest)
    ensures DecodeOTPRequest(EncodeOTPRequest(r)) == Some(r)
  {
  }

  // ---------------------------------------------------------------------------
  // Responses, as decoded

  /** The part of the registration response's `data` object the app reads. */
  datatype RegistrationData = RegistrationData(id: Option<int>, code: Option<string>)

  datatype RegistrationResponse = RegistrationResponse(
    success: bool,
    status: Option<int>,
    message: string,
    data: Option<RegistrationData>)

  datatype OTPGenericData = OTPGenericData(id: Option<string>, code: Option<string>)

  datatype OTPResponse = OTPResponse(success: bool, message: string, data: Option<OTPGenericData>)
}
