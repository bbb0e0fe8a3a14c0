/**
 * The field validators of Task1/Services/ValidationService.swift and the
 * whole-form check built from them.
 *
 * Each validator first rejects the empty string with a message of its own,
 * then applies its rule. Where the source uses an anchored ICU regular
 * expression, the model states the set of strings the expression matches with
 * explicit character classes (ASCII only), and the email rule is proved equal to
 * the expression's meaning: some split of the string into the pattern's parts.
 */
module ValidationService {
  import opened Common
  import opened Text
  import opened RegistrationModels

  /** A verdict is consistent: valid exactly when it carries no message, and a message is never empty. */
  predicate WellFormed(r: ValidationResult) {
    if r.isValid then r.errorMessage.None? else r.errorMessage.Some? && r.errorMessage.value != ""
  }

  function Pass(): ValidationResult {
    ValidationResult(true, None)
  }

  function Reject(message: string): ValidationResult {
    ValidationResult(false, Some(message))
  }

  // ---------------------------------------------------------------------------
  // The fixed messages

  const EmailRequired := "Email is required"
  const EmailInvalid := "Please enter a valid email address"
  const PasswordRequired := "Password is required"
  const PasswordTooShort := "Password must be at least 8 characters long"
  const PasswordTooWeak := "Password must contain at least one uppercase letter, one lowercase letter, and one digit"
  const ConfirmRequired := "Please confirm your password"
  const PasswordsDiffer := "Passwords do not match"
  const PhoneRequired := "Phone number is required"
  const PhoneLength := "Phone number must be between 8 and 15 digits"
  const OtpRequired := "OTP is required"
  const OtpInvalid := "Please enter a valid OTP"

  // ---------------------------------------------------------------------------
  // Email: ^[A-Z0-9a-z._%+-]+@[A-Za-z0-9.-]+\.[A-Za-z]{2,}$

  predicate IsLocalChar(c: char) {
    IsAsciiLetter(c) || IsDigit(c) || c == '.' || c == '_' || c == '%' || c == '+' || c == '-'
  }

  predicate IsDomainChar(c: char) {
    IsAsciiLetter(c) || IsDigit(c) || c == '.' || c == '-'
  }

  /**
   * The email pattern matches `s` with its '@' at index `at` and the '.' before
   * the top-level domain at index `dot`: a non-empty local part, a non-empty
   * domain part, and at least two letters after the dot.
   */
  predicate EmailSplitAt(s: string, at: int, dot: int) {
    1 <= at && at + 2 <= dot && dot + 3 <= |s|
    && s[at] == '@' && s[dot] == '.'
    && (forall i | 0 <= i < at :: IsLocalChar(s[i]))
    && (forall i | at < i < dot :: IsDomainChar(s[i]))
    && (forall i | dot < i < |s| :: IsAsciiLetter(s[i]))
  }

  /** What the anchored email expression accepts: some way of splitting `s` into its parts. */
  ghost predicate MatchesEmailPattern(s: string) {
    exists at, dot :: EmailSplitAt(s, at, dot)
  }

  /**
   * A deterministic matcher: the local part cannot contain '@' and the
   * top-level domain cannot contain '.', so the only candidate split is at the
   * first '@' and the last '.'.
   */
  predicate EmailMatcher(s: string) {
    match FirstIndexOf(s, '@')
    case None => false
    case Some(at) =>
      match LastIndexOf(s, '.')
      case None => false
      case Some(dot) => EmailSplitAt(s, at, dot)
  }

  lemma EmailMatcherCorrect(s: string)
    ensures EmailMatcher(s) <==> MatchesEmailPattern(s)
  {
    if at, dot :| EmailSplitAt(s, at, dot) {
      var first := FirstIndexOf(s, '@');
      var last := LastIndexOf(s, '.');
      assert first == Some(at);
      assert last == Some(dot);
    }
  }

  /** `validateEmail`. */
  function ValidateEmail(email: string): (r: ValidationResult)
    ensures WellFormed(r)
    ensures r.isValid <==> MatchesEmailPattern(email)
    ensures email == "" ==> r == Reject(EmailRequired)
    ensures email != "" && !r.isValid ==> r == Reject(EmailInvalid)
  {
    EmailMatcherCorrect(email);
    if email == "" then Reject(EmailRequired)
    else if EmailMatcher(email) then Pass()
    else Reject(EmailInvalid)
  }

  // ---------------------------------------------------------------------------
  // Names: ^[a-zA-Z\s]+$ after a length check

  predicate IsNameChar(c: char) {
    IsAsciiLetter(c) || IsRegexSpace(c)
  }

  predicate AllNameChars(s: string) {
    forall i | 0 <= i < |s| :: IsNameChar(s[i])
  }

  /** `validateName`: each message begins with the field's display name. */
  function ValidateName(name: string, fieldName: string): (r: ValidationResult)
    ensures WellFormed(r)
    ensures r.isValid <==> |name| >= 2 && AllNameChars(name)
    ensures name == "" ==> r == Reject(fieldName + " is required")
    ensures |name| == 1 ==> r == Reject(fieldName + " must be at least 2 characters long")
    ensures |name| >= 2 && !r.isValid ==> r == Reject(fieldName + " should only contain letters and spaces")
  {
    if name == "" then Reject(fieldName + " is required")
    else if |name| < 2 then Reject(fieldName + " must be at least 2 characters long")
    else if AllNameChars(name) then Pass()
    else Reject(fieldName + " should only contain letters and spaces")
  }

  // ---------------------------------------------------------------------------
  // Password: length, then .*[A-Z]+.*, .*[a-z]+.* and .*[0-9]+.*

  /** No character of `s` is one ICU's `.` refuses, so `.*` can span any part of it. */
  predicate SingleLine(s: string) {
    forall i | 0 <= i < |s| :: !IsLineTerminator(s[i])
  }

  /** `.*[A-Z]+.*` matches the whole of `s`. */
  predicate HasUppercase(s: string) {
    SingleLine(s) && exists i | 0 <= i < |s| :: IsAsciiUpper(s[i])
  }

  /** `.*[a-z]+.*` matches the whole of `s`. */
  predicate HasLowercase(s: string) {
    SingleLine(s) && exists i | 0 <= i < |s| :: IsAsciiLower(s[i])
  }

  /** `.*[0-9]+.*` matches the whole of `s`. */
  predicate HasDigit(s: string) {
    SingleLine(s) && exists i | 0 <= i < |s| :: IsDigit(s[i])
  }

  /** `validatePassword`: the length check comes before, and hides, the composition check. */
  function ValidatePassword(password: string): (r: ValidationResult)
    ensures WellFormed(r)
    ensures r.isValid <==> |password| >= 8 && HasUppercase(password) && HasLowercase(password) && HasDigit(password)
    ensures password == "" ==> r == Reject(PasswordRequired)
    ensures 0 < |password| < 8 ==> r == Reject(PasswordTooShort)
    ensures |password| >= 8 && !r.isValid ==>
      r == Reject(PasswordTooWeak)
  {
    if password == "" then Reject(PasswordRequired)
    else if |password| < 8 then Reject(PasswordTooShort)
    else if HasUppercase(password) && HasLowercase(password) && HasDigit(password) then Pass()
    else Reject(PasswordTooWeak)
  }

  // ---------------------------------------------------------------------------
  // Confirmation, phone and OTP

  /** `validateConfirmPassword`. */
  function ValidateConfirmPassword(confirmPassword: string, originalPassword: string): (r: ValidationResult)
    ensures WellFormed(r)
    ensures r.isValid <==> confirmPassword != "" && confirmPassword == originalPassword
    ensures confirmPassword == "" ==> r == Reject(ConfirmRequired)
    ensures confirmPassword != "" && !r.isValid ==> r == Reject(PasswordsDiffer)
  {
    if confirmPassword == "" then Reject(ConfirmRequired)
    else if confirmPassword == originalPassword then Pass()
    else Reject(PasswordsDiffer)
  }

  /** `validatePhone`: 8 to 15 digits once every other character is dropped. */
  function ValidatePhone(phone: string): (r: ValidationResult)
    ensures WellFormed(r)
    ensures r.isValid <==> phone != "" && 8 <= |DigitsOnly(phone)| <= 15
    ensures phone == "" ==> r == Reject(PhoneRequired)
    ensures phone != "" && !r.isValid ==> r == Reject(PhoneLength)
  {
    if phone == "" then Reject(PhoneRequired)
    else
      var digits := DigitsOnly(phone);
      if 8 <= |digits| <= 15 then Pass()
      else Reject(PhoneLength)
  }

  /** `validateOTP`: 5 or 6 digits once every other character is dropped. */
  function ValidateOTP(otp: string): (r: ValidationResult)
    ensures WellFormed(r)
    ensures r.isValid <==> otp != "" && |DigitsOnly(otp)| in {5, 6}
    ensures otp == "" ==> r == Reject(OtpRequired)
    ensures otp != "" && !r.isValid ==> r == Reject(OtpInvalid)
  {
    if otp == "" then Reject(OtpRequired)
    else
      var digits := DigitsOnly(otp);
      if |digits| == 5 || |digits| == 6 then Pass()
      else Reject(OtpInvalid)
  }

  // ---------------------------------------------------------------------------
  // Whole form

  /** The six checks `validateRegistrationForm` runs, in its order; each verdict is consistent. */
  function FormResults(data: UserRegistrationData): (rs: seq<ValidationResult>)
    ensures |rs| == 6
    ensures forall i | 0 <= i < 6 :: WellFormed(rs[i])
  {
    [ ValidateName(data.firstName, "First name"),
      ValidateName(data.lastName, "Last name"),
      ValidateEmail(data.email),
      ValidatePassword(data.password),
      ValidateConfirmPassword(data.confirmPassword, data.password),
      ValidatePhone(data.phone) ]
  }

  /** `validateRegistrationForm`: appends the six verdicts to an initially empty list. */
  method ValidateRegistrationForm(data: UserRegistrationData) returns (results: seq<ValidationResult>)
    ensures results == FormResults(data)
    ensures |results| == 6
  {
    results := [];
    results := results + [ValidateName(data.firstName, "First name")];
    results := results + [ValidateName(data.lastName, "Last name")];
    results := results + [ValidateEmail(data.email)];
    results := results + [ValidatePassword(data.password)];
    results := results + [ValidateConfirmPassword(data.confirmPassword, data.password)];
    results := results + [ValidatePhone(data.phone)];
  }

  /** `isFormValid`: every verdict is valid. */
  function IsFormValid(results: seq<ValidationResult>): (ok: bool)
    ensures ok <==> forall i | 0 <= i < |results| :: results[i].isValid
  {
    forall r <- results :: r.isValid
  }

  /** `getFirstError`: the message of the first invalid verdict, if any. */
  function GetFirstError(results: seq<ValidationResult>): (e: Option<string>)
    ensures IsFormValid(results) ==> e == None
    ensures !IsFormValid(results) ==> e == results[FirstInvalid(results)].errorMessage
  {
    if results == [] then None
    else if !results[0].isValid then results[0].errorMessage
    else GetFirstError(results[1..])
  }

  /** For consistent verdicts, there is a first error exactly when the form is not valid. */
  lemma FirstErrorIffInvalid(results: seq<ValidationResult>)
    requires forall i | 0 <= i < |results| :: WellFormed(results[i])
    ensures GetFirstError(results).None? <==> IsFormValid(results)
  {
    if !IsFormValid(results) {
      assert WellFormed(results[FirstInvalid(results)]);
    }
  }

  /** The index of the first invalid verdict of a form that is not valid. */
  function FirstInvalid(results: seq<ValidationResult>): (k: nat)
    requires !IsFormValid(results)
    ensures k < |results| && !results[k].isValid
    ensures forall j | 0 <= j < k :: results[j].isValid
  {
    if !results[0].isValid then 0 else 1 + FirstInvalid(results[1..])
  }

  // ---------------------------------------------------------------------------
  // Properties of the validators

  /** Every validator turns the empty string away first, each with its own message. */
  lemma EmptyInputRejected(fieldName: string, original: string)
    ensures ValidateEmail("") == Reject(EmailRequired)
    ensures ValidateName("", fieldName) == Reject(fieldName + " is required")
    ensures ValidatePassword("") == Reject(PasswordRequired)
    ensures ValidateConfirmPassword("", original) == Reject(ConfirmRequired)
    ensures ValidatePhone("") == Reject(PhoneRequired)
    ensures ValidateOTP("") == Reject(OtpRequired)
  {
  }

  /** A character outside the local-part class, before any '@', rules a match out. */
  lemma BadLocalCharRejected(s: string, k: nat)
    requires k < |s| && !IsLocalChar(s[k]) && s[k] != '@'
    requires forall i | 0 <= i < k :: s[i] != '@'
    ensures !MatchesEmailPattern(s)
  {
  }

  /**
   * The addresses the test suite lists, against the email expression (which
   * `ValidateEmail` accepts exactly). Accepted: a plain address.
   */
  lemma EmailAcceptsPlainAddress()
    ensures MatchesEmailPattern("test@example.com")
  {
    assert EmailSplitAt("test@example.com", 4, 12);
  }

  /** Accepted: dots in the local part and in the domain; the split is at the last dot. */
  lemma EmailAcceptsDottedParts()
    ensures MatchesEmailPattern("user.name@domain.co.uk")
  {
    assert EmailSplitAt("user.name@domain.co.uk", 9, 19);
  }

  /** Accepted: a '+' tag in the local part. */
  lemma EmailAcceptsTag()
    ensures MatchesEmailPattern("user+tag@example.org")
  {
    assert EmailSplitAt("user+tag@example.org", 8, 16);
  }

  /** Accepted: a local part of digits only. */
  lemma EmailAcceptsDigits()
    ensures MatchesEmailPattern("123@test.com")
  {
    assert EmailSplitAt("123@test.com", 3, 8);
  }

  /** Rejected: among them a domain without a dot and a dot with nothing before it. */
  lemma EmailRejectedExamples()
    ensures !MatchesEmailPattern("invalid-email")
    ensures !MatchesEmailPattern("@domain.com")
    ensures !MatchesEmailPattern("user@")
    ensures !MatchesEmailPattern("user name@domain.com")
    ensures !MatchesEmailPattern("user@domain")
    ensures !MatchesEmailPattern("user@.com")
  {
    BadLocalCharRejected("user name@domain.com", 4);
  }

  /**
   * Names are letters and white space only: "Mary Jane" and even two spaces pass,
   * while "O'Connor" and "Jean-Pierre" fail on the apostrophe and the hyphen.
   */
  lemma NameExamples()
    ensures ValidateName("John", "First name").isValid
    ensures ValidateName("Mary Jane", "First name").isValid
    ensures ValidateName("  ", "First name").isValid
    ensures ValidateName("O'Connor", "First name") == Reject("First name" + " should only contain letters and spaces")
    ensures ValidateName("Jean-Pierre", "First name") == Reject("First name" + " should only contain letters and spaces")
    ensures ValidateName("A", "First name") == Reject("First name" + " must be at least 2 characters long")
    ensures !ValidateName("John123", "First name").isValid
    ensures !ValidateName("John@Doe", "First name").isValid
  {
    assert !IsNameChar("O'Connor"[1]);
    assert !IsNameChar("Jean-Pierre"[4]);
    assert !IsNameChar("John123"[4]);
    assert !IsNameChar("John@Doe"[4]);
  }

  /** Passwords from the test suite that pass: length, an upper-case and a lower-case letter, a digit. */
  lemma PasswordAcceptedExamples()
    ensures ValidatePassword("Password123").isValid
    ensures ValidatePassword("Test1234").isValid
  {
    assert IsAsciiUpper("Password123"[0]) && IsAsciiLower("Password123"[1]) && IsDigit("Password123"[8]);
    assert IsAsciiUpper("Test1234"[0]) && IsAsciiLower("Test1234"[1]) && IsDigit("Test1234"[4]);
  }

  /** Upper-case letters and the digit may sit anywhere, not only at the start. */
  lemma PasswordAcceptedMixedExample()
    ensures ValidatePassword("MySecure1Pass").isValid
  {
    assert IsAsciiUpper("MySecure1Pass"[0]) && IsAsciiLower("MySecure1Pass"[1]) && IsDigit("MySecure1Pass"[8]);
  }

  /** Rejected before any composition check: too short, whatever the password contains. */
  lemma PasswordTooShortExamples()
    ensures ValidatePassword("short") == Reject(PasswordTooShort)
    ensures ValidatePassword("short1A") == Reject(PasswordTooShort)
  {
  }

  /** Rejected: long enough but missing a class of character. */
  lemma PasswordTooWeakExamples()
    ensures ValidatePassword("password") == Reject(PasswordTooWeak)
    ensures ValidatePassword("PASSWORD123") == Reject(PasswordTooWeak)
    ensures ValidatePassword("Password") == Reject(PasswordTooWeak)
    ensures ValidatePassword("password123") == Reject(PasswordTooWeak)
  {
    assert !IsDigit("Password"[7]);
  }

  /** A trailing line break defeats the composition patterns, whose `.` does not match it. */
  lemma PasswordLineBreakExample()
    ensures ValidatePassword("Password123\n") == Reject(PasswordTooWeak)
  {
    assert IsLineTerminator("Password123\n"[11]);
  }

  /** For a string of digits alone the phone verdict is its length, between 8 and 15. */
  lemma PhoneOfDigits(phone: string)
    requires phone != "" && AllDigits(phone)
    ensures ValidatePhone(phone).isValid <==> 8 <= |phone| <= 15
  {
    DigitsOnlyKeepsDigits(phone);
  }

  /** For a string of digits alone the OTP verdict is its length, 5 or 6. */
  lemma OtpOfDigits(otp: string)
    requires otp != "" && AllDigits(otp)
    ensures ValidateOTP(otp).isValid <==> |otp| in {5, 6}
  {
    DigitsOnlyKeepsDigits(otp);
  }

  /** Characters other than digits before the number (a '+', a bracket) change nothing. */
  lemma PhoneIgnoresPrefix(prefix: string, phone: string)
    requires phone != ""
    requires forall i | 0 <= i < |prefix| :: !IsDigit(prefix[i])
    ensures ValidatePhone(prefix + phone) == ValidatePhone(phone)
  {
    DigitsOnlyAppend(prefix, phone);
    DigitsOnlyOfNoDigits(prefix);
  }

  /** A non-empty input without digits fails both digit checks. */
  lemma NoDigitsRejected(s: string)
    requires s != ""
    requires forall i | 0 <= i < |s| :: !IsDigit(s[i])
    ensures ValidatePhone(s) == Reject(PhoneLength)
    ensures ValidateOTP(s) == Reject(OtpInvalid)
  {
    DigitsOnlyOfNoDigits(s);
  }

  /** Phone numbers from the test suite: eight digits pass, seven fail. */
  lemma PhoneLengthExamples()
    ensures ValidatePhone("12345678").isValid
    ensures !ValidatePhone("1234567").isValid
  {
    PhoneOfDigits("12345678");
    PhoneOfDigits("1234567");
  }

  /** Thirteen digits pass. */
  lemma PhoneThirteenDigitsExample()
    ensures ValidatePhone("1234567890123").isValid
  {
    PhoneOfDigits("1234567890123");
  }

  /** Seventeen digits are too many. */
  lemma PhoneTooLongExample()
    ensures !ValidatePhone("12345678901234567").isValid
  {
    PhoneOfDigits("12345678901234567");
  }

  /** A leading '+' is not a digit, so it leaves the phone verdict alone. */
  lemma PlusPrefixIgnored()
    ensures ValidatePhone("+1234567890") == ValidatePhone("1234567890")
  {
    assert "+" + "1234567890" == "+1234567890";
    PhoneIgnoresPrefix("+", "1234567890");
  }

  /** Ten digits pass. */
  lemma PhoneTenDigitsExample()
    ensures ValidatePhone("1234567890").isValid
  {
    PhoneOfDigits("1234567890");
  }

  /** An international number written with a leading '+' passes on its ten digits. */
  lemma PhoneWithPlusExample()
    ensures ValidatePhone("+1234567890").isValid
  {
    PlusPrefixIgnored();
    PhoneTenDigitsExample();
  }

  /** Letters alone fail both digit checks. */
  lemma LettersOnlyExamples()
    ensures ValidatePhone("abcdefgh") == Reject(PhoneLength)
    ensures ValidateOTP("abcde") == Reject(OtpInvalid)
  {
    NoDigitsRejected("abcdefgh");
    NoDigitsRejected("abcde");
  }

  /** One-time codes from the test suite: five digits pass, three fail. */
  lemma OtpShortExamples()
    ensures ValidateOTP("12345").isValid
    ensures !ValidateOTP("123").isValid
  {
    OtpOfDigits("12345");
    OtpOfDigits("123");
  }

  /** Six digits pass, eight fail. */
  lemma OtpLongExamples()
    ensures ValidateOTP("567890").isValid
    ensures !ValidateOTP("12345678").isValid
  {
    OtpOfDigits("567890");
    OtpOfDigits("12345678");
  }

  /** For non-empty input the phone and OTP verdicts depend on nothing but the number of digits. */
  lemma VerdictsDependOnDigitCount(a: string, b: string)
    requires a != "" && b != "" && |DigitsOnly(a)| == |DigitsOnly(b)|
    ensures ValidatePhone(a) == ValidatePhone(b)
    ensures ValidateOTP(a) == ValidateOTP(b)
  {
  }

  // ---------------------------------------------------------------------------
  // Properties of the form check

  /** The first invalid verdict, wherever it is, supplies the first error. */
  lemma GetFirstErrorIsEarliest(results: seq<ValidationResult>, k: nat)
    requires k < |results| && !results[k].isValid
    requires forall j | 0 <= j < k :: results[j].isValid
    ensures GetFirstError(results) == results[k].errorMessage
  {
    var f := FirstInvalid(results);
    assert !(f < k) && !(k < f);
  }

  /** The form passes exactly when each of its six fields satisfies its rule. */
  lemma FormValidIff(data: UserRegistrationData)
    ensures IsFormValid(FormResults(data)) <==>
      && |data.firstName| >= 2 && AllNameChars(data.firstName)
      && |data.lastName| >= 2 && AllNameChars(data.lastName)
      && MatchesEmailPattern(data.email)
      && |data.password| >= 8 && HasUppercase(data.password) && HasLowercase(data.password) && HasDigit(data.password)
      && data.confirmPassword != "" && data.confirmPassword == data.password
      && data.phone != "" && 8 <= |DigitsOnly(data.phone)| <= 15
  {
    var rs := FormResults(data);
    assert IsFormValid(rs) <==> rs[0].isValid && rs[1].isValid && rs[2].isValid && rs[3].isValid && rs[4].isValid && rs[5].isValid;
  }

  /** A form that fails has a first error, and a form that passes has none. */
  lemma FormFirstErrorIffInvalid(data: UserRegistrationData)
    ensures GetFirstError(FormResults(data)).None? <==> IsFormValid(FormResults(data))
  {
    FirstErrorIffInvalid(FormResults(data));
  }

  /**
   * The order is first name, last name, email, password, confirmation, phone:
   * an empty first name is reported whatever else is wrong, as with the
   * test suite's invalid form.
   */
  lemma FirstNameErrorComesFirst(data: UserRegistrationData)
    requires data.firstName == ""
    ensures GetFirstError(FormResults(data)) == Some("First name" + " is required")
  {
    GetFirstErrorIsEarliest(FormResults(data), 0);
  }

  /** A freshly created form fails, on its first name. */
  lemma NewFormFailsOnFirstName()
    ensures !IsFormValid(FormResults(NewUserRegistrationData()))
    ensures GetFirstError(FormResults(NewUserRegistrationData())) == Some("First name" + " is required")
  {
    FirstNameErrorComesFirst(NewUserRegistrationData());
  }

  /** The fields of the test suite's valid form, each accepted. */
  lemma ValidFormFields()
    ensures ValidateName("John", "First name").isValid && ValidateName("Doe", "Last name").isValid
    ensures MatchesEmailPattern("john.doe@example.com")
  {
    assert EmailSplitAt("john.doe@example.com", 8, 16);
  }

  /** The test suite's valid form passes every check, so it has no first error. */
  lemma ValidFormExample()
    ensures var data := NewUserRegistrationData().(firstName := "John", lastName := "Doe",
      email := "john.doe@example.com", password := "Password123", confirmPassword := "Password123",
      phone := "1234567890");
      IsFormValid(FormResults(data)) && GetFirstError(FormResults(data)).None?
  {
    var data := NewUserRegistrationData().(firstName := "John", lastName := "Doe",
      email := "john.doe@example.com", password := "Password123", confirmPassword := "Password123",
      phone := "1234567890");
    ValidFormFields();
    PasswordAcceptedExamples();
    PhoneTenDigitsExample();
    assert ValidateEmail(data.email).isValid;
    FormFirstErrorIffInvalid(data);
  }
}
