/** Educator self-registration: the field rules of the registration form, and the two-step
    flow that first registers the account and then confirms it with a one-time code sent
    by e-mail. */
module Register {
  import opened Text
  import opened JsValue

  // ---------------------------------------------------------------------------------
  // Field rules. A rule list passes when `required` holds (the value is not empty) and
  // every other rule holds; length rules count characters.

  /** `{ required: true }, { min: n }` */
  predicate MinLengthRule(value: string, min: nat) {
    value != "" && |value| >= min
  }

  predicate FullNameAccepted(fullName: string) {
    MinLengthRule(fullName, 2)
  }

  predicate UsernameAccepted(username: string) {
    MinLengthRule(username, 3)
  }

  predicate PasswordAccepted(password: string) {
    MinLengthRule(password, 6)
  }

  predicate IsAsciiDigit(c: char) {
    '0' <= c <= '9'
  }

  /** The length of the longest run of ASCII digits at the start of `s`: what `[0-9]*`
      anchored at the start consumes. */
  function LeadingDigits(s: string): (n: nat)
    ensures n <= |s|
    ensures forall i :: 0 <= i < n ==> IsAsciiDigit(s[i])
    ensures n < |s| ==> !IsAsciiDigit(s[n])
  {
    if s == [] || !IsAsciiDigit(s[0]) then 0
    else
      var n := 1 + LeadingDigits(s[1..]);
      assert forall i :: 1 <= i < n ==> s[i] == s[1..][i - 1];
      n
  }

  /** `/^[0-9]{10,11}$/.test(phone)` for a required phone: the digit run must reach the end
      of the text and hold 10 or 11 digits. */
  function PhoneAccepted(phone: string): (ok: bool)
    ensures ok <==> 10 <= |phone| <= 11 && forall i :: 0 <= i < |phone| ==> IsAsciiDigit(phone[i])
  {
    var run := LeadingDigits(phone);
    run == |phone| && 10 <= run <= 11
  }

  /** The confirmation's own validator: `!value || getFieldValue('password') === value`. */
  predicate ConfirmValidator(value: string, password: string) {
    value == "" || value == password
  }

  /** The confirmation field as a whole, with its `required` rule: it must repeat the
      password, which then cannot be empty either. */
  function ConfirmAccepted(value: string, password: string): (ok: bool)
    ensures ok <==> value != "" && value == password
    ensures ok ==> ConfirmValidator(value, password)
  {
    value != "" && ConfirmValidator(value, password)
  }

  /** `{ required: true }, { len: 6 }` */
  predicate OtpAccepted(otp: string) {
    otp != "" && |otp| == 6
  }

  /** The values of the registration form. `birthday` is the chosen date as printed in the
      payload's format, `None` when no date is chosen. */
  datatype RegisterValues = RegisterValues(
    fullName: string, username: string, email: string, phone: string,
    birthday: Option<string>, password: string, confirmPassword: string)

  /** Every rule of the registration form holds. `emailWellFormed` is the verdict of the
      e-mail type rule, whose pattern is not modelled. */
  predicate RegisterFormValid(v: RegisterValues, emailWellFormed: bool) {
    && FullNameAccepted(v.fullName)
    && UsernameAccepted(v.username)
    && v.email != "" && emailWellFormed
    && PhoneAccepted(v.phone)
    && v.birthday.Some?
    && PasswordAccepted(v.password)
    && ConfirmAccepted(v.confirmPassword, v.password)
  }

  /** A form that passes has a password of at least six characters, repeated exactly. */
  lemma ValidFormPassword(v: RegisterValues, emailWellFormed: bool)
    requires RegisterFormValid(v, emailWellFormed)
    ensures |v.password| >= 6 && v.confirmPassword == v.password
  {
  }

  datatype RegisterPayload = RegisterPayload(
    fullName: string, username: string, email: string, password: string, phone: string, birthday: string)

  /** The one-time-code request carries exactly the registration's `idHash` and the code. */
  datatype OtpPayload = OtpPayload(idHash: Value, otp: string)

  /** How the registration call ends: a body with `result === true`, with its `message` and
      `data.idHash` ('' and `undefined` when absent); a body without it, with its `message`;
      or a thrown error, with `err.response.data.message` and `err.message`. */
  datatype RegisterOutcome =
    | Registered(message: string, idHash: Value)
    | Refused(message: string)
    | Errored(bodyMessage: string, message: string)

  /** How the code check ends, with `err.message` of a failure. */
  datatype OtpOutcome = Verified | OtpFailed(message: string)

  datatype FlowStep = RegisterStep | OtpStep

  datatype Message = Success(text: string) | Error(text: string)

  /** `text || fallback` on a string. */
  function OrElse(text: string, fallback: string): (r: string)
    ensures text != "" ==> r == text
    ensures text == "" ==> r == fallback
  {
    if text != "" then text else fallback
  }

  class RegisterFlow {
    var step: FlowStep
    var email: string
    var idHash: Value
    var messages: seq<Message>
    var navigatedTo: Option<string>

    /** The code step is reached only with the e-mail the account was registered with. */
    predicate Valid()
      reads this
    {
      step == OtpStep ==> email != ""
    }

    constructor ()
      ensures Valid()
      ensures step == RegisterStep && email == "" && idHash == Str("") && messages == [] && navigatedTo.None?
    {
      step := RegisterStep;
      email := "";
      idHash := Str("");
      messages := [];
      navigatedTo := None;
    }

    /** The registration form is submitted: nothing is sent unless every rule holds;
        otherwise the account is registered and, on success, the flow moves to the code step
        holding the e-mail and the `idHash` returned. Each outcome shows two messages: the
        registration hook's own, then the page's. */
    method SubmitRegister(v: RegisterValues, emailWellFormed: bool, outcome: RegisterOutcome)
      returns (sent: Option<RegisterPayload>)
      requires Valid()
      modifies this
      ensures Valid()
      ensures sent.Some? <==> RegisterFormValid(v, emailWellFormed)
      ensures sent.Some? ==> sent.value == RegisterPayload(v.fullName, v.username, v.email, v.password, v.phone, v.birthday.value)
      ensures sent.Some? && outcome.Registered? ==>
        step == OtpStep && email == v.email && idHash == outcome.idHash
        && messages == old(messages) + [Success(OrElse(outcome.message, "Đăng ký thành công")),
                                        Success(OrElse(outcome.message, "Đăng ký thành công!"))]
      ensures sent.Some? && !outcome.Registered? ==>
        step == old(step) && email == old(email) && idHash == old(idHash)
      ensures sent.Some? && outcome.Refused? ==>
        messages == old(messages) + [Error(OrElse(outcome.message, "Đăng ký thất bại")),
                                     Error(OrElse(outcome.message, "Đăng ký thất bại!"))]
      ensures sent.Some? && outcome.Errored? ==>
        messages == old(messages) + [Error(OrElse(outcome.bodyMessage, OrElse(outcome.message, "Lỗi không xác định"))),
                                     Error(OrElse(outcome.message, "Đăng ký thất bại!"))]
      ensures sent.None? ==> step == old(step) && email == old(email) && idHash == old(idHash) && messages == old(messages)
      ensures navigatedTo == old(navigatedTo)
    {
      if !RegisterFormValid(v, emailWellFormed) {
        return None;
      }
      sent := Some(RegisterPayload(v.fullName, v.username, v.email, v.password, v.phone, v.birthday.value));
      match outcome {
        case Registered(message, hash) =>
          messages := messages + [Success(OrElse(message, "Đăng ký thành công")), Success(OrElse(message, "Đăng ký thành công!"))];
          email := v.email;
          idHash := hash;
          step := OtpStep;
        case Refused(message) =>
          messages := messages + [Error(OrElse(message, "Đăng ký thất bại")), Error(OrElse(message, "Đăng ký thất bại!"))];
        case Errored(bodyMessage, message) =>
          messages := messages + [Error(OrElse(bodyMessage, OrElse(message, "Lỗi không xác định"))),
                                  Error(OrElse(message, "Đăng ký thất bại!"))];
      }
    }

    /** The code form, shown only at the code step, is submitted: nothing is sent unless
        the code has six characters; otherwise the code is checked against the stored
        `idHash`, and a success leads to the login page. */
    method SubmitOtp(otp: string, outcome: OtpOutcome) returns (sent: Option<OtpPayload>)
      requires Valid() && step == OtpStep
      modifies this
      ensures Valid()
      ensures sent.Some? <==> OtpAccepted(otp)
      ensures sent.Some? ==> sent.value == OtpPayload(old(idHash), otp)
      ensures sent.Some? && outcome.Verified? ==>
        navigatedTo == Some("/login") && messages == old(messages) + [Success("Xác thực OTP thành công!")]
      ensures sent.Some? && outcome.OtpFailed? ==>
        navigatedTo == old(navigatedTo)
        && messages == old(messages) + [Error(if outcome.message != "" then outcome.message else "Xác thực OTP thất bại!")]
      ensures sent.None? ==> navigatedTo == old(navigatedTo) && messages == old(messages)
      ensures step == old(step) && email == old(email) && idHash == old(idHash)
    {
      if !OtpAccepted(otp) {
        return None;
      }
      sent := Some(OtpPayload(idHash, otp));
      match outcome {
        case Verified =>
          messages := messages + [Success("Xác thực OTP thành công!")];
          navigatedTo := Some("/login");
        case OtpFailed(message) =>
          messages := messages + [Error(if message != "" then message else "Xác thực OTP thất bại!")];
      }
    }
  }
}
