/** The citizen login and sign-up page (src/pages/CitizenLogin.tsx): the
    one-time-code check of the phone number, the sign-up guards and the login
    redirect. `Math.random()` is a parameter in [0, 1); the code is only shown
    on the console, so "sending" it is a state change and nothing else. */
module CitizenLoginPage {
  import opened Types
  import opened Text
  import opened AuthContext

  /** Why a sign-up is refused before anything is sent. */
  datatype Refusal = PhoneNotVerified | PasswordMismatch | PasswordTooShort

  const MinPasswordLength: nat := 6
  const PhoneLength: nat := 10

  /** `/^[0-9]{10}$/`: exactly ten characters, each a decimal digit. */
  predicate ValidPhone(phone: string) {
    |phone| == PhoneLength && forall i :: 0 <= i < |phone| ==> IsDigit(phone[i])
  }

  /** A code of the shape handleSendOtp generates: six digits, no leading
      zero. */
  predicate IsOtpCode(code: string) {
    |code| == 6 && (forall i :: 0 <= i < |code| ==> IsDigit(code[i])) && code[0] != '0'
  }

  /** `Math.floor(100000 + Math.random() * 900000).toString()` over the reals:
      the decimal text of a number in 100000..999999. */
  function OtpCode(random: real): (code: string)
    requires 0.0 <= random < 1.0
    ensures IsOtpCode(code)
    ensures 100000 <= DecimalValue(code) <= 999999
  {
    var n := (100000.0 + random * 900000.0).Floor;
    assert random * 900000.0 < 900000.0;
    assert 100000 <= n <= 999999;
    SixDigitText(n);
    DecimalRoundTrip(n);
    NatToDecimal(n)
  }

  /** handleSignup's checks, in their order: a verified phone first, then the
      two password rules. `None` lets the sign-up proceed. */
  function SignupRefusal(otpVerified: bool, password: string, confirmPassword: string): (r: Option<Refusal>)
    ensures r.None? <==> otpVerified && password == confirmPassword && |password| >= MinPasswordLength
    ensures !otpVerified ==> r == Some(PhoneNotVerified)
    ensures otpVerified && password != confirmPassword ==> r == Some(PasswordMismatch)
    ensures r == Some(PasswordTooShort) ==> password == confirmPassword
  {
    if !otpVerified then Some(PhoneNotVerified)
    else if password != confirmPassword then Some(PasswordMismatch)
    else if |password| < MinPasswordLength then Some(PasswordTooShort)
    else None
  }

  /** `location.state?.from || '/citizen-dashboard'`: the page the user came
      from, or the citizen dashboard when there is none or it is empty. */
  function LoginTarget(from: Option<string>): (target: string)
    ensures target != ""
    ensures from.Some? && from.value != "" ==> target == from.value
    ensures from.None? || from.value == "" ==> target == CitizenDashboardPath
  {
    if from.Some? && from.value != "" then from.value else CitizenDashboardPath
  }

  class CitizenLogin {
    var loading: bool
    var loginUsername: string
    var loginPassword: string
    var signupUsername: string
    var signupPassword: string
    var signupConfirm: string
    var phone: string
    var otp: string
    var generatedOtp: string
    var otpSent: bool
    var otpVerified: bool

    /** A code exists once one was sent, and a phone is verified only after a
        code was sent. */
    predicate Valid()
      reads this
    {
      (otpSent ==> IsOtpCode(generatedOtp)) && (otpVerified ==> otpSent)
    }

    constructor ()
      ensures Valid() && !otpSent && !otpVerified && !loading
      ensures phone == "" && otp == "" && generatedOtp == ""
      ensures loginUsername == "" && loginPassword == ""
      ensures signupUsername == "" && signupPassword == "" && signupConfirm == ""
    {
      loading, loginUsername, loginPassword := false, "", "";
      signupUsername, signupPassword, signupConfirm := "", "", "";
      phone, otp, generatedOtp, otpSent, otpVerified := "", "", "", false, false;
    }

    /** The code field and its Verify button are rendered only after a code
        was sent and before the phone is verified. */
    predicate ShowsOtpField()
      reads this
    {
      otpSent && !otpVerified
    }

    /** The phone field's onChange; the field is disabled once verified. */
    method EditPhone(value: string)
      requires Valid()
      modifies this
      ensures Valid()
      ensures phone == if old(otpVerified) then old(phone) else value
      ensures otp == old(otp) && generatedOtp == old(generatedOtp)
      ensures otpSent == old(otpSent) && otpVerified == old(otpVerified) && loading == old(loading)
      ensures signupUsername == old(signupUsername) && signupPassword == old(signupPassword) && signupConfirm == old(signupConfirm)
      ensures loginUsername == old(loginUsername) && loginPassword == old(loginPassword)
    {
      if !otpVerified {
        phone := value;
      }
    }

    /** The code field's onChange; the field exists only while it is shown. */
    method EditOtp(value: string)
      requires Valid()
      modifies this
      ensures Valid()
      ensures otp == if old(ShowsOtpField()) then value else old(otp)
      ensures phone == old(phone) && generatedOtp == old(generatedOtp)
      ensures otpSent == old(otpSent) && otpVerified == old(otpVerified) && loading == old(loading)
      ensures signupUsername == old(signupUsername) && signupPassword == old(signupPassword) && signupConfirm == old(signupConfirm)
      ensures loginUsername == old(loginUsername) && loginPassword == old(loginPassword)
    {
      if otpSent && !otpVerified {
        otp := value;
      }
    }

    /** handleSendOtp: with a valid phone a fresh six-digit code is generated
        and the code counts as sent; an invalid phone changes nothing. The Send
        button is disabled once verified. */
    method HandleSendOtp(random: real) returns (sent: bool)
      requires Valid() && 0.0 <= random < 1.0
      modifies this
      ensures Valid()
      ensures sent <==> !old(otpVerified) && ValidPhone(old(phone))
      ensures sent ==> generatedOtp == OtpCode(random) && otpSent
      ensures !sent ==> generatedOtp == old(generatedOtp) && otpSent == old(otpSent)
      ensures phone == old(phone) && otp == old(otp) && otpVerified == old(otpVerified)
      ensures loading == old(loading)
      ensures signupUsername == old(signupUsername) && signupPassword == old(signupPassword) && signupConfirm == old(signupConfirm)
      ensures loginUsername == old(loginUsername) && loginPassword == old(loginPassword)
    {
      if otpVerified || !ValidPhone(phone) {
        return false;
      }
      generatedOtp := OtpCode(random);
      otpSent := true;
      sent := true;
    }

    /** handleVerifyOtp: the phone is verified exactly when the trimmed input
        equals the generated code. A wrong code changes nothing, so a verified
        phone stays verified; the button exists only while the code field is
        shown. */
    method HandleVerifyOtp() returns (ok: bool)
      requires Valid()
      modifies this
      ensures Valid()
      ensures ok <==> old(ShowsOtpField()) && Trim(otp) == generatedOtp
      ensures otpVerified == (old(otpVerified) || ok)
      ensures ok ==> IsOtpCode(Trim(otp))
      ensures phone == old(phone) && otp == old(otp) && generatedOtp == old(generatedOtp)
      ensures otpSent == old(otpSent) && loading == old(loading)
      ensures signupUsername == old(signupUsername) && signupPassword == old(signupPassword) && signupConfirm == old(signupConfirm)
      ensures loginUsername == old(loginUsername) && loginPassword == old(loginPassword)
    {
      if !(otpSent && !otpVerified) {
        return false;
      }
      ok := Trim(otp) == generatedOtp;
      if ok {
        assert IsOtpCode(generatedOtp);
        otpVerified := true;
      }
    }

    /** handleSignup: a refused sign-up sends nothing and changes nothing;
        otherwise a citizen sign-up is requested, and the citizen dashboard
        follows only when it succeeds. */
    method HandleSignup(serviceError: Option<string>)
      returns (refusal: Option<Refusal>, request: Option<AuthRequest>, nav: Option<string>)
      requires Valid()
      modifies this
      ensures Valid()
      ensures refusal == SignupRefusal(old(otpVerified), old(signupPassword), old(signupConfirm))
      ensures refusal.Some? ==> request.None? && nav.None? && loading == old(loading)
      ensures refusal.None? ==>
                request == Some(SignUpWithUsername(signupUsername, signupPassword, serviceError).request)
                && !loading
      ensures nav.Some? <==> refusal.None? && serviceError.None?
      ensures nav.Some? ==> nav.value == CitizenDashboardPath
      ensures phone == old(phone) && otp == old(otp) && generatedOtp == old(generatedOtp)
      ensures otpSent == old(otpSent) && otpVerified == old(otpVerified)
      ensures signupUsername == old(signupUsername) && signupPassword == old(signupPassword) && signupConfirm == old(signupConfirm)
      ensures loginUsername == old(loginUsername) && loginPassword == old(loginPassword)
    {
      refusal := SignupRefusal(otpVerified, signupPassword, signupConfirm);
      if refusal.Some? {
        return refusal, None, None;
      }
      loading := true;
      var call := SignUpWithUsername(signupUsername, signupPassword, serviceError);
      request := Some(call.request);
      nav := if call.error.None? then Some(CitizenDashboardPath) else None;
      loading := false;
    }

    /** handleLogin: signs in with the login fields; on success it goes back
        to the page the user came from, or to the citizen dashboard. */
    method HandleLogin(from: Option<string>, serviceError: Option<string>)
      returns (request: AuthRequest, nav: Option<string>)
      modifies this
      ensures request == SignInWithUsername(loginUsername, loginPassword, serviceError).request
      ensures nav.Some? <==> serviceError.None?
      ensures nav.Some? ==> nav.value == LoginTarget(from)
      ensures !loading
      ensures loginUsername == old(loginUsername) && loginPassword == old(loginPassword)
      ensures phone == old(phone) && otp == old(otp) && generatedOtp == old(generatedOtp)
      ensures otpSent == old(otpSent) && otpVerified == old(otpVerified)
      ensures signupUsername == old(signupUsername) && signupPassword == old(signupPassword) && signupConfirm == old(signupConfirm)
    {
      loading := true;
      var call := SignInWithUsername(loginUsername, loginPassword, serviceError);
      request := call.request;
      nav := if call.error.None? then Some(LoginTarget(from)) else None;
      loading := false;
    }
  }
}
