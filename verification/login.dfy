/**
 * The login screen: form validation, the reading of the login endpoint's
 * reply, the user id fallback derived from the contact number, and what
 * `handleSubmit` stores and shows.
 */
module Login {
  import opened Wrappers
  import Text
  import Http
  import Greeting

  // ---- validateForm ----

  /** The first failing check's message, or `None` when the form may be sent. */
  function ValidateForm(contactNumber: string, password: string): (error: Option<string>)
    ensures error == None <==> |contactNumber| == 10 && Text.AllDigits(contactNumber) && |password| >= 6
    ensures error == Some("Contact number is required") <==> Text.IsBlank(contactNumber)
    ensures error == Some("Please enter a valid 10-digit contact number") <==>
      !Text.IsBlank(contactNumber) && !(|contactNumber| == 10 && Text.AllDigits(contactNumber))
    ensures error == Some("Password is required") <==>
      |contactNumber| == 10 && Text.AllDigits(contactNumber) && password == ""
    ensures error == Some("Password must be at least 6 characters long") <==>
      |contactNumber| == 10 && Text.AllDigits(contactNumber) && 0 < |password| < 6
  {
    assert |contactNumber| == 10 && Text.AllDigits(contactNumber) ==> !Text.IsSpace(contactNumber[0]);
    if Text.IsBlank(contactNumber) then Some("Contact number is required")
    else if |contactNumber| != 10 || !(contactNumber != "" && Text.AllDigits(contactNumber)) then
      Some("Please enter a valid 10-digit contact number")
    else if password == "" then Some("Password is required")
    else if |password| < 6 then Some("Password must be at least 6 characters long")
    else None
  }

  /** The body `handleSubmit` posts: the password as typed and the trimmed contact number. */
  datatype LoginRequest = LoginRequest(password: string, contactnumber: string)

  function LoginData(contactNumber: string, password: string): LoginRequest {
    LoginRequest(password, Text.Trim(contactNumber))
  }

  /** Only a form that passes validation is posted, and its contact number is already free of white space. */
  lemma LoginDataOfValidForm(contactNumber: string, password: string)
    requires ValidateForm(contactNumber, password) == None
    ensures LoginData(contactNumber, password) == LoginRequest(password, contactNumber)
    ensures |LoginData(contactNumber, password).password| >= 6
  {
    assert |contactNumber| == 10 && Text.AllDigits(contactNumber);
    assert Text.IsDigit(contactNumber[0]) && Text.IsDigit(contactNumber[9]);
    Text.TrimOfTrimmed(contactNumber);
  }

  // ---- Reading the reply ----

  /** The string replies `handleSubmit` treats as a failed login. */
  predicate IsRejection(body: string) {
    body == "Invalid contact number or password" || body == "Failed, Something Went Wrong" ||
    Text.Contains(body, "Failed") || Text.Contains(body, "Invalid")
  }

  /** The two exact messages are caught by the substring tests anyway: a reply is rejected iff it includes "Failed" or "Invalid". */
  lemma RejectionIsSubstring(body: string)
    ensures IsRejection(body) <==> Text.Contains(body, "Failed") || Text.Contains(body, "Invalid")
  {
    if body == "Invalid contact number or password" {
      assert "Invalid" <= body;
    } else if body == "Failed, Something Went Wrong" {
      assert "Failed" <= body;
    }
  }

  /** `extractCleanUsername`, one reassignment per step: "" for "", else trim and strip the greeting. */
  method ExtractCleanUsername(welcomeMessage: string) returns (username: string)
    ensures welcomeMessage == "" ==> username == ""
    ensures welcomeMessage != "" ==> username == Greeting.StripWelcome(Text.Trim(welcomeMessage))
  {
    if welcomeMessage == "" {
      return "";
    }
    username := Text.Trim(welcomeMessage);
    if Greeting.HasWelcome(username) {
      username := Text.Trim(username[|Greeting.WelcomePrefix|..]);
    }
    if Text.EndsWith(username, '!') {
      username := Text.Trim(username[..|username| - 1]);
    }
  }

  /** The name a greeting reply carries. */
  function CleanName(welcomeMessage: string): string {
    if welcomeMessage == "" then "" else Greeting.StripWelcome(Text.Trim(welcomeMessage))
  }

  // ---- generateUserIdFromContact ----

  const TwoTo31 := 0x8000_0000
  const TwoTo32 := 0x1_0000_0000

  predicate IsInt32(x: int) {
    -TwoTo31 <= x < TwoTo31
  }

  /** JavaScript's ToInt32: the value modulo 2^32, read as a signed 32-bit integer. */
  function ToInt32(x: int): (r: int)
    ensures IsInt32(r)
  {
    (x + TwoTo31) % TwoTo32 - TwoTo31
  }

  /** `hash = ((hash << 5) - hash) + char; hash = hash & hash`, as written: the shift wraps, the subtraction and addition do not, the `&` wraps. */
  function HashStep(hash: int, code: int): int {
    ToInt32(ToInt32(hash * 32) - hash + code)
  }

  /** ToInt32 only sees its argument modulo 2^32. */
  lemma ToInt32Periodic(x: int, k: int)
    ensures ToInt32(x + k * TwoTo32) == ToInt32(x)
  {
    var a := x + TwoTo31;
    assert (a + k * TwoTo32) % TwoTo32 == a % TwoTo32 by {
      var q, r := a / TwoTo32, a % TwoTo32;
      assert a + k * TwoTo32 == (q + k) * TwoTo32 + r;
    }
  }

  lemma ToInt32Wraps(x: int)
    ensures exists k :: ToInt32(x) == x + k * TwoTo32
  {
    var a := x + TwoTo31;
    assert ToInt32(x) == x + (-(a / TwoTo32)) * TwoTo32;
  }

  /** One step is the usual string hash step: 31·hash + code, wrapped to 32 bits. */
  lemma HashStepIs31(hash: int, code: int)
    ensures HashStep(hash, code) == ToInt32(31 * hash + code)
  {
    ToInt32Wraps(hash * 32);
    var k :| ToInt32(hash * 32) == hash * 32 + k * TwoTo32;
    ToInt32Periodic(31 * hash + code, k);
  }

  /** The hash the loop leaves, character by character from the left. */
  function ContactHash(contact: string): (h: int)
    ensures IsInt32(h)
    decreases |contact|
  {
    if contact == [] then 0
    else HashStep(ContactHash(contact[..|contact| - 1]), contact[|contact| - 1] as int)
  }

  /** The polynomial Σ code(c_i)·31^(n-1-i), unbounded. */
  function Polynomial(contact: string): int
    decreases |contact|
  {
    if contact == [] then 0 else 31 * Polynomial(contact[..|contact| - 1]) + contact[|contact| - 1] as int
  }

  /** The loop computes the polynomial hash modulo 2^32, read as signed. */
  lemma {:induction false} ContactHashIsPolynomial(contact: string)
    ensures ContactHash(contact) == ToInt32(Polynomial(contact))
    decreases |contact|
  {
    if contact != [] {
      var init := contact[..|contact| - 1];
      var code := contact[|contact| - 1] as int;
      var h, p := ContactHash(init), Polynomial(init);
      ContactHashIsPolynomial(init);
      ToInt32Wraps(p);
      var k :| h == p + k * TwoTo32;
      calc {
        ContactHash(contact);
        HashStep(h, code);
        { HashStepIs31(h, code); }
        ToInt32(31 * h + code);
        { ScaledWrap(p, k, code); }
        ToInt32(31 * p + code + (31 * k) * TwoTo32);
        { ToInt32Periodic(31 * p + code, 31 * k); }
        ToInt32(31 * p + code);
        ToInt32(Polynomial(contact));
      }
    }
  }

  /** Scaling a value that is off by k·2^32 scales the offset. */
  lemma ScaledWrap(p: int, k: int, code: int)
    ensures 31 * (p + k * TwoTo32) + code == 31 * p + code + (31 * k) * TwoTo32
  {
    assert 31 * (k * TwoTo32) == (31 * k) * TwoTo32;
  }

  function Abs(x: int): nat {
    if x < 0 then -x else x
  }

  /** JavaScript's `%`: the remainder of the magnitudes, with the sign of the dividend. */
  function JsRem(a: int, b: int): (r: int)
    requires b > 0
    ensures Abs(r) == Abs(a) % b
    ensures (a >= 0 ==> r >= 0) && (a < 0 ==> r <= 0)
  {
    if a >= 0 then a % b else -((-a) % b)
  }

  /** `Math.abs(hash % 999) + 2`. */
  function FallbackNumber(contact: string): (n: int)
    ensures 2 <= n <= 1000
  {
    Abs(JsRem(ContactHash(contact), 999)) + 2
  }

  /** `generateUserIdFromContact`: "1" for an empty contact, otherwise the fallback number in decimal. */
  function FallbackUserId(contact: string): string {
    if contact == "" then "1" else Text.Decimal(FallbackNumber(contact))
  }

  /** The loop of `generateUserIdFromContact`. */
  method GenerateUserIdFromContact(contactNumber: string) returns (userId: string)
    ensures userId == FallbackUserId(contactNumber)
  {
    if contactNumber == "" {
      return "1";
    }
    var hash := 0;
    for i := 0 to |contactNumber|
      invariant hash == ContactHash(contactNumber[..i])
    {
      var code := contactNumber[i] as int;
      var shifted := ToInt32(hash * 32);
      hash := shifted - hash + code;
      hash := ToInt32(hash);
      assert contactNumber[..i + 1][..i] == contactNumber[..i];
    }
    assert contactNumber[..|contactNumber|] == contactNumber;
    userId := Text.Decimal(Abs(JsRem(hash, 999)) + 2);
  }

  /** A contact number always yields an id of one to four digits that reads as 2..1000, never "1". */
  lemma FallbackIdShape(contact: string)
    requires contact != ""
    ensures var id := FallbackUserId(contact);
      1 <= |id| <= 4 && Text.AllDigits(id) && 2 <= Text.DigitsValue(id) <= 1000 && id != "1"
  {
    var n := FallbackNumber(contact);
    Text.DigitsValueOfDecimal(n);
    assert Text.DigitsValue("1") == 1;
  }

  // ---- handleSubmit ----

  /** What the login endpoint sent back: a string body, a body of another type, or a failure. */
  datatype LoginReply = TextReply(body: string) | OtherReply | FailedReply(failure: Http.Failure)

  /** The user-details lookup's answer; a missing field is "". */
  datatype UserDetails = UserDetails(userId: string, username: string)

  /** The user `handleSubmit` stores. */
  datatype SignedInUser = SignedInUser(userId: string, username: string, contactNumber: string, isLoggedIn: bool)

  datatype ToastKind = Success | Error
  datatype Toast = Toast(message: string, kind: ToastKind)

  /** The `catch` of `handleSubmit`. */
  function LoginFailureMessage(f: Http.Failure): string {
    match f
    case Response(status, _) =>
      if status == 400 || status == 401 then "Invalid contact number or password"
      else "Server error (" + Text.Decimal(status) + ")"
    case NoResponse => Http.NetworkError
    case Unexpected => "Login failed. Please try again."
  }

  /** 400 and 401 read as bad credentials; every other status names itself. */
  lemma LoginFailureMessages(status: nat, data: string)
    ensures status == 400 || status == 401 ==>
      LoginFailureMessage(Http.Response(status, data)) == "Invalid contact number or password"
    ensures status != 400 && status != 401 ==>
      var m := LoginFailureMessage(Http.Response(status, data));
      m[..14] == "Server error (" && Text.DigitsValue(m[14..|m| - 1]) == status
  {
    if status != 400 && status != 401 {
      var m := LoginFailureMessage(Http.Response(status, data));
      assert m[14..|m| - 1] == Text.Decimal(status);
      Text.DigitsValueOfDecimal(status);
    }
  }

  /** The user id `handleSubmit` settles on: the backend's, else the fallback, else "1". */
  function SignedInUserId(contactNumber: string, details: Option<UserDetails>): string {
    var userId := if details.Some? && details.value.userId != "" then details.value.userId
      else FallbackUserId(contactNumber);
    if userId != "" then userId else "1"
  }

  /** The name `handleSubmit` settles on: the backend's, else the one in the greeting. */
  function SignedInName(body: string, details: Option<UserDetails>): string {
    if details.Some? && details.value.userId != "" && details.value.username != "" then details.value.username
    else CleanName(body)
  }

  /** The backend id wins; without it a contact number gets its hash id, which is never "1". */
  lemma SignedInUserIdCases(contactNumber: string, details: Option<UserDetails>)
    ensures details.Some? && details.value.userId != "" ==> SignedInUserId(contactNumber, details) == details.value.userId
    ensures !(details.Some? && details.value.userId != "") && contactNumber != "" ==>
      SignedInUserId(contactNumber, details) == FallbackUserId(contactNumber) &&
      SignedInUserId(contactNumber, details) != "1"
  {
    if contactNumber != "" {
      FallbackIdShape(contactNumber);
    }
  }

  /** The login form and what the screen shows and stores. */
  class LoginScreen {
    var contactNumber: string
    var password: string
    var error: string
    var toast: Option<Toast>
    var storedUser: Option<SignedInUser>
    var showPassword: bool

    constructor ()
      ensures contactNumber == "" && password == "" && error == "" && toast == None && storedUser == None
      ensures !showPassword
    {
      contactNumber := "";
      password := "";
      error := "";
      toast := None;
      storedUser := None;
      showPassword := false;
    }

    /** `togglePasswordVisibility`. */
    method TogglePasswordVisibility()
      modifies this
      ensures showPassword == !old(showPassword)
      ensures contactNumber == old(contactNumber) && password == old(password) && error == old(error)
      ensures toast == old(toast) && storedUser == old(storedUser)
    {
      showPassword := !showPassword;
    }

    /** `handleChange`: set one field; any pending error is cleared. */
    method HandleChange(isContact: bool, value: string)
      modifies this
      ensures isContact ==> contactNumber == value && password == old(password)
      ensures !isContact ==> password == value && contactNumber == old(contactNumber)
      ensures error == "" && toast == old(toast) && storedUser == old(storedUser) && showPassword == old(showPassword)
    {
      if isContact {
        contactNumber := value;
      } else {
        password := value;
      }
      error := "";
    }

    /**
     * `handleSubmit`, with the login reply and the user-details answer as
     * parameters. An invalid form sets the error and sends nothing. A string
     * reply that reads as a rejection shows "Invalid Credentials"; any other
     * string signs the user in, stores the user and clears the form. A reply
     * of another type changes nothing more.
     */
    method HandleSubmit(reply: LoginReply, details: Option<UserDetails>)
      modifies this
      ensures showPassword == old(showPassword)
      ensures var invalid := ValidateForm(old(contactNumber), old(password));
        invalid.Some? ==>
          error == invalid.value && toast == old(toast) && storedUser == old(storedUser) &&
          contactNumber == old(contactNumber) && password == old(password)
      ensures ValidateForm(old(contactNumber), old(password)) == None ==> (error == "" && (
        match reply
        case TextReply(body) =>
          if IsRejection(body) then
            toast == Some(Toast("Invalid Credentials", Error)) && storedUser == old(storedUser) &&
            contactNumber == old(contactNumber) && password == old(password)
          else
            var name := SignedInName(body, details);
            storedUser == Some(SignedInUser(SignedInUserId(old(contactNumber), details), name, old(contactNumber), true)) &&
            toast == Some(Toast("Welcome " + name + "!", Success)) &&
            contactNumber == "" && password == ""
        case OtherReply =>
          toast == None && storedUser == old(storedUser) &&
          contactNumber == old(contactNumber) && password == old(password)
        case FailedReply(f) =>
          toast == Some(Toast(LoginFailureMessage(f), Error)) && storedUser == old(storedUser) &&
          contactNumber == old(contactNumber) && password == old(password)))
    {
      var invalid := ValidateForm(contactNumber, password);
      if invalid.Some? {
        error := invalid.value;
        return;
      }
      error := "";
      toast := None;
      match reply {
        case TextReply(body) =>
          if IsRejection(body) {
            toast := Some(Toast("Invalid Credentials", Error));
            return;
          }
          var cleanUsername := ExtractCleanUsername(body);
          var userId := "";
          var finalUsername := cleanUsername;
          if details.Some? && details.value.userId != "" {
            userId := details.value.userId;
            finalUsername := if details.value.username != "" then details.value.username else cleanUsername;
          } else {
            userId := GenerateUserIdFromContact(contactNumber);
          }
          storedUser := Some(SignedInUser(if userId != "" then userId else "1", finalUsername, contactNumber, true));
          toast := Some(Toast("Welcome " + finalUsername + "!", Success));
          contactNumber := "";
          password := "";
        case OtherReply =>
        case FailedReply(f) =>
          toast := Some(Toast(LoginFailureMessage(f), Error));
      }
    }
  }
}
