/**
 * The sign-up screen, as values: the form, its validation, the request it
 * posts, and the screen state `handleSubmit` leaves for each reply.
 */
module Signup {
  import opened Wrappers
  import Text
  import Http

  datatype Form = Form(username: string, contactNumber: string, password: string, confirmPassword: string)

  const EmptyForm := Form("", "", "", "")

  datatype Field = Username | ContactNumber | Password | ConfirmPassword

  /** What the screen holds besides the loading flag. */
  datatype Screen = Screen(form: Form, error: string, successMessage: string, showSuccessTooltip: bool,
                           showPassword: bool, showConfirmPassword: bool)

  const InitialScreen := Screen(EmptyForm, "", "", false, false, false)

  // ---- validateForm ----

  predicate ContactValid(contactNumber: string) {
    |contactNumber| == 10 && Text.AllDigits(contactNumber)
  }

  /** A form `validateForm` lets through. */
  predicate FormValid(form: Form) {
    !Text.IsBlank(form.username) && ContactValid(form.contactNumber) &&
    |form.password| >= 6 && form.password == form.confirmPassword
  }

  /** The first failing check's message, or `None` when the form may be sent. */
  function ValidateForm(form: Form): (error: Option<string>)
    ensures error == None <==> FormValid(form)
    ensures error == Some("Username is required") <==> Text.IsBlank(form.username)
    ensures error == Some("Contact number is required") <==>
      !Text.IsBlank(form.username) && Text.IsBlank(form.contactNumber)
    ensures error == Some("Please enter a valid 10-digit contact number") <==>
      !Text.IsBlank(form.username) && !Text.IsBlank(form.contactNumber) && !ContactValid(form.contactNumber)
    ensures error == Some("Password is required") <==>
      !Text.IsBlank(form.username) && ContactValid(form.contactNumber) && form.password == ""
    ensures error == Some("Password must be at least 6 characters long") <==>
      !Text.IsBlank(form.username) && ContactValid(form.contactNumber) && 0 < |form.password| < 6
    ensures error == Some("Passwords do not match") <==>
      !Text.IsBlank(form.username) && ContactValid(form.contactNumber) && |form.password| >= 6 &&
      form.password != form.confirmPassword
  {
    assert ContactValid(form.contactNumber) ==> !Text.IsSpace(form.contactNumber[0]);
    if Text.IsBlank(form.username) then Some("Username is required")
    else if Text.IsBlank(form.contactNumber) then Some("Contact number is required")
    else if |form.contactNumber| != 10 || !(form.contactNumber != "" && Text.AllDigits(form.contactNumber)) then
      Some("Please enter a valid 10-digit contact number")
    else if form.password == "" then Some("Password is required")
    else if |form.password| < 6 then Some("Password must be at least 6 characters long")
    else if form.password != form.confirmPassword then Some("Passwords do not match")
    else None
  }

  // ---- Editing ----

  function FieldValue(form: Form, field: Field): string {
    match field
    case Username => form.username
    case ContactNumber => form.contactNumber
    case Password => form.password
    case ConfirmPassword => form.confirmPassword
  }

  function SetField(form: Form, field: Field, value: string): Form {
    match field
    case Username => form.(username := value)
    case ContactNumber => form.(contactNumber := value)
    case Password => form.(password := value)
    case ConfirmPassword => form.(confirmPassword := value)
  }

  /** `handleChange`: the named field takes the typed value and any pending error is cleared. */
  function HandleChange(screen: Screen, field: Field, value: string): Screen {
    screen.(form := SetField(screen.form, field, value), error := "")
  }

  /** An edit changes the named field only, clears the error and touches nothing else on the screen. */
  lemma HandleChangeEffect(screen: Screen, field: Field, value: string)
    ensures var next := HandleChange(screen, field, value);
      FieldValue(next.form, field) == value &&
      (forall other :: other != field ==> FieldValue(next.form, other) == FieldValue(screen.form, other)) &&
      next.error == "" && next.successMessage == screen.successMessage &&
      next.showSuccessTooltip == screen.showSuccessTooltip
  {
  }

  /** `togglePasswordVisibility`. */
  function TogglePasswordVisibility(screen: Screen): Screen {
    screen.(showPassword := !screen.showPassword)
  }

  /** `toggleConfirmPasswordVisibility`. */
  function ToggleConfirmPasswordVisibility(screen: Screen): Screen {
    screen.(showConfirmPassword := !screen.showConfirmPassword)
  }

  /** Each toggle flips its own flag only; toggling twice restores the screen. */
  lemma TogglesAreIndependent(screen: Screen)
    ensures TogglePasswordVisibility(screen).showConfirmPassword == screen.showConfirmPassword
    ensures TogglePasswordVisibility(screen).showPassword != screen.showPassword
    ensures ToggleConfirmPasswordVisibility(screen).showPassword == screen.showPassword
    ensures ToggleConfirmPasswordVisibility(screen).showConfirmPassword != screen.showConfirmPassword
    ensures TogglePasswordVisibility(TogglePasswordVisibility(screen)) == screen
    ensures ToggleConfirmPasswordVisibility(ToggleConfirmPasswordVisibility(screen)) == screen
  {
  }

  /** `handleCloseTooltip`. */
  function HandleCloseTooltip(screen: Screen): Screen {
    screen.(showSuccessTooltip := false)
  }

  // ---- The request ----

  /** The body posted to the sign-up endpoint. */
  datatype SignupRequest = SignupRequest(username: string, password: string, contactnumber: string)

  function SignupData(form: Form): SignupRequest {
    SignupRequest(Text.Trim(form.username), form.password, Text.Trim(form.contactNumber))
  }

  /**
   * The request for a valid form: the user name is trimmed and not empty,
   * the contact number is sent as typed (it has no white space to trim), and
   * the password is sent unmodified, white space included.
   */
  lemma SignupDataOfValidForm(form: Form)
    requires FormValid(form)
    ensures SignupData(form).username == Text.Trim(form.username) != ""
    ensures SignupData(form).contactnumber == form.contactNumber
    ensures SignupData(form).password == form.password == form.confirmPassword
    ensures |SignupData(form).password| >= 6
  {
    var c := form.contactNumber;
    assert ContactValid(c);
    assert !Text.IsSpace(c[0]) && !Text.IsSpace(c[|c| - 1]);
    Text.TrimOfTrimmed(c);
  }

  // ---- The reply ----

  /** The body of a successful reply: a string, an object whose `message` may be missing (""), or neither. */
  datatype Body = TextBody(text: string) | ObjectBody(message: string) | OtherBody

  /** The reply to the sign-up request. */
  datatype SignupReply = Answered(status: nat, body: Body) | Failed(failure: Http.Failure)

  const DefaultSuccess := "Successfully Signed Up!"

  /** The message of the success tooltip. */
  function SuccessMessage(body: Body): (message: string)
    ensures message != ""
  {
    if body.TextBody? && Text.Contains(body.text, "Successfully") then
      assert body.text != [];
      body.text
    else if body.ObjectBody? && body.message != "" then body.message
    else DefaultSuccess
  }

  /** A string reply is shown only when it mentions "Successfully"; an object's message always; else the default. */
  lemma SuccessMessageCases(body: Body)
    ensures body.TextBody? ==>
      (SuccessMessage(body) == body.text <==> Text.Contains(body.text, "Successfully") || body.text == DefaultSuccess)
    ensures body.TextBody? && !Text.Contains(body.text, "Successfully") ==> SuccessMessage(body) == DefaultSuccess
    ensures body.ObjectBody? && body.message != "" ==> SuccessMessage(body) == body.message
    ensures body.OtherBody? || body == ObjectBody("") ==> SuccessMessage(body) == DefaultSuccess
  {
  }

  /** The error the `catch` of `handleSubmit` sets. */
  function FailureMessage(f: Http.Failure): (message: string)
    ensures message != ""
  {
    match f
    case Response(status, data) =>
      if status == 400 then "Invalid input. Please check your details."
      else if status == 409 then "Username or contact number already exists."
      else if data != "" then data
      else "Signup failed. Please try again."
    case NoResponse => Http.NetworkError
    case Unexpected => "An unexpected error occurred."
  }

  /** 400 and 409 win over the server's message, which wins over the generic text for any other status. */
  lemma FailureMessagePrecedence(status: nat, data: string)
    ensures status == 400 ==> FailureMessage(Http.Response(status, data)) == FailureMessage(Http.Response(status, ""))
    ensures status == 409 ==> FailureMessage(Http.Response(status, data)) == FailureMessage(Http.Response(status, ""))
    ensures status != 400 && status != 409 && data != "" ==> FailureMessage(Http.Response(status, data)) == data
    ensures status != 400 && status != 409 && data == "" ==>
      FailureMessage(Http.Response(status, data)) == "Signup failed. Please try again."
  {
  }

  /** `handleSubmit`: the screen after the form is submitted and `reply` arrives. */
  function HandleSubmit(screen: Screen, reply: SignupReply): Screen {
    match ValidateForm(screen.form)
    case Some(message) => screen.(error := message)
    case None =>
      var sent := screen.(error := "", showSuccessTooltip := false);
      match reply
      case Answered(status, body) =>
        if status == 200 || status == 201 then
          sent.(successMessage := SuccessMessage(body), showSuccessTooltip := true, form := EmptyForm)
        else sent.(error := "An unexpected error occurred.")
      case Failed(f) => sent.(error := FailureMessage(f))
  }

  /**
   * A submission either succeeds, and then the tooltip shows, the error is
   * clear and all four fields are reset to "", or it fails, and then an error
   * is set, the tooltip is hidden only if the form was sent, and the form is
   * kept as typed. It succeeds exactly when the form is valid and the reply
   * has status 200 or 201.
   */
  lemma SubmitOutcome(screen: Screen, reply: SignupReply)
    ensures var next := HandleSubmit(screen, reply);
      var succeeded := ValidateForm(screen.form) == None && reply.Answered? && reply.status in {200, 201};
      (succeeded ==> next.showSuccessTooltip && next.error == "" && next.form == EmptyForm &&
                     next.successMessage == SuccessMessage(reply.body)) &&
      (!succeeded ==> next.error != "" && next.form == screen.form && next.successMessage == screen.successMessage) &&
      (ValidateForm(screen.form) == None && !succeeded ==> !next.showSuccessTooltip) &&
      (ValidateForm(screen.form) != None ==> next.error == ValidateForm(screen.form).value && next.showSuccessTooltip == screen.showSuccessTooltip)
  {
  }

  /** After a success the form is empty, so submitting again is refused before any request. */
  lemma NoDoubleSignup(screen: Screen, reply: SignupReply, again: SignupReply)
    requires ValidateForm(screen.form) == None && reply.Answered? && reply.status in {200, 201}
    ensures HandleSubmit(HandleSubmit(screen, reply), again).error == "Username is required"
  {
    assert Text.Trim("") == "";
  }
}
