/**
 * The profile screen: editing the user name, changing the password and the
 * two-step account deletion, as a component whose handlers update its state
 * and whose network replies arrive as arguments.
 */
module Profile {
  import opened Wrappers
  import Text
  import Http

  /** The signed-in user the screen shows; a missing field is "". */
  datatype ProfileUser = ProfileUser(userId: string, username: string, contactNumber: string)

  /** The `messageType` beside the status line: none, 'success' or 'error'. */
  datatype MessageType = NoType | SuccessType | ErrorType

  /** What an endpoint sent back: a body, or a failure. */
  datatype Reply = Answered(data: string) | Failed(failure: Http.Failure)

  datatype PasswordField = OldField | NewField | ConfirmField

  // ---- Validation chains ----

  /** `handleSaveUsername`'s checks before any request. */
  function UsernameCheck(newUsername: string, contactNumber: string): (error: Option<string>)
    ensures error == None <==> !Text.IsBlank(newUsername) && contactNumber != ""
  {
    if Text.IsBlank(newUsername) then Some("Username cannot be empty")
    else if contactNumber == "" then Some("Contact number not found")
    else None
  }

  /** A blank name is reported before a missing contact number. */
  lemma UsernameCheckMessages(newUsername: string, contactNumber: string)
    ensures UsernameCheck(newUsername, contactNumber) == Some("Username cannot be empty") <==> Text.IsBlank(newUsername)
    ensures UsernameCheck(newUsername, contactNumber) == Some("Contact number not found") <==>
      !Text.IsBlank(newUsername) && contactNumber == ""
  {
  }

  /** A password change `handleUpdatePassword` lets through. */
  predicate PasswordChangeValid(oldPassword: string, newPassword: string, confirmPassword: string) {
    !Text.IsBlank(oldPassword) && !Text.IsBlank(newPassword) && |newPassword| >= 6 &&
    newPassword == confirmPassword && oldPassword != newPassword
  }

  /** `handleUpdatePassword`'s checks, in order; the first failing one names the error. */
  function PasswordCheck(oldPassword: string, newPassword: string, confirmPassword: string): (error: Option<string>)
    ensures error == None <==> PasswordChangeValid(oldPassword, newPassword, confirmPassword)
  {
    if Text.IsBlank(oldPassword) then Some("Please enter your current password")
    else if Text.IsBlank(newPassword) then Some("Please enter a new password")
    else if |newPassword| < 6 then Some("New password must be at least 6 characters long")
    else if newPassword != confirmPassword then Some("New passwords do not match")
    else if oldPassword == newPassword then Some("New password must be different from the old password")
    else None
  }

  /** Each message of the chain appears exactly when every earlier check passed and its own failed. */
  lemma PasswordCheckMessages(oldPassword: string, newPassword: string, confirmPassword: string)
    ensures var error := PasswordCheck(oldPassword, newPassword, confirmPassword);
      (error == Some("Please enter your current password") <==> Text.IsBlank(oldPassword)) &&
      (error == Some("Please enter a new password") <==> !Text.IsBlank(oldPassword) && Text.IsBlank(newPassword)) &&
      (error == Some("New password must be at least 6 characters long") <==>
        !Text.IsBlank(oldPassword) && !Text.IsBlank(newPassword) && |newPassword| < 6) &&
      (error == Some("New passwords do not match") <==>
        !Text.IsBlank(oldPassword) && !Text.IsBlank(newPassword) && |newPassword| >= 6 && newPassword != confirmPassword) &&
      (error == Some("New password must be different from the old password") <==>
        !Text.IsBlank(oldPassword) && !Text.IsBlank(newPassword) && |newPassword| >= 6 &&
        newPassword == confirmPassword && oldPassword == newPassword)
  {
  }

  // ---- Requests ----

  /** The body of the user-name update. */
  datatype UsernameRequest = UsernameRequest(username: string, contactnumber: string)

  /** The body of the password update: both passwords trimmed. */
  datatype PasswordRequest = PasswordRequest(contactnumber: string, oldPassword: string, newPassword: string)

  function PasswordData(contactNumber: string, oldPassword: string, newPassword: string): PasswordRequest {
    PasswordRequest(contactNumber, Text.Trim(oldPassword), Text.Trim(newPassword))
  }

  /**
   * The length check runs on the new password as typed while the request
   * carries it trimmed: five or more spaces and one letter pass every check
   * and are sent as the single letter.
   */
  lemma ShortPasswordSent(contactNumber: string, oldPassword: string, spaces: string, letter: char)
    requires !Text.IsBlank(oldPassword) && oldPassword != spaces + [letter]
    requires |spaces| >= 5 && Text.IsBlank(spaces) && !Text.IsSpace(letter)
    ensures PasswordChangeValid(oldPassword, spaces + [letter], spaces + [letter])
    ensures PasswordData(contactNumber, oldPassword, spaces + [letter]).newPassword == [letter]
  {
    var typed := spaces + [letter];
    assert !Text.IsSpace(typed[|typed| - 1]);
    Text.TrimStartAfterBlank(spaces, [letter]);
  }

  /** The login check that step two of the deletion posts: the password as typed. */
  datatype LoginCheck = LoginCheck(contactnumber: string, password: string)

  // ---- Error messages ----

  /** The three handlers that report a failed request. */
  datatype Operation = SaveUsername | UpdatePassword | DeleteAccount

  function DefaultError(op: Operation): (message: string)
    ensures message != ""
  {
    match op
    case SaveUsername => "Failed to update username"
    case UpdatePassword => "Failed to update password"
    case DeleteAccount => "Failed to delete account"
  }

  /** The message a handler keeps for a status when the server sent no body. */
  function StatusError(op: Operation, status: nat): Option<string> {
    if status == 400 then Some(if op == DeleteAccount then "Bad request" else "Bad request. Please check your input.")
    else if status == 401 && op == UpdatePassword then Some("Current password is incorrect")
    else if status == 401 && op == DeleteAccount then Some("Unauthorized. Please login again.")
    else if status == 404 then Some("User not found.")
    else if status == 500 then Some("Server error. Please try again later.")
    else None
  }

  /** The `catch` of each handler. */
  function ErrorMessage(op: Operation, f: Http.Failure): string {
    match f
    case Response(status, data) =>
      if data != "" then data
      else if StatusError(op, status).Some? then StatusError(op, status).value
      else DefaultError(op)
    case NoResponse => Http.NetworkError
    case Unexpected => DefaultError(op)
  }

  /**
   * A body sent by the server wins over every status text, in all three
   * handlers; without one the status picks the text, and a status none of
   * them names falls back to the handler's default. The message is never "".
   */
  lemma ServerDataFirst(op: Operation, status: nat, data: string)
    ensures data != "" ==> ErrorMessage(op, Http.Response(status, data)) == data
    ensures data == "" && StatusError(op, status).Some? ==>
      ErrorMessage(op, Http.Response(status, data)) == StatusError(op, status).value
    ensures status !in {400, 401, 404, 500} && data == "" ==>
      ErrorMessage(op, Http.Response(status, data)) == DefaultError(op)
    ensures ErrorMessage(op, Http.Response(status, data)) != ""
  {
  }

  /** 401 has a text only for the password and delete handlers, and they differ. */
  lemma UnauthorizedTexts()
    ensures StatusError(SaveUsername, 401) == None
    ensures StatusError(UpdatePassword, 401) == Some("Current password is incorrect")
    ensures StatusError(DeleteAccount, 401) == Some("Unauthorized. Please login again.")
  {
  }

  // ---- The component ----

  /** What `handleDeleteAccount` insists on, lower-cased, in step one. */
  const DeletePhrase := "delete my account"

  predicate PhraseTyped(confirmation: string) {
    Text.ToLower(confirmation) == DeletePhrase
  }

  class ProfileScreen {
    var user: ProfileUser
    /** The user record kept in local storage. */
    var storedUser: Option<ProfileUser>

    var isEditing: bool
    var newUsername: string
    var updateMessage: string
    var messageType: MessageType

    var isPasswordModalOpen: bool
    var oldPassword: string
    var newPassword: string
    var confirmPassword: string
    var showOld: bool
    var showNew: bool
    var showConfirm: bool

    var isDeleteModalOpen: bool
    var deleteConfirmation: string
    var showDeleteForm: bool
    var deletePassword: string

    /**
     * Step two of the deletion is only ever reached through step one. The
     * handlers that may change neither field it reads keep it by their
     * `modifies` clauses alone.
     */
    predicate Valid()
      reads this`showDeleteForm, this`deleteConfirmation
    {
      showDeleteForm ==> PhraseTyped(deleteConfirmation)
    }

    constructor (user: ProfileUser, storedUser: Option<ProfileUser>)
      ensures Valid()
      ensures this.user == user && this.storedUser == storedUser
      ensures !isEditing && newUsername == "" && updateMessage == "" && messageType == NoType
      ensures !isPasswordModalOpen && oldPassword == "" && newPassword == "" && confirmPassword == ""
      ensures !showOld && !showNew && !showConfirm
      ensures !isDeleteModalOpen && deleteConfirmation == "" && !showDeleteForm && deletePassword == ""
    {
      this.user := user;
      this.storedUser := storedUser;
      isEditing := false;
      newUsername := "";
      updateMessage := "";
      messageType := NoType;
      isPasswordModalOpen := false;
      oldPassword := "";
      newPassword := "";
      confirmPassword := "";
      showOld := false;
      showNew := false;
      showConfirm := false;
      isDeleteModalOpen := false;
      deleteConfirmation := "";
      showDeleteForm := false;
      deletePassword := "";
    }

    // ---- User name ----

    /** `handleEditProfile`: start editing from the current name. */
    method HandleEditProfile()
      requires Valid()
      modifies this
      ensures Valid()
      ensures isEditing && newUsername == user.username && updateMessage == "" && messageType == NoType
      ensures user == old(user) && storedUser == old(storedUser)
      ensures showDeleteForm == old(showDeleteForm) && deleteConfirmation == old(deleteConfirmation)
    {
      isEditing := true;
      newUsername := user.username;
      updateMessage := "";
      messageType := NoType;
    }

    /** `handleCancelEdit`. */
    method HandleCancelEdit()
      requires Valid()
      modifies this
      ensures Valid()
      ensures !isEditing && newUsername == "" && updateMessage == "" && messageType == NoType
      ensures user == old(user) && storedUser == old(storedUser)
      ensures showDeleteForm == old(showDeleteForm) && deleteConfirmation == old(deleteConfirmation)
    {
      isEditing := false;
      newUsername := "";
      updateMessage := "";
      messageType := NoType;
    }

    /**
     * The update endpoint's reply to a user-name change: on an answer the
     * shown and the stored user take the new name and editing ends.
     */
    method ApplyUsernameReply(username: string, reply: Reply)
      modifies this`user, this`storedUser, this`isEditing, this`updateMessage, this`messageType
      ensures reply.Answered? ==>
        user == old(user).(username := username) &&
        storedUser == (if old(storedUser).Some? then Some(old(storedUser).value.(username := username)) else None) &&
        updateMessage == "Username updated successfully!" && messageType == SuccessType && !isEditing
      ensures reply.Failed? ==>
        user == old(user) && storedUser == old(storedUser) && isEditing == old(isEditing) &&
        updateMessage == ErrorMessage(SaveUsername, reply.failure) && messageType == ErrorType
    {
      match reply {
        case Answered(_) =>
          user := user.(username := username);
          if storedUser.Some? {
            storedUser := Some(storedUser.value.(username := username));
          }
          updateMessage := "Username updated successfully!";
          messageType := SuccessType;
          isEditing := false;
        case Failed(f) =>
          updateMessage := ErrorMessage(SaveUsername, f);
          messageType := ErrorType;
      }
    }

    /**
     * `handleSaveUsername`, with the update endpoint's reply. Returns the
     * request it sent, if any: none when the checks fail, else one carrying
     * the trimmed name, whose reply `ApplyUsernameReply` then applies.
     */
    method HandleSaveUsername(reply: Reply) returns (sent: Option<UsernameRequest>)
      modifies this`user, this`storedUser, this`isEditing, this`updateMessage, this`messageType
      ensures UsernameCheck(old(newUsername), old(user).contactNumber).Some? ==>
        sent == None && updateMessage == UsernameCheck(old(newUsername), old(user).contactNumber).value &&
        messageType == ErrorType && user == old(user) && storedUser == old(storedUser) && isEditing == old(isEditing)
      ensures UsernameCheck(old(newUsername), old(user).contactNumber) == None ==>
        sent == Some(UsernameRequest(Text.Trim(old(newUsername)), old(user).contactNumber))
      ensures sent.Some? && reply.Answered? ==>
        user == old(user).(username := sent.value.username) &&
        storedUser == (if old(storedUser).Some? then Some(old(storedUser).value.(username := sent.value.username)) else None) &&
        updateMessage == "Username updated successfully!" && messageType == SuccessType && !isEditing
      ensures sent.Some? && reply.Failed? ==>
        user == old(user) && storedUser == old(storedUser) && isEditing == old(isEditing) &&
        updateMessage == ErrorMessage(SaveUsername, reply.failure) && messageType == ErrorType
    {
      var check := UsernameCheck(newUsername, user.contactNumber);
      if check.Some? {
        updateMessage := check.value;
        messageType := ErrorType;
        return None;
      }
      var username := Text.Trim(newUsername);
      sent := Some(UsernameRequest(username, user.contactNumber));
      ApplyUsernameReply(username, reply);
    }

    // ---- Password ----

    /** `handleOpenPasswordModal`: a fresh, empty form. */
    method HandleOpenPasswordModal()
      requires Valid()
      modifies this
      ensures Valid()
      ensures isPasswordModalOpen && oldPassword == "" && newPassword == "" && confirmPassword == ""
      ensures updateMessage == "" && messageType == NoType
      ensures showOld == old(showOld) && showNew == old(showNew) && showConfirm == old(showConfirm)
      ensures user == old(user) && storedUser == old(storedUser)
      ensures showDeleteForm == old(showDeleteForm) && deleteConfirmation == old(deleteConfirmation)
    {
      isPasswordModalOpen := true;
      oldPassword := "";
      newPassword := "";
      confirmPassword := "";
      updateMessage := "";
      messageType := NoType;
    }

    /** `handleClosePasswordModal`: every password is hidden again; the typed text stays. */
    method HandleClosePasswordModal()
      requires Valid()
      modifies this
      ensures Valid()
      ensures !isPasswordModalOpen && !showOld && !showNew && !showConfirm
      ensures oldPassword == old(oldPassword) && newPassword == old(newPassword) && confirmPassword == old(confirmPassword)
      ensures updateMessage == old(updateMessage) && messageType == old(messageType)
      ensures user == old(user) && storedUser == old(storedUser)
      ensures showDeleteForm == old(showDeleteForm) && deleteConfirmation == old(deleteConfirmation)
    {
      isPasswordModalOpen := false;
      showOld := false;
      showNew := false;
      showConfirm := false;
    }

    /** `togglePasswordVisibility(field)`: flips the named field only. */
    method TogglePasswordVisibility(field: PasswordField)
      requires Valid()
      modifies this
      ensures Valid()
      ensures showOld == (if field == OldField then !old(showOld) else old(showOld))
      ensures showNew == (if field == NewField then !old(showNew) else old(showNew))
      ensures showConfirm == (if field == ConfirmField then !old(showConfirm) else old(showConfirm))
      ensures isPasswordModalOpen == old(isPasswordModalOpen) && updateMessage == old(updateMessage)
      ensures oldPassword == old(oldPassword) && newPassword == old(newPassword) && confirmPassword == old(confirmPassword)
      ensures showDeleteForm == old(showDeleteForm) && deleteConfirmation == old(deleteConfirmation)
    {
      match field {
        case OldField => showOld := !showOld;
        case NewField => showNew := !showNew;
        case ConfirmField => showConfirm := !showConfirm;
      }
    }

    /** The update endpoint's reply to a password change. */
    method ApplyPasswordReply(reply: Reply)
      modifies this`updateMessage, this`messageType
      ensures reply.Answered? ==> updateMessage == "Password updated successfully!" && messageType == SuccessType
      ensures reply.Failed? ==> updateMessage == ErrorMessage(UpdatePassword, reply.failure) && messageType == ErrorType
    {
      match reply {
        case Answered(_) =>
          updateMessage := "Password updated successfully!";
          messageType := SuccessType;
        case Failed(f) =>
          updateMessage := ErrorMessage(UpdatePassword, f);
          messageType := ErrorType;
      }
    }

    /**
     * `handleUpdatePassword`, with the update endpoint's reply. Returns the
     * request it sent: none when a check fails, else one carrying both
     * passwords trimmed. Only the message changes; the user record is never
     * touched.
     */
    method HandleUpdatePassword(reply: Reply) returns (sent: Option<PasswordRequest>)
      modifies this`updateMessage, this`messageType
      ensures var check := PasswordCheck(old(oldPassword), old(newPassword), old(confirmPassword));
        check.Some? ==> sent == None && updateMessage == check.value && messageType == ErrorType
      ensures PasswordCheck(old(oldPassword), old(newPassword), old(confirmPassword)) == None ==>
        sent == Some(PasswordData(old(user).contactNumber, old(oldPassword), old(newPassword)))
      ensures sent.Some? && reply.Answered? ==> updateMessage == "Password updated successfully!" && messageType == SuccessType
      ensures sent.Some? && reply.Failed? ==> updateMessage == ErrorMessage(UpdatePassword, reply.failure) && messageType == ErrorType
    {
      var request := PasswordData(user.contactNumber, oldPassword, newPassword);
      var check := PasswordCheck(oldPassword, newPassword, confirmPassword);
      if check.Some? {
        updateMessage := check.value;
        messageType := ErrorType;
        return None;
      }
      sent := Some(request);
      ApplyPasswordReply(reply);
    }

    // ---- Deleting the account ----

    /** `handleOpenDeleteModal`: back to step one with empty inputs and no message. */
    method HandleOpenDeleteModal()
      requires Valid()
      modifies this
      ensures Valid()
      ensures isDeleteModalOpen && deleteConfirmation == "" && deletePassword == "" && !showDeleteForm
      ensures updateMessage == "" && messageType == NoType
      ensures user == old(user) && storedUser == old(storedUser)
    {
      isDeleteModalOpen := true;
      deleteConfirmation := "";
      deletePassword := "";
      showDeleteForm := false;
      updateMessage := "";
      messageType := NoType;
    }

    /** `handleCloseDeleteModal`: back to step one with empty inputs; the message stays. */
    method HandleCloseDeleteModal()
      requires Valid()
      modifies this
      ensures Valid()
      ensures !isDeleteModalOpen && deleteConfirmation == "" && deletePassword == "" && !showDeleteForm
      ensures updateMessage == old(updateMessage) && messageType == old(messageType)
      ensures user == old(user) && storedUser == old(storedUser)
    {
      isDeleteModalOpen := false;
      deleteConfirmation := "";
      deletePassword := "";
      showDeleteForm := false;
    }

    /** The confirmation box's `onChange`; the box is on screen in step one only. */
    method TypeDeleteConfirmation(text: string)
      requires Valid() && !showDeleteForm
      modifies this
      ensures Valid()
      ensures deleteConfirmation == text && !showDeleteForm
      ensures deletePassword == old(deletePassword) && updateMessage == old(updateMessage)
      ensures user == old(user) && storedUser == old(storedUser)
    {
      deleteConfirmation := text;
    }

    /** The password box's `onChange` in step two. */
    method TypeDeletePassword(text: string)
      requires Valid()
      modifies this
      ensures Valid()
      ensures deletePassword == text
      ensures deleteConfirmation == old(deleteConfirmation) && showDeleteForm == old(showDeleteForm)
      ensures updateMessage == old(updateMessage) && user == old(user) && storedUser == old(storedUser)
    {
      deletePassword := text;
    }

    /**
     * Step one of `handleDeleteAccount`: move to the password form only when
     * the lower-cased confirmation is the phrase.
     */
    method ConfirmDeletePhrase()
      requires Valid() && !showDeleteForm
      modifies this`showDeleteForm, this`updateMessage, this`messageType
      ensures Valid()
      ensures PhraseTyped(deleteConfirmation) ==>
        showDeleteForm && updateMessage == "" && messageType == old(messageType)
      ensures !PhraseTyped(deleteConfirmation) ==>
        !showDeleteForm && updateMessage == "Please type \"delete my account\" to confirm" && messageType == ErrorType
    {
      if Text.ToLower(deleteConfirmation) != DeletePhrase {
        updateMessage := "Please type \"delete my account\" to confirm";
        messageType := ErrorType;
      } else {
        showDeleteForm := true;
        updateMessage := "";
      }
    }

    /**
     * The reply to the login check of step two: the deletion goes ahead
     * unless the check failed or answered exactly the bad-credentials text.
     */
    method ApplyLoginCheck(login: Reply) returns (proceed: bool)
      modifies this`updateMessage, this`messageType
      ensures proceed <==> login.Answered? && login.data != "Invalid contact number or password"
      ensures proceed ==> updateMessage == old(updateMessage) && messageType == old(messageType)
      ensures login.Failed? ==>
        updateMessage == ErrorMessage(DeleteAccount, login.failure) && messageType == ErrorType
      ensures login == Answered("Invalid contact number or password") ==>
        updateMessage == "Incorrect password. Please try again." && messageType == ErrorType
    {
      proceed := false;
      match login {
        case Failed(f) =>
          updateMessage := ErrorMessage(DeleteAccount, f);
          messageType := ErrorType;
        case Answered(body) =>
          if body == "Invalid contact number or password" {
            updateMessage := "Incorrect password. Please try again.";
            messageType := ErrorType;
          } else {
            proceed := true;
          }
      }
    }

    /**
     * The reply to the delete call: the stored user is forgotten only when
     * it is exactly "User deleted successfully".
     */
    method ApplyDeleteReply(deletion: Reply)
      modifies this`storedUser, this`updateMessage, this`messageType
      ensures deletion == Answered("User deleted successfully") ==>
        storedUser == None &&
        updateMessage == "Account deleted successfully. Redirecting to login..." && messageType == SuccessType
      ensures deletion.Answered? && deletion.data != "User deleted successfully" ==>
        storedUser == old(storedUser) && messageType == ErrorType &&
        updateMessage == (if deletion.data != "" then deletion.data else DefaultError(DeleteAccount))
      ensures deletion.Failed? ==>
        storedUser == old(storedUser) &&
        updateMessage == ErrorMessage(DeleteAccount, deletion.failure) && messageType == ErrorType
    {
      match deletion {
        case Answered(reply) =>
          if reply == "User deleted successfully" {
            storedUser := None;
            updateMessage := "Account deleted successfully. Redirecting to login...";
            messageType := SuccessType;
          } else {
            updateMessage := if reply != "" then reply else DefaultError(DeleteAccount);
            messageType := ErrorType;
          }
        case Failed(f) =>
          updateMessage := ErrorMessage(DeleteAccount, f);
          messageType := ErrorType;
      }
    }

    /**
     * Step two of `handleDeleteAccount`, with the replies of the login check
     * and of the delete call (each used only if that request is made): a
     * blank password is refused without a request, the password is checked
     * by logging in, and delete is called only when that check passes.
     */
    method DeleteWithPassword(login: Reply, deletion: Reply) returns (checked: Option<LoginCheck>, deleted: Option<string>)
      modifies this`storedUser, this`updateMessage, this`messageType
      ensures Text.IsBlank(deletePassword) ==>
        checked == None && storedUser == old(storedUser) &&
        updateMessage == "Please enter your password to confirm deletion" && messageType == ErrorType
      ensures checked.Some? <==> !Text.IsBlank(deletePassword)
      ensures checked.Some? ==> checked.value == LoginCheck(user.contactNumber, deletePassword)
      ensures deleted.Some? <==> checked.Some? && login.Answered? && login.data != "Invalid contact number or password"
      ensures deleted.Some? ==> deleted.value == user.contactNumber
      ensures storedUser != old(storedUser) ==> deleted.Some? && deletion == Answered("User deleted successfully")
      ensures checked.Some? && login.Failed? ==>
        updateMessage == ErrorMessage(DeleteAccount, login.failure) && messageType == ErrorType
      ensures checked.Some? && login == Answered("Invalid contact number or password") ==>
        updateMessage == "Incorrect password. Please try again." && messageType == ErrorType
      ensures deleted.Some? && deletion == Answered("User deleted successfully") ==>
        storedUser == None &&
        updateMessage == "Account deleted successfully. Redirecting to login..." && messageType == SuccessType
      ensures deleted.Some? && deletion.Answered? && deletion.data != "User deleted successfully" ==>
        messageType == ErrorType &&
        updateMessage == (if deletion.data != "" then deletion.data else DefaultError(DeleteAccount))
      ensures deleted.Some? && deletion.Failed? ==>
        updateMessage == ErrorMessage(DeleteAccount, deletion.failure) && messageType == ErrorType
    {
      checked, deleted := None, None;
      if Text.IsBlank(deletePassword) {
        updateMessage := "Please enter your password to confirm deletion";
        messageType := ErrorType;
      } else {
        updateMessage := "";
        checked := Some(LoginCheck(user.contactNumber, deletePassword));
        var proceed := ApplyLoginCheck(login);
        if proceed {
          deleted := Some(user.contactNumber);
          ApplyDeleteReply(deletion);
        }
      }
    }

    /**
     * `handleDeleteAccount`, with the replies of the login check and of the
     * delete call: step one (`ConfirmDeletePhrase`) sends nothing and moves
     * to step two only on the phrase; step two (`DeleteWithPassword`) never
     * goes back.
     */
    method HandleDeleteAccount(login: Reply, deletion: Reply) returns (checked: Option<LoginCheck>, deleted: Option<string>)
      requires Valid()
      modifies this`showDeleteForm, this`storedUser, this`updateMessage, this`messageType
      ensures Valid()
      ensures !old(showDeleteForm) ==> checked == None && storedUser == old(storedUser)
      ensures !old(showDeleteForm) ==> showDeleteForm == PhraseTyped(deleteConfirmation)
      ensures !old(showDeleteForm) && PhraseTyped(deleteConfirmation) ==>
        updateMessage == "" && messageType == old(messageType)
      ensures !old(showDeleteForm) && !PhraseTyped(deleteConfirmation) ==>
        updateMessage == "Please type \"delete my account\" to confirm" && messageType == ErrorType
      ensures old(showDeleteForm) ==> showDeleteForm
      ensures old(showDeleteForm) && Text.IsBlank(deletePassword) ==>
        checked == None && storedUser == old(storedUser) &&
        updateMessage == "Please enter your password to confirm deletion" && messageType == ErrorType
      ensures checked.Some? <==> old(showDeleteForm) && !Text.IsBlank(deletePassword)
      ensures checked.Some? ==> checked.value == LoginCheck(user.contactNumber, deletePassword)
      ensures deleted.Some? <==> checked.Some? && login.Answered? && login.data != "Invalid contact number or password"
      ensures deleted.Some? ==> deleted.value == user.contactNumber
      ensures storedUser != old(storedUser) ==> deleted.Some? && deletion == Answered("User deleted successfully")
      ensures checked.Some? && login.Failed? ==>
        updateMessage == ErrorMessage(DeleteAccount, login.failure) && messageType == ErrorType
      ensures checked.Some? && login == Answered("Invalid contact number or password") ==>
        updateMessage == "Incorrect password. Please try again." && messageType == ErrorType
      ensures deleted.Some? && deletion == Answered("User deleted successfully") ==>
        storedUser == None &&
        updateMessage == "Account deleted successfully. Redirecting to login..." && messageType == SuccessType
      ensures deleted.Some? && deletion.Answered? && deletion.data != "User deleted successfully" ==>
        messageType == ErrorType &&
        updateMessage == (if deletion.data != "" then deletion.data else DefaultError(DeleteAccount))
      ensures deleted.Some? && deletion.Failed? ==>
        updateMessage == ErrorMessage(DeleteAccount, deletion.failure) && messageType == ErrorType
    {
      if !showDeleteForm {
        ConfirmDeletePhrase();
        checked, deleted := None, None;
      } else {
        assert PhraseTyped(deleteConfirmation);
        checked, deleted := DeleteWithPassword(login, deletion);
      }
    }
  }
}
