/** The password form of the profile page: the two checks made before the
    server is asked, the request sent when they pass, and the form's state
    after the server's answer. */
module ProfilePage {
  import opened Common

  const MismatchText := "New passwords do not match"
  const TooShortText := "Password must be at least 6 characters"
  const ChangedText := "Password changed successfully!"
  const ChangeFailedText := "Failed to change password"

  /** The shortest new password the form lets through. */
  const MinPasswordLength := 6

  /** The two checks, in their order: the confirmation must repeat the new
      password, and only then is its length checked. None when both pass. */
  function PasswordCheck(newPassword: string, confirmPassword: string): (r: Option<string>)
    ensures r.None? <==> newPassword == confirmPassword && |newPassword| >= MinPasswordLength
    ensures newPassword != confirmPassword ==> r == Some(MismatchText)
    ensures newPassword == confirmPassword && |newPassword| < MinPasswordLength ==> r == Some(TooShortText)
  {
    if newPassword != confirmPassword then Some(MismatchText)
    else if |newPassword| < MinPasswordLength then Some(TooShortText)
    else None
  }

  /** The mismatch is reported even when the new password is also too
      short: the first check hides the second. */
  lemma MismatchReportedFirst()
    ensures PasswordCheck("abc", "abd") == Some(MismatchText)
    ensures PasswordCheck("abc", "abc") == Some(TooShortText)
    ensures PasswordCheck("abcdef", "abcdef").None?
  {
  }

  datatype MessageKind = SuccessMessage | ErrorMessage
  datatype Message = Message(kind: MessageKind, text: string)

  /** The body sent to the profile endpoint. */
  datatype PasswordUpdate = PasswordUpdate(currentPassword: string, newPassword: string)

  /** The error shown for a refused change: the server's message, or a
      fixed text when it sent none. */
  function FailureText(serverMessage: Option<string>): (t: string)
    ensures serverMessage.Some? && serverMessage.value != "" ==> t == serverMessage.value
    ensures serverMessage.None? || serverMessage.value == "" ==> t == ChangeFailedText
  {
    if serverMessage.Some? && serverMessage.value != "" then serverMessage.value else ChangeFailedText
  }

  class PasswordForm {
    var currentPassword: string
    var newPassword: string
    var confirmPassword: string
    var message: Option<Message>

    /** The form's initial state: three empty fields and no message. */
    constructor()
      ensures currentPassword == "" && newPassword == "" && confirmPassword == "" && message.None?
    {
      currentPassword := "";
      newPassword := "";
      confirmPassword := "";
      message := None;
    }

    /** handlePasswordChange. When a check fails its message is shown and
        nothing is sent. Otherwise the current and new passwords are sent;
        the server's answer is the parameter. On success the fields are
        emptied; on failure they keep what was typed. */
    method HandlePasswordChange(answer: Result<(), Option<string>>) returns (sent: Option<PasswordUpdate>)
      modifies this
      ensures var check := PasswordCheck(old(newPassword), old(confirmPassword));
        && (check.Some? ==>
              && sent.None?
              && message == Some(Message(ErrorMessage, check.value))
              && currentPassword == old(currentPassword) && newPassword == old(newPassword)
              && confirmPassword == old(confirmPassword))
        && (check.None? ==> sent == Some(PasswordUpdate(old(currentPassword), old(newPassword))))
        && (check.None? && answer.Success? ==>
              && message == Some(Message(SuccessMessage, ChangedText))
              && currentPassword == "" && newPassword == "" && confirmPassword == "")
        && (check.None? && answer.Failure? ==>
              && message == Some(Message(ErrorMessage, FailureText(answer.error)))
              && currentPassword == old(currentPassword) && newPassword == old(newPassword)
              && confirmPassword == old(confirmPassword))
    {
      message := None;
      if newPassword != confirmPassword {
        message := Some(Message(ErrorMessage, MismatchText));
        return None;
      }
      if |newPassword| < MinPasswordLength {
        message := Some(Message(ErrorMessage, TooShortText));
        return None;
      }
      sent := Some(PasswordUpdate(currentPassword, newPassword));
      if answer.Success? {
        message := Some(Message(SuccessMessage, ChangedText));
        currentPassword := "";
        newPassword := "";
        confirmPassword := "";
      } else {
        message := Some(Message(ErrorMessage, FailureText(answer.error)));
      }
    }
  }
}
