/**
 * The change-password form of the settings page: the checks run in a fixed
 * order before the (simulated) request, and the fields are cleared when it
 * completes.
 */
module Settings {
  import opened Options

  const MinPasswordLength := 6

  datatype PasswordError = Mismatch | TooShort {

    /** The message shown in the error toast. */
    function Message(): string {
      match this
      case Mismatch => "Passwords do not match"
      case TooShort => "Password must be at least 6 characters"
    }
  }

  /**
   * The validation of `handleChangePassword`: a mismatch is reported first, a
   * too-short password second. The current password plays no part.
   */
  function CheckPassword(newPassword: string, confirmPassword: string): (r: Option<PasswordError>)
    ensures r.None? <==> newPassword == confirmPassword && |newPassword| >= MinPasswordLength
    ensures r == Some(Mismatch) <==> newPassword != confirmPassword
    ensures r == Some(TooShort) <==> newPassword == confirmPassword && |newPassword| < MinPasswordLength
  {
    if newPassword != confirmPassword then Some(Mismatch)
    else if |newPassword| < MinPasswordLength then Some(TooShort)
    else None
  }

  class PasswordForm {
    var currentPassword: string
    var newPassword: string
    var confirmPassword: string
    var isSaving: bool

    constructor ()
      ensures currentPassword == "" && newPassword == "" && confirmPassword == "" && !isSaving
    {
      currentPassword, newPassword, confirmPassword := "", "", "";
      isSaving := false;
    }

    /**
     * `handleChangePassword` up to the simulated request: a rejected change
     * reports its error and leaves the form as it was; an accepted one marks
     * the form as saving.
     */
    method ChangePassword() returns (error: Option<PasswordError>)
      modifies this
      ensures error == CheckPassword(old(newPassword), old(confirmPassword))
      ensures error.Some? ==> isSaving == old(isSaving)
      ensures error.None? ==> isSaving
      ensures currentPassword == old(currentPassword) && newPassword == old(newPassword)
      ensures confirmPassword == old(confirmPassword)
    {
      if newPassword != confirmPassword {
        return Some(Mismatch);
      }
      if |newPassword| < MinPasswordLength {
        return Some(TooShort);
      }
      isSaving := true;
      error := None;
    }

    /** The completion of the simulated request: no longer saving, all three fields cleared. */
    method CompleteChange()
      modifies this
      ensures currentPassword == "" && newPassword == "" && confirmPassword == "" && !isSaving
    {
      isSaving := false;
      currentPassword := "";
      newPassword := "";
      confirmPassword := "";
    }
  }
}
