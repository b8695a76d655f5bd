/**
 * The change-password dialog of src/components/ui/Modals.jsx: the order of
 * its two checks, the error and loading fields around the update, and the
 * profile write that clears a forced reset.
 */
module Password {
  import opened Wrappers
  import opened Text

  const MIN_LENGTH: nat := 6
  const TOO_SHORT: string := "M\U{00ED}nimo 6 caracteres"
  const MISMATCH: string := "Las contrase\U{00F1}as no coinciden"
  const REAUTH_NEEDED: string := "Error: Re-autenticaci\U{00F3}n requerida. Cierra sesi\U{00F3}n e intenta de nuevo."

  /**
   * The checks of `handleUpdate`, in order: a new password shorter than six
   * UTF-16 code units is refused first, then one that differs from its
   * confirmation. None means both checks pass.
   */
  function Check(newPassword: string, confirmPassword: string): (error: Option<string>)
    ensures error == Some(TOO_SHORT) <==> Utf16Length(newPassword) < MIN_LENGTH
    ensures error == Some(MISMATCH) <==> Utf16Length(newPassword) >= MIN_LENGTH && newPassword != confirmPassword
    ensures error.None? <==> Utf16Length(newPassword) >= MIN_LENGTH && newPassword == confirmPassword
  {
    if Utf16Length(newPassword) < MIN_LENGTH then Some(TOO_SHORT)
    else if newPassword != confirmPassword then Some(MISMATCH)
    else None
  }

  /** What the dialog asked of the services. */
  datatype Requests = Requests(passwordUpdate: bool, profileWrite: bool, close: bool)

  class PasswordDialog {
    const forced: bool
    var newPassword: string
    var confirmPassword: string
    var loading: bool
    var error: string
    var resetRequired: bool     // the profile's require_password_reset, as stored

    constructor(isForced: bool, required: bool)
      ensures forced == isForced && resetRequired == required
      ensures newPassword == "" && confirmPassword == "" && !loading && error == ""
    {
      forced := isForced;
      resetRequired := required;
      newPassword := "";
      confirmPassword := "";
      loading := false;
      error := "";
    }

    /**
     * The checks of `handleUpdate` before the update is sent: a failed check
     * only shows its message; otherwise the error is cleared and the dialog
     * is loading.
     */
    method BeginUpdate() returns (started: bool)
      modifies this`loading, this`error
      ensures started <==> Check(newPassword, confirmPassword).None?
      ensures !started ==> error == Check(newPassword, confirmPassword).value && loading == old(loading)
      ensures started ==> error == "" && loading
    {
      var problem := Check(newPassword, confirmPassword);
      if problem.Some? {
        error := problem.value;
        return false;
      }
      loading := true;
      error := "";
      return true;
    }

    /**
     * The rest of `handleUpdate`, given whether the password update and, in
     * forced mode, the profile write succeed. The profile write is only
     * attempted after a successful update, and the dialog asks to close only
     * when everything succeeded; loading ends either way.
     */
    method FinishUpdate(updateOk: bool, writeOk: bool) returns (asked: Requests)
      modifies this`loading, this`error, this`resetRequired
      ensures !loading
      ensures asked.passwordUpdate
      ensures asked.profileWrite <==> updateOk && forced
      ensures asked.close <==> updateOk && (!forced || writeOk)
      ensures resetRequired == (old(resetRequired) && !(updateOk && forced && writeOk))
      ensures asked.close ==> error == old(error)
      ensures !asked.close ==> error == REAUTH_NEEDED
    {
      asked := Requests(true, false, false);
      if !updateOk {
        error := REAUTH_NEEDED;
      } else {
        if forced {
          asked := asked.(profileWrite := true);
          if writeOk {
            resetRequired := false;
          }
        }
        if forced && !writeOk {
          error := REAUTH_NEEDED;
        } else {
          asked := asked.(close := true);
        }
      }
      loading := false;
    }
  }
}
