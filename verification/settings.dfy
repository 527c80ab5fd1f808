/**
 * The validation branch of `handlePasswordUpdate` in
 * `src/components/SettingsView.tsx`: what a click on "change password" does
 * with the two fields, and how the fields look afterwards.
 */
module Settings {

  const MinPasswordLength := 6

  datatype PasswordForm = PasswordForm(password: string, confirm: string)

  /** Nothing, one of the two error toasts, or a call to `updateUser`. */
  datatype PasswordStep = NoOp | Mismatch | TooShort | Submit(password: string)

  /**
   * `handlePasswordUpdate` up to the call: no user or no client does
   * nothing; the mismatch is checked before the length, so a short password
   * that differs from its confirmation reports the mismatch; a password that
   * is sent equals its confirmation and has at least six characters.
   */
  function CheckPassword(signedIn: bool, configured: bool, f: PasswordForm): (r: PasswordStep)
    ensures r.NoOp? <==> !signedIn || !configured
    ensures r.Mismatch? <==> signedIn && configured && f.password != f.confirm
    ensures r.TooShort? <==> signedIn && configured && f.password == f.confirm && |f.password| < MinPasswordLength
    ensures r.Submit? <==> signedIn && configured && f.password == f.confirm && |f.password| >= MinPasswordLength
    ensures r.Submit? ==> r.password == f.password
  {
    if !signedIn || !configured then NoOp
    else if f.password != f.confirm then Mismatch
    else if |f.password| < MinPasswordLength then TooShort
    else Submit(f.password)
  }

  /** The fields after the call: cleared on success, kept on failure. */
  function FinishPasswordUpdate(f: PasswordForm, failed: bool): (r: PasswordForm)
    ensures failed ==> r == f
    ensures !failed ==> r.password == "" && r.confirm == ""
  {
    if failed then f else PasswordForm("", "")
  }

  /** After a successful change the cleared form cannot be sent again as it is. */
  lemma ClearedFormIsRejected(signedIn: bool, configured: bool, f: PasswordForm)
    requires signedIn && configured
    ensures CheckPassword(signedIn, configured, FinishPasswordUpdate(f, false)) == TooShort
  {
  }

  /** A failed change leaves the form as it was, so the same click gives the same step. */
  lemma FailedChangeCanBeRetried(signedIn: bool, configured: bool, f: PasswordForm)
    ensures CheckPassword(signedIn, configured, FinishPasswordUpdate(f, true)) == CheckPassword(signedIn, configured, f)
  {
  }
}
