/**
 * client/src/pages/Security.tsx: the change-password form. The three fields are kept in one
 * record; a submission is checked for a mismatch first and for length second, and a
 * successful change clears the form once the (simulated) call completes.
 */
module Security {
  import opened Wrappers
  import opened Text
  import opened PasswordMeter

  /** `getPasswordStrength`: Weak below 6 UTF-16 code units, Fair below 10, Good below 14. */
  function PasswordStrength(password: string): (s: Strength)
    ensures Utf16Length(password) == 0 ==> s == Strength(0, "")
    ensures 0 < Utf16Length(password) < 6 ==> s == Strength(25, "Weak")
    ensures 6 <= Utf16Length(password) < 10 ==> s == Strength(50, "Fair")
    ensures 10 <= Utf16Length(password) < 14 ==> s == Strength(75, "Good")
    ensures 14 <= Utf16Length(password) ==> s == Strength(100, "Strong")
  {
    ByLength(Utf16Length(password), 6, 10, 14)
  }

  lemma StrengthMonotone(p: string, q: string)
    requires Utf16Length(p) <= Utf16Length(q)
    ensures PasswordStrength(p).score <= PasswordStrength(q).score
  {
    ByLengthMonotone(Utf16Length(p), Utf16Length(q), 6, 10, 14);
  }

  datatype ChangeOutcome = Mismatch | TooShort | Submitted

  /** The checks of `handlePasswordChange`, in order. */
  function ChangeCheck(newPassword: string, confirmPassword: string): (r: ChangeOutcome)
    ensures r == Submitted <==> newPassword == confirmPassword && Utf16Length(newPassword) >= 8
    ensures newPassword != confirmPassword ==> r == Mismatch
    ensures r == TooShort <==> newPassword == confirmPassword && Utf16Length(newPassword) < 8
  {
    if newPassword != confirmPassword then Mismatch
    else if Utf16Length(newPassword) < 8 then TooShort
    else Submitted
  }

  /** A short password that also mismatches is reported as a mismatch: that check comes first. */
  lemma MismatchReportedFirst(newPassword: string, confirmPassword: string)
    requires Utf16Length(newPassword) < 8 && newPassword != confirmPassword
    ensures ChangeCheck(newPassword, confirmPassword) == Mismatch
  {
  }

  function Message(r: ChangeOutcome): string {
    match r
    case Mismatch => "New passwords do not match!"
    case TooShort => "Password must be at least 8 characters long!"
    case Submitted => "Password updated successfully!"
  }

  datatype PasswordField = CurrentPassword | NewPassword | ConfirmPassword

  class SecurityPage {
    var currentPassword: string
    var newPassword: string
    var confirmPassword: string
    var isLoading: bool

    constructor()
      ensures currentPassword == "" && newPassword == "" && confirmPassword == "" && !isLoading
    {
      currentPassword, newPassword, confirmPassword := "", "", "";
      isLoading := false;
    }

    /** `handleInputChange`: the named field takes the value, the others keep theirs. */
    method HandleInputChange(field: PasswordField, value: string)
      modifies this`currentPassword, this`newPassword, this`confirmPassword
      ensures currentPassword == (if field == CurrentPassword then value else old(currentPassword))
      ensures newPassword == (if field == NewPassword then value else old(newPassword))
      ensures confirmPassword == (if field == ConfirmPassword then value else old(confirmPassword))
    {
      match field
      case CurrentPassword => currentPassword := value;
      case NewPassword => newPassword := value;
      case ConfirmPassword => confirmPassword := value;
    }

    /** The submission: a refused one changes nothing; an accepted one starts loading. */
    method HandlePasswordChange() returns (r: ChangeOutcome)
      modifies this`isLoading
      ensures r == ChangeCheck(newPassword, confirmPassword)
      ensures isLoading == (if r == Submitted then true else old(isLoading))
    {
      if newPassword != confirmPassword {
        return Mismatch;
      }
      if Utf16Length(newPassword) < 8 {
        return TooShort;
      }
      isLoading := true;
      r := Submitted;
    }

    /**
     * Submitting the form. The three inputs are `required`, so the browser refuses to submit
     * while any of them is empty and the handler is not called; otherwise the handler runs.
     */
    method SubmitForm() returns (r: Option<ChangeOutcome>)
      modifies this`isLoading
      ensures currentPassword == "" || newPassword == "" || confirmPassword == "" ==> r.None? && isLoading == old(isLoading)
      ensures currentPassword != "" && newPassword != "" && confirmPassword != "" ==> r == Some(ChangeCheck(newPassword, confirmPassword))
      ensures isLoading == (if r == Some(Submitted) then true else old(isLoading))
    {
      if currentPassword == "" || newPassword == "" || confirmPassword == "" {
        return None;
      }
      var outcome := HandlePasswordChange();
      r := Some(outcome);
    }

    /** The timer of a submitted change fires: loading ends and every field is cleared. */
    method ChangeCompleted()
      modifies this`isLoading, this`currentPassword, this`newPassword, this`confirmPassword
      ensures !isLoading && currentPassword == "" && newPassword == "" && confirmPassword == ""
    {
      isLoading := false;
      currentPassword, newPassword, confirmPassword := "", "", "";
    }
  }
}
