/**
 * client/src/pages/ResetPassword.tsx: the page reached from a reset e-mail. Without a token it
 * shows an invalid-link card; otherwise a two-field form whose submission is checked in a
 * fixed order, and a success card once the (simulated) call completes.
 */
module ResetPassword {
  import opened Wrappers
  import opened Text
  import opened PasswordMeter

  /** `getPasswordStrength`: Weak below 6 UTF-16 code units, Fair below 8, Good below 12. */
  function PasswordStrength(password: string): (s: Strength)
    ensures Utf16Length(password) == 0 ==> s == Strength(0, "")
    ensures 0 < Utf16Length(password) < 6 ==> s == Strength(25, "Weak")
    ensures 6 <= Utf16Length(password) < 8 ==> s == Strength(50, "Fair")
    ensures 8 <= Utf16Length(password) < 12 ==> s == Strength(75, "Good")
    ensures 12 <= Utf16Length(password) ==> s == Strength(100, "Strong")
  {
    ByLength(Utf16Length(password), 6, 8, 12)
  }

  lemma StrengthMonotone(p: string, q: string)
    requires Utf16Length(p) <= Utf16Length(q)
    ensures PasswordStrength(p).score <= PasswordStrength(q).score
  {
    ByLengthMonotone(Utf16Length(p), Utf16Length(q), 6, 8, 12);
  }

  /** Every password long enough to be accepted shows as at least Good. */
  lemma AcceptableIsAtLeastGood(p: string)
    requires Utf16Length(p) >= 8
    ensures PasswordStrength(p).score >= 75
  {
  }

  /** `!token`: no token parameter, or an empty one. */
  predicate MissingToken(token: Option<string>) { token.None? || token.value == "" }

  datatype SubmitOutcome = NoToken | EmptyFields | TooShort | Mismatch | Accepted

  /** The checks of `handleSubmit`: token, then empty fields, then length, then mismatch. */
  function SubmitCheck(token: Option<string>, password: string, confirmPassword: string): (r: SubmitOutcome)
    ensures MissingToken(token) <==> r == NoToken
    ensures r == EmptyFields <==> !MissingToken(token) && (password == "" || confirmPassword == "")
    ensures r == TooShort <==> !MissingToken(token) && password != "" && confirmPassword != "" && Utf16Length(password) < 8
    ensures r == Mismatch <==> !MissingToken(token) && confirmPassword != "" && Utf16Length(password) >= 8 && password != confirmPassword
    ensures r == Accepted <==> !MissingToken(token) && Utf16Length(password) >= 8 && password == confirmPassword
  {
    if MissingToken(token) then NoToken
    else if password == "" || confirmPassword == "" then EmptyFields
    else if Utf16Length(password) < 8 then TooShort
    else if password != confirmPassword then Mismatch
    else Accepted
  }

  function Message(r: SubmitOutcome): string {
    match r
    case NoToken => "Invalid or missing reset token"
    case EmptyFields => "Please fill in all fields"
    case TooShort => "Password must be at least 8 characters long"
    case Mismatch => "Passwords do not match"
    case Accepted => "Password reset successful!"
  }

  /** The submit button: enabled when not loading and both fields are filled and equal. */
  predicate SubmitEnabled(isLoading: bool, password: string, confirmPassword: string) {
    !isLoading && password != "" && confirmPassword != "" && password == confirmPassword
  }

  /** The hint under the confirmation field. */
  predicate MismatchHint(password: string, confirmPassword: string) {
    confirmPassword != "" && password != confirmPassword
  }

  /**
   * The button and the handler agree except on length: an enabled button can only be
   * refused for a short password, and an accepted submission always had the button enabled.
   */
  lemma ButtonAndHandlerAgree(token: Option<string>, password: string, confirmPassword: string)
    requires !MissingToken(token)
    ensures SubmitEnabled(false, password, confirmPassword) ==>
              SubmitCheck(token, password, confirmPassword) in {TooShort, Accepted}
    ensures SubmitCheck(token, password, confirmPassword) == Accepted ==> SubmitEnabled(false, password, confirmPassword)
    ensures SubmitCheck(token, password, confirmPassword) == Mismatch ==> MismatchHint(password, confirmPassword)
  {
  }

  datatype View = InvalidLink | SuccessCard | ResetForm

  /** Which card the page renders: the token check comes before everything else. */
  function ViewOf(token: Option<string>, isSuccess: bool): (v: View)
    ensures MissingToken(token) <==> v == InvalidLink
    ensures v == SuccessCard <==> !MissingToken(token) && isSuccess
  {
    if MissingToken(token) then InvalidLink else if isSuccess then SuccessCard else ResetForm
  }

  class ResetPasswordPage {
    const token: Option<string>
    var password: string
    var confirmPassword: string
    var isLoading: bool
    var isSuccess: bool

    /** The token comes from the query string. */
    constructor(token: Option<string>)
      ensures this.token == token && password == "" && confirmPassword == "" && !isLoading && !isSuccess
    {
      this.token := token;
      password, confirmPassword := "", "";
      isLoading, isSuccess := false, false;
    }

    function View(): View
      reads this
    {
      ViewOf(token, isSuccess)
    }

    /**
     * `handleSubmit`, run to the end of the simulated call: a refused submission changes
     * nothing; an accepted one ends with the success card and loading off.
     */
    method HandleSubmit() returns (r: SubmitOutcome)
      modifies this`isLoading, this`isSuccess
      ensures r == SubmitCheck(token, password, confirmPassword)
      ensures r != Accepted ==> isLoading == old(isLoading) && isSuccess == old(isSuccess)
      ensures r == Accepted ==> !isLoading && isSuccess && View() == SuccessCard
    {
      if token.None? || token.value == "" {
        return NoToken;
      }
      if password == "" || confirmPassword == "" {
        return EmptyFields;
      }
      if Utf16Length(password) < 8 {
        return TooShort;
      }
      if password != confirmPassword {
        return Mismatch;
      }
      isLoading := true;
      isSuccess := true;
      isLoading := false;
      r := Accepted;
    }
  }
}
