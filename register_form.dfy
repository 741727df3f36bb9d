/** The registration screen's form check and the payload it hands to the session's `register`. */
module RegisterForm {
  import opened Wrappers
  import opened JsStrings
  import opened EmailPattern

  /** The five text inputs of the screen. */
  datatype Form = Form(firstName: string, lastName: string, email: string, password: string, confirmPassword: string)

  /** What is sent to the server: the confirmation is not part of it. */
  datatype RegisterData = RegisterData(firstName: string, lastName: string, email: string, password: string)

  /** The four alerts `validateForm` can raise, in the order it checks them. */
  datatype RegisterError = EmptyField | PasswordMismatch | InvalidEmail | PasswordTooShort

  /** No input is the empty string; white space alone counts as filled, nothing is trimmed. */
  predicate AllFilled(f: Form) {
    f.firstName != "" && f.lastName != "" && f.email != "" && f.password != "" && f.confirmPassword != ""
  }

  const MinPasswordLength: nat := 6

  /** `validateForm`: the first failing check decides the alert; all four must pass. */
  function ValidateForm(f: Form): (r: Check<RegisterError>)
    ensures r == Pass <==>
      AllFilled(f) && f.password == f.confirmPassword && EmailShape(f.email) && Utf16Length(f.password) >= MinPasswordLength
    ensures r == Fail(EmptyField) <==> !AllFilled(f)
    ensures r == Fail(PasswordMismatch) <==> AllFilled(f) && f.password != f.confirmPassword
    ensures r == Fail(InvalidEmail) <==> AllFilled(f) && f.password == f.confirmPassword && !EmailShape(f.email)
    ensures r == Fail(PasswordTooShort) <==>
      AllFilled(f) && f.password == f.confirmPassword && EmailShape(f.email) && Utf16Length(f.password) < MinPasswordLength
  {
    EmailTestIff(f.email);
    if f.firstName == "" || f.lastName == "" || f.email == "" || f.password == "" || f.confirmPassword == "" then
      Fail(EmptyField)
    else if f.password != f.confirmPassword then Fail(PasswordMismatch)
    else if !Test(EmailRegex, f.email) then Fail(InvalidEmail)
    else if Utf16Length(f.password) < MinPasswordLength then Fail(PasswordTooShort)
    else Pass
  }

  /** `handleRegister` up to the call of `register`: the payload is sent only when the form passes. */
  function HandleRegister(f: Form): (r: Option<RegisterData>)
    ensures r.Some? <==> ValidateForm(f) == Pass
    ensures r.Some? ==> r.value.firstName == f.firstName && r.value.lastName == f.lastName
                        && r.value.email == f.email && r.value.password == f.password
  {
    if ValidateForm(f) != Pass then None
    else Some(RegisterData(f.firstName, f.lastName, f.email, f.password))
  }

  /** A password of fewer than six code points is refused whatever the other inputs are. */
  lemma {:induction false} ShortPasswordRefused(f: Form)
    requires |f.password| < 3 || (|f.password| < MinPasswordLength && forall i :: 0 <= i < |f.password| ==> f.password[i] as int <= 0xFFFF)
    ensures ValidateForm(f) != Pass
  {
    Utf16LengthBounds(f.password);
  }

  /**
   * Inputs made only of white space pass the emptiness check, which tests
   * emptiness, not blankness; with matching passwords such a form is then
   * refused on the e-mail.
   */
  lemma SpacesAreFilled(f: Form)
    requires AllFilled(f) && Blank(f.firstName) && Blank(f.lastName) && Blank(f.email)
    requires Blank(f.password) && f.password == f.confirmPassword
    ensures ValidateForm(f) != Fail(EmptyField)
    ensures ValidateForm(f) == Fail(InvalidEmail)
  {
    assert forall k :: 0 <= k < |f.email| ==> f.email[k] != '@';
  }

  /** An address such as `a@b.c` passes, wherever it stands in the text. */
  lemma {:induction false} EmailAnywhere(pre: string, post: string, x: char, y: char, z: char)
    requires !IsSpace(x) && !IsSpace(y) && !IsSpace(z)
    ensures EmailShape(pre + [x, '@', y, '.', z] + post)
  {
    var s := pre + [x, '@', y, '.', z] + post;
    var a := |pre| + 1;
    assert s[a - 1] == x && s[a] == '@' && s[a + 1] == y && s[a + 2] == '.' && s[a + 3] == z;
    assert EmailAt(s, a, a + 2);
  }
}
