/** The sign-up dialog (`app/components/auth/signup-dialog.tsx`): the form is
    checked field by field before the account service is called, and reset
    when the dialog closes. The service's answer is a parameter. */
module SignUpDialog {
  import opened Wrappers
  import opened Email
  import opened Domain

  datatype SignUpForm = SignUpForm(name: string, email: string, password: string, confirmPassword: string)

  const EmptyForm := SignUpForm("", "", "", "")

  datatype SignUpField = NameField | EmailField | PasswordField | ConfirmPasswordField

  const MissingField := "모든 필드를 입력해주세요."
  const InvalidEmail := "유효한 이메일을 입력해주세요."
  const ShortPassword := "비밀번호는 최소 8자 이상이어야 합니다."
  const PasswordMismatch := "비밀번호가 일치하지 않습니다."

  predicate Filled(f: SignUpForm) {
    f.name != "" && f.email != "" && f.password != "" && f.confirmPassword != ""
  }

  /** `validateForm`: the message of the first check that fails, in the
      order the form checks them, or None when all pass. */
  function Validate(f: SignUpForm): (r: Option<string>)
    ensures r.None? <==> Filled(f) && IsEmail(f.email) && |f.password| >= 8 && f.password == f.confirmPassword
  {
    if !Filled(f) then Some(MissingField)
    else if !IsEmail(f.email) then Some(InvalidEmail)
    else if |f.password| < 8 then Some(ShortPassword)
    else if f.password != f.confirmPassword then Some(PasswordMismatch)
    else None
  }

  /** Each check rejects the form on its own, and a later check's message is
      shown only when every earlier check passed. */
  lemma ValidateOrder(f: SignUpForm)
    ensures !Filled(f) ==> Validate(f) == Some(MissingField)
    ensures Filled(f) && !EmailPattern(f.email) ==> Validate(f) == Some(InvalidEmail)
    ensures Filled(f) && IsEmail(f.email) && |f.password| < 8 ==> Validate(f) == Some(ShortPassword)
    ensures Filled(f) && IsEmail(f.email) && |f.password| >= 8 && f.password != f.confirmPassword
      ==> Validate(f) == Some(PasswordMismatch)
    ensures Validate(f) == Some(InvalidEmail) ==> Filled(f) && !EmailPattern(f.email)
    ensures Validate(f) == Some(ShortPassword) ==> Filled(f) && EmailPattern(f.email) && |f.password| < 8
    ensures Validate(f) == Some(PasswordMismatch) ==> Filled(f) && EmailPattern(f.email) && f.password != f.confirmPassword
  {
    IsEmailIff(f.email);
  }

  /** `{ ...formData, [id]: value }`. */
  function WithField(f: SignUpForm, field: SignUpField, value: string): (r: SignUpForm)
    ensures field == NameField ==> r == f.(name := value)
    ensures field == EmailField ==> r == f.(email := value)
    ensures field == PasswordField ==> r == f.(password := value)
    ensures field == ConfirmPasswordField ==> r == f.(confirmPassword := value)
  {
    match field
    case NameField => f.(name := value)
    case EmailField => f.(email := value)
    case PasswordField => f.(password := value)
    case ConfirmPasswordField => f.(confirmPassword := value)
  }

  /** What `supabase.auth.signUp` does: an answer without error, an answer
      carrying an error message, or an exception. */
  datatype SignUpResponse = Accepted | Refused(message: string) | Threw

  datatype State = State(form: SignUpForm, alert: Option<Alert>, loading: bool)

  class SignUpPage {
    var form: SignUpForm
    var alert: Option<Alert>
    var loading: bool

    function Snapshot(): State
      reads this
    {
      State(form, alert, loading)
    }

    constructor ()
      ensures Snapshot() == State(EmptyForm, None, false)
    {
      form := EmptyForm;
      alert := None;
      loading := false;
    }

    /** `handleInputChange` for the input with the field's id. */
    method HandleInputChange(field: SignUpField, value: string)
      modifies this
      ensures Snapshot() == old(Snapshot()).(form := WithField(old(form), field, value))
    {
      form := WithField(form, field, value);
    }

    /** `validateForm`, which raises the error banner of the first failed
        check. */
    method ValidateForm() returns (ok: bool)
      modifies this
      ensures ok <==> Validate(old(form)).None?
      ensures ok ==> Snapshot() == old(Snapshot())
      ensures !ok ==> Snapshot() == old(Snapshot()).(alert := Some(Alert(AlertError, Validate(old(form)).value)))
    {
      var v := Validate(form);
      if v.Some? {
        alert := Some(Alert(AlertError, v.value));
        return false;
      }
      return true;
    }

    /** `handleSignUp`: the service is called only with a valid form; its
        answer decides the banner and loading ends either way. */
    method HandleSignUp(response: SignUpResponse) returns (called: bool)
      modifies this
      ensures called <==> Validate(old(form)).None?
      ensures !called ==> Snapshot() == old(Snapshot()).(alert := Some(Alert(AlertError, Validate(old(form)).value)))
      ensures called ==> form == old(form) && !loading
      ensures called ==> alert == Some(match response
        case Accepted => Alert(AlertSuccess, "회원가입 성공! 이메일을 확인하세요.")
        case Refused(m) => Alert(AlertError, m)
        case Threw => Alert(AlertError, "회원가입 중 오류가 발생했습니다."))
    {
      var ok := ValidateForm();
      if !ok {
        return false;
      }
      called := true;
      loading := true;
      match response {
        case Accepted =>
          alert := Some(Alert(AlertSuccess, "회원가입 성공! 이메일을 확인하세요."));
        case Refused(m) =>
          alert := Some(Alert(AlertError, m));
        case Threw =>
          alert := Some(Alert(AlertError, "회원가입 중 오류가 발생했습니다."));
      }
      loading := false;
    }

    /** `resetForm`: the four fields emptied and the banner removed. */
    method ResetForm()
      modifies this
      ensures Snapshot() == old(Snapshot()).(form := EmptyForm, alert := None)
    {
      form := EmptyForm;
      alert := None;
    }

    /** The dialog's `onOpenChange(o)`: closing resets the form. */
    method OnOpenChange(o: bool)
      modifies this
      ensures Snapshot() == if o then old(Snapshot()) else old(Snapshot()).(form := EmptyForm, alert := None)
    {
      if !o {
        ResetForm();
      }
    }
  }
}
