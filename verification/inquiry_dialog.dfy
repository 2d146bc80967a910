/** The inquiry and feedback dialog (`app/components/inquiry-dialog.tsx`): the
    sender's profile is copied from the signed-in user, the form is checked
    on submit, and a sent form keeps the profile and loses its content.

    The signed-in user is `Some(user)` and nobody `None`; a profile field the
    user record lacks is "". */
module InquiryDialog {
  import opened Wrappers
  import opened Email
  import opened Domain

  datatype UserInfo = UserInfo(name: string, email: string, affiliation: string, position: string)

  datatype InquiryForm = InquiryForm(name: string, affiliation: string, position: string, email: string, content: string)

  datatype InquiryField = NameField | AffiliationField | PositionField | EmailField | ContentField

  datatype InquiryType = AdminInquiry | Feedback

  const MissingField := "이름, 이메일, 내용을 모두 입력해주세요."
  const InvalidEmail := "유효한 이메일 주소를 입력해주세요."

  /** The profile part of the form for the signed-in user, or empty. */
  function ProfileForm(user: Option<UserInfo>, content: string): (f: InquiryForm)
    ensures f.content == content
    ensures user.None? ==> f == InquiryForm("", "", "", "", content)
    ensures user.Some? ==> f.name == user.value.name && f.email == user.value.email
    ensures user.Some? ==> f.affiliation == user.value.affiliation && f.position == user.value.position
  {
    match user
    case None => InquiryForm("", "", "", "", content)
    case Some(u) => InquiryForm(u.name, u.affiliation, u.position, u.email, content)
  }

  /** The checks of `handleSubmit`: the message of the first failure, or None. */
  function Check(f: InquiryForm): (r: Option<string>)
    ensures r.None? <==> f.name != "" && f.email != "" && f.content != "" && IsEmail(f.email)
    ensures f.name == "" || f.email == "" || f.content == "" ==> r == Some(MissingField)
  {
    if f.name == "" || f.email == "" || f.content == "" then Some(MissingField)
    else if !IsEmail(f.email) then Some(InvalidEmail)
    else None
  }

  /** Affiliation and position are optional: they never decide the check. */
  lemma CheckIgnoresOptional(f: InquiryForm, affiliation: string, position: string)
    ensures Check(f.(affiliation := affiliation, position := position)) == Check(f)
  {
  }

  /** An e-mail check failure means the address has no match of the pattern. */
  lemma CheckEmail(f: InquiryForm)
    ensures Check(f) == Some(InvalidEmail) <==>
      f.name != "" && f.email != "" && f.content != "" && !EmailPattern(f.email)
  {
    IsEmailIff(f.email);
  }

  /** `{ ...formData, [id]: value }`. */
  function WithField(f: InquiryForm, field: InquiryField, value: string): (r: InquiryForm)
    ensures field == NameField ==> r == f.(name := value)
    ensures field == AffiliationField ==> r == f.(affiliation := value)
    ensures field == PositionField ==> r == f.(position := value)
    ensures field == EmailField ==> r == f.(email := value)
    ensures field == ContentField ==> r == f.(content := value)
  {
    match field
    case NameField => f.(name := value)
    case AffiliationField => f.(affiliation := value)
    case PositionField => f.(position := value)
    case EmailField => f.(email := value)
    case ContentField => f.(content := value)
  }

  function SuccessMessage(t: InquiryType): string {
    (if t == AdminInquiry then "문의" else "피드백") + "가 성공적으로 접수되었습니다."
  }

  datatype State = State(form: InquiryForm, alert: Option<Alert>)

  class InquiryPage {
    var form: InquiryForm
    var alert: Option<Alert>

    function Snapshot(): State
      reads this
    {
      State(form, alert)
    }

    /** The initial form: the user's profile, or empty, and no content. */
    constructor (user: Option<UserInfo>)
      ensures Snapshot() == State(ProfileForm(user, ""), None)
    {
      form := ProfileForm(user, "");
      alert := None;
    }

    /** The effect run when the user changes or the dialog opens: the profile
        is copied or cleared, the content kept. */
    method SyncUser(user: Option<UserInfo>)
      modifies this
      ensures Snapshot() == old(Snapshot()).(form := ProfileForm(user, old(form).content))
    {
      form := ProfileForm(user, form.content);
    }

    /** `handleInputChange` for the input with the field's id. */
    method HandleInputChange(field: InquiryField, value: string)
      modifies this
      ensures Snapshot() == old(Snapshot()).(form := WithField(old(form), field, value))
    {
      form := WithField(form, field, value);
    }

    /** `handleSubmit` for the dialog's type and the signed-in user. A form
        failing a check only raises the error banner; a sent form gets the
        success banner and is reset to the profile with no content. */
    method HandleSubmit(t: InquiryType, user: Option<UserInfo>)
      modifies this
      ensures Check(old(form)).Some? ==>
        Snapshot() == old(Snapshot()).(alert := Some(Alert(AlertError, Check(old(form)).value)))
      ensures Check(old(form)).None? ==>
        Snapshot() == State(ProfileForm(user, ""), Some(Alert(AlertSuccess, SuccessMessage(t))))
    {
      var c := Check(form);
      if c.Some? {
        alert := Some(Alert(AlertError, c.value));
        return;
      }
      alert := Some(Alert(AlertSuccess, SuccessMessage(t)));
      form := form.(content := "");
      form := ProfileForm(user, "");
    }
  }
}
