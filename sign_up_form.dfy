/** The sign-up form: four fields, two password checks, then Cognito's sign-up. */
module SignUpForm {
  import opened Common

  datatype SignUpData = SignUpData(email: string, password: string, confirmPassword: string, name: string)

  /** The input names `handleChange` receives. */
  datatype Field = Email | Password | ConfirmPassword | Name

  const Empty := SignUpData("", "", "", "")

  const MismatchText := "パスワードが一致しません"
  const TooShortText := "パスワードは8文字以上である必要があります"
  const FailedText := "サインアップに失敗しました"

  /** `{ ...prev, [name]: value }` */
  function WithField(d: SignUpData, f: Field, value: string): (r: SignUpData)
    ensures match f
            case Email => r == d.(email := value)
            case Password => r == d.(password := value)
            case ConfirmPassword => r == d.(confirmPassword := value)
            case Name => r == d.(name := value)
  {
    match f
    case Email => d.(email := value)
    case Password => d.(password := value)
    case ConfirmPassword => d.(confirmPassword := value)
    case Name => d.(name := value)
  }

  /**
   * The checks before the call: the mismatch first, then a password shorter
   * than eight UTF-16 code units. `None` lets the sign-up go ahead.
   */
  function Validate(d: SignUpData): (err: Option<string>)
    ensures err.None? <==> d.password == d.confirmPassword && Utf16Length(d.password) >= 8
    ensures d.password != d.confirmPassword ==> err == Some(MismatchText)
    ensures d.password == d.confirmPassword && Utf16Length(d.password) < 8 ==> err == Some(TooShortText)
  {
    if d.password != d.confirmPassword then Some(MismatchText)
    else if Utf16Length(d.password) < 8 then Some(TooShortText)
    else None
  }

  /** A short password that also mismatches is reported as a mismatch. */
  lemma MismatchReportedFirst(d: SignUpData)
    requires d.password != d.confirmPassword && Utf16Length(d.password) < 8
    ensures Validate(d) == Some(MismatchText)
  {
  }

  /** Four characters above U+FFFF make eight code units and pass the length check. */
  lemma AstralCharactersCountTwice()
    ensures var p := "\U{1F600}\U{1F600}\U{1F600}\U{1F600}";
            |p| == 4 && Validate(SignUpData("", p, p, "")) == None
  {
    var p := "\U{1F600}\U{1F600}\U{1F600}\U{1F600}";
    assert Utf16Length(p) == 2 + Utf16Length(p[1..]);
    assert Utf16Length(p[1..]) == 2 + Utf16Length(p[2..]);
    assert Utf16Length(p[2..]) == 2 + Utf16Length(p[3..]);
    assert Utf16Length(p[3..]) == 2 + Utf16Length(p[4..]);
  }

  /** What `signUp` does: succeeds, or throws an error whose `message` may be empty. */
  datatype SignUpOutcome = SignedUp | Failed(message: Option<string>)

  /** The arguments `signUp` is called with. */
  datatype SignUpCall = SignUpCall(email: string, password: string, name: string)

  class SignUpForm {
    var formData: SignUpData
    var loading: bool
    var error: string

    constructor()
      ensures formData == Empty && !loading && error == ""
    {
      formData := Empty;
      loading := false;
      error := "";
    }

    /** `handleChange`: only the named field changes. */
    method HandleChange(f: Field, value: string)
      modifies this
      ensures formData == WithField(old(formData), f, value)
      ensures loading == old(loading) && error == old(error)
    {
      formData := WithField(formData, f, value);
    }

    /**
     * `handleSubmit`. `signUp` is Cognito's answer to a call; `call` is the
     * call made, if any, and `confirmEmail` the e-mail handed to the confirm
     * form on success, taken before the fields are cleared.
     */
    method HandleSubmit(signUp: SignUpCall -> SignUpOutcome)
      returns (call: Option<SignUpCall>, confirmEmail: Option<string>)
      modifies this
      ensures !loading
      ensures call.Some? <==> Validate(old(formData)).None?
      ensures call.Some? ==> call.value == SignUpCall(old(formData).email, old(formData).password, old(formData).name)
      ensures Validate(old(formData)).Some? ==>
                error == Validate(old(formData)).value && formData == old(formData) && confirmEmail.None?
      ensures call.Some? && signUp(call.value).SignedUp? ==>
                formData == Empty && error == "" && confirmEmail == Some(old(formData).email)
      ensures call.Some? && signUp(call.value).Failed? ==>
                formData == old(formData) && confirmEmail.None?
                && error == (if Truthy(signUp(call.value).message) then signUp(call.value).message.value else FailedText)
    {
      error := "";
      loading := true;
      confirmEmail := None;
      call := None;
      var invalid := Validate(formData);
      if invalid.Some? {
        error := invalid.value;
        loading := false;
        return;
      }
      var submitted := formData;
      call := Some(SignUpCall(submitted.email, submitted.password, submitted.name));
      match signUp(call.value) {
        case SignedUp =>
          formData := Empty;
          confirmEmail := Some(submitted.email);
        case Failed(message) =>
          error := if Truthy(message) then message.value else FailedText;
      }
      loading := false;
    }
  }
}
