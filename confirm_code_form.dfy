/** The form that confirms a sign-up with the six-digit code sent by e-mail. */
module ConfirmCodeForm {
  import opened Common

  /** `value.replace(/[^0-9]/g, "")`: the ASCII digits of the input, in order. */
  function DigitsOnly(s: string): (r: string)
    ensures |r| <= |s|
    ensures forall i :: 0 <= i < |r| ==> IsDigit(r[i])
    ensures forall c :: IsDigit(c) ==> multiset(r)[c] == multiset(s)[c]
  {
    if s == [] then []
    else
      assert s == [s[0]] + s[1..];
      (if IsDigit(s[0]) then [s[0]] else []) + DigitsOnly(s[1..])
  }

  /** The filter works piece by piece, so it keeps the digits' order. */
  lemma {:induction false} DigitsOnlyAppend(a: string, b: string)
    ensures DigitsOnly(a + b) == DigitsOnly(a) + DigitsOnly(b)
  {
    if a == [] {
      assert a + b == b;
    } else {
      var ab := a + b;
      assert ab[0] == a[0] && ab[1..] == a[1..] + b;
      var head := if IsDigit(a[0]) then [a[0]] else [];
      calc {
        DigitsOnly(ab);
        head + DigitsOnly(a[1..] + b);
        { DigitsOnlyAppend(a[1..], b); }
        head + (DigitsOnly(a[1..]) + DigitsOnly(b));
        (head + DigitsOnly(a[1..])) + DigitsOnly(b);
      }
    }
  }

  /** A string of digits passes unchanged. */
  lemma {:induction false} DigitsOnlyKeepsDigits(s: string)
    requires forall i :: 0 <= i < |s| ==> IsDigit(s[i])
    ensures DigitsOnly(s) == s
  {
    if s != [] {
      DigitsOnlyKeepsDigits(s[1..]);
    }
  }

  /** Filtering twice is filtering once. */
  lemma DigitsOnlyIdempotent(s: string)
    ensures DigitsOnly(DigitsOnly(s)) == DigitsOnly(s)
  {
    DigitsOnlyKeepsDigits(DigitsOnly(s));
  }

  /** The filter itself has no length cap: seven digits stay seven. */
  lemma NoLengthCap()
    ensures |DigitsOnly("1234567")| == 7
  {
    DigitsOnlyKeepsDigits("1234567");
  }

  /** What the Cognito call does: succeeds, or throws an error whose `message` may be empty. */
  datatype CallOutcome = Succeeded | Failed(message: Option<string>)

  const ConfirmedText := "アカウントが正常に確認されました！サインインフォームに移動します..."
  const ConfirmFailedText := "認証コードの確認に失敗しました"
  const ResentText := "認証コードを再送信しました。メールをご確認ください。"
  const ResendFailedText := "認証コードの再送信に失敗しました"

  /** `err.message || fallback` */
  function ErrorText(message: Option<string>, fallback: string): (t: string)
    ensures Truthy(message) ==> t == message.value
    ensures !Truthy(message) ==> t == fallback
  {
    if Truthy(message) then message.value else fallback
  }

  class ConfirmCodeForm {
    var code: string
    var loading: bool
    var resendLoading: bool
    var error: string
    var success: string

    /** The code holds only digits. */
    ghost predicate Valid()
      reads this
    {
      forall i :: 0 <= i < |code| ==> IsDigit(code[i])
    }

    constructor()
      ensures Valid()
      ensures code == "" && !loading && !resendLoading && error == "" && success == ""
    {
      code := "";
      loading := false;
      resendLoading := false;
      error := "";
      success := "";
    }

    /** `handleCodeChange` */
    method HandleCodeChange(value: string)
      modifies this
      ensures Valid()
      ensures code == DigitsOnly(value)
      ensures loading == old(loading) && resendLoading == old(resendLoading)
      ensures error == old(error) && success == old(success)
    {
      code := DigitsOnly(value);
    }

    /**
     * The submit button is disabled while loading and unless the code has
     * six characters; with the code digits only, an enabled button submits
     * a code of exactly six digits.
     */
    predicate SubmitDisabled(): (d: bool)
      reads this
      ensures Valid() && !d ==> !loading && |code| == 6 && forall i :: 0 <= i < 6 ==> IsDigit(code[i])
    {
      loading || |code| != 6
    }

    /** The input and the buttons are hidden once there is a success message. */
    predicate ControlsHidden()
      reads this
    {
      success != ""
    }

    /**
     * `handleSubmit`: clears both messages, confirms the code, and sets the
     * success or the error message; loading ends false either way.
     */
    method HandleSubmit(outcome: CallOutcome)
      requires Valid()
      modifies this
      ensures Valid() && code == old(code) && resendLoading == old(resendLoading)
      ensures !loading
      ensures outcome.Succeeded? ==> success == ConfirmedText && error == "" && ControlsHidden()
      ensures outcome.Failed? ==> success == "" && error == ErrorText(outcome.message, ConfirmFailedText)
    {
      error := "";
      success := "";
      loading := true;
      match outcome {
        case Succeeded =>
          success := ConfirmedText;
        case Failed(message) =>
          error := ErrorText(message, ConfirmFailedText);
      }
      loading := false;
    }

    /**
     * `handleResendCode`: clears the error, asks for a new code, and sets the
     * success or the error message; a failure keeps the old success message.
     */
    method HandleResendCode(outcome: CallOutcome)
      requires Valid()
      modifies this
      ensures Valid() && code == old(code) && loading == old(loading)
      ensures !resendLoading
      ensures outcome.Succeeded? ==> success == ResentText && error == "" && ControlsHidden()
      ensures outcome.Failed? ==> success == old(success) && error == ErrorText(outcome.message, ResendFailedText)
    {
      error := "";
      resendLoading := true;
      match outcome {
        case Succeeded =>
          success := ResentText;
        case Failed(message) =>
          error := ErrorText(message, ResendFailedText);
      }
      resendLoading := false;
    }
  }
}
