/**
 * The client side of password recovery (frontend/src/pages/ResetPassword.jsx): a three-step
 * wizard that asks for the account's email, collects a six-character code in six one-character
 * inputs, and finally asks for the new password. Two flags, `isEmailSent` and `isOtpSubmitted`,
 * select the form that is rendered. The two server calls are abstracted to the reply they get
 * back; navigating to the login page after a successful reset is the terminal state.
 */
module ResetPassword {
  import opened Wrappers
  import opened OtpSlots

  // ---------------------------------------------------------------- rendering

  datatype Step = EmailStep | OtpStep | NewPasswordStep

  /** The forms the render emits: one conditional per form, as written in the page. */
  function RenderedForms(isEmailSent: bool, isOtpSubmitted: bool): (forms: set<Step>)
    ensures |forms| == 1
  {
    (if !isEmailSent then {EmailStep} else {}) +
    (if !isOtpSubmitted && isEmailSent then {OtpStep} else {}) +
    (if isOtpSubmitted && isEmailSent then {NewPasswordStep} else {})
  }

  /** The wizard's step, decided by the first flag that is still false. */
  function CurrentStep(isEmailSent: bool, isOtpSubmitted: bool): Step {
    if !isEmailSent then EmailStep
    else if !isOtpSubmitted then OtpStep
    else NewPasswordStep
  }

  /** For every combination of the two flags, the render shows exactly the form of the current step. */
  lemma ExactlyOneFormRendered(isEmailSent: bool, isOtpSubmitted: bool)
    ensures RenderedForms(isEmailSent, isOtpSubmitted) == {CurrentStep(isEmailSent, isOtpSubmitted)}
  {
  }

  // ---------------------------------------------------------------- the network, abstracted

  /** What a handler posts to the authentication API. */
  datatype Request =
    | SendResetOtp(email: string)
    | ResetPasswordRequest(email: string, otp: string, newPassword: string)

  /** The outcome of a post: a reply whose `success` field is read, or a thrown error (caught by the handler). */
  datatype Reply = Answered(success: bool) | Threw

  predicate Succeeded(reply: Reply) {
    reply == Answered(true)
  }

  // ---------------------------------------------------------------- the page

  class Page {
    var email: string
    var newPassword: string
    var isEmailSent: bool
    var isOtpSubmitted: bool
    /** The values of the six OTP inputs. */
    var slots: array<string>
    /** The OTP input that has the keyboard focus. */
    var focus: nat
    /** The code as joined when the OTP form was accepted, sent with the new password. */
    var otp: string
    /** Set once the reset succeeded and the page navigated to the login page. */
    var navigatedAway: bool

    ghost predicate Valid()
      reads this, slots
    {
      && slots.Length == SlotCount
      && focus < SlotCount
      && ShortSlots(slots[..])
      && (isOtpSubmitted ==> isEmailSent)
      && (isOtpSubmitted ==> otp == Join(slots[..]) && |otp| == OtpLength)
      && (navigatedAway ==> isOtpSubmitted)
    }

    function Step(): Step
      reads this
    {
      CurrentStep(isEmailSent, isOtpSubmitted)
    }

    /** No handler ever clears a flag: the wizard only moves forward. */
    twostate predicate OnlyForward()
      reads this
    {
      && (old(isEmailSent) ==> isEmailSent)
      && (old(isOtpSubmitted) ==> isOtpSubmitted)
      && (old(navigatedAway) ==> navigatedAway)
    }

    constructor ()
      ensures Valid() && fresh(slots)
      ensures email == "" && newPassword == ""
      ensures !isEmailSent && !isOtpSubmitted && !navigatedAway
      ensures Step() == EmailStep
      ensures forall i :: 0 <= i < slots.Length ==> slots[i] == ""
      ensures focus == 0
    {
      email, newPassword := "", "";
      isEmailSent, isOtpSubmitted, navigatedAway := false, false, false;
      slots := new string[SlotCount](_ => "");
      focus := 0;
      otp := "";
    }

    /** The email field's `onChange`. */
    method SetEmail(value: string)
      requires Valid() && !navigatedAway && Step() == EmailStep
      modifies this`email
      ensures Valid() && OnlyForward()
      ensures email == value
    {
      email := value;
    }

    /**
     * `onSubmitEmail`: posts the email to send-reset-otp; the OTP step is reached only on a
     * reply with `success` true. A false reply or a thrown error changes nothing.
     */
    method SubmitEmail(reply: Reply) returns (request: Request)
      requires Valid() && !navigatedAway && Step() == EmailStep
      modifies this`isEmailSent
      ensures Valid() && OnlyForward()
      ensures request == SendResetOtp(email)
      ensures isEmailSent <==> Succeeded(reply)
      ensures Step() == if Succeeded(reply) then OtpStep else EmailStep
    {
      request := SendResetOtp(email);
      if Succeeded(reply) {
        isEmailSent := true;
      }
    }

    /**
     * An input event at OTP slot `index`: the browser has stored the typed `value` (at most one
     * character, `maxLength` 1) in the slot, then `handleInput` moves the focus.
     */
    method Input(index: nat, value: string)
      requires Valid() && !navigatedAway && Step() == OtpStep
      requires index < slots.Length && |value| <= 1
      modifies slots, this`focus
      ensures Valid() && OnlyForward()
      ensures slots[..] == old(slots[..])[index := value]
      ensures focus == FocusAfterInput(old(focus), index, value, slots.Length)
      ensures value != "" && index + 1 < SlotCount ==> focus == index + 1
    {
      slots[index] := value;
      focus := FocusAfterInput(focus, index, value, slots.Length);
    }

    /** `handleKeyDown` at OTP slot `index`: reads the slot as it is before the key takes effect. */
    method KeyDown(index: nat, key: string)
      requires Valid() && !navigatedAway && Step() == OtpStep
      requires index < slots.Length
      modifies this`focus
      ensures Valid() && OnlyForward()
      ensures focus == FocusAfterKey(old(focus), index, key, slots[index], slots.Length)
      ensures key == "Backspace" && slots[index] == "" && index > 0 ==> focus == index - 1
    {
      focus := FocusAfterKey(focus, index, key, slots[index], slots.Length);
    }

    /**
     * `handlePaste`: writes the first six characters of the clipboard into the slots, character
     * `i` into slot `i`; the slots beyond the pasted text keep their values.
     */
    method Paste(clip: string)
      requires Valid() && !navigatedAway && Step() == OtpStep
      modifies slots
      ensures Valid() && OnlyForward()
      ensures slots[..] == Pasted(old(slots[..]), PasteText(clip))
      ensures forall i :: 0 <= i < slots.Length ==>
        slots[i] == if i < |PasteText(clip)| then [clip[i]] else old(slots[i])
    {
      var paste := PasteText(clip);
      var index := 0;
      while index < |paste|
        invariant 0 <= index <= |paste|
        invariant slots[..] == Pasted(old(slots[..]), paste[..index])
      {
        if index < slots.Length {
          slots[index] := [paste[index]];
        }
        assert paste[..index + 1][..index] == paste[..index];
        index := index + 1;
      }
      assert paste[..index] == paste;
      PastedKeepsShortSlots(old(slots[..]), paste);
    }

    /**
     * `onSubmitOTP`: accepts the code when the joined slot values have at least six characters,
     * with no server call and no check that they are digits; otherwise nothing changes.
     */
    method SubmitOtp() returns (accepted: bool)
      requires Valid() && !navigatedAway && Step() == OtpStep
      modifies this`isOtpSubmitted, this`otp
      ensures Valid() && OnlyForward()
      ensures accepted <==> |Join(slots[..])| >= OtpLength
      ensures accepted <==> FilledSlots(slots[..])
      ensures isOtpSubmitted == accepted
      ensures accepted ==> otp == Join(slots[..])
      ensures !accepted ==> otp == old(otp)
    {
      var code := Join(slots[..]);
      JoinFullIffFilled(slots[..]);
      accepted := |code| >= OtpLength;
      if accepted {
        isOtpSubmitted := true;
        otp := code;
      }
    }

    /** The new-password field's `onChange`. */
    method SetNewPassword(value: string)
      requires Valid() && !navigatedAway && Step() == NewPasswordStep
      modifies this`newPassword
      ensures Valid() && OnlyForward()
      ensures newPassword == value
    {
      newPassword := value;
    }

    /**
     * `onSubmitNewPassword`, as corrected (see NewPasswordRequestAsWritten): posts the email,
     * the code accepted at the OTP step and the new password to reset-password. Success
     * navigates away; a failure leaves every flag and slot as it was, so a retry resends the
     * same code.
     */
    method SubmitNewPassword(reply: Reply) returns (request: Request)
      requires Valid() && !navigatedAway && Step() == NewPasswordStep
      modifies this`navigatedAway
      ensures Valid() && OnlyForward()
      ensures request == ResetPasswordRequest(email, Join(slots[..]), newPassword)
      ensures |request.otp| == OtpLength
      ensures navigatedAway <==> Succeeded(reply)
    {
      request := ResetPasswordRequest(email, otp, newPassword);
      if Succeeded(reply) {
        navigatedAway := true;
      }
    }
  }

  // ---------------------------------------------------------------- the code as the page reads it

  /**
   * `inputRefs.current` at each step. The array starts empty; while the OTP form is mounted it
   * holds the six inputs; once that form unmounts, React calls each callback ref with `null`.
   */
  function RefsAt(step: Step, slots: seq<string>): (refs: seq<Option<string>>)
    ensures step == OtpStep ==> |refs| == |slots| && forall i :: 0 <= i < |slots| ==> refs[i] == Some(slots[i])
    ensures step == NewPasswordStep ==> |refs| == |slots| && forall i :: 0 <= i < |slots| ==> refs[i] == None
  {
    match step
    case EmailStep => []
    case OtpStep => seq(|slots|, i requires 0 <= i < |slots| => Some(slots[i]))
    case NewPasswordStep => seq(|slots|, _ => None)
  }

  /** `inputRefs.current.map((ref) => ref.value).join('')`: None stands for the TypeError on a null ref. */
  function ReadRefs(refs: seq<Option<string>>): (code: Option<string>)
    ensures code == None <==> exists i :: 0 <= i < |refs| && refs[i] == None
  {
    if refs == [] then Some("")
    else if refs[0] == None then None
    else match ReadRefs(refs[1..])
      case None => None
      case Some(rest) => Some(refs[0].value + rest)
  }

  /** While the OTP form is mounted, reading the refs yields the joined slot values, as the OTP gate uses them. */
  lemma {:induction false} ReadRefsAtOtpStep(slots: seq<string>)
    ensures ReadRefs(RefsAt(OtpStep, slots)) == Some(Join(slots))
  {
    if slots != [] {
      ReadRefsAtOtpStep(slots[1..]);
      assert RefsAt(OtpStep, slots)[1..] == RefsAt(OtpStep, slots[1..]);
    }
  }

  /**
   * `onSubmitNewPassword` as written: it joins the code from the refs at line 64, outside its
   * `try`, while the new-password form is shown. The refs are null by then, so the handler throws
   * before posting and no reset-password request is ever sent.
   */
  function NewPasswordRequestAsWritten(email: string, newPassword: string, slots: seq<string>): (request: Option<Request>)
    requires |slots| == SlotCount
    ensures request == None
  {
    var refs := RefsAt(NewPasswordStep, slots);
    assert refs[0] == None;
    match ReadRefs(refs)
    case None => None
    case Some(code) => Some(ResetPasswordRequest(email, code, newPassword))
  }

  // ---------------------------------------------------------------- whole-flow scenarios

  /**
   * A full recovery: the email is accepted, "123456" is pasted, the code is submitted and the
   * new password posted. The final request carries the pasted code.
   */
  method PasteAndReset(email: string, newPassword: string) returns (request: Request)
    ensures request == ResetPasswordRequest(email, "123456", newPassword)
  {
    var page := new Page();
    page.SetEmail(email);
    var first := page.SubmitEmail(Answered(true));
    ghost var before := page.slots[..];
    page.Paste("123456");
    PasteFillsCode(before, "123456");
    var accepted := page.SubmitOtp();
    page.SetNewPassword(newPassword);
    request := page.SubmitNewPassword(Answered(true));
  }

  /** A failed reset followed by a retry posts the same code and password both times. */
  method RetryResendsSameCode(page: Page, first: Reply) returns (sent: Request, resent: Request)
    requires page.Valid() && !page.navigatedAway && page.Step() == NewPasswordStep
    requires !Succeeded(first)
    modifies page
    ensures sent == resent
    ensures sent.ResetPasswordRequest? && |sent.otp| == OtpLength
  {
    sent := page.SubmitNewPassword(first);
    resent := page.SubmitNewPassword(Answered(true));
  }
}
