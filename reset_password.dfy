/** The reset-password page: the sanitiser of the reset code, the checks made
    before anything is sent, and the request state that a submission steps
    through as the verify and reset replies come back. */
module ResetPassword {

  import opened Common
  import Seqs

  /** The reset code is six digits long. */
  const CodeLength := 6

  // ---------------------------------------------------------------------------
  // The code sanitiser
  // ---------------------------------------------------------------------------

  /** `s.replace(/\D/g, '')`: the ASCII digits of `s`, in order. */
  function Digits(s: string): (r: string)
    ensures forall i :: 0 <= i < |r| ==> IsDigit(r[i])
    ensures forall c :: c in r <==> c in s && IsDigit(c)
    ensures forall c :: multiset(r)[c] == if IsDigit(c) then multiset(s)[c] else 0
    ensures Seqs.IsSubsequence(r, s)
  {
    Seqs.FilterMultiset(IsDigit, s);
    Seqs.FilterIsSubsequence(IsDigit, s);
    Seqs.Filter(IsDigit, s)
  }

  /** `.slice(0, 6)` of the digits. */
  function SanitiseCode(s: string): (r: string)
    ensures forall i :: 0 <= i < |r| ==> IsDigit(r[i])
    ensures |r| <= CodeLength
    ensures |r| == if |Digits(s)| < CodeLength then |Digits(s)| else CodeLength
    ensures r == Digits(s)[..|r|]
  {
    var d := Digits(s);
    if |d| <= CodeLength then d else d[..CodeLength]
  }

  /** What the code input can hold: at most six digits. */
  predicate IsCodeInput(code: string)
  {
    |code| <= CodeLength && forall i :: 0 <= i < |code| ==> IsDigit(code[i])
  }

  /** Sanitising a sanitised code changes nothing. */
  lemma SanitiseIdempotent(s: string)
    ensures SanitiseCode(SanitiseCode(s)) == SanitiseCode(s)
  {
    var r := SanitiseCode(s);
    Seqs.FilterKeepsAll(IsDigit, r);
  }

  /** A code made of digits only, at most six of them, is kept as it is. */
  lemma SanitiseKeepsCode(code: string)
    requires IsCodeInput(code)
    ensures SanitiseCode(code) == code
  {
    Seqs.FilterKeepsAll(IsDigit, code);
  }

  // ---------------------------------------------------------------------------
  // The form and its checks
  // ---------------------------------------------------------------------------

  datatype ResetDraft = ResetDraft(code: string, newPassword: string, confirmPassword: string)

  function DefaultResetDraft(): (d: ResetDraft)
    ensures d.code == [] && d.newPassword == [] && d.confirmPassword == []
  {
    ResetDraft([], [], [])
  }

  /** `checkValidity()`: the three inputs are `required`; nothing else is
      enforced, in particular not the length of the code. */
  predicate CheckValidity(d: ResetDraft)
  {
    d.code != [] && d.newPassword != [] && d.confirmPassword != []
  }

  /** The code input is marked invalid once validated unless it has six
      characters. */
  predicate CodeFlagged(validated: bool, code: string)
  {
    validated && |code| != CodeLength
  }

  /** A submission of this draft goes on to the verify request: the browser
      lets it through and the two passwords match. */
  predicate SendsOnSubmit(d: ResetDraft)
  {
    CheckValidity(d) && d.newPassword == d.confirmPassword
  }

  /** The length check is shown but does not stop the submission: every
      filled-in draft with matching passwords and a code of any length but
      six is flagged once validated, and is still sent. */
  lemma ShortCodeStillSent(d: ResetDraft)
    requires CheckValidity(d) && d.newPassword == d.confirmPassword && |d.code| != CodeLength
    ensures CodeFlagged(true, d.code) && SendsOnSubmit(d)
  {
  }

  // ---------------------------------------------------------------------------
  // The request state
  // ---------------------------------------------------------------------------

  /** `resetCall.state` */
  datatype CallState = Inactive | Pending | Succeeded | Failed

  datatype MessageKind = NoMessage | ErrorMessage | SuccessMessage

  /** `message`: its type and its text. */
  datatype Message = Message(kind: MessageKind, text: string)

  /** The answer to one request: a response with its `ok` flag and the
      `message` of its body, or a failure of the request itself (a thrown
      `fetch` or an unreadable body). */
  datatype Reply = Responded(ok: bool, message: Option<string>) | NetworkFailure

  /** `response.ok` of a response that arrived. */
  predicate IsOk(reply: Reply)
  {
    reply.Responded? && reply.ok
  }

  /** Which reply the pending submission waits for. */
  datatype Awaiting = Idle | AwaitVerify | AwaitReset

  const MismatchText := "Passwords do not match."
  const InvalidCodeText := "Invalid reset code."
  const ResetFailedText := "Failed to reset password."
  const NetworkErrorText := "Network error. Please try again."
  const SuccessText := "Password reset successfully! Redirecting to login..."

  /** `data.message || fallback` */
  function MessageOr(m: Option<string>, fallback: string): (r: string)
    ensures m.Some? && m.value != [] ==> r == m.value
    ensures m.None? || m.value == [] ==> r == fallback
  {
    if m.Some? && m.value != [] then m.value else fallback
  }

  /** The error message a failed reply leaves behind. */
  function FailureMessage(reply: Reply, fallback: string): (m: Message)
    ensures m.kind == ErrorMessage
    ensures reply.NetworkFailure? ==> m.text == NetworkErrorText
    ensures reply.Responded? ==> m.text == MessageOr(reply.message, fallback)
  {
    match reply
    case NetworkFailure => Message(ErrorMessage, NetworkErrorText)
    case Responded(_, msg) => Message(ErrorMessage, MessageOr(msg, fallback))
  }

  /** The page's `validated`, `formData`, `resetCall` and `message` state. */
  class ResetForm {
    var validated: bool
    var formData: ResetDraft
    var resetCall: CallState
    var message: Message
    var awaiting: Awaiting

    /** A submission is under way exactly while the request state is
        pending, and the code always holds what the sanitiser lets through:
        at most six digits, which the sanitiser keeps as they are
        (`SanitiseKeepsCode`). */
    predicate Valid()
      reads this
    {
      (resetCall == Pending <==> awaiting != Idle) && IsCodeInput(formData.code)
    }

    /** The submit button is disabled while the request is pending. */
    predicate SubmitEnabled()
      reads this
    {
      resetCall != Pending
    }

    constructor ()
      ensures !validated && formData == DefaultResetDraft() && resetCall == Inactive
      ensures message == Message(NoMessage, []) && awaiting == Idle && Valid()
    {
      validated := false;
      formData := DefaultResetDraft();
      resetCall := Inactive;
      message := Message(NoMessage, []);
      awaiting := Idle;
    }

    /** The code input's change handler. */
    method SetCode(typed: string)
      requires Valid()
      modifies this
      ensures formData == old(formData).(code := SanitiseCode(typed))
      ensures validated == old(validated) && resetCall == old(resetCall) && message == old(message) && awaiting == old(awaiting)
      ensures Valid()
    {
      formData := formData.(code := SanitiseCode(typed));
    }

    method SetNewPassword(password: string)
      requires Valid()
      modifies this
      ensures formData == old(formData).(newPassword := password)
      ensures validated == old(validated) && resetCall == old(resetCall) && message == old(message) && awaiting == old(awaiting)
      ensures Valid()
    {
      formData := formData.(newPassword := password);
    }

    method SetConfirmPassword(password: string)
      requires Valid()
      modifies this
      ensures formData == old(formData).(confirmPassword := password)
      ensures validated == old(validated) && resetCall == old(resetCall) && message == old(message) && awaiting == old(awaiting)
      ensures Valid()
    {
      formData := formData.(confirmPassword := password);
    }

    /** `handleSubmit` up to the verify request. A form the browser rejects
        only becomes validated; mismatching passwords set an error message and
        leave the request state as it was; otherwise the request goes
        pending, the message is cleared and the verify request is sent. */
    method Submit() returns (sent: bool)
      requires Valid() && SubmitEnabled()
      modifies this
      ensures validated && formData == old(formData)
      ensures sent <==> SendsOnSubmit(formData)
      ensures !CheckValidity(formData) ==> resetCall == old(resetCall) && message == old(message) && awaiting == Idle
      ensures CheckValidity(formData) && formData.newPassword != formData.confirmPassword ==>
        resetCall == old(resetCall) && message == Message(ErrorMessage, MismatchText) && awaiting == Idle
      ensures sent ==> resetCall == Pending && message == Message(NoMessage, []) && awaiting == AwaitVerify
      ensures Valid()
    {
      validated := true;
      if !CheckValidity(formData) {
        return false;
      }
      if formData.newPassword != formData.confirmPassword {
        message := Message(ErrorMessage, MismatchText);
        return false;
      }
      resetCall := Pending;
      message := Message(NoMessage, []);
      awaiting := AwaitVerify;
      sent := true;
    }

    /** The verify reply. A failure ends the submission in the error state
        before the reset request is made; success sends the reset request. */
    method OnVerifyReply(reply: Reply) returns (resetSent: bool)
      requires Valid() && awaiting == AwaitVerify
      modifies this
      ensures resetSent <==> IsOk(reply)
      ensures resetSent ==> resetCall == Pending && awaiting == AwaitReset && message == old(message)
      ensures !resetSent ==> resetCall == Failed && awaiting == Idle && message == FailureMessage(reply, InvalidCodeText)
      ensures formData == old(formData) && validated == old(validated)
      ensures Valid()
    {
      if IsOk(reply) {
        awaiting := AwaitReset;
        return true;
      }
      resetCall := Failed;
      message := FailureMessage(reply, InvalidCodeText);
      awaiting := Idle;
      resetSent := false;
    }

    /** The reset reply. Success clears the form and `validated`; a failure
        keeps the form and sets the error state. */
    method OnResetReply(reply: Reply)
      requires Valid() && awaiting == AwaitReset
      modifies this
      ensures awaiting == Idle
      ensures IsOk(reply) ==>
        resetCall == Succeeded && message == Message(SuccessMessage, SuccessText) &&
        formData == DefaultResetDraft() && !validated
      ensures !IsOk(reply) ==>
        resetCall == Failed && message == FailureMessage(reply, ResetFailedText) &&
        formData == old(formData) && validated == old(validated)
      ensures Valid()
    {
      awaiting := Idle;
      if IsOk(reply) {
        resetCall := Succeeded;
        message := Message(SuccessMessage, SuccessText);
        formData := DefaultResetDraft();
        validated := false;
      } else {
        resetCall := Failed;
        message := FailureMessage(reply, ResetFailedText);
      }
    }
  }
}
