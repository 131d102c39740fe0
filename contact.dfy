/**
  The contact form: a submit first visits every required field, marking
  blank ones red and clearing the others; an invalid form only shows a
  warning, a valid one disables the button while the message is posted,
  and the response decides the message and whether the form is reset.
 */
module Contact {
  import opened Common
  import opened Text

  /** A field's `style.borderColor`: red, or cleared to the stylesheet's. */
  datatype Border = Red | Plain

  datatype ToastKind = Success | Danger

  datatype Toast = Toast(message: string, kind: ToastKind)

  /**
    How the post settles: `Unreachable` when the request or the parsing of
    its JSON body rejects, otherwise the response's `ok` and the message of
    its first error, if the body has one.
   */
  datatype Response = Unreachable | Reply(ok: bool, firstError: Option<string>)

  const INVALID_MESSAGE := "Please fill in all required fields."
  const SENT_MESSAGE := "✅ Message sent successfully!"
  const FAILED_MESSAGE := "Submission failed."
  const NETWORK_MESSAGE := "Network error."
  const SENDING_LABEL := "Sending..."

  /**
    The toast for a settled post: success only for an `ok` reply; a
    refused reply shows its first error's message when that is non-empty
    and the fixed failure message otherwise.
   */
  function ResultToast(response: Response): (t: Toast)
    ensures t.kind == Success <==> response.Reply? && response.ok
    ensures t.kind == Success ==> t.message == SENT_MESSAGE
    ensures response.Unreachable? ==> t.message == NETWORK_MESSAGE
    ensures response.Reply? && !response.ok ==>
              if response.firstError.Some? && response.firstError.value != "" then t.message == response.firstError.value
              else t.message == FAILED_MESSAGE
  {
    match response
    case Unreachable => Toast(NETWORK_MESSAGE, Danger)
    case Reply(ok, firstError) =>
      if ok then Toast(SENT_MESSAGE, Success) else Toast(OrDefault(firstError, FAILED_MESSAGE), Danger)
  }

  /**
    A required field holds something other than whitespace, which is what
    a non-empty `value.trim()` means (`TrimNonEmptyIff`).
   */
  predicate Filled(value: string) {
    HasNonSpace(value)
  }

  /** The state of the form, its required fields and its submit button. */
  class ContactForm {
    /** The values of the required fields, in document order. */
    var values: seq<string>
    /** The values the fields had when the page loaded, which `form.reset()` restores. */
    const defaults: seq<string>
    /** The border of each required field. */
    const borders: array<Border>
    var buttonDisabled: bool
    var buttonLabel: string
    /** The label saved by the submit handler before it showed the sending label. */
    var savedLabel: string
    /** A post has been sent and has not settled. */
    var sending: bool
    /** The toasts shown, oldest first. */
    var toasts: seq<Toast>

    /** One border per required field, and the defaults cover the same fields. */
    ghost predicate Valid()
      reads this
    {
      borders.Length == |values| == |defaults|
    }

    constructor (initial: seq<string>, originalLabel: string)
      ensures Valid() && fresh(borders)
      ensures values == initial && defaults == initial
      ensures forall i :: 0 <= i < borders.Length ==> borders[i] == Plain
      ensures !buttonDisabled && buttonLabel == originalLabel && !sending && toasts == []
    {
      values, defaults := initial, initial;
      borders := new Border[|initial|](_ => Plain);
      buttonDisabled, buttonLabel, savedLabel := false, originalLabel, originalLabel;
      sending, toasts := false, [];
    }

    /**
      The `forEach` over the required fields: every field is visited, and
      the form is valid exactly when all of them are filled.
     */
    method CheckRequired() returns (valid: bool)
      requires Valid()
      modifies borders
      ensures valid <==> forall i :: 0 <= i < |values| ==> Filled(values[i])
      ensures forall i :: 0 <= i < borders.Length ==> borders[i] == if Filled(values[i]) then Plain else Red
    {
      var fields := values;
      valid := true;
      var k := 0;
      while k < borders.Length
        invariant 0 <= k <= borders.Length
        invariant valid <==> forall i :: 0 <= i < k ==> Filled(fields[i])
        invariant forall i :: 0 <= i < k ==> borders[i] == if Filled(fields[i]) then Plain else Red
      {
        TrimNonEmptyIff(fields[k]);
        if Trim(fields[k]) == "" {
          borders[k] := Red;
          valid := false;
        } else {
          borders[k] := Plain;
        }
        k := k + 1;
      }
    }

    /**
      The submit handler up to the post: an invalid form shows the warning
      and leaves the button alone; a valid one disables the button, saves
      its label and shows the sending label.
     */
    method Submit() returns (sent: bool)
      requires Valid()
      modifies this`buttonDisabled, this`buttonLabel, this`savedLabel, this`sending, this`toasts, borders
      ensures Valid()
      ensures sent <==> forall i :: 0 <= i < |values| ==> Filled(values[i])
      ensures forall i :: 0 <= i < borders.Length ==> borders[i] == if Filled(values[i]) then Plain else Red
      ensures !sent ==>
                && toasts == old(toasts) + [Toast(INVALID_MESSAGE, Danger)]
                && buttonDisabled == old(buttonDisabled) && buttonLabel == old(buttonLabel)
                && sending == old(sending)
      ensures sent ==>
                && toasts == old(toasts) && sending
                && buttonDisabled && buttonLabel == SENDING_LABEL && savedLabel == old(buttonLabel)
    {
      sent := CheckRequired();
      if !sent {
        toasts := toasts + [Toast(INVALID_MESSAGE, Danger)];
        return;
      }
      buttonDisabled := true;
      savedLabel := buttonLabel;
      buttonLabel := SENDING_LABEL;
      sending := true;
    }

    /**
      The promise chain of the post: the toast for the response, a reset of
      the fields only after an `ok` reply (the borders keep their colours),
      and in every case the button re-enabled with its saved label.
     */
    method Settle(response: Response)
      requires Valid() && sending
      modifies this`values, this`toasts, this`buttonDisabled, this`buttonLabel, this`sending
      ensures Valid() && !sending
      ensures toasts == old(toasts) + [ResultToast(response)]
      ensures values == if response.Reply? && response.ok then defaults else old(values)
      ensures !buttonDisabled && buttonLabel == savedLabel
    {
      toasts := toasts + [ResultToast(response)];
      if response.Reply? && response.ok {
        values := defaults;
      }
      buttonDisabled := false;
      buttonLabel := savedLabel;
      sending := false;
    }
  }
}
