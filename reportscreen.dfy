/** The inline report form shown under a post (`src/components/ReportScreen.tsx`):
    a small state machine over the reason typed in and whether the form is
    open, with the toasts shown and the `onReportComplete` calls made so far
    kept as part of the state. */
module ReportForm {
  import Text

  datatype Toast = ErrorToast(message: string) | SuccessToast(message: string)

  const MsgNoReason := "通報理由を入力してください"
  const MsgReported := "通報を受け付けました。運営が確認いたします。"

  /** The form's state as a value: the reason, `isReporting`, the toasts in
      the order shown, and how many times `onReportComplete` ran. */
  datatype Snapshot = Snapshot(reason: string, reporting: bool, toasts: seq<Toast>, completions: nat)

  /** What the user can do: open the form, type, send, cancel. */
  datatype Input = Open | Type(text: string) | Send | CancelForm

  /** The effect of one input. Sending a reason that trims to nothing only
      shows the error; any other reason shows the success toast, clears the
      text, closes the form and completes once. Opening and cancelling only
      set `isReporting`; typing only sets the reason. */
  function Step(s: Snapshot, input: Input): (r: Snapshot)
    ensures input == Send && Text.JsTrim(s.reason) == "" ==> r == s.(toasts := s.toasts + [ErrorToast(MsgNoReason)])
    ensures input == Send && Text.JsTrim(s.reason) != "" ==>
      r == Snapshot("", false, s.toasts + [SuccessToast(MsgReported)], s.completions + 1)
    ensures input == Open ==> r == s.(reporting := true)
    ensures input == CancelForm ==> r == s.(reporting := false)
    ensures input.Type? ==> r == s.(reason := input.text)
    ensures r.completions == s.completions + (if input == Send && Text.JsTrim(s.reason) != "" then 1 else 0)
  {
    match input
    case Open => s.(reporting := true)
    case Type(text) => s.(reason := text)
    case CancelForm => s.(reporting := false)
    case Send =>
      if Text.JsTrim(s.reason) == "" then s.(toasts := s.toasts + [ErrorToast(MsgNoReason)])
      else Snapshot("", false, s.toasts + [SuccessToast(MsgReported)], s.completions + 1)
  }

  /** The state after a run of inputs. */
  function Run(s: Snapshot, inputs: seq<Input>): Snapshot
    decreases |inputs|
  {
    if inputs == [] then s else Run(Step(s, inputs[0]), inputs[1..])
  }

  /** A report completes at most once per input, and only on a send: the
      number of completions never exceeds the number of sends. */
  lemma {:induction false} CompletionsBoundedBySends(s: Snapshot, inputs: seq<Input>)
    ensures Run(s, inputs).completions <= s.completions + Sends(inputs)
    decreases |inputs|
  {
    if inputs != [] {
      CompletionsBoundedBySends(Step(s, inputs[0]), inputs[1..]);
    }
  }

  /** The number of sends among the inputs. */
  function Sends(inputs: seq<Input>): nat
    decreases |inputs|
  {
    if inputs == [] then 0 else (if inputs[0] == Send then 1 else 0) + Sends(inputs[1..])
  }

  /** Typing a reason and sending it from the open form completes the
      report and leaves the form closed and empty; a second send then only
      shows the error, so one reason is never reported twice. */
  lemma TypeThenSendTwice(s: Snapshot, text: string)
    requires Text.JsTrim(text) != ""
    ensures var after := Run(s, [Open, Type(text), Send]);
      after.completions == s.completions + 1 && !after.reporting && after.reason == ""
    ensures Run(s, [Open, Type(text), Send, Send]).completions == s.completions + 1
  {
    var a := Step(s, Open);
    var b := Step(a, Type(text));
    var c := Step(b, Send);
    var d := Step(c, Send);
    assert Run(d, []) == d;
    assert Run(c, [Send]) == d;
    assert Run(b, [Send, Send]) == d;
    assert Run(a, [Type(text), Send, Send]) == d;
    assert Run(c, []) == c;
    assert Run(b, [Send]) == c;
    assert Run(a, [Type(text), Send]) == c;
    assert Text.JsTrim(c.reason) == "";
  }

  /** Cancelling keeps the reason typed so far: reopening shows it again. */
  lemma CancelKeepsReason(s: Snapshot)
    ensures Step(Step(s, CancelForm), Open) == s.(reporting := true)
  {
  }

  /** The component as an object whose handlers update its state in place. */
  class ReportScreen {
    var reportReason: string
    var isReporting: bool
    var toasts: seq<Toast>
    var completions: nat

    function State(): Snapshot
      reads this
    {
      Snapshot(reportReason, isReporting, toasts, completions)
    }

    /** A form with no reason, nothing shown or completed, open or closed
        as `isReporting` says. */
    constructor (isReporting: bool)
      ensures State() == Snapshot("", isReporting, [], 0)
    {
      reportReason := "";
      this.isReporting := isReporting;
      toasts := [];
      completions := 0;
    }

    /** The trigger button's `onClick`. */
    method OpenForm()
      modifies this
      ensures State() == Step(old(State()), Open)
    {
      isReporting := true;
    }

    /** The textarea's `onChange`. */
    method TypeReason(text: string)
      modifies this
      ensures State() == Step(old(State()), Type(text))
    {
      reportReason := text;
    }

    /** The cancel button's `onClick`. */
    method Cancel()
      modifies this
      ensures State() == Step(old(State()), CancelForm)
    {
      isReporting := false;
    }

    /** `handleReport`. */
    method HandleReport()
      modifies this
      ensures State() == Step(old(State()), Send)
    {
      ghost var before := State();
      if Text.JsTrim(reportReason) == "" {
        toasts := toasts + [ErrorToast(MsgNoReason)];
        assert State() == before.(toasts := before.toasts + [ErrorToast(MsgNoReason)]);
        return;
      }
      toasts := toasts + [SuccessToast(MsgReported)];
      reportReason := "";
      isReporting := false;
      completions := completions + 1;
      assert State() == Snapshot("", false, before.toasts + [SuccessToast(MsgReported)], before.completions + 1);
    }
  }
}
