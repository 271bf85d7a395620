/** The business-registration form (`src/components/UserInputBusinessApplication.tsx`):
    the checks its submit handler makes and the steps it then takes. The
    outcome of the request is an input; the form's rendering is left out. */
module BusinessApplyForm {
  import Text

  /** The three fields as typed. */
  datatype ApplyForm = ApplyForm(businessName: string, phone: string, address: string)

  /** The body posted to `/api/business/apply`. */
  datatype ApplyRequest = ApplyRequest(businessName: string, address: string, phone: string, userId: string)

  /** How the request ends: a response with an OK status, one without, or a
      `fetch` that throws. */
  datatype Delivery = Accepted | Refused | Unreachable

  /** What the handler does, in order. */
  datatype Event = SetLoading(on: bool) | Send(request: ApplyRequest) | ErrorToast(message: string)
                 | SuccessToast(message: string) | UpdateUser | Cancel

  const MsgInvalid := "すべての項目を正しく入力してください"
  const MsgApplied := "事業者登録申請を送信しました。運営の承認をお待ちください。"
  const MsgNetwork := "通信エラーが発生しました。再度お試しください。"

  /** `/^\d{10,11}$/`: ten or eleven ASCII digits and nothing else. */
  predicate PhonePattern(phone: string) {
    10 <= |phone| <= 11 && forall k :: 0 <= k < |phone| ==> Text.IsDigit(phone[k])
  }

  /** The check of `handleSubmit`: a name, a trimmed phone number of the
      right shape and an address. Only the phone number is trimmed. */
  predicate Acceptable(f: ApplyForm) {
    f.businessName != "" && Text.JsTrim(f.phone) != "" && f.address != "" && PhonePattern(Text.JsTrim(f.phone))
  }

  /** `handleSubmit`: a form that fails the check gives one error toast and
      nothing else. Otherwise the loading flag is raised, the request is sent
      with the trimmed phone number and the user's Google id, an accepted
      request shows the success toast and then updates the user and closes
      the form, any other outcome shows the network error, and the loading
      flag is lowered last in every case. */
  function HandleSubmit(f: ApplyForm, googleId: string, delivery: Delivery): (r: seq<Event>)
    ensures !Acceptable(f) <==> r == [ErrorToast(MsgInvalid)]
    ensures Acceptable(f) && delivery == Accepted ==>
      r == [SetLoading(true), Send(ApplyRequest(f.businessName, f.address, Text.JsTrim(f.phone), googleId)),
            SuccessToast(MsgApplied), UpdateUser, Cancel, SetLoading(false)]
    ensures Acceptable(f) && delivery != Accepted ==>
      r == [SetLoading(true), Send(ApplyRequest(f.businessName, f.address, Text.JsTrim(f.phone), googleId)),
            ErrorToast(MsgNetwork), SetLoading(false)]
  {
    var phone := Text.JsTrim(f.phone);
    if f.businessName == "" || phone == "" || f.address == "" || !PhonePattern(phone) then [ErrorToast(MsgInvalid)]
    else
      var start := [SetLoading(true), Send(ApplyRequest(f.businessName, f.address, phone, googleId))];
      match delivery
      case Accepted => start + [SuccessToast(MsgApplied), UpdateUser, Cancel, SetLoading(false)]
      case _ => start + [ErrorToast(MsgNetwork), SetLoading(false)]
  }

  /** The loading flag after the events, starting from `on`. */
  function LoadingAfter(events: seq<Event>, on: bool): bool
    decreases |events|
  {
    if events == [] then on
    else LoadingAfter(events[1..], if events[0].SetLoading? then events[0].on else on)
  }

  /** The last `SetLoading` decides the flag: events ending with one leave
      the flag as it says, from any start. */
  lemma {:induction false} LastSetLoadingWins(events: seq<Event>, on: bool)
    requires events != [] && events[|events| - 1].SetLoading?
    ensures LoadingAfter(events, on) == events[|events| - 1].on
    decreases |events|
  {
    if |events| > 1 {
      LastSetLoadingWins(events[1..], if events[0].SetLoading? then events[0].on else on);
    }
  }

  /** Whatever the outcome, the form is not left loading, and a request is
      sent exactly when the check passes. */
  lemma LoadingSettles(f: ApplyForm, googleId: string, delivery: Delivery)
    ensures !LoadingAfter(HandleSubmit(f, googleId, delivery), false)
    ensures (exists k :: 0 <= k < |HandleSubmit(f, googleId, delivery)| && HandleSubmit(f, googleId, delivery)[k].Send?)
        <==> Acceptable(f)
  {
    var r := HandleSubmit(f, googleId, delivery);
    if Acceptable(f) {
      assert r[1].Send?;
      LastSetLoadingWins(r, false);
    }
  }

  /** The user is updated and the form closed only after an accepted
      request. */
  lemma ClosesOnlyWhenAccepted(f: ApplyForm, googleId: string, delivery: Delivery)
    ensures Cancel in HandleSubmit(f, googleId, delivery) <==> Acceptable(f) && delivery == Accepted
    ensures UpdateUser in HandleSubmit(f, googleId, delivery) <==> Acceptable(f) && delivery == Accepted
  {
    Shapes(ApplyRequest(f.businessName, f.address, Text.JsTrim(f.phone), googleId));
  }

  /** Which of the three event lists update the user and close the form. */
  lemma Shapes(req: ApplyRequest)
    ensures var r := [ErrorToast(MsgInvalid)]; Cancel !in r && UpdateUser !in r
    ensures var r := [SetLoading(true), Send(req), SuccessToast(MsgApplied), UpdateUser, Cancel, SetLoading(false)];
      Cancel in r && UpdateUser in r
    ensures var r := [SetLoading(true), Send(req), ErrorToast(MsgNetwork), SetLoading(false)];
      Cancel !in r && UpdateUser !in r
  {
    var r := [SetLoading(true), Send(req), SuccessToast(MsgApplied), UpdateUser, Cancel, SetLoading(false)];
    assert r[3] == UpdateUser && r[4] == Cancel;
  }

  /** Every phone number sent consists of ten or eleven digits, so no
      surrounding space reaches the server. */
  lemma SentPhoneIsDigits(f: ApplyForm, googleId: string, delivery: Delivery)
    ensures forall k :: 0 <= k < |HandleSubmit(f, googleId, delivery)| && HandleSubmit(f, googleId, delivery)[k].Send? ==>
      PhonePattern(HandleSubmit(f, googleId, delivery)[k].request.phone)
  {
    var r := HandleSubmit(f, googleId, delivery);
    if Acceptable(f) {
      forall k | 0 <= k < |r| && r[k].Send?
        ensures PhonePattern(r[k].request.phone)
      {
        assert k == 1;
      }
    }
  }

  /** A name or an address made of spaces only passes the check: those two
      fields are not trimmed. */
  lemma UntrimmedFieldsAccepted(phone: string)
    requires PhonePattern(phone)
    ensures Acceptable(ApplyForm(" ", phone, " "))
  {
    assert Text.IsDigit(phone[0]) && Text.IsDigit(phone[|phone| - 1]);
    Text.TrimKeeps(phone, Text.IsJsSpace);
  }
}
