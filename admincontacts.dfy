/** The administrator's inquiry list (`src/components/AdminContactManagement.tsx`):
    the search and "unanswered only" filter, and the reply dialog whose send
    and save-draft actions update the inquiry list. */
module AdminContacts {
  import opened Wrappers
  import opened Tables
  import Text

  /** `Inquiry` as the component declares it; `draft` is `undefined` when
      there is none. */
  datatype Inquiry = Inquiry(askId: int, date: string, subject: string, text: string, userId: string,
                             askFlag: bool, email: string, fromName: string, role: string, draft: Option<string>)

  /** The component's state, with the list the parent owns. */
  datatype Screen = Screen(inquiries: seq<Inquiry>, searchQuery: string, showOnlyOpen: bool,
                           replyModalOpen: bool, replying: Option<Inquiry>, replyText: string)

  // ---------------------------------------------------------------------------
  // Filtering

  /** The query as matched: trimmed, then lower-cased by `lower`. */
  function Query(searchQuery: string, lower: string -> string): string {
    lower(Text.JsTrim(searchQuery))
  }

  /** The filter callback for one inquiry. The subject is not searched. */
  predicate Shown(searchQuery: string, showOnlyOpen: bool, lower: string -> string, it: Inquiry) {
    var q := Query(searchQuery, lower);
    !(showOnlyOpen && it.askFlag)
    && (q == "" || Text.Contains(lower(it.fromName), q) || Text.Contains(lower(it.email), q) || Text.Contains(lower(it.text), q))
  }

  /** `filteredInquiries`: the inquiries the list shows, in list order. */
  function FilteredInquiries(s: Screen, lower: string -> string): (r: seq<Inquiry>)
    ensures forall it :: it in r <==> it in s.inquiries && Shown(s.searchQuery, s.showOnlyOpen, lower, it)
    ensures forall it :: multiset(r)[it] == if Shown(s.searchQuery, s.showOnlyOpen, lower, it) then multiset(s.inquiries)[it] else 0
    ensures IsSubsequence(r, s.inquiries)
    ensures s.showOnlyOpen ==> forall k :: 0 <= k < |r| ==> !r[k].askFlag
  {
    var p := (it: Inquiry) => Shown(s.searchQuery, s.showOnlyOpen, lower, it);
    forall it
      ensures (it in Filter(s.inquiries, p) <==> it in s.inquiries && p(it))
        && multiset(Filter(s.inquiries, p))[it] == (if p(it) then multiset(s.inquiries)[it] else 0)
    {
      FilterMember(s.inquiries, p, it);
      FilterMultiset(s.inquiries, p, it);
    }
    FilterIsSubsequence(s.inquiries, p);
    Filter(s.inquiries, p)
  }

  /** A query that trims to nothing hides nothing but, with "unanswered
      only", the answered inquiries. */
  lemma BlankQueryKeepsAll(s: Screen, lower: string -> string)
    requires Query(s.searchQuery, lower) == ""
    ensures !s.showOnlyOpen ==> FilteredInquiries(s, lower) == s.inquiries
    ensures s.showOnlyOpen ==> FilteredInquiries(s, lower) == Filter(s.inquiries, (it: Inquiry) => !it.askFlag)
  {
    var p := (it: Inquiry) => Shown(s.searchQuery, s.showOnlyOpen, lower, it);
    if !s.showOnlyOpen {
      FilterAll(s.inquiries, p);
    } else {
      FilterFilter(s.inquiries, (it: Inquiry) => true, (it: Inquiry) => !it.askFlag, p);
      FilterAll(s.inquiries, (it: Inquiry) => true);
    }
  }

  /** Whether an inquiry is shown does not depend on its subject. */
  lemma SubjectNotSearched(searchQuery: string, showOnlyOpen: bool, lower: string -> string, it: Inquiry, subject: string)
    ensures Shown(searchQuery, showOnlyOpen, lower, it.(subject := subject)) == Shown(searchQuery, showOnlyOpen, lower, it)
  {
  }

  // ---------------------------------------------------------------------------
  // The reply dialog

  /** `handleOpenReply`: the dialog opens on `inq` with its draft, if any. */
  function OpenReply(s: Screen, inq: Inquiry): (r: Screen)
    ensures r.replyModalOpen && r.replying == Some(inq)
    ensures r.replyText == inq.draft.GetOr("")
    ensures r.inquiries == s.inquiries && r.searchQuery == s.searchQuery && r.showOnlyOpen == s.showOnlyOpen
  {
    s.(replying := Some(inq), replyText := inq.draft.GetOr(""), replyModalOpen := true)
  }

  /** `closeModal`. */
  function CloseModal(s: Screen): (r: Screen)
    ensures !r.replyModalOpen && r.replying.None? && r.replyText == ""
    ensures r.inquiries == s.inquiries && r.searchQuery == s.searchQuery && r.showOnlyOpen == s.showOnlyOpen
  {
    s.(replyModalOpen := false, replying := None, replyText := "")
  }

  /** Applies `f` to every inquiry with the given id, as the `map`
      updaters do. */
  function UpdateById(l: seq<Inquiry>, askId: int, f: Inquiry -> Inquiry): (r: seq<Inquiry>)
    ensures |r| == |l|
    ensures forall k :: 0 <= k < |l| ==> r[k] == (if l[k].askId == askId then f(l[k]) else l[k])
  {
    MapWhere(l, (q: Inquiry) => q.askId == askId, f)
  }

  /** `handleSendEmail`: with no inquiry open nothing happens; otherwise
      every inquiry with its id is marked answered and loses its draft, and
      the dialog closes. */
  function SendEmail(s: Screen): (r: Screen)
    ensures s.replying.None? ==> r == s
    ensures s.replying.Some? ==> r == CloseModal(s).(inquiries := r.inquiries)
    ensures s.replying.Some? ==> |r.inquiries| == |s.inquiries|
    ensures s.replying.Some? ==> forall k :: 0 <= k < |s.inquiries| ==>
      r.inquiries[k] == (if s.inquiries[k].askId == s.replying.value.askId then s.inquiries[k].(askFlag := true, draft := None) else s.inquiries[k])
  {
    match s.replying
    case None => s
    case Some(inq) =>
      CloseModal(s.(inquiries := UpdateById(s.inquiries, inq.askId, (q: Inquiry) => q.(askFlag := true, draft := None))))
  }

  /** `handleSaveDraft`: with no inquiry open nothing happens; otherwise
      every inquiry with its id gets the reply text as its draft and nothing
      else, and the dialog closes. */
  function SaveDraft(s: Screen): (r: Screen)
    ensures s.replying.None? ==> r == s
    ensures s.replying.Some? ==> r == CloseModal(s).(inquiries := r.inquiries)
    ensures s.replying.Some? ==> |r.inquiries| == |s.inquiries|
    ensures s.replying.Some? ==> forall k :: 0 <= k < |s.inquiries| ==>
      r.inquiries[k] == (if s.inquiries[k].askId == s.replying.value.askId then s.inquiries[k].(draft := Some(s.replyText)) else s.inquiries[k])
  {
    match s.replying
    case None => s
    case Some(inq) =>
      CloseModal(s.(inquiries := UpdateById(s.inquiries, inq.askId, (q: Inquiry) => q.(draft := Some(s.replyText)))))
  }

  /** A saved draft comes back: reopening the saved inquiry shows the text
      that was in the dialog. */
  lemma DraftRoundTrip(s: Screen, k: int)
    requires s.replying.Some? && 0 <= k < |s.inquiries| && s.inquiries[k].askId == s.replying.value.askId
    ensures OpenReply(SaveDraft(s), SaveDraft(s).inquiries[k]).replyText == s.replyText
  {
  }

  /** After a reply is sent the inquiry is no longer listed under
      "unanswered only", and reopening it starts from an empty text. */
  lemma SentLeavesUnanswered(s: Screen, lower: string -> string, k: int)
    requires s.replying.Some? && 0 <= k < |s.inquiries| && s.inquiries[k].askId == s.replying.value.askId
    ensures var r := SendEmail(s);
      r.inquiries[k].askFlag
      && !Shown(r.searchQuery, true, lower, r.inquiries[k])
      && OpenReply(r, r.inquiries[k]).replyText == ""
  {
  }
}
