/** The logic of the case detail panel (`components/CaseDetail.tsx`): the
    previous/next step buttons and the requests they send to the store, the
    document-submit guard, the newest-first history and the file icons. */
module CaseDetail {
  import opened Types
  import opened Text
  import opened Seqs
  import Store

  /** `Object.values(RecoveryStep)`: the five steps in declaration order. */
  const Steps: seq<RecoveryStep> := [Reminder1, Reminder2, Reminder3, DemandLetter, LegalAction]

  /** No step appears twice in the sequence. */
  lemma StepsDistinct()
    ensures forall i, j :: 0 <= i < j < |Steps| ==> Steps[i] != Steps[j]
  {
  }

  /** `steps.indexOf(status)`: the first, and only, position of the status. */
  function StepIndex(s: RecoveryStep): (i: nat)
    ensures i < |Steps| && Steps[i] == s
    ensures forall j :: 0 <= j < i ==> Steps[j] != s
  {
    match s
    case Reminder1 => 0
    case Reminder2 => 1
    case Reminder3 => 2
    case DemandLetter => 3
    case LegalAction => 4
  }

  /** The position of a step is the only position holding it. */
  lemma StepIndexUnique(s: RecoveryStep, j: int)
    requires 0 <= j < |Steps| && Steps[j] == s
    ensures j == StepIndex(s)
  {
    StepsDistinct();
  }

  /** The arguments of one `onUpdateStatus` call. */
  datatype StatusRequest = StatusRequest(caseId: string, status: RecoveryStep, isRegression: bool)

  /** "Étape précédente": offered when `currentIdx > 0`, it asks for the step
      before with the regression flag set. */
  function PreviousRequest(c: Case): (r: Option<StatusRequest>)
    ensures r.Some? <==> StepIndex(c.status) > 0
    ensures r.Some? ==> r.value.caseId == c.id && r.value.isRegression
    ensures r.Some? ==> StepIndex(r.value.status) + 1 == StepIndex(c.status)
  {
    var i := StepIndex(c.status);
    if i > 0 then
      StepIndexUnique(Steps[i - 1], i - 1);
      Some(StatusRequest(c.id, Steps[i - 1], true))
    else None
  }

  /** "Étape suivante": offered when `currentIdx < steps.length - 1`, it asks
      for the step after; the flag is left out, so it defaults to false. */
  function NextRequest(c: Case): (r: Option<StatusRequest>)
    ensures r.Some? <==> StepIndex(c.status) < |Steps| - 1
    ensures r.Some? ==> r.value.caseId == c.id && !r.value.isRegression
    ensures r.Some? ==> StepIndex(r.value.status) == StepIndex(c.status) + 1
  {
    var i := StepIndex(c.status);
    if i < |Steps| - 1 then
      StepIndexUnique(Steps[i + 1], i + 1);
      Some(StatusRequest(c.id, Steps[i + 1], false))
    else None
  }

  /** The first step offers no way back and the final step no way forward;
      every other step offers both. */
  lemma NavigationBounds(c: Case)
    ensures PreviousRequest(c).None? <==> c.status == Reminder1
    ensures NextRequest(c).None? <==> c.status == LegalAction
  {
  }

  /** `handleUpdateStatus` applied to the case a request names. */
  function Perform(c: Case, r: StatusRequest, today: int, displayDate: string): (p: Case)
    ensures p.status == r.status && p.lastActionAt == today
    ensures p.history == c.history + [Store.StatusEntry(r.status, r.isRegression, displayDate)]
    ensures p.(status := c.status, lastActionAt := c.lastActionAt, history := c.history) == c
  {
    Store.WithStatus(c, r.status, r.isRegression, today, displayDate)
  }

  /** Next then previous, from any step but the last, comes back to the
      original status and leaves two more entries: the forward step's label,
      then "Retour à : " with the original label. */
  lemma NextThenPrevious(c: Case, today1: int, date1: string, today2: int, date2: string)
    requires c.status != LegalAction
    ensures NextRequest(c).Some?
    ensures var c1 := Perform(c, NextRequest(c).value, today1, date1);
      && PreviousRequest(c1).Some?
      && var c2 := Perform(c1, PreviousRequest(c1).value, today2, date2);
      && c2.status == c.status
      && |c2.history| == |c.history| + 2
      && c2.history[..|c.history|] == c.history
      && c2.history[|c.history|].action == NextRequest(c).value.status.Label()
      && c2.history[|c.history| + 1].action == "Retour à : " + c.status.Label()
  {
    var n := NextRequest(c).value;
    var c1 := Perform(c, n, today1, date1);
    var p := PreviousRequest(c1).value;
    StepIndexUnique(c.status, StepIndex(p.status));
    var c2 := Perform(c1, p, today2, date2);
    assert c2.history[..|c.history|] == c1.history[..|c1.history|][..|c.history|];
  }

  /** The arguments of one `onAddDocument` call. */
  datatype DocumentCall = DocumentCall(caseId: string, draft: DocumentDraft)

  /** `handleAddDocSubmit`: without content the user is alerted and nothing is
      sent; otherwise the draft is sent once, for this case. */
  function SubmitDocument(c: Case, draft: DocumentDraft): (r: Option<DocumentCall>)
    ensures r.None? <==> draft.content == ""
    ensures r.Some? ==> r.value.caseId == c.id && r.value.draft == draft
  {
    if draft.content == "" then None else Some(DocumentCall(c.id, draft))
  }

  /** The form as it is opened and as it is reset after a submit. */
  function InitialDraft(today: int): (d: DocumentDraft)
    ensures d.content == "" && d.name == "" && d.kind == "Facture"
    ensures d.fileType == "" && d.date == IsoDate(today)
  {
    DocumentDraft("", "Facture", IsoDate(today), "", "")
  }

  /** A reset form is refused until a file has been read into it. */
  lemma ResetFormRefused(c: Case, today: int)
    ensures SubmitDocument(c, InitialDraft(today)).None?
  {
  }

  /** Every document that reaches the store through this form carries content,
      and it lands at the end of the documents of the case the panel shows. */
  lemma SubmittedDocumentStored(c: Case, draft: DocumentDraft, docId: string, size: string)
    requires SubmitDocument(c, draft).Some?
    ensures var call := SubmitDocument(c, draft).value;
      var d := Store.NewDocument(docId, call.draft, size);
      && call.caseId == c.id
      && d.content != ""
      && Store.WithDocument(c, d).documents == c.documents + [d]
  {
  }

  /** `[...recoveryCase.history].reverse()`: newest entry first. The case
      itself is a value and keeps its history as it was. */
  function HistoryView(c: Case): (v: seq<HistoryEntry>)
    ensures |v| == |c.history|
    ensures forall i :: 0 <= i < |v| ==> v[i] == c.history[|c.history| - 1 - i]
  {
    Reverse(c.history)
  }

  /** In a consistent store every case's timeline has a head: the entry
      recorded last. */
  lemma StoredTimelineHasNewest(store: Store.CaseStore, i: int)
    requires store.Valid() && 0 <= i < |store.cases|
    ensures |HistoryView(store.cases[i])| > 0
    ensures HistoryView(store.cases[i])[0] == store.cases[i].history[|store.cases[i].history| - 1]
  {
  }

  /** Reading the view backwards gives the history in its stored order. */
  lemma HistoryViewRestores(c: Case)
    ensures Reverse(HistoryView(c)) == c.history
  {
    ReverseReverse(c.history);
  }

  /** After a status change, the new entry heads the view and the earlier
      view follows unchanged. */
  lemma HistoryViewAfterStatus(c: Case, status: RecoveryStep, isRegression: bool, today: int, displayDate: string)
    ensures HistoryView(Store.WithStatus(c, status, isRegression, today, displayDate)) ==
      [Store.StatusEntry(status, isRegression, displayDate)] + HistoryView(c)
  {
    var entry := Store.StatusEntry(status, isRegression, displayDate);
    assert Store.WithStatus(c, status, isRegression, today, displayDate).history == c.history + [entry];
    ReverseSnoc(c.history, entry);
  }

  /** The amber dot of the timeline: an action mentioning "Retour". Every
      action that starts with it is marked, and none without its capital. */
  predicate MarkedAsRegression(h: HistoryEntry): (b: bool)
    ensures IsPrefix("Retour", h.action) ==> b
    ensures b ==> 'R' in h.action && |h.action| >= |"Retour"|
  {
    if Contains(h.action, "Retour") then
      var i :| 0 <= i <= |h.action| - 6 && OccursAt(h.action, "Retour", i);
      assert h.action[i] == h.action[i..i + 6][0];
      true
    else
      false
  }

  /** Regression entries are marked, forward step entries are not. */
  lemma RegressionMarking(status: RecoveryStep, isRegression: bool, displayDate: string)
    ensures MarkedAsRegression(Store.StatusEntry(status, isRegression, displayDate)) <==> isRegression
  {
    var e := Store.StatusEntry(status, isRegression, displayDate);
    if isRegression {
      assert OccursAt(e.action, "Retour", 0);
    } else {
      LabelLacksRetour(status);
    }
  }

  lemma LabelLacksRetour(status: RecoveryStep)
    ensures !Contains(status.Label(), "Retour")
  {
    if status == Reminder1 || status == Reminder2 {
      ReminderLabelsLackU(status);
      MissingCharNotContained(status.Label(), "Retour", 'u');
    } else {
      LaterLabelsLackR(status);
      MissingCharNotContained(status.Label(), "Retour", 'R');
    }
  }

  /** Neither the creation entries nor the payment entry are marked. */
  lemma OtherEntriesUnmarked(displayDate: string)
    ensures !MarkedAsRegression(Store.PaidEntry(displayDate))
    ensures !MarkedAsRegression(HistoryEntry(displayDate, "Dossier créé", "Prise en charge par RecouvreLib."))
    ensures !MarkedAsRegression(HistoryEntry(displayDate, "Relance 1", "Premier contact envoyé."))
  {
    UnmarkedWithout(Store.PaidEntry(displayDate), 'R');
    UnmarkedWithout(HistoryEntry(displayDate, "Dossier créé", "Prise en charge par RecouvreLib."), 'R');
    UnmarkedWithout(HistoryEntry(displayDate, "Relance 1", "Premier contact envoyé."), 'u');
  }

  /** An action lacking one letter of "Retour" is not marked. */
  lemma UnmarkedWithout(h: HistoryEntry, ch: char)
    requires ch == 'R' || ch == 'u'
    requires ch !in h.action
    ensures !MarkedAsRegression(h)
  {
    MissingCharNotContained(h.action, "Retour", ch);
  }

  /** The icon `getFileIcon` picks for a MIME type. */
  datatype FileIcon = PdfIcon | ImageIcon | SpreadsheetIcon | GenericIcon

  /** The tests run in order: 'pdf', then 'image', then 'csv' or 'sheet'. */
  function FileIconFor(mimeType: string): (r: FileIcon)
    ensures r == PdfIcon <==> Contains(mimeType, "pdf")
    ensures r == ImageIcon <==> !Contains(mimeType, "pdf") && Contains(mimeType, "image")
    ensures r == SpreadsheetIcon <==>
      !Contains(mimeType, "pdf") && !Contains(mimeType, "image") &&
      (Contains(mimeType, "csv") || Contains(mimeType, "sheet"))
    ensures r == GenericIcon <==>
      !Contains(mimeType, "pdf") && !Contains(mimeType, "image") &&
      !Contains(mimeType, "csv") && !Contains(mimeType, "sheet")
  {
    if Contains(mimeType, "pdf") then PdfIcon
    else if Contains(mimeType, "image") then ImageIcon
    else if Contains(mimeType, "csv") || Contains(mimeType, "sheet") then SpreadsheetIcon
    else GenericIcon
  }

  /** A type naming both a PDF and an image is shown as a PDF. */
  lemma PdfBeatsImage(mimeType: string)
    requires Contains(mimeType, "image") && Contains(mimeType, "pdf")
    ensures FileIconFor(mimeType) == PdfIcon
  {
  }

  /** A usual type of uploaded file: a PDF document. */
  lemma PdfExample()
    ensures FileIconFor("application/pdf") == PdfIcon
  {
    assert OccursAt("application/pdf", "pdf", 12);
  }

  /** A type lacking one letter of each keyword gets the generic icon. */
  lemma GenericWhenLacking(m: string, p: char, i: char, c: char, s: char)
    requires p in "pdf" && i in "image" && c in "csv" && s in "sheet"
    requires p !in m && i !in m && c !in m && s !in m
    ensures FileIconFor(m) == GenericIcon
  {
    MissingCharNotContained(m, "pdf", p);
    MissingCharNotContained(m, "image", i);
    MissingCharNotContained(m, "csv", c);
    MissingCharNotContained(m, "sheet", s);
  }
}
