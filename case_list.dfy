/** The reminder summary of the case list (`components/CaseList.tsx`): the
    reminder count of a history and the mail that hands a case over to a
    lawyer. The `fr-FR` rendering of the amount and `encodeURIComponent`
    are parameters. */
module CaseList {
  import opened Types
  import opened Text
  import opened Seqs
  import Store

  /** An entry whose lowered action mentions "relance": every action that
      mentions "relance" or starts with "Relance" is one, and none shorter
      than the word is. */
  predicate IsReminder(h: HistoryEntry): (b: bool)
    ensures Contains(h.action, "relance") ==> b
    ensures IsPrefix("Relance", h.action) ==> b
    ensures b ==> |h.action| >= |"relance"|
  {
    LoweredRelance(h.action);
    Contains(Lower(h.action), "relance")
  }

  /** An action mentioning "relance", or starting with "Relance", still
      mentions "relance" once lowered. */
  lemma LoweredRelance(action: string)
    ensures Contains(action, "relance") ==> Contains(Lower(action), "relance")
    ensures IsPrefix("Relance", action) ==> Contains(Lower(action), "relance")
  {
    ContainsLower(action, "relance");
    assert Lower("relance") == "relance";
    if IsPrefix("Relance", action) {
      LowerStartsWith(action, "Relance", "relance");
    }
  }

  /** `getReminderCount`: the number of reminder entries. */
  function ReminderCount(history: seq<HistoryEntry>): (n: nat)
    ensures n <= |history|
    ensures n == 0 <==> forall h :: h in history ==> !IsReminder(h)
  {
    var reminders := Keep(history, IsReminder);
    if reminders != [] then assert reminders[0] in reminders; |reminders| else 0
  }

  /** One line of the reminder section: a dash, the date, " : ", then the
      action at the end; it holds a line break only if the entry does. */
  function ReminderLine(h: HistoryEntry): (r: string)
    ensures IsPrefix("- ", r) && |r| == |h.date| + |h.action| + 5
    ensures r[2..2 + |h.date|] == h.date && r[2 + |h.date|..5 + |h.date|] == " : "
    ensures r[|r| - |h.action|..] == h.action
    ensures '\n' !in h.date && '\n' !in h.action ==> '\n' !in r
  {
    "- " + h.date + " : " + h.action
  }

  /** `history.filter(isReminder).map(line)`: one line per counted entry, in history order. */
  function ReminderLines(history: seq<HistoryEntry>): (lines: seq<string>)
    ensures |lines| == ReminderCount(history)
    ensures forall i :: 0 <= i < |lines| ==> lines[i] == ReminderLine(Keep(history, IsReminder)[i])
  {
    var reminders := Keep(history, IsReminder);
    seq(|reminders|, i requires 0 <= i < |reminders| => ReminderLine(reminders[i]))
  }

  const NoReminderPlaceholder := "Aucune relance automatique enregistrée"

  /** `reminders || 'Aucune relance automatique enregistrée'`: the
      placeholder shows exactly when no entry is a reminder; otherwise the
      section is the joined reminder lines, starting with the first one. */
  function RemindersSection(history: seq<HistoryEntry>): (r: string)
    ensures ReminderCount(history) == 0 <==> r == NoReminderPlaceholder
    ensures ReminderCount(history) > 0 ==>
      r == Join(ReminderLines(history), '\n') && IsPrefix(ReminderLines(history)[0], r)
  {
    JoinedRemindersDiffer(history);
    var joined := Join(ReminderLines(history), '\n');
    if joined == "" then NoReminderPlaceholder else joined
  }

  /** The joined reminder lines are empty exactly when there is no reminder,
      and otherwise start with a dash, so they never read as the placeholder. */
  lemma JoinedRemindersDiffer(history: seq<HistoryEntry>)
    ensures Join(ReminderLines(history), '\n') == "" <==> ReminderCount(history) == 0
    ensures Join(ReminderLines(history), '\n') != NoReminderPlaceholder
  {
    var lines := ReminderLines(history);
    if |lines| > 0 {
      assert IsPrefix("- ", lines[0]);
      JoinNonEmpty(lines, '\n');
      assert Join(lines, '\n')[0] == '-';
    }
  }

  /** With no line break inside dates and actions, the section has one line
      per reminder: as many line breaks as reminders, less one. */
  lemma RemindersSectionLineBreaks(history: seq<HistoryEntry>)
    requires forall h :: h in history ==> '\n' !in h.date && '\n' !in h.action
    requires ReminderCount(history) > 0
    ensures Occurrences(RemindersSection(history), '\n') == ReminderCount(history) - 1
  {
    var lines := ReminderLines(history);
    var reminders := Keep(history, IsReminder);
    forall i | 0 <= i < |lines|
      ensures '\n' !in lines[i]
    {
      assert reminders[i] in history;
    }
    TotalOccurrencesZero(lines, '\n');
    JoinOccurrences(lines, '\n');
  }

  /** Appending one entry raises the count by one exactly when it is a reminder. */
  lemma ReminderCountAppend(history: seq<HistoryEntry>, e: HistoryEntry)
    ensures ReminderCount(history + [e]) == ReminderCount(history) + (if IsReminder(e) then 1 else 0)
  {
    KeepAppend(history, [e], IsReminder);
    assert Keep([e], IsReminder) == (if IsReminder(e) then [e] else []) + Keep([], IsReminder);
  }

  /** "Relance 1" is a reminder and "Dossier créé" is not. */
  lemma CreationEntries(d: string)
    ensures !IsReminder(HistoryEntry(d, "Dossier créé", "Prise en charge par RecouvreLib."))
    ensures IsReminder(HistoryEntry(d, "Relance 1", "Premier contact envoyé."))
  {
    LacksLetterMisses("Dossier créé", "relance", 'a');
    assert Lower("Relance 1")[..7] == "relance";
    assert OccursAt(Lower("Relance 1"), "relance", 0);
  }

  /** A case fresh from `handleAddCase` counts one reminder. */
  lemma NewCaseCountsOne(id: string, userId: string, debtorId: string, form: CaseForm, amount: int,
                         today: int, displayDate: string)
    ensures ReminderCount(Store.NewCase(id, userId, debtorId, form, amount, today, displayDate).history) == 1
  {
    var h := Store.NewCase(id, userId, debtorId, form, amount, today, displayDate).history;
    CreationEntries(displayDate);
    assert h == [HistoryEntry(displayDate, "Dossier créé", "Prise en charge par RecouvreLib.")] +
                [HistoryEntry(displayDate, "Relance 1", "Premier contact envoyé.")];
    ReminderCountAppend([HistoryEntry(displayDate, "Dossier créé", "Prise en charge par RecouvreLib.")],
                        HistoryEntry(displayDate, "Relance 1", "Premier contact envoyé."));
    ReminderCountAppend([], HistoryEntry(displayDate, "Dossier créé", "Prise en charge par RecouvreLib."));
  }

  /** The labels of the first two steps mention "relance", the others do not. */
  lemma LabelIsReminder(s: RecoveryStep)
    ensures Contains(Lower(s.Label()), "relance") <==> s == Reminder1 || s == Reminder2
  {
    if s == Reminder1 || s == Reminder2 {
      LowerStartsWith(s.Label(), "Relance", "relance");
    } else {
      LaterLabelNotReminder(s);
    }
  }

  lemma LaterLabelNotReminder(s: RecoveryStep)
    requires s != Reminder1 && s != Reminder2
    ensures !Contains(Lower(s.Label()), "relance")
  {
    if s == LegalAction {
      LegalActionLacksL();
      LacksLetterMisses(s.Label(), "relance", 'l');
    } else {
      LaterLabelsLackC(s);
      LacksLetterMisses(s.Label(), "relance", 'c');
    }
  }

  /** A status entry, forward or backward, is a reminder exactly when its
      step is one of the two amicable reminders. */
  lemma StatusEntryIsReminder(s: RecoveryStep, isRegression: bool, displayDate: string)
    ensures IsReminder(Store.StatusEntry(s, isRegression, displayDate)) <==> s == Reminder1 || s == Reminder2
  {
    LabelIsReminder(s);
    if isRegression {
      RegressionActionIsReminder(s);
    }
  }

  lemma RegressionActionIsReminder(s: RecoveryStep)
    ensures Contains(Lower("Retour à : " + s.Label()), "relance") <==> s == Reminder1 || s == Reminder2
  {
    if s == Reminder1 || s == Reminder2 {
      RegressionToReminder(s);
    } else {
      RegressionToLaterStep(s);
    }
  }

  lemma RegressionToLaterStep(s: RecoveryStep)
    requires s != Reminder1 && s != Reminder2
    ensures !Contains(Lower("Retour à : " + s.Label()), "relance")
  {
    if s == LegalAction {
      LegalActionLacksL();
      LacksLetterMisses("Retour à : " + s.Label(), "relance", 'l');
    } else {
      LaterLabelsLackC(s);
      LacksLetterMisses("Retour à : " + s.Label(), "relance", 'c');
    }
  }

  lemma RegressionToReminder(s: RecoveryStep)
    requires s == Reminder1 || s == Reminder2
    ensures Contains(Lower("Retour à : " + s.Label()), "relance")
  {
    LabelIsReminder(s);
    LowerAppend("Retour à : ", s.Label());
    ContainsInSuffixPart(Lower("Retour à : "), Lower(s.Label()), "relance");
  }

  /** `handleUpdateStatus` raises the count by one for "Relance Amiable 1" or
      "Relance Amiable 2" (forward or backward) and leaves it otherwise. */
  lemma CountAfterStatus(c: Case, s: RecoveryStep, isRegression: bool, today: int, displayDate: string)
    ensures ReminderCount(Store.WithStatus(c, s, isRegression, today, displayDate).history) ==
      ReminderCount(c.history) + (if s == Reminder1 || s == Reminder2 then 1 else 0)
  {
    StatusEntryIsReminder(s, isRegression, displayDate);
    ReminderCountAppend(c.history, Store.StatusEntry(s, isRegression, displayDate));
    assert Store.WithStatus(c, s, isRegression, today, displayDate).history ==
      c.history + [Store.StatusEntry(s, isRegression, displayDate)];
  }

  /** Marking paid leaves the count, since "Payé" is no reminder; archiving
      does not touch the history at all. */
  lemma CountAfterPaidOrArchived(c: Case, today: int, displayDate: string)
    ensures ReminderCount(Store.Paid(c, today, displayDate).history) == ReminderCount(c.history)
    ensures ReminderCount(Store.Archived(c, today).history) == ReminderCount(c.history)
  {
    LacksLetterMisses("Payé", "relance", 'r');
    ReminderCountAppend(c.history, Store.PaidEntry(displayDate));
  }

  const SubjectPrefix := "Transfert de dossier de recouvrement - "

  /** The mail subject: the fixed prefix, then the debtor's name. */
  function MailSubject(c: Case): (r: string)
    ensures IsPrefix(SubjectPrefix, r) && r[|SubjectPrefix|..] == c.debtor.name
  {
    SubjectPrefix + c.debtor.name
  }

  /** The fixed lines before the case details. */
  const BodyIntro: seq<string> := [
    "Bonjour,",
    "",
    "Je vous transmets par la présente un dossier de non-paiement pour traitement juridique.",
    "",
    "RÉCAPITULATIF DU DOSSIER",
    "-----------------------"]

  /** The fixed lines between the case details and the reminder section. */
  const RemindersHeading: seq<string> := ["", "ÉTAPES DE RELANCE EFFECTUÉES", "---------------------------"]

  /** The fixed lines after the reminder section. */
  const BodyOutro: seq<string> := ["", "---", "Ce dossier est transmis via l'outil RecouvreLib."]

  /** The case details, one line each. */
  function DetailLines(c: Case, formatAmount: int -> string): (d: seq<string>)
    ensures |d| == 5
    ensures d[0] == "Nom du client : " + c.debtor.name && d[1] == "Profession : " + c.debtor.profession
    ensures d[2] == "Montant total dû : " + formatAmount(c.invoice.amount) + " €"
    ensures d[3] == "Facture N° : " + c.invoice.id && d[4] == "Date de la facture : " + c.invoice.date
  {
    [ "Nom du client : " + c.debtor.name,
      "Profession : " + c.debtor.profession,
      "Montant total dû : " + formatAmount(c.invoice.amount) + " €",
      "Facture N° : " + c.invoice.id,
      "Date de la facture : " + c.invoice.date ]
  }

  /** The reminder heading, the reminder section and the closing lines. */
  function ClosingLines(history: seq<HistoryEntry>): (t: seq<string>)
    ensures |t| == 7 && t[3] == RemindersSection(history)
  {
    RemindersHeading + [RemindersSection(history)] + BodyOutro
  }

  /** The lines of the mail body; the template is these lines joined by line breaks. */
  function MailBodyLines(c: Case, formatAmount: int -> string): (lines: seq<string>)
    ensures |lines| == 18
    ensures lines[6] == "Nom du client : " + c.debtor.name
    ensures lines[7] == "Profession : " + c.debtor.profession
    ensures lines[14] == RemindersSection(c.history)
    ensures lines[..6] == BodyIntro && lines[6..11] == DetailLines(c, formatAmount)
    ensures lines[11..] == ClosingLines(c.history)
    ensures lines[8] == "Montant total dû : " + formatAmount(c.invoice.amount) + " €"
    ensures lines[9] == "Facture N° : " + c.invoice.id && lines[10] == "Date de la facture : " + c.invoice.date
  {
    BodyIntro + DetailLines(c, formatAmount) + ClosingLines(c.history)
  }

  /** The body names the debtor, their profession, and quotes the reminder section whole. */
  function MailBody(c: Case, formatAmount: int -> string): (body: string)
    ensures Contains(body, "Nom du client : " + c.debtor.name)
    ensures Contains(body, "Profession : " + c.debtor.profession)
    ensures Contains(body, RemindersSection(c.history))
    ensures Contains(body, "Montant total dû : " + formatAmount(c.invoice.amount) + " €")
    ensures Contains(body, "Facture N° : " + c.invoice.id)
    ensures Contains(body, "Date de la facture : " + c.invoice.date)
  {
    var lines := MailBodyLines(c, formatAmount);
    JoinContainsEach(lines, '\n', 6);
    JoinContainsEach(lines, '\n', 7);
    JoinContainsEach(lines, '\n', 8);
    JoinContainsEach(lines, '\n', 9);
    JoinContainsEach(lines, '\n', 10);
    JoinContainsEach(lines, '\n', 14);
    Join(lines, '\n')
  }

  /** `generateMailtoLink`: a mailto URL without recipient, with the encoded
      subject and body. */
  function MailtoLink(c: Case, formatAmount: int -> string, encode: string -> string): (r: string)
    ensures IsPrefix("mailto:?subject=" + encode(MailSubject(c)) + "&body=", r)
    ensures r[|"mailto:?subject=" + encode(MailSubject(c)) + "&body="|..] == encode(MailBody(c, formatAmount))
  {
    "mailto:?subject=" + encode(MailSubject(c)) + "&body=" + encode(MailBody(c, formatAmount))
  }
}
