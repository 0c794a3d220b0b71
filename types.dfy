/** The records of `types.ts` as the handlers and views use them.
    Amounts are whole numbers of cents, and `createdAt`/`lastActionAt` are
    day numbers (day 0 is 1970-01-01), standing for the `YYYY-MM-DD`
    strings the application stores. */
module Types {

  datatype Option<T> = None | Some(value: T)

  /** The recovery steps, in the declaration order of the `RecoveryStep` enum. */
  datatype RecoveryStep = Reminder1 | Reminder2 | Reminder3 | DemandLetter | LegalAction {
    /** The string value of the enum member. */
    function Label(): string {
      match this
      case Reminder1 => "Relance Amiable 1"
      case Reminder2 => "Relance Amiable 2"
      case Reminder3 => "Dernier Avis Amiable"
      case DemandLetter => "Mise en Demeure"
      case LegalAction => "Procédure Judiciaire"
    }
  }

  /** Distinct steps have distinct labels, so a label identifies its step. */
  lemma LabelsDistinct(a: RecoveryStep, b: RecoveryStep)
    requires a != b
    ensures a.Label() != b.Label()
  {
    assert a.Label()[0] != b.Label()[0] || a.Label()[|a.Label()| - 1] != b.Label()[|b.Label()| - 1];
  }

  /** No label holds a comma or a newline. */
  lemma LabelPlain(step: RecoveryStep, ch: char)
    requires ch == ',' || ch == '\n'
    ensures ch !in step.Label()
  {
    LabelLacksComma(step);
    LabelLacksNewline(step);
  }

  lemma LabelLacksComma(step: RecoveryStep)
    ensures ',' !in step.Label()
  {
  }

  lemma LabelLacksNewline(step: RecoveryStep)
    ensures '\n' !in step.Label()
  {
  }

  /** The labels of the steps after the reminders lack a letter of "relance",
      in either case. */
  lemma LaterLabelsLackC(s: RecoveryStep)
    requires s == Reminder3 || s == DemandLetter
    ensures 'c' !in s.Label() && 'C' !in s.Label()
  {
  }

  lemma LegalActionLacksL()
    ensures 'l' !in LegalAction.Label() && 'L' !in LegalAction.Label()
  {
  }

  /** No label holds the word "Retour": the reminders lack its 'u', the
      other steps its capital 'R'. */
  lemma ReminderLabelsLackU(s: RecoveryStep)
    requires s == Reminder1 || s == Reminder2
    ensures 'u' !in s.Label()
  {
  }

  lemma LaterLabelsLackR(s: RecoveryStep)
    requires s != Reminder1 && s != Reminder2
    ensures 'R' !in s.Label()
  {
  }

  datatype Debtor = Debtor(id: string, name: string, email: string, phone: string, profession: string)

  datatype Invoice = Invoice(id: string, amount: int, date: string, dueDate: string, description: string)

  /** A stored document; `kind` is the field called `type` in the source. */
  datatype CaseDocument = CaseDocument(
    id: string, name: string, kind: string, date: string, fileType: string, size: string, content: string)

  /** The document form of the detail view, before an id and a size are given to it. */
  datatype DocumentDraft = DocumentDraft(name: string, kind: string, date: string, fileType: string, content: string)

  datatype HistoryEntry = HistoryEntry(date: string, action: string, note: string)

  /** A recovery case. `isArchived` is read and written by the application
      although the `Case` interface does not declare it. */
  datatype Case = Case(
    id: string,
    userId: string,
    debtor: Debtor,
    invoice: Invoice,
    status: RecoveryStep,
    createdAt: int,
    lastActionAt: int,
    documents: seq<CaseDocument>,
    history: seq<HistoryEntry>,
    isArchived: bool)

  /** The new-case form of `AddCaseModal`: every field is a string. */
  datatype CaseForm = CaseForm(
    name: string, email: string, amount: string, profession: string, description: string, invoiceId: string)

  datatype DashboardStats = DashboardStats(
    totalPending: int, activeCases: nat, successRate: int, averageCollectionTime: int)
}
