/** One case followed through the whole workflow, across the store, the
    detail panel's buttons, the reminder count and the dashboard: created,
    sent forward three times with "Étape suivante", then marked paid. */
module Lifecycle {
  import opened Types
  import Store
  import CaseDetail
  import CaseList
  import Views

  /** The case after one "Étape suivante" click, performed on day `today`. */
  function Advanced(c: Case, today: int, displayDate: string): (r: Case)
    requires c.status != LegalAction
    ensures CaseDetail.StepIndex(r.status) == CaseDetail.StepIndex(c.status) + 1
    ensures |r.history| == |c.history| + 1 && r.lastActionAt == today
    ensures r.createdAt == c.createdAt && r.isArchived == c.isArchived
  {
    CaseDetail.NavigationBounds(c);
    CaseDetail.Perform(c, CaseDetail.NextRequest(c).value, today, displayDate)
  }

  /** One forward step from a step before the final one, as the store applies it. */
  lemma AdvancedTo(c: Case, next: RecoveryStep, today: int, displayDate: string)
    requires c.status != LegalAction
    requires CaseDetail.StepIndex(next) == CaseDetail.StepIndex(c.status) + 1
    ensures Advanced(c, today, displayDate) == Store.WithStatus(c, next, false, today, displayDate)
  {
    CaseDetail.NavigationBounds(c);
    var r := CaseDetail.NextRequest(c).value;
    CaseDetail.StepIndexUnique(next, CaseDetail.StepIndex(r.status));
  }

  /** Three forward steps from the first reminder, then the payment, on any
      case: four more entries, the demand letter reached, archived, one more
      reminder counted (the one for "Relance Amiable 2"). */
  lemma ThreeStepsThenPaid(c: Case, d1: int, d2: int, d3: int, paid: int, date: string)
    requires c.status == Reminder1
    ensures var c1 := Store.WithStatus(c, Reminder2, false, d1, date);
      var c2 := Store.WithStatus(c1, Reminder3, false, d2, date);
      var c3 := Store.WithStatus(c2, DemandLetter, false, d3, date);
      var c4 := Store.Paid(c3, paid, date);
      && |c4.history| == |c.history| + 4
      && c4.status == DemandLetter
      && c4.isArchived
      && c4.history[|c.history| + 3] == Store.PaidEntry(date)
      && CaseList.ReminderCount(c4.history) == CaseList.ReminderCount(c.history) + 1
      && c4.createdAt == c.createdAt && c4.lastActionAt == paid
  {
    var c1 := Store.WithStatus(c, Reminder2, false, d1, date);
    CaseList.CountAfterStatus(c, Reminder2, false, d1, date);
    var c2 := Store.WithStatus(c1, Reminder3, false, d2, date);
    CaseList.CountAfterStatus(c1, Reminder3, false, d2, date);
    var c3 := Store.WithStatus(c2, DemandLetter, false, d3, date);
    CaseList.CountAfterStatus(c2, DemandLetter, false, d3, date);
    CaseList.CountAfterPaidOrArchived(c3, paid, date);
  }

  /** Created on `created`, advanced on `d1`, `d2` and `d3`, paid on `paid`:
      six history entries, the demand letter reached, archived, two
      reminders counted, and `paid - created` days of collection time. */
  lemma CreateAdvanceThricePay(id: string, userId: string, debtorId: string, form: CaseForm, amount: int,
                               created: int, d1: int, d2: int, d3: int, paid: int, date: string)
    requires created <= paid
    ensures var c0 := Store.NewCase(id, userId, debtorId, form, amount, created, date);
      var c4 := Store.Paid(Advanced(Advanced(Advanced(c0, d1, date), d2, date), d3, date), paid, date);
      && |c4.history| == 6
      && c4.status == DemandLetter
      && c4.isArchived
      && c4.history[5] == Store.PaidEntry(date)
      && CaseList.ReminderCount(c4.history) == 2
      && Views.CollectionDays(c4) == paid - created
  {
    var c0 := Store.NewCase(id, userId, debtorId, form, amount, created, date);
    CaseList.NewCaseCountsOne(id, userId, debtorId, form, amount, created, date);
    AdvancedTo(c0, Reminder2, d1, date);
    var c1 := Store.WithStatus(c0, Reminder2, false, d1, date);
    AdvancedTo(c1, Reminder3, d2, date);
    var c2 := Store.WithStatus(c1, Reminder3, false, d2, date);
    AdvancedTo(c2, DemandLetter, d3, date);
    ThreeStepsThenPaid(c0, d1, d2, d3, paid, date);
  }
}
