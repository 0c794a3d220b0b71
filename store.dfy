/** The case store of `App.tsx`: the `cases` state and the six handlers that
    replace it. Clock values (`today` as a day number, `displayDate` as the
    already formatted `fr-FR` date), random ids, the random size string and
    the parsed amount are parameters. */
module Store {
  import opened Types
  import opened Text
  import opened Seqs

  /** The signed-in user, as far as the handlers look at it. */
  datatype User = User(id: string)

  /** The profession stored for a new case: a patient's is kept, any other is
      prefixed with "Client - ". */
  function StoredProfession(profession: string): (r: string)
    ensures Contains(profession, "Patient") ==> r == profession
    ensures !Contains(profession, "Patient") ==> r == "Client - " + profession
  {
    if Contains(profession, "Patient") then profession else "Client - " + profession
  }

  /** The record `handleAddCase` builds from the form. */
  function NewCase(id: string, userId: string, debtorId: string, form: CaseForm, amount: int,
                   today: int, displayDate: string): (c: Case)
    ensures c.id == id && c.userId == userId
    ensures c.status == Reminder1 && !c.isArchived && c.documents == []
    ensures c.createdAt == c.lastActionAt == today
    ensures c.debtor == Debtor(debtorId, form.name, form.email, "", StoredProfession(form.profession))
    ensures c.invoice.amount == amount && c.invoice.id == form.invoiceId && c.invoice.description == form.description
    ensures c.invoice.date == c.invoice.dueDate == IsoDate(today)
    ensures |c.history| == 2 && c.history[0].date == c.history[1].date == displayDate
    ensures c.history[0].action == "Dossier créé" && c.history[0].note == "Prise en charge par RecouvreLib."
    ensures c.history[1].action == "Relance 1" && c.history[1].note == "Premier contact envoyé."
  {
    Case(
      id := id,
      userId := userId,
      debtor := Debtor(debtorId, form.name, form.email, "", StoredProfession(form.profession)),
      invoice := Invoice(form.invoiceId, amount, IsoDate(today), IsoDate(today), form.description),
      status := Reminder1,
      createdAt := today,
      lastActionAt := today,
      documents := [],
      history := [
        HistoryEntry(displayDate, "Dossier créé", "Prise en charge par RecouvreLib."),
        HistoryEntry(displayDate, "Relance 1", "Premier contact envoyé.")
      ],
      isArchived := false)
  }

  /** The `newDoc` record of `handleAddDocument`: the given id and size, and
      every field of the draft as entered. */
  function NewDocument(docId: string, draft: DocumentDraft, size: string): (d: CaseDocument)
    ensures d.id == docId && d.size == size
    ensures DocumentDraft(d.name, d.kind, d.date, d.fileType, d.content) == draft
  {
    CaseDocument(docId, draft.name, draft.kind, draft.date, draft.fileType, size, draft.content)
  }

  /** One case after `handleAddDocument`: only its documents change, by one at the end. */
  function WithDocument(c: Case, d: CaseDocument): (r: Case)
    ensures r.documents == c.documents + [d]
    ensures r.(documents := c.documents) == c
  {
    c.(documents := c.documents + [d])
  }

  /** The history entry `handleUpdateStatus` appends. */
  function StatusEntry(status: RecoveryStep, isRegression: bool, displayDate: string): (e: HistoryEntry)
    ensures e.date == displayDate
    ensures e.action == if isRegression then "Retour à : " + status.Label() else status.Label()
    ensures e.note == if isRegression then "Rétrogradation manuelle." else "Escalade automatique."
  {
    HistoryEntry(
      displayDate,
      if isRegression then "Retour à : " + status.Label() else status.Label(),
      if isRegression then "Rétrogradation manuelle." else "Escalade automatique.")
  }

  /** One case after `handleUpdateStatus`: any status is accepted (the adjacency
      guard lives in the detail view), and exactly one entry is appended. */
  function WithStatus(c: Case, status: RecoveryStep, isRegression: bool, today: int, displayDate: string): (r: Case)
    ensures r.status == status && r.lastActionAt == today
    ensures |r.history| == |c.history| + 1 && r.history[..|c.history|] == c.history
    ensures r.history[|c.history|] == StatusEntry(status, isRegression, displayDate)
    ensures r.(status := c.status, lastActionAt := c.lastActionAt, history := c.history) == c
  {
    c.(status := status, lastActionAt := today, history := c.history + [StatusEntry(status, isRegression, displayDate)])
  }

  /** One case after `handleArchiveCase`: archived, with a new last-action day;
      status and history untouched. */
  function Archived(c: Case, today: int): (r: Case)
    ensures r.isArchived && r.lastActionAt == today
    ensures r.status == c.status && r.history == c.history
    ensures r.(isArchived := c.isArchived, lastActionAt := c.lastActionAt) == c
  {
    c.(isArchived := true, lastActionAt := today)
  }

  /** The history entry `handleMarkAsPaid` appends: dated with the given
      date, and with an action no status change ever writes. */
  function PaidEntry(displayDate: string): (e: HistoryEntry)
    ensures e.date == displayDate && e.action == "Payé" && e.note == "Encaissement confirmé."
    ensures forall s: RecoveryStep :: e.action != s.Label()
  {
    HistoryEntry(displayDate, "Payé", "Encaissement confirmé.")
  }

  /** One case after `handleMarkAsPaid`: as `Archived`, plus exactly one 'Payé' entry. */
  function Paid(c: Case, today: int, displayDate: string): (r: Case)
    ensures r.isArchived && r.lastActionAt == today && r.status == c.status
    ensures r.history == c.history + [PaidEntry(displayDate)]
    ensures r.(history := c.history) == Archived(c, today)
  {
    c.(isArchived := true, lastActionAt := today, history := c.history + [PaidEntry(displayDate)])
  }

  /** `cases.map(c => c.id === id ? f(c) : c)`: every case with the id is
      transformed, all others are left as they are, in place. */
  function MapWhere(cases: seq<Case>, id: string, f: Case -> Case): (r: seq<Case>)
    ensures |r| == |cases|
    ensures forall i :: 0 <= i < |cases| ==> r[i] == if cases[i].id == id then f(cases[i]) else cases[i]
  {
    if cases == [] then []
    else [if cases[0].id == id then f(cases[0]) else cases[0]] + MapWhere(cases[1..], id, f)
  }

  /** An id that no case carries leaves the collection as it was. */
  lemma MapWhereUnknownId(cases: seq<Case>, id: string, f: Case -> Case)
    requires forall c :: c in cases ==> c.id != id
    ensures MapWhere(cases, id, f) == cases
  {
    assert forall i :: 0 <= i < |cases| ==> cases[i] in cases;
  }

  /** Every case of the collection has a non-empty history. */
  ghost predicate HistoriesNonEmpty(cases: seq<Case>) {
    forall i :: 0 <= i < |cases| ==> |cases[i].history| > 0
  }

  /** The `cases` state of `App` and its handlers. Ids are not assumed to be
      unique: `map` and `filter` act on every case that carries the id. */
  class CaseStore {
    var cases: seq<Case>

    /** Every case carries an audit trail: creation seeds two entries, and no
        handler removes any. */
    ghost predicate Valid()
      reads this
    {
      HistoriesNonEmpty(cases)
    }

    constructor (initial: seq<Case>)
      requires HistoriesNonEmpty(initial)
      ensures Valid() && cases == initial
    {
      cases := initial;
    }

    /** `handleAddCase`: without a signed-in user nothing happens; otherwise the
        new case is put first. */
    method AddCase(user: Option<User>, form: CaseForm, caseId: string, debtorId: string, amount: int,
                   today: int, displayDate: string)
      requires Valid()
      modifies this
      ensures Valid()
      ensures user.None? ==> cases == old(cases)
      ensures user.Some? ==>
        cases == [NewCase(caseId, user.value.id, debtorId, form, amount, today, displayDate)] + old(cases)
    {
      if user.None? {
        return;
      }
      var c := NewCase(caseId, user.value.id, debtorId, form, amount, today, displayDate);
      cases := [c] + cases;
    }

    /** `handleAddDocument`: the document goes at the end of every case with the id. */
    method AddDocument(caseId: string, draft: DocumentDraft, docId: string, size: string)
      requires Valid()
      modifies this
      ensures Valid()
      ensures |cases| == |old(cases)|
      ensures forall i :: 0 <= i < |cases| ==>
        cases[i] == if old(cases)[i].id == caseId then WithDocument(old(cases)[i], NewDocument(docId, draft, size))
                    else old(cases)[i]
      ensures forall i :: 0 <= i < |cases| ==>
        cases[i].history == old(cases)[i].history && cases[i].status == old(cases)[i].status
      ensures (forall c :: c in old(cases) ==> c.id != caseId) ==> cases == old(cases)
    {
      var d := NewDocument(docId, draft, size);
      if forall c :: c in cases ==> c.id != caseId {
        MapWhereUnknownId(cases, caseId, c => WithDocument(c, d));
      }
      cases := MapWhere(cases, caseId, c => WithDocument(c, d));
    }

    /** `handleUpdateStatus`: every case with the id takes the status and one new entry. */
    method UpdateStatus(id: string, status: RecoveryStep, isRegression: bool, today: int, displayDate: string)
      requires Valid()
      modifies this
      ensures Valid()
      ensures |cases| == |old(cases)|
      ensures forall i :: 0 <= i < |cases| ==>
        cases[i] == if old(cases)[i].id == id then WithStatus(old(cases)[i], status, isRegression, today, displayDate)
                    else old(cases)[i]
      ensures forall i :: 0 <= i < |cases| ==>
        |cases[i].history| == |old(cases)[i].history| + (if old(cases)[i].id == id then 1 else 0)
      ensures (forall c :: c in old(cases) ==> c.id != id) ==> cases == old(cases)
    {
      if forall c :: c in cases ==> c.id != id {
        MapWhereUnknownId(cases, id, c => WithStatus(c, status, isRegression, today, displayDate));
      }
      cases := MapWhere(cases, id, c => WithStatus(c, status, isRegression, today, displayDate));
    }

    /** `handleDeleteCase`: every case with the id is removed, the others keep their order. */
    method DeleteCase(id: string)
      requires Valid()
      modifies this
      ensures Valid()
      ensures cases == Keep(old(cases), (c: Case) => c.id != id)
      ensures IsSubsequence(cases, old(cases))
      ensures forall c :: c in cases <==> c in old(cases) && c.id != id
      ensures (forall c :: c in old(cases) ==> c.id != id) ==> cases == old(cases)
    {
      KeepIsSubsequence(cases, (c: Case) => c.id != id);
      if forall c :: c in cases ==> c.id != id {
        KeepAll(cases, (c: Case) => c.id != id);
      }
      cases := Keep(cases, (c: Case) => c.id != id);
    }

    /** `handleArchiveCase`. */
    method ArchiveCase(id: string, today: int)
      requires Valid()
      modifies this
      ensures Valid()
      ensures |cases| == |old(cases)|
      ensures forall i :: 0 <= i < |cases| ==>
        cases[i] == if old(cases)[i].id == id then Archived(old(cases)[i], today) else old(cases)[i]
      ensures forall i :: 0 <= i < |cases| ==>
        cases[i].history == old(cases)[i].history && cases[i].status == old(cases)[i].status
      ensures (forall c :: c in old(cases) ==> c.id != id) ==> cases == old(cases)
    {
      if forall c :: c in cases ==> c.id != id {
        MapWhereUnknownId(cases, id, c => Archived(c, today));
      }
      cases := MapWhere(cases, id, c => Archived(c, today));
    }

    /** `handleMarkAsPaid`. */
    method MarkAsPaid(id: string, today: int, displayDate: string)
      requires Valid()
      modifies this
      ensures Valid()
      ensures |cases| == |old(cases)|
      ensures forall i :: 0 <= i < |cases| ==>
        cases[i] == if old(cases)[i].id == id then Paid(old(cases)[i], today, displayDate) else old(cases)[i]
      ensures forall i :: 0 <= i < |cases| ==>
        |cases[i].history| == |old(cases)[i].history| + (if old(cases)[i].id == id then 1 else 0)
      ensures (forall c :: c in old(cases) ==> c.id != id) ==> cases == old(cases)
    {
      if forall c :: c in cases ==> c.id != id {
        MapWhereUnknownId(cases, id, c => Paid(c, today, displayDate));
      }
      cases := MapWhere(cases, id, c => Paid(c, today, displayDate));
    }
  }
}
