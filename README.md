# RecouvreLib case bookkeeping, in Dafny

RecouvreLib is a single-page tool for independent professionals. It follows
unpaid invoices ("cases") through five amicable-then-legal recovery steps:
"Relance Amiable 1", "Relance Amiable 2", "Dernier Avis Amiable", "Mise en
Demeure" and "Procédure Judiciaire". This project models the logic that runs
over the in-memory case collection and proves properties about it:

- **Store** (`store.dfy`). This is the `cases` state of `App.tsx`, written as a
  class `CaseStore` with a mutable `seq<Case>` field. It has six methods, one
  per handler: create, add document, change status, delete, archive and mark
  paid. Each method states the whole new collection. The effect on a single
  case is given by a function (`NewCase`, `WithStatus`, `Archived`, `Paid`,
  `WithDocument`), and that function's contract says what changes and what
  does not. Ids are not assumed unique, so every case that carries the id is
  affected, exactly as `map`/`filter` do in the source.
- **Views** (`views.dfy`). These are the derivations in `App.tsx`: the
  user-scoped collection, the dashboard statistics (with the 84 and 14
  placeholders), the three-filter list and the CSV lines of the export.
- **CaseDetail** (`case_detail.dfy`). This covers the previous/next step
  buttons and the status requests they send, the document-submit guard, the
  newest-first history timeline and the file-icon classification.
- **CaseList** (`case_list.dfy`). This covers the reminder count of a history
  and the hand-over mail (subject, body lines, reminder section and its
  placeholder).
- **AddCaseModal** (`add_case_modal.dfy`). This covers the defaulting that
  turns a scanner result into the new-case form.
- **Lifecycle** (`lifecycle.dfy`). This follows one case through create,
  three forward steps and payment, across all of the modules above.
- `types.dfy` holds the records, `seqs.dfy` the filter/sum/reverse helpers and
  `text.dfy` the string helpers (`includes`, `toLowerCase`, `join`, and the
  rendering of amounts and dates). `calendar.dfy` holds the Gregorian
  calendar behind the ISO dates: day numbers to dates and back.

Amounts are whole numbers of cents. `createdAt` and `lastActionAt` are day
numbers, where day 0 is 1970-01-01. "Now" for the time-window filter is in
milliseconds. Several values become parameters of the operations:

- the clock (`today`, the `fr-FR` display date, `now`);
- the random case, debtor and document ids;
- the random size string;
- the parsed amount;
- the signed-in user, as an `Option<User>`;
- the `fr-FR` amount formatting and `encodeURIComponent`, as opaque functions.

The model keeps these behaviours of the code as they are written:

- A status change is accepted for any status. The adjacency and bounds guard
  lives only in the detail panel's buttons (`CaseDetail.PreviousRequest`,
  `CaseDetail.NextRequest`).
- An archived case can still change status. Closing a case is not terminal.
- `lastActionAt >= createdAt` is not enforced.
- The success-rate placeholder 84 replaces the rate whenever it rounds to 0,
  not only for an empty collection. In the same way, 14 replaces any mean
  collection time of 0.
- Archiving and marking paid both count as archived in the success rate.
- Ids may repeat.
- The CSV export does no quoting. `Views.CsvRowCommas` shows that each comma
  inside an id, name or profession adds a field.

## Model

| member | source | states |
|---|---|---|
| `Types.LabelsDistinct` | types.ts:9-15 | two different recovery steps have different string values, so a status label identifies its step |
| `Store.StoredProfession` | App.tsx:113 | a profession containing "Patient" is stored as it is; any other gets the prefix "Client - " |
| `Store.NewCase` | App.tsx:103-124 | the new case carries the given id and user; the debtor record holds the given id, the form's name and email, an empty phone and the stored profession; the invoice holds the form's id and description, the given amount, and today's ISO date as both date and due date; the status is "Relance Amiable 1"; it is not archived and has no documents; `createdAt == lastActionAt == today`; there are exactly two history entries, both dated with the display date: 'Dossier créé' / 'Prise en charge par RecouvreLib.' then 'Relance 1' / 'Premier contact envoyé.' |
| `Store.WithDocument` | App.tsx:137 | adding a document appends it at the end of `documents` and changes no other field of the case |
| `Store.NewDocument` | App.tsx:131-136 | the new document carries the given id and size, and the draft's name, type, date, file type and content unchanged |
| `Store.StatusEntry` | App.tsx:150-154 | the appended entry is dated with the display date; its action is the step label, or "Retour à : " + label for a regression; its note is "Rétrogradation manuelle." or "Escalade automatique." accordingly |
| `Store.WithStatus` | App.tsx:147-155 | a status change sets the status and `lastActionAt` and appends exactly one entry after the unchanged old history; every other field is kept |
| `Store.Archived` | App.tsx:171 | archiving sets `isArchived` and `lastActionAt`, keeps status and history, and changes nothing else |
| `Store.Paid` | App.tsx:178-182 | marking paid is archiving plus exactly one appended entry, 'Payé' / 'Encaissement confirmé.' |
| `Store.PaidEntry` | App.tsx:181 | the payment entry carries the display date, the action 'Payé' and the note 'Encaissement confirmé.'; no status label equals its action, so it is never mistaken for a status change |
| `Store.MapWhere` | App.tsx:137-182 | `prev.map(c => c.id === id ? … : c)`, as used by the document, status, archive and payment handlers: the mapped collection has the same length; each case carrying the id is transformed and every other case is kept, at its position |
| `Store.MapWhereUnknownId` | App.tsx:146-160 | an id that no case carries leaves the mapped collection unchanged |
| `Store.CaseStore.constructor` | App.tsx:25 | the store starts from the given collection, every case of which has a non-empty history |
| `Store.CaseStore.AddCase` | App.tsx:103-125 | without a user nothing changes; otherwise the new case is put first and the old collection follows unchanged |
| `Store.CaseStore.AddDocument` | App.tsx:130-137 | every case with the id gets the document at the end, keeping its status and history; other cases and the length are unchanged; an unknown id changes nothing |
| `Store.CaseStore.UpdateStatus` | App.tsx:144-160 | every case with the id takes the new status and exactly one history entry; other cases are untouched; the length is kept; an unknown id changes nothing |
| `Store.CaseStore.DeleteCase` | App.tsx:164-165 | exactly the cases with the id are removed; the rest keep their order; an unknown id changes nothing |
| `Store.CaseStore.ArchiveCase` | App.tsx:170-171 | every case with the id is archived with its status and history kept; other cases are untouched; an unknown id changes nothing |
| `Store.CaseStore.MarkAsPaid` | App.tsx:176-182 | every case with the id is archived and grows by exactly one history entry; other cases are untouched; an unknown id changes nothing |
| `Views.UserCases` | App.tsx:39-42 | with no user the result is empty; otherwise it is the ordered subsequence of exactly the cases whose owner is empty, the user, or 'mock-user-123'; shown and hidden cases add up to the whole |
| `Views.VisibleTo` | App.tsx:41 | a case is shown to its owner and whenever its owner is empty or 'mock-user-123', and to no one else |
| `Views.RoundDiv` | App.tsx:60 | `Math.round` of a non-negative ratio: the nearest integer, halves rounded up |
| `Views.RoundDivPercent` | App.tsx:51 | the rounded percentage of a part of a whole never exceeds 100 |
| `Views.RawSuccessRate` | App.tsx:51 | the rate is at most 100, and 0 when no case is archived |
| `Views.CollectionDays` | App.tsx:56-58 | a case's collection time is `lastActionAt - createdAt` in days, or 0 when that is negative, never less than the difference |
| `Views.TotalDays` | App.tsx:55-59 | the summed collection days are at least the days of each case |
| `Views.TotalDaysBound` | App.tsx:55-59 | cases of at most `k` days each sum to at most `k` times their number |
| `Views.RawAverageTime` | App.tsx:53-61 | 0 without archived cases; otherwise the integer nearest to the mean of their collection days, halves rounded up |
| `Views.AverageAtMostLongest` | App.tsx:53-61 | the mean collection time never exceeds the longest collection time |
| `Views.RoundDivBound` | App.tsx:60 | rounding a ratio whose numerator is at most `d * k` gives at most `k` |
| `Views.Stats` | App.tsx:44-68 | `totalPending` sums the amounts of non-archived cases only; `activeCases` counts them; the active and archived counts partition the collection; the rate is in 1..100; both placeholders show when no case is archived |
| `Views.TotalPendingPartition` | App.tsx:45-48 | the pending total plus the archived amounts equals the sum of all amounts |
| `Views.SuccessRateValue` | App.tsx:49-66 | the success rate is round(archived*100/total), replaced by 84 whenever that is 0 |
| `Views.AverageTimeValue` | App.tsx:53-67 | the mean collection time is the rounded mean of max(0, lastActionAt - createdAt) over archived cases, replaced by 14 whenever that is 0 |
| `Views.StatsOfEmpty` | App.tsx:44-68 | the empty collection gives 0 pending, 0 active, 84 per cent and 14 days |
| `Views.StatsOneInFour` | App.tsx:49-51 | four cases with one archived give a 25 per cent rate and 3 active cases |
| `Views.FilteredCases` | App.tsx:71-87 | the result is the ordered subsequence of the scoped cases that pass the view, search and time-window tests, and nothing else |
| `Views.InView` | App.tsx:72 | the archive view keeps exactly the archived cases; every other view keeps exactly the active ones |
| `Views.ViewsPartition` | App.tsx:72 | each case is in exactly one of the archive and dashboard views, and the notifications view shows the same cases as the dashboard |
| `Views.MatchesSearch` | App.tsx:74-77 | a case whose debtor name or profession contains the term, as typed, matches it |
| `Views.SearchIgnoresCase` | App.tsx:74-77 | a term and its lowered form match the same cases, for every case and every term |
| `Views.SearchIgnoresFieldCase` | App.tsx:74-77 | lowering the debtor's name and profession does not change which terms match the case |
| `Views.SearchMissesWithout` | App.tsx:74-77 | a term holding a character that neither lowered field holds matches no case |
| `Views.InWindow` | App.tsx:79-84 | 'all' keeps every case; the 30-day and 90-day windows each keep a case exactly when the UTC midnight of its creation day is no earlier than now less 30 or 90 days |
| `Views.WindowDays` | App.tsx:81 | the window is 30 days exactly for '30days', and 90 days otherwise |
| `Views.FilterOrderIrrelevant` | App.tsx:71-87 | applying the three filters in any of the six orders gives the same list |
| `Views.ThreeFilters` | App.tsx:72-84 | three successive filters equal one filter by their conjunction |
| `Views.EmptyTermMatchesAll` | App.tsx:74-77 | an empty search term matches every case |
| `Views.ShorterWindowShowsLess` | App.tsx:79-84 | the 30-day list is an ordered part of the 90-day list |
| `Views.SearchFindsName` | App.tsx:75 | "mar" matches the debtor named "Marie" whatever the case of the letters |
| `Views.SearchFindsProfession` | App.tsx:76 | "mar" matches the profession "Marketing consultant" |
| `Views.SearchSkipsOthers` | App.tsx:74-77 | "mar" does not match "Paul" with profession "Patient - Kinésithérapie" |
| `Views.RowLines` | App.tsx:91-93 | one export row per filtered case, in order |
| `Views.CsvLines` | App.tsx:90-94 | the export is the header line followed by one row line per case, in order |
| `Views.CsvLinesStartWithHeader` | App.tsx:90 | the first line is always the header line |
| `Views.CsvFields` | App.tsx:91-93 | a case gives one field per column, and the amount, status label and date it generates hold no comma and no line break |
| `Views.HeaderLine` | App.tsx:90-94 | the header line is "ID,Client,Profession,Montant,Statut,Créé le" |
| `Views.RowLine` | App.tsx:91-94 | a case's line is its id, debtor name, profession, amount text, status label and ISO creation date, in that order, separated by single commas |
| `Views.CsvContent` | App.tsx:94 | the export starts with the header line, and is just the header line when no case passes the filters |
| `Views.CsvContentHoldsRows` | App.tsx:91-94 | the export contains the row line of every filtered case |
| `Views.CsvRowCommas` | App.tsx:94 | a row holds five separator commas plus every comma inside the id, name and profession, because fields are not quoted |
| `Views.CsvContentLineBreaks` | App.tsx:94 | without line breaks inside the fields, the export has exactly one line break per case |
| `CaseDetail.StepIndex` | components/CaseDetail.tsx:111-112 | `indexOf` finds the status at its first and only position in the five-step sequence |
| `CaseDetail.StepIndexUnique` | components/CaseDetail.tsx:111-112 | a position holding a step is that step's index |
| `CaseDetail.StepsDistinct` | components/CaseDetail.tsx:111 | the five steps of `Object.values(RecoveryStep)` are pairwise different |
| `CaseDetail.PreviousRequest` | components/CaseDetail.tsx:128-131 | "previous" is offered exactly when the index is above 0; it requests the step just before, for this case, with the regression flag set |
| `CaseDetail.NextRequest` | components/CaseDetail.tsx:138-140 | "next" is offered exactly when the index is below the last; it requests the step just after, for this case, without the regression flag |
| `CaseDetail.Perform` | components/CaseDetail.tsx:128-140 | a button's request sets the requested status and today as `lastActionAt`, appends exactly the matching status entry, and changes nothing else |
| `CaseDetail.NavigationBounds` | components/CaseDetail.tsx:128-140 | no "previous" exactly at "Relance Amiable 1"; no "next" exactly at "Procédure Judiciaire" |
| `CaseDetail.NextThenPrevious` | components/CaseDetail.tsx:128-140 | next then previous from any non-final step restores the status and appends exactly two entries: the forward label, then "Retour à : " with the original label |
| `CaseDetail.SubmitDocument` | components/CaseDetail.tsx:66-72 | a draft without content is refused; otherwise it is sent exactly once, unchanged, for this case's id |
| `CaseDetail.InitialDraft` | components/CaseDetail.tsx:25-31 | the document form opens with no content, no name, no file type, type "Facture" and today's ISO date |
| `CaseDetail.ResetFormRefused` | components/CaseDetail.tsx:75-81 | the form as it is reset after a submit is refused until a file is read |
| `CaseDetail.SubmittedDocumentStored` | components/CaseDetail.tsx:72 | a submitted document carries content and lands at the end of this case's documents |
| `CaseDetail.HistoryView` | components/CaseDetail.tsx:205 | the timeline is the history reversed, newest first, of the same length |
| `CaseDetail.HistoryViewRestores` | components/CaseDetail.tsx:205 | reversing the timeline gives back the stored history |
| `CaseDetail.StoredTimelineHasNewest` | components/CaseDetail.tsx:205 | in a consistent store every case's timeline is non-empty and starts with the entry recorded last |
| `CaseDetail.HistoryViewAfterStatus` | components/CaseDetail.tsx:205 | after a status change, the new entry heads the timeline and the old timeline follows |
| `CaseDetail.MarkedAsRegression` | components/CaseDetail.tsx:207 | an action starting with "Retour" gets the amber marker, and no action without a capital R or shorter than "Retour" does |
| `CaseDetail.RegressionMarking` | components/CaseDetail.tsx:207 | a status entry gets the amber "Retour" marker exactly when it records a regression |
| `CaseDetail.OtherEntriesUnmarked` | components/CaseDetail.tsx:207 | the creation entries and the payment entry are not marked |
| `CaseDetail.FileIconFor` | components/CaseDetail.tsx:94-99 | each icon is chosen under exactly the stated condition: 'pdf' first, then 'image', then 'csv' or 'sheet', else generic |
| `CaseDetail.PdfBeatsImage` | components/CaseDetail.tsx:95-96 | a type containing both 'pdf' and 'image' gets the PDF icon |
| `CaseDetail.PdfExample` | components/CaseDetail.tsx:95 | "application/pdf" gets the PDF icon |
| `CaseDetail.GenericWhenLacking` | components/CaseDetail.tsx:94-98 | a type lacking a letter of each keyword gets the generic icon |
| `CaseList.IsReminder` | components/CaseList.tsx:47 | an action containing "relance" or starting with "Relance" counts, and no action shorter than the word does |
| `CaseList.LoweredRelance` | components/CaseList.tsx:47 | lowering an action keeps a "relance" it contains, and turns a leading "Relance" into one |
| `CaseList.ReminderCount` | components/CaseList.tsx:46-48 | the count never exceeds the history length, and it is 0 exactly when no entry's lowered action contains 'relance' |
| `CaseList.ReminderLines` | components/CaseList.tsx:52-55 | there is one line "- date : action" per counted entry, in history order, so the line count equals the reminder count |
| `CaseList.ReminderLine` | components/CaseList.tsx:54 | a reminder line is "- ", the date, " : ", then the action at the end, five characters longer than date and action together, and holds no line break unless they do |
| `CaseList.JoinedRemindersDiffer` | components/CaseList.tsx:52-57 | the joined reminder lines are empty exactly when nothing counts, and are never the placeholder text |
| `CaseList.RemindersSection` | components/CaseList.tsx:52-57 | the placeholder shows exactly when no entry counts; otherwise the section is the reminder lines joined by line breaks, starting with the first one |
| `CaseList.RemindersSectionLineBreaks` | components/CaseList.tsx:52-55 | with no line breaks inside dates and actions, the section has one line break fewer than reminders |
| `CaseList.ReminderCountAppend` | components/CaseList.tsx:46-48 | appending an entry raises the count by one exactly when that entry is a reminder |
| `CaseList.CreationEntries` | components/CaseList.tsx:47 | 'Relance 1' counts as a reminder and 'Dossier créé' does not |
| `CaseList.NewCaseCountsOne` | App.tsx:120-123 | a freshly created case has reminder count 1 |
| `CaseList.LabelIsReminder` | components/CaseList.tsx:47 | a step label counts as a reminder exactly for the first two steps |
| `CaseList.StatusEntryIsReminder` | components/CaseList.tsx:47 | a status entry, forward or backward, counts exactly when its step is "Relance Amiable 1" or "Relance Amiable 2" |
| `CaseList.CountAfterStatus` | App.tsx:150-154 | a status change adds one reminder for the first two steps and none for the other three, for advances and regressions alike |
| `CaseList.CountAfterPaidOrArchived` | App.tsx:171-181 | marking paid ('Payé') and archiving leave the reminder count unchanged |
| `CaseList.MailSubject` | components/CaseList.tsx:51 | the subject is "Transfert de dossier de recouvrement - " followed by the debtor name |
| `CaseList.DetailLines` | components/CaseList.tsx:57 | the detail part of the body has five lines: the debtor name, the profession, the amount formatted and followed by " €", the invoice number and the invoice date, each after its French label |
| `CaseList.ClosingLines` | components/CaseList.tsx:57 | the closing part has seven lines and carries the reminder section as its fourth |
| `CaseList.MailBodyLines` | components/CaseList.tsx:57 | the body has eighteen lines: the six fixed opening lines, the five detail lines (name, profession, amount, invoice number, invoice date), then the reminder heading, the reminder section and the closing lines |
| `CaseList.MailBody` | components/CaseList.tsx:57 | the body contains the debtor's name line, profession line, amount line, invoice-number line, invoice-date line and the whole reminder section |
| `CaseList.MailtoLink` | components/CaseList.tsx:59 | the link is "mailto:?subject=" with the encoded subject, then "&body=" with the encoded body |
| `AddCaseModal.InitialForm` | components/AddCaseModal.tsx:15-22 | the form opens with every text field empty and the profession 'Médecin'; its empty amount reads as no number |
| `AddCaseModal.OrElse` | components/AddCaseModal.tsx:25-31 | a present, non-empty string is kept; a missing or empty one becomes the fallback |
| `AddCaseModal.AmountText` | components/AddCaseModal.tsx:28 | the amount text is empty exactly for a missing amount or 0; otherwise it is the number's decimal text |
| `AddCaseModal.ScanComplete` | components/AddCaseModal.tsx:24-32 | every form field is set: the scanned text when non-empty, '' otherwise, and 'Médecin' for a missing profession |
| `AddCaseModal.EmptyScanGivesInitialForm` | components/AddCaseModal.tsx:15-32 | a scan that found nothing gives exactly the form the modal opens with |
| `AddCaseModal.ScannedTextCopied` | components/AddCaseModal.tsx:26-31 | non-empty scanned name, email, profession, description and invoice id are copied unchanged |
| `AddCaseModal.DefaultProfessionStored` | components/AddCaseModal.tsx:29 | without a scanned profession, the created case is filed under "Client - Médecin" |
| `AddCaseModal.ParseCents` | App.tsx:116 | a number is read only from a text starting with a digit, or with a minus sign then a digit; only the minus sign makes it negative |
| `AddCaseModal.DotIndex` | App.tsx:116 | the position of the first point of an amount text, or its length when it has none |
| `AddCaseModal.UnsignedCents` | App.tsx:116 | an unsigned amount text is read only when it starts with a digit |
| `AddCaseModal.CentsTextRoundTrip` | components/AddCaseModal.tsx:28 | reading back the decimal text of an amount gives the amount |
| `AddCaseModal.ScannedAmountSurvives` | App.tsx:116 | a non-zero scanned amount reaches the created case unchanged after `toString` then `parseFloat` |
| `Text.Lower` | App.tsx:75-76 | lowering keeps the length and lowers each character on its own |
| `Text.LowerChar` | App.tsx:75-76 | a capital A-Z becomes its small letter; only ASCII and Latin-1 capitals change; a small ASCII letter comes only from itself or its capital |
| `Text.LowerTwice` | App.tsx:75-76 | lowering an already lowered text changes nothing |
| `Text.ContainsLower` | App.tsx:75-76 | a term contained in a text is still contained once both are lowered |
| `Text.Contains` | App.tsx:75-76 | a contained text is no longer than the text; a prefix, and the empty text, are always contained |
| `Text.Join` | App.tsx:94 | joining nothing gives the empty text and joining one text gives it back; a join starts with its first text and holds the separator once there are two |
| `Text.JoinSix` | App.tsx:94 | six texts joined are the six texts, in order, separated by the separator |
| `Text.JoinContainsEach` | components/CaseList.tsx:55 | every joined text occurs in the join |
| `Text.CentsText` | components/AddCaseModal.tsx:28 | an amount's text is non-empty, starts with '-' exactly for a negative amount, and is otherwise digits with at most one point |
| `Text.IsoDate` | App.tsx:105 | a day's text holds only digits and dashes, so no comma and no line break; for the years 0 to 9999 it is `YYYY-MM-DD` whose three digit groups read back as the year, month and day of that day's calendar date |
| `Text.CivilTextReadsBack` | App.tsx:105 | a real date of the years 0 to 9999 is written as ten characters whose digit groups read back as its year, month and day |
| `Text.ZeroPaddedReadsBack` | App.tsx:105 | a number below `10^w`, zero-padded to `w` digits, is exactly `w` characters long and reads back as itself |
| `Text.IsoDateInjective` | App.tsx:105 | two days of the years 0 to 9999 with the same ISO text are the same day |
| `Calendar.DaysInMonth` | App.tsx:105 | months have 28 to 31 days, and February has 29 exactly in leap years |
| `Calendar.MonthStep` | App.tsx:105 | the cumulative month table agrees with the month lengths, and the twelve months fill the year |
| `Calendar.YearStep` | App.tsx:105 | consecutive years start 365 or 366 days apart, by the Gregorian leap rule |
| `Calendar.CivilFromDays` | App.tsx:105 | the calendar date of a day number is a real date whose day number, counted by the independent closed form from 1970-01-01, is that day number |
| `Calendar.DaysFromCivilInjective` | App.tsx:105 | different real dates have different day numbers |
| `Calendar.CivilRoundTrip` | App.tsx:105 | every real date is the calendar date of its own day number |
| `Calendar.NextDay` | App.tsx:105 | the date after a real date is a real date |
| `Calendar.ConsecutiveDays` | App.tsx:105 | consecutive day numbers give consecutive calendar dates |
| `Calendar.Epoch` | App.tsx:105 | day 0 is 1970-01-01 |
| `Lifecycle.Advanced` | components/CaseDetail.tsx:140 | one "next" click moves the status one step forward and appends one entry, leaving `createdAt` and the archive flag alone |
| `Lifecycle.AdvancedTo` | components/CaseDetail.tsx:140 | a "next" click is the store's status change to the following step, without the regression flag |
| `Lifecycle.ThreeStepsThenPaid` | App.tsx:144-182 | three forward steps and a payment add four entries, reach "Mise en Demeure", archive the case and add one reminder |
| `Lifecycle.CreateAdvanceThricePay` | App.tsx:103-182 | a case created, advanced three times and paid has six entries and two reminders, is archived at "Mise en Demeure", and counts `paid - created` days of collection time |

## Left out

- Rendering and UI state are not modelled: JSX, tabs, dropdowns, click-outside handling, toasts and their `setTimeout`, and the `selectedCase` mirror updates (App.tsx:138-139, 156, 166, 172, 183). They are presentation state.
- The AI collaborator (`services/geminiService.ts`) is not part of this model. It makes network calls to an external SDK.
- The camera, file reading and download are not modelled: `components/OCRScanner.tsx`, FileReader/base64, Blob, `URL.createObjectURL` and `link.click`. They are browser APIs. `Views.CsvContent` stops at the text that would be downloaded.
- Mock authentication (`components/MockAuth.tsx`) is not part of this model. The signed-in user is an optional parameter.
- Clock and randomness are parameters, and nothing is asserted about their values. This covers `new Date()`, `toLocaleDateString`, the random ids and the random size string. The `toISOString` text of a given day is modelled (`Text.IsoDate`).
- Floating point is not modelled. Amounts are whole cents, and `Math.round` is exact integer rounding of the true ratio. A float rounding at an exact half may differ from it.
- `AddCaseModal.ParseCents`: models `parseFloat` only for texts of digits with at most two decimals and an optional minus sign. It gives `None` for everything else, because it is only used to read back the amount text the form produces.
- The scanner result's amount is a number. A scanner result that returns the amount as a string is not modelled.
- `Text.IsoDate`: states the `YYYY-MM-DD` form only for the years 0 to 9999. For other years `toISOString` writes a signed six-digit year, and the model does not.
- `Text.LowerChar`: folds only the ASCII and Latin-1 capitals. That covers every string the proofs use; the rest of Unicode case folding is not modelled.
- `toLocaleString('fr-FR')` and `encodeURIComponent` are opaque function parameters of the mail functions.
- Archive terminality is not stated as a store property: the code lets an archived case change status.
- `lastActionAt >= createdAt` is not stated: the code does not enforce it.
- `STEP_COLORS`, `MOCK_CASES`, `components/Dashboard.tsx`, `components/NotificationsView.tsx`, `index.tsx`, and the unused types `RecoveryLevel`, `Patient`, `Appointment`, `Debt` and `ScanResult` are display content or fixtures and are not modelled.
