/** The views `App.tsx` derives from the case collection: `userCases`,
    `stats`, `filteredCases` and the lines of the CSV export. Each is a
    function of the collection and of parameters standing for the signed-in
    user and the clock. */
module Views {
  import opened Types
  import opened Text
  import opened Seqs
  import Store

  /** The owner id of the fixture cases, visible to every signed-in user. */
  const MockUserId := "mock-user-123"

  /** `!c.userId || c.userId === user.id || c.userId === 'mock-user-123'`. */
  predicate VisibleTo(c: Case, userId: string): (b: bool)
    ensures c.userId == userId ==> b
    ensures c.userId == "" || c.userId == MockUserId ==> b
    ensures b ==> c.userId in {"", userId, MockUserId}
  {
    c.userId == "" || c.userId == userId || c.userId == MockUserId
  }

  /** The visibility test for one user, as a filter predicate. */
  function VisibleFilter(userId: string): Case -> bool {
    (c: Case) => VisibleTo(c, userId)
  }

  function HiddenFilter(userId: string): Case -> bool {
    (c: Case) => !VisibleTo(c, userId)
  }

  /** `userCases`: nothing without a user; otherwise the cases the user may
      see, in their original order. */
  function UserCases(cases: seq<Case>, user: Option<Store.User>): (r: seq<Case>)
    ensures user.None? ==> r == []
    ensures IsSubsequence(r, cases)
    ensures forall c :: c in r <==> user.Some? && c in cases && VisibleTo(c, user.value.id)
    ensures user.Some? ==> |r| + |Keep(cases, HiddenFilter(user.value.id))| == |cases|
  {
    if user.None? then []
    else
      KeepIsSubsequence(cases, VisibleFilter(user.value.id));
      KeepPartition(cases, VisibleFilter(user.value.id), HiddenFilter(user.value.id));
      Keep(cases, VisibleFilter(user.value.id))
  }

  predicate IsActive(c: Case) { !c.isArchived }

  predicate IsArchived(c: Case) { c.isArchived }

  function Amount(c: Case): int { c.invoice.amount }

  /** `Math.max(0, lastActionAt - createdAt)` in days: the elapsed days, or 0
      when the last action is dated before the creation. */
  function CollectionDays(c: Case): (d: nat)
    ensures d >= c.lastActionAt - c.createdAt
    ensures d == 0 || d == c.lastActionAt - c.createdAt
    ensures c.lastActionAt >= c.createdAt ==> d == c.lastActionAt - c.createdAt
  {
    if c.lastActionAt - c.createdAt > 0 then c.lastActionAt - c.createdAt else 0
  }

  /** `Math.round(n / d)` for `n >= 0`: the nearest integer, halves rounded up. */
  function RoundDiv(n: nat, d: nat): (r: nat)
    requires d > 0
    ensures 2 * d * r <= 2 * n + d < 2 * d * (r + 1)
  {
    (2 * n + d) / (2 * d)
  }

  /** A rounded ratio of a part to its whole stays within 0..100 per cent. */
  lemma RoundDivPercent(a: nat, t: nat)
    requires 0 < t && a <= t
    ensures RoundDiv(100 * a, t) <= 100
  {
    var r := RoundDiv(100 * a, t);
    if r > 100 {
      assert 2 * t * r >= 2 * t * 101 by {
        MulMonotone(2 * t, 101, r);
      }
    }
  }

  lemma MulMonotone(k: nat, x: nat, y: nat)
    requires x <= y
    ensures k * x <= k * y
  {
  }

  /** The percentage before the `|| 84` fallback: 0 for an empty collection. */
  function RawSuccessRate(archived: nat, total: nat): (r: nat)
    requires archived <= total
    ensures r <= 100
    ensures archived == 0 ==> r == 0
  {
    if total > 0 then RoundDivPercent(archived, total); RoundDiv(100 * archived, total) else 0
  }

  /** `totalDays`: the collection days summed over the given cases; no
      single case's days exceed it. */
  function TotalDays(cases: seq<Case>): (t: nat)
    ensures forall i :: 0 <= i < |cases| ==> CollectionDays(cases[i]) <= t
  {
    if cases == [] then 0 else CollectionDays(cases[0]) + TotalDays(cases[1..])
  }

  /** Cases that each took at most `k` days take at most `|cases| * k` in total. */
  lemma {:induction false} TotalDaysBound(cases: seq<Case>, k: nat)
    requires forall i :: 0 <= i < |cases| ==> CollectionDays(cases[i]) <= k
    ensures TotalDays(cases) <= |cases| * k
  {
    if cases != [] {
      TotalDaysBound(cases[1..], k);
    }
  }

  /** The mean collection time before the `|| 14` fallback: 0 without
      archived cases, otherwise the integer nearest to the mean of their
      collection days (halves rounded up). */
  function RawAverageTime(archived: seq<Case>): (r: nat)
    ensures |archived| == 0 ==> r == 0
    ensures |archived| > 0 ==>
      2 * |archived| * r <= 2 * TotalDays(archived) + |archived| < 2 * |archived| * (r + 1)
  {
    if |archived| > 0 then RoundDiv(TotalDays(archived), |archived|) else 0
  }

  /** The mean collection time never exceeds the longest collection time. */
  lemma AverageAtMostLongest(archived: seq<Case>, k: nat)
    requires forall i :: 0 <= i < |archived| ==> CollectionDays(archived[i]) <= k
    ensures RawAverageTime(archived) <= k
  {
    if |archived| > 0 {
      TotalDaysBound(archived, k);
      RoundDivBound(TotalDays(archived), |archived|, k);
    }
  }

  /** A ratio whose numerator is at most `d * k` rounds to at most `k`. */
  lemma RoundDivBound(n: nat, d: nat, k: nat)
    requires d > 0 && n <= d * k
    ensures RoundDiv(n, d) <= k
  {
    var r := RoundDiv(n, d);
    if r > k {
      MulMonotone(2 * d, k + 1, r);
    }
  }

  /** `stats`: pending total and count over non-archived cases, success rate
      over all cases and mean collection time over archived ones, with the
      placeholders 84 and 14 substituted for a zero value. */
  function Stats(userCases: seq<Case>): (r: DashboardStats)
    ensures r.totalPending == Sum(Keep(userCases, IsActive), Amount)
    ensures r.activeCases == |Keep(userCases, IsActive)|
    ensures r.activeCases + |Keep(userCases, IsArchived)| == |userCases|
    ensures 1 <= r.successRate <= 100
    ensures Keep(userCases, IsArchived) == [] ==> r.successRate == 84
    ensures r.averageCollectionTime >= 1
    ensures Keep(userCases, IsArchived) == [] ==> r.averageCollectionTime == 14
  {
    var active := Keep(userCases, IsActive);
    var archived := Keep(userCases, IsArchived);
    KeepPartition(userCases, IsArchived, IsActive);
    var rate := RawSuccessRate(|archived|, |userCases|);
    var avg := RawAverageTime(archived);
    DashboardStats(
      totalPending := Sum(active, Amount),
      activeCases := |active|,
      successRate := if rate == 0 then 84 else rate,
      averageCollectionTime := if avg == 0 then 14 else avg)
  }

  /** The pending total and the archived amounts together make up every amount. */
  lemma TotalPendingPartition(userCases: seq<Case>)
    ensures Stats(userCases).totalPending + Sum(Keep(userCases, IsArchived), Amount) == Sum(userCases, Amount)
  {
    SumPartition(userCases, IsArchived, IsActive, Amount);
  }

  /** The success rate is the rounded percentage of archived cases, or the
      placeholder 84 whenever that is 0 (no case, no archived case, or too few
      to reach half a per cent). */
  lemma SuccessRateValue(userCases: seq<Case>)
    ensures var a, t := |Keep(userCases, IsArchived)|, |userCases|;
      Stats(userCases).successRate ==
        if t > 0 && a <= t && RoundDiv(100 * a, t) > 0 then RoundDiv(100 * a, t) else 84
  {
    KeepPartition(userCases, IsArchived, IsActive);
  }

  /** The mean collection time is the rounded mean of the archived cases'
      collection days, or the placeholder 14 whenever that is 0. */
  lemma AverageTimeValue(userCases: seq<Case>)
    ensures var archived := Keep(userCases, IsArchived); var n := |archived|;
      Stats(userCases).averageCollectionTime ==
        if n > 0 && RoundDiv(TotalDays(archived), n) > 0 then RoundDiv(TotalDays(archived), n) else 14
  {
  }

  /** The empty collection shows only the placeholders. */
  lemma StatsOfEmpty()
    ensures Stats([]) == DashboardStats(0, 0, 84, 14)
  {
  }

  /** Four cases of which one is archived give a 25 per cent success rate. */
  lemma StatsOneInFour(userCases: seq<Case>)
    requires |userCases| == 4 && |Keep(userCases, IsArchived)| == 1
    ensures Stats(userCases).successRate == 25
    ensures Stats(userCases).activeCases == 3
  {
    SuccessRateValue(userCases);
    KeepPartition(userCases, IsArchived, IsActive);
    assert RoundDiv(100 * 1, 4) == 204 / 8 == 25;
  }

  /** The list view: `currentView`. */
  datatype View = DashboardView | ArchiveView | NotificationsView

  /** The period dropdown: `timeFilter`. */
  datatype TimeFilter = AllTime | Last30Days | Last90Days

  const MsPerDay: int := 86400000

  /** Archived cases show in the archive view, the others in every other view. */
  predicate InView(c: Case, view: View): (b: bool)
    ensures view == ArchiveView ==> (b <==> c.isArchived)
    ensures view != ArchiveView ==> (b <==> !c.isArchived)
  {
    if view == ArchiveView then c.isArchived else !c.isArchived
  }

  /** Every case shows in exactly one of the dashboard and archive lists,
      and the notifications view filters like the dashboard. */
  lemma ViewsPartition(c: Case)
    ensures InView(c, ArchiveView) != InView(c, DashboardView)
    ensures InView(c, NotificationsView) == InView(c, DashboardView)
  {
  }

  /** The search box: the lowered term occurs in the lowered name or profession. */
  predicate MatchesSearch(c: Case, term: string)
    ensures Contains(c.debtor.name, term) || Contains(c.debtor.profession, term) ==> MatchesSearch(c, term)
  {
    ContainsLower(c.debtor.name, term);
    ContainsLower(c.debtor.profession, term);
    Contains(Lower(c.debtor.name), Lower(term)) || Contains(Lower(c.debtor.profession), Lower(term))
  }

  /** The search ignores the case of the term: typing it in capitals or in
      small letters finds the same cases. */
  lemma SearchIgnoresCase(c: Case, term: string)
    ensures MatchesSearch(c, term) <==> MatchesSearch(c, Lower(term))
  {
    LowerTwice(term);
  }

  /** Nor does it depend on the case of the debtor's name and profession. */
  lemma SearchIgnoresFieldCase(c: Case, term: string)
    ensures MatchesSearch(c, term) <==>
      MatchesSearch(c.(debtor := c.debtor.(name := Lower(c.debtor.name), profession := Lower(c.debtor.profession))), term)
  {
    LowerTwice(c.debtor.name);
    LowerTwice(c.debtor.profession);
  }

  /** A term holding a character that neither lowered field holds, once
      lowered, matches no case. */
  lemma SearchMissesWithout(c: Case, term: string, ch: char)
    requires ch in Lower(term) && ch !in Lower(c.debtor.name) && ch !in Lower(c.debtor.profession)
    ensures !MatchesSearch(c, term)
  {
    MissingCharNotContained(Lower(c.debtor.name), Lower(term), ch);
    MissingCharNotContained(Lower(c.debtor.profession), Lower(term), ch);
  }

  /** `timeFilter === '30days' ? 30 : 90`: the length of the window in days. */
  function WindowDays(filter: TimeFilter): (d: nat)
    ensures d == 30 <==> filter == Last30Days
    ensures d == 30 || d == 90
  {
    if filter == Last30Days then 30 else 90
  }

  /** `new Date(c.createdAt) >= limit`: the UTC midnight of `createdAt` is no
      earlier than `nowMs` less the window, both in milliseconds. 'all' keeps
      every case; a window keeps a case exactly when it was created at most
      its 30 or 90 days before now. */
  predicate InWindow(c: Case, filter: TimeFilter, nowMs: int): (b: bool)
    ensures filter == AllTime ==> b
    ensures c.createdAt * MsPerDay >= nowMs - WindowDays(filter) * MsPerDay ==> b
    ensures filter != AllTime && b ==> c.createdAt * MsPerDay >= nowMs - WindowDays(filter) * MsPerDay
    ensures filter == Last30Days ==> (b <==> c.createdAt * MsPerDay >= nowMs - 30 * MsPerDay)
    ensures filter == Last90Days ==> (b <==> c.createdAt * MsPerDay >= nowMs - 90 * MsPerDay)
  {
    filter == AllTime || c.createdAt * MsPerDay >= nowMs - WindowDays(filter) * MsPerDay
  }

  function ViewFilter(view: View): Case -> bool {
    (c: Case) => InView(c, view)
  }

  function SearchFilter(term: string): Case -> bool {
    (c: Case) => MatchesSearch(c, term)
  }

  function WindowFilter(filter: TimeFilter, nowMs: int): Case -> bool {
    (c: Case) => InWindow(c, filter, nowMs)
  }

  /** The three filters at once. */
  predicate Passes(c: Case, view: View, term: string, filter: TimeFilter, nowMs: int) {
    InView(c, view) && MatchesSearch(c, term) && InWindow(c, filter, nowMs)
  }

  function PassesFilter(view: View, term: string, filter: TimeFilter, nowMs: int): Case -> bool {
    (c: Case) => Passes(c, view, term, filter, nowMs)
  }

  /** `filteredCases`: the view filter, then the search, then (unless the
      period is 'all') the time window; the result is an ordered part of
      `userCases` holding exactly the cases that pass all three. */
  function FilteredCases(userCases: seq<Case>, view: View, term: string, filter: TimeFilter, nowMs: int): (r: seq<Case>)
    ensures r == Keep(userCases, PassesFilter(view, term, filter, nowMs))
    ensures IsSubsequence(r, userCases)
    ensures forall c :: c in r <==> c in userCases && Passes(c, view, term, filter, nowMs)
  {
    var byView := Keep(userCases, ViewFilter(view));
    var bySearch := Keep(byView, SearchFilter(term));
    var vs := (c: Case) => InView(c, view) && MatchesSearch(c, term);
    KeepKeep(userCases, ViewFilter(view), SearchFilter(term), vs);
    KeepIsSubsequence(userCases, PassesFilter(view, term, filter, nowMs));
    if filter != AllTime then
      KeepKeep(userCases, vs, WindowFilter(filter, nowMs), PassesFilter(view, term, filter, nowMs));
      Keep(bySearch, WindowFilter(filter, nowMs))
    else
      KeepSame(userCases, vs, PassesFilter(view, term, filter, nowMs));
      bySearch
  }

  /** The filters are independent: applying them in any order keeps the same cases. */
  lemma FilterOrderIrrelevant(userCases: seq<Case>, view: View, term: string, filter: TimeFilter, nowMs: int)
    ensures var v, s, w := ViewFilter(view), SearchFilter(term), WindowFilter(filter, nowMs);
      var r := FilteredCases(userCases, view, term, filter, nowMs);
      && r == Keep(Keep(Keep(userCases, v), s), w)
      && r == Keep(Keep(Keep(userCases, v), w), s)
      && r == Keep(Keep(Keep(userCases, s), v), w)
      && r == Keep(Keep(Keep(userCases, s), w), v)
      && r == Keep(Keep(Keep(userCases, w), v), s)
      && r == Keep(Keep(Keep(userCases, w), s), v)
  {
    var v, s, w := ViewFilter(view), SearchFilter(term), WindowFilter(filter, nowMs);
    var all := PassesFilter(view, term, filter, nowMs);
    ThreeFilters(userCases, v, s, w, all);
    ThreeFilters(userCases, v, w, s, all);
    ThreeFilters(userCases, s, v, w, all);
    ThreeFilters(userCases, s, w, v, all);
    ThreeFilters(userCases, w, v, s, all);
    ThreeFilters(userCases, w, s, v, all);
  }

  /** Three successive filters are one filter by a predicate equivalent to their conjunction. */
  lemma ThreeFilters(cases: seq<Case>, p: Case -> bool, q: Case -> bool, u: Case -> bool, all: Case -> bool)
    requires forall c :: all(c) == (p(c) && q(c) && u(c))
    ensures Keep(Keep(Keep(cases, p), q), u) == Keep(cases, all)
  {
    var pq := (c: Case) => p(c) && q(c);
    KeepKeep(cases, p, q, pq);
    KeepKeep(cases, pq, u, all);
  }

  /** An empty search term keeps every case of the view and window. */
  lemma EmptyTermMatchesAll(c: Case)
    ensures MatchesSearch(c, "")
  {
    assert OccursAt(Lower(c.debtor.name), "", 0);
  }

  /** The 30-day window shows an ordered part of what the 90-day window shows. */
  lemma ShorterWindowShowsLess(userCases: seq<Case>, view: View, term: string, nowMs: int)
    ensures IsSubsequence(FilteredCases(userCases, view, term, Last30Days, nowMs),
                          FilteredCases(userCases, view, term, Last90Days, nowMs))
  {
    KeepStronger(userCases, PassesFilter(view, term, Last30Days, nowMs), PassesFilter(view, term, Last90Days, nowMs));
  }

  /** The search example: "mar" finds "Marie" and a marketing consultant, not "Paul". */
  lemma SearchFindsName(marie: Case)
    requires marie.debtor.name == "Marie"
    ensures MatchesSearch(marie, "mar")
  {
    assert Lower("mar") == "mar";
    assert Lower("Marie")[..3] == "mar";
    assert OccursAt(Lower("Marie"), "mar", 0);
  }

  lemma SearchFindsProfession(consultant: Case)
    requires consultant.debtor.profession == "Marketing consultant"
    ensures MatchesSearch(consultant, "mar")
  {
    assert Lower("mar") == "mar";
    assert Lower("Marketing consultant")[..3] == "mar";
    assert OccursAt(Lower("Marketing consultant"), "mar", 0);
  }

  lemma SearchSkipsOthers(paul: Case)
    requires paul.debtor.name == "Paul" && paul.debtor.profession == "Patient - Kinésithérapie"
    ensures !MatchesSearch(paul, "mar")
  {
    PaulMissesMar(paul.debtor.name);
    KinesitherapyMissesMar(paul.debtor.profession);
  }

  lemma PaulMissesMar(name: string)
    requires name == "Paul"
    ensures !Contains(Lower(name), Lower("mar"))
  {
    LacksLetterMisses(name, "mar", 'r');
  }

  lemma KinesitherapyMissesMar(profession: string)
    requires profession == "Patient - Kinésithérapie"
    ensures !Contains(Lower(profession), Lower("mar"))
  {
    LacksLetterMisses(profession, "mar", 'm');
  }

  /** The column titles of the export. */
  const CsvHeaders: seq<string> := ["ID", "Client", "Profession", "Montant", "Statut", "Créé le"]

  /** The fields of one exported case, one per column; the three the
      application generates (amount, status label, date) hold no comma and no
      line break. */
  function CsvFields(c: Case): (f: seq<string>)
    ensures |f| == |CsvHeaders|
    ensures forall i :: 3 <= i < |f| ==> ',' !in f[i] && '\n' !in f[i]
  {
    GeneratedFieldsPlain(c, ',');
    GeneratedFieldsPlain(c, '\n');
    [c.id, c.debtor.name, c.debtor.profession, CentsText(c.invoice.amount), c.status.Label(), IsoDate(c.createdAt)]
  }

  /** The header line of the export: the column titles joined by commas. */
  function HeaderLine(): (r: string)
    ensures r == "ID" + "," + "Client" + "," + "Profession" + "," + "Montant" + "," + "Statut" + "," + "Créé le"
  {
    JoinSix("ID", "Client", "Profession", "Montant", "Statut", "Créé le", ',');
    Join(CsvHeaders, ',')
  }

  /** The line of one exported case: its fields joined without any quoting,
      in the column order id, name, profession, amount, status, creation date. */
  function RowLine(c: Case): (r: string)
    ensures r == c.id + "," + c.debtor.name + "," + c.debtor.profession + "," + CentsText(c.invoice.amount)
      + "," + c.status.Label() + "," + IsoDate(c.createdAt)
  {
    JoinSix(c.id, c.debtor.name, c.debtor.profession, CentsText(c.invoice.amount), c.status.Label(),
            IsoDate(c.createdAt), ',');
    Join(CsvFields(c), ',')
  }

  /** One line per case, in order. */
  function RowLines(filtered: seq<Case>): (lines: seq<string>)
    ensures |lines| == |filtered|
    ensures forall i :: 0 <= i < |filtered| ==> lines[i] == RowLine(filtered[i])
  {
    if filtered == [] then [] else [RowLine(filtered[0])] + RowLines(filtered[1..])
  }

  /** `[headers, ...rows].map(e => e.join(","))`: the header line, then one
      line per case in order. */
  function CsvLines(filtered: seq<Case>): (lines: seq<string>)
    ensures |lines| == |filtered| + 1
    ensures forall i :: 0 <= i < |filtered| ==> lines[i + 1] == RowLine(filtered[i])
  {
    [HeaderLine()] + RowLines(filtered)
  }

  /** The export starts with the header line, whatever the cases. */
  lemma CsvLinesStartWithHeader(filtered: seq<Case>)
    ensures CsvLines(filtered)[0] == HeaderLine()
  {
  }

  /** `csvContent`: the lines joined by newlines, starting with the header
      line (just the header when no case is exported). */
  function CsvContent(filtered: seq<Case>): (r: string)
    ensures IsPrefix(HeaderLine(), r)
    ensures filtered == [] ==> r == HeaderLine()
  {
    CsvLinesStartWithHeader(filtered);
    Join(CsvLines(filtered), '\n')
  }

  /** The export contains the line of every case it was given. */
  lemma CsvContentHoldsRows(filtered: seq<Case>, i: int)
    requires 0 <= i < |filtered|
    ensures Contains(CsvContent(filtered), RowLine(filtered[i]))
  {
    var lines := CsvLines(filtered);
    JoinContainsEach(lines, '\n', i + 1);
    assert lines[i + 1] == RowLine(filtered[i]);
  }

  /** The generated fields (amount, status label, date) hold no comma and no newline. */
  lemma GeneratedFieldsPlain(c: Case, ch: char)
    requires ch == ',' || ch == '\n'
    ensures ch !in CentsText(c.invoice.amount) && ch !in c.status.Label() && ch !in IsoDate(c.createdAt)
  {
    CentsTextPlain(c.invoice.amount, ch);
    LabelPlain(c.status, ch);
  }

  /** A row has five separating commas plus every comma inside the id, the
      name and the profession; a reader splitting on commas therefore sees
      more than six fields as soon as one of those holds a comma. */
  lemma CsvRowCommas(c: Case)
    ensures Occurrences(RowLine(c), ',') ==
      5 + Occurrences(c.id, ',') + Occurrences(c.debtor.name, ',') + Occurrences(c.debtor.profession, ',')
  {
    var f := CsvFields(c);
    JoinOccurrences(f, ',');
    GeneratedFieldsPlain(c, ',');
    TotalOccurrencesSix(f[0], f[1], f[2], f[3], f[4], f[5], ',');
    assert f == [f[0], f[1], f[2], f[3], f[4], f[5]];
  }

  /** Without newlines inside the fields, the export has one line per case
      after the header line. */
  lemma CsvContentLineBreaks(filtered: seq<Case>)
    requires forall c :: c in filtered ==>
      '\n' !in c.id && '\n' !in c.debtor.name && '\n' !in c.debtor.profession
    ensures Occurrences(CsvContent(filtered), '\n') == |filtered|
  {
    var lines := CsvLines(filtered);
    LinesWithoutBreaks(filtered);
    TotalOccurrencesZero(lines, '\n');
    JoinOccurrences(lines, '\n');
  }

  lemma LinesWithoutBreaks(filtered: seq<Case>)
    requires forall c :: c in filtered ==>
      '\n' !in c.id && '\n' !in c.debtor.name && '\n' !in c.debtor.profession
    ensures forall i :: 0 <= i < |CsvLines(filtered)| ==> '\n' !in CsvLines(filtered)[i]
  {
    var lines := CsvLines(filtered);
    forall i | 0 <= i < |lines|
      ensures '\n' !in lines[i]
    {
      if i == 0 {
        CsvLinesStartWithHeader(filtered);
        HeaderWithoutBreaks();
      } else {
        assert filtered[i - 1] in filtered;
        RowWithoutBreaks(filtered[i - 1]);
      }
    }
  }

  lemma HeaderWithoutBreaks()
    ensures '\n' !in HeaderLine()
  {
    JoinAvoids(CsvHeaders, ',', '\n');
  }

  lemma RowWithoutBreaks(c: Case)
    requires '\n' !in c.id && '\n' !in c.debtor.name && '\n' !in c.debtor.profession
    ensures '\n' !in RowLine(c)
  {
    var f := CsvFields(c);
    assert f == [c.id, c.debtor.name, c.debtor.profession, f[3], f[4], f[5]];
    JoinAvoids(f, ',', '\n');
  }
}
