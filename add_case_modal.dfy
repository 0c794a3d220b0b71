/** The new-case form of `components/AddCaseModal.tsx`: its initial state and
    the defaulting `handleScanComplete` applies to what the invoice scanner
    extracted. */
module AddCaseModal {
  import opened Types
  import opened Text
  import Store

  /** `PROFESSION_OPTIONS` of `constants.tsx`, in order. */
  const ProfessionOptions: seq<string> := [
    "Médecin", "Avocat", "Kinésithérapeute", "Psychologue",
    "Consultant", "Architecte", "Dentiste", "Expert-comptable"]

  /** The form as the modal opens: empty fields, the first profession. Its
      amount reads as no number at all. */
  function InitialForm(): (f: CaseForm)
    ensures f.name == "" && f.email == "" && f.description == "" && f.invoiceId == ""
    ensures f.profession == ProfessionOptions[0] == "Médecin"
    ensures f.amount == "" && ParseCents(f.amount).None?
  {
    CaseForm("", "", "", ProfessionOptions[0], "", "")
  }

  /** What the scanner returns: any field may be missing. The amount is a
      number, held in cents. */
  datatype ScanData = ScanData(
    name: Option<string>, email: Option<string>, amount: Option<int>,
    profession: Option<string>, description: Option<string>, invoiceId: Option<string>)

  /** `value || fallback`: a missing or empty string is replaced. */
  function OrElse(value: Option<string>, fallback: string): (r: string)
    ensures value.Some? && value.value != "" ==> r == value.value
    ensures value.None? || value.value == "" ==> r == fallback
  {
    if value.Some? && value.value != "" then value.value else fallback
  }

  /** `amount ? amount.toString() : ''`: a missing amount and the amount 0
      are falsy and give the empty string; any other amount its decimal text. */
  function AmountText(amount: Option<int>): (r: string)
    ensures r == "" <==> amount.None? || amount.value == 0
    ensures amount.Some? && amount.value != 0 ==> r == CentsText(amount.value)
  {
    if amount.Some? && amount.value != 0 then CentsText(amount.value) else ""
  }

  /** `handleScanComplete`: every field of the form is set, from the scan or by default. */
  function ScanComplete(data: ScanData): (f: CaseForm)
    ensures f.name == OrElse(data.name, "") && f.email == OrElse(data.email, "")
    ensures f.amount == AmountText(data.amount)
    ensures f.profession == OrElse(data.profession, ProfessionOptions[0])
    ensures f.description == OrElse(data.description, "") && f.invoiceId == OrElse(data.invoiceId, "")
  {
    CaseForm(
      name := OrElse(data.name, ""),
      email := OrElse(data.email, ""),
      amount := AmountText(data.amount),
      profession := OrElse(data.profession, ProfessionOptions[0]),
      description := OrElse(data.description, ""),
      invoiceId := OrElse(data.invoiceId, ""))
  }

  /** A scan that found nothing usable leaves the form as it was opened. */
  lemma EmptyScanGivesInitialForm(data: ScanData)
    requires data.name.None? || data.name.value == ""
    requires data.email.None? || data.email.value == ""
    requires data.amount.None? || data.amount.value == 0
    requires data.profession.None? || data.profession.value == ""
    requires data.description.None? || data.description.value == ""
    requires data.invoiceId.None? || data.invoiceId.value == ""
    ensures ScanComplete(data) == InitialForm()
  {
  }

  /** Text the scanner found is taken over unchanged. */
  lemma ScannedTextCopied(data: ScanData)
    ensures data.name.Some? && data.name.value != "" ==> ScanComplete(data).name == data.name.value
    ensures data.email.Some? && data.email.value != "" ==> ScanComplete(data).email == data.email.value
    ensures data.profession.Some? && data.profession.value != "" ==>
      ScanComplete(data).profession == data.profession.value
    ensures data.description.Some? && data.description.value != "" ==>
      ScanComplete(data).description == data.description.value
    ensures data.invoiceId.Some? && data.invoiceId.value != "" ==>
      ScanComplete(data).invoiceId == data.invoiceId.value
  {
  }

  /** Without a scanned profession the case is filed as "Client - Médecin". */
  lemma DefaultProfessionStored(data: ScanData)
    requires data.profession.None? || data.profession.value == ""
    ensures Store.StoredProfession(ScanComplete(data).profession) == "Client - Médecin"
  {
    MissingCharNotContained("Médecin", "Patient", 'P');
  }

  /** The value of one decimal digit character. */
  function DigitValue(c: char): int {
    c as int - '0' as int
  }

  /** The position of the first '.', or the length when there is none. */
  function DotIndex(s: string): (i: nat)
    ensures i <= |s|
    ensures i < |s| ==> s[i] == '.'
    ensures forall j :: 0 <= j < i ==> s[j] != '.'
  {
    if s == [] then 0 else if s[0] == '.' then 0 else 1 + DotIndex(s[1..])
  }

  /** The cents an unsigned amount text stands for: digits, then optionally a
      point and one or two digits. */
  function UnsignedCents(s: string): (r: Option<nat>)
    ensures r.Some? ==> |s| > 0 && '0' <= s[0] <= '9'
  {
    var i := DotIndex(s);
    var whole := s[..i];
    if whole == [] || !AllDigits(whole) then None
    else if i == |s| then Some(100 * DigitsValue(whole))
    else
      var frac := s[i + 1..];
      if |frac| == 0 || |frac| > 2 || !AllDigits(frac) then None
      else if |frac| == 1 then Some(100 * DigitsValue(whole) + 10 * DigitValue(frac[0]))
      else Some(100 * DigitsValue(whole) + 10 * DigitValue(frac[0]) + DigitValue(frac[1]))
  }

  /** `parseFloat` on amount texts of at most two decimals, in cents; `None`
      for any other text. A number is read only from a text that starts with
      a digit, or with a minus sign and a digit, and only the minus sign
      makes it negative. */
  function ParseCents(s: string): (r: Option<int>)
    ensures r.Some? ==> |s| > 0 && ('0' <= s[0] <= '9' || (s[0] == '-' && |s| > 1 && '0' <= s[1] <= '9'))
    ensures r.Some? ==> (r.value < 0 ==> s[0] == '-') && (s[0] != '-' ==> r.value >= 0)
  {
    if |s| > 0 && s[0] == '-' then Negated(UnsignedCents(s[1..])) else Widened(UnsignedCents(s))
  }

  function Negated(r: Option<nat>): Option<int> {
    if r.Some? then Some(0 - r.value) else None
  }

  function Widened(r: Option<nat>): Option<int> {
    if r.Some? then Some(r.value) else None
  }

  /** The first point of digits followed by a tail that starts with a point is
      where the digits end. */
  lemma DotIndexAfterDigits(digits: string, tail: string)
    requires AllDigits(digits)
    requires tail == [] || tail[0] == '.'
    ensures DotIndex(digits + tail) == |digits|
  {
    var s := digits + tail;
    assert forall j :: 0 <= j < |digits| ==> s[j] == digits[j];
    if tail != [] {
      assert s[|digits|] == '.';
    }
  }

  /** The fraction digits read back as the fraction they were made from. */
  lemma FractionRoundTrip(frac: nat)
    requires 0 < frac < 100
    ensures var t := FractionText(frac);
      && 1 <= |t| <= 2
      && (|t| == 1 ==> 10 * DigitValue(t[0]) == frac)
      && (|t| == 2 ==> 10 * DigitValue(t[0]) + DigitValue(t[1]) == frac)
  {
  }

  /** Reading back the text of a non-negative amount. */
  lemma UnsignedRoundTrip(m: nat)
    ensures UnsignedCents(UnsignedText(m)) == Some(m)
  {
    var frac := FractionText(m % 100);
    var whole := NatText(m / 100);
    var tail := if frac == "" then "" else "." + frac;
    var s := whole + tail;
    assert s == UnsignedText(m);
    DotIndexAfterDigits(whole, tail);
    assert s[..|whole|] == whole;
    NatTextRoundTrip(m / 100);
    if frac != "" {
      FractionRoundTrip(m % 100);
      assert s[|whole| + 1..] == frac;
    }
  }

  /** `parseFloat(String(x))` gives back `x`: the amount text of the form reads
      back as the scanned amount. */
  lemma CentsTextRoundTrip(cents: int)
    ensures ParseCents(CentsText(cents)) == Some(cents)
  {
    if cents < 0 {
      NegativeRoundTrip(cents);
    } else {
      NonNegativeRoundTrip(cents);
    }
  }

  lemma NonNegativeRoundTrip(cents: int)
    requires cents >= 0
    ensures ParseCents(CentsText(cents)) == Some(cents)
  {
    var unsigned := UnsignedText(cents);
    assert CentsText(cents) == unsigned;
    UnsignedRoundTrip(cents);
    assert ParseCents(unsigned) == Widened(UnsignedCents(unsigned));
  }

  lemma NegativeRoundTrip(cents: int)
    requires cents < 0
    ensures ParseCents(CentsText(cents)) == Some(cents)
  {
    var m: nat := -cents;
    assert CentsText(cents) == "-" + UnsignedText(m);
    NegatedTextRoundTrip(m);
  }

  /** A minus sign, then the text of an unsigned amount, reads as the negated amount. */
  lemma NegatedTextRoundTrip(m: nat)
    ensures ParseCents("-" + UnsignedText(m)) == Some(0 - m)
  {
    var text := "-" + UnsignedText(m);
    assert text[1..] == UnsignedText(m);
    UnsignedRoundTrip(m);
  }

  /** A scanned, non-zero amount reaches `handleAddCase` unchanged. */
  lemma ScannedAmountSurvives(data: ScanData)
    requires data.amount.Some? && data.amount.value != 0
    ensures ParseCents(ScanComplete(data).amount) == data.amount
  {
    CentsTextRoundTrip(data.amount.value);
  }
}
