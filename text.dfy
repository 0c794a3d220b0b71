/** String helpers that stand in for the JavaScript string operations the
    application relies on: `includes`, `toLowerCase`, `join` and the
    rendering of numbers and dates as text. */
module Text {
  import opened Calendar

  /** True when `sub` is a prefix of `s`. */
  predicate IsPrefix(sub: string, s: string) {
    |sub| <= |s| && s[..|sub|] == sub
  }

  /** `sub` occurs in `s` starting at position `i`. */
  predicate OccursAt(s: string, sub: string, i: int) {
    0 <= i <= |s| - |sub| && s[i..i + |sub|] == sub
  }

  /** `s.includes(sub)`: `sub` occurs somewhere in `s`. */
  predicate Contains(s: string, sub: string)
    ensures Contains(s, sub) ==> |sub| <= |s|
    ensures IsPrefix(sub, s) ==> Contains(s, sub)
    ensures sub == "" ==> Contains(s, sub)
  {
    assert IsPrefix(sub, s) ==> OccursAt(s, sub, 0);
    exists i :: 0 <= i <= |s| - |sub| && OccursAt(s, sub, i)
  }

  /** An occurrence inside the second part of a concatenation is an occurrence in the whole. */
  lemma ContainsInSuffixPart(a: string, b: string, sub: string)
    requires Contains(b, sub)
    ensures Contains(a + b, sub)
  {
    var i :| 0 <= i <= |b| - |sub| && OccursAt(b, sub, i);
    assert (a + b)[|a| + i..|a| + i + |sub|] == b[i..i + |sub|];
    assert OccursAt(a + b, sub, |a| + i);
  }

  /** A string that lacks one of the characters of `sub` cannot contain `sub`. */
  lemma MissingCharNotContained(s: string, sub: string, ch: char)
    requires ch in sub && ch !in s
    ensures !Contains(s, sub)
  {
    var k :| 0 <= k < |sub| && sub[k] == ch;
    forall i | 0 <= i <= |s| - |sub|
      ensures !OccursAt(s, sub, i)
    {
      assert s[i..i + |sub|][k] == s[i + k];
      assert s[i + k] in s;
    }
  }

  /** `toLowerCase` on one character: the ASCII capitals A-Z and the Latin-1
      capitals (U+00C0 to U+00DE except the multiplication sign) are folded. */
  function LowerChar(c: char): (r: char)
    ensures 'A' <= c <= 'Z' ==> r == (c as int + 32) as char
    ensures r != c ==> 'A' <= c <= 'Z' || 'À' <= c <= 'Þ'
    ensures 'a' <= r <= 'z' ==> c == r || c == (r as int - 32) as char
  {
    if 'A' <= c <= 'Z' || ('À' <= c <= 'Þ' && c != '×') then (c as int + 32) as char else c
  }

  /** `s.toLowerCase()`, character by character. */
  function Lower(s: string): (r: string)
    ensures |r| == |s|
    ensures forall i :: 0 <= i < |s| ==> r[i] == LowerChar(s[i])
  {
    seq(|s|, i requires 0 <= i < |s| => LowerChar(s[i]))
  }

  /** A lowered character is already lowered: the capitals fold onto small
      letters, which fold onto themselves. */
  lemma LowerCharTwice(c: char)
    ensures LowerChar(LowerChar(c)) == LowerChar(c)
  {
  }

  /** Lowering a lowered text changes nothing. */
  lemma LowerTwice(s: string)
    ensures Lower(Lower(s)) == Lower(s)
  {
    forall i | 0 <= i < |s|
      ensures Lower(Lower(s))[i] == Lower(s)[i]
    {
      LowerCharTwice(s[i]);
    }
  }

  /** Lowering commutes with concatenation. */
  lemma LowerAppend(a: string, b: string)
    ensures Lower(a + b) == Lower(a) + Lower(b)
  {
    assert forall i :: 0 <= i < |a + b| ==> Lower(a + b)[i] == (Lower(a) + Lower(b))[i];
  }

  /** If `p` occurs in `s`, its lowered form occurs in the lowered `s`. */
  lemma ContainsLower(s: string, p: string)
    ensures Contains(s, p) ==> Contains(Lower(s), Lower(p))
  {
    if Contains(s, p) {
      var i :| 0 <= i <= |s| - |p| && OccursAt(s, p, i);
      assert Lower(s)[i..i + |p|] == Lower(p);
      assert OccursAt(Lower(s), Lower(p), i);
    }
  }

  /** A character that no character of `s` lowers to is absent from `Lower(s)`. */
  lemma LowerAvoids(s: string, ch: char)
    requires forall c :: c in s ==> LowerChar(c) != ch
    ensures ch !in Lower(s)
  {
    forall i | 0 <= i < |s|
      ensures Lower(s)[i] != ch
    {
      assert s[i] in s;
    }
  }

  /** A small letter is absent from `Lower(s)` when `s` lacks both its cases. */
  lemma LowerAvoidsLetter(s: string, ch: char)
    requires 'a' <= ch <= 'z' && ch !in s && (ch as int - 32) as char !in s
    ensures ch !in Lower(s)
  {
    LowerAvoids(s, ch);
  }

  /** A text lacking both cases of a small letter of the term does not match it. */
  lemma LacksLetterMisses(text: string, term: string, ch: char)
    requires 'a' <= ch <= 'z' && ch in term && ch !in text && (ch as int - 32) as char !in text
    requires Lower(term) == term
    ensures !Contains(Lower(text), Lower(term))
  {
    LowerAvoidsLetter(text, ch);
    MissingCharNotContained(Lower(text), term, ch);
  }

  /** A text starting with a capitalised word contains that word lowered. */
  lemma LowerStartsWith(text: string, word: string, lowered: string)
    requires IsPrefix(word, text) && |lowered| == |word|
    requires forall i :: 0 <= i < |word| ==> LowerChar(word[i]) == lowered[i]
    ensures Contains(Lower(text), lowered)
  {
    assert Lower(text)[..|word|] == lowered;
    assert OccursAt(Lower(text), lowered, 0);
  }

  /** Number of occurrences of the character `c` in `s`. */
  function Occurrences(s: string, c: char): (n: nat)
    ensures n <= |s|
    ensures n == 0 <==> c !in s
  {
    if s == [] then 0 else (if s[0] == c then 1 else 0) + Occurrences(s[1..], c)
  }

  lemma {:induction false} OccurrencesAppend(a: string, b: string, c: char)
    ensures Occurrences(a + b, c) == Occurrences(a, c) + Occurrences(b, c)
  {
    if a == [] {
      assert a + b == b;
    } else {
      assert (a + b)[1..] == a[1..] + b;
      OccurrencesAppend(a[1..], b, c);
    }
  }

  /** `xs.join(sep)` for a one-character separator. */
  function Join(xs: seq<string>, sep: char): (r: string)
    ensures |xs| == 0 ==> r == ""
    ensures |xs| == 1 ==> r == xs[0]
    ensures |xs| > 0 ==> IsPrefix(xs[0], r)
    ensures |xs| > 1 ==> sep in r
  {
    if |xs| == 0 then ""
    else if |xs| == 1 then xs[0]
    else xs[0] + [sep] + Join(xs[1..], sep)
  }

  /** Six texts joined: each one, then the separator, in order. */
  lemma JoinSix(a: string, b: string, c: string, d: string, e: string, f: string, sep: char)
    ensures Join([a, b, c, d, e, f], sep) == a + [sep] + b + [sep] + c + [sep] + d + [sep] + e + [sep] + f
  {
    assert [e, f][1..] == [f];
    var j5 := Join([e, f], sep);
    assert j5 == e + [sep] + f;
    assert [d, e, f][1..] == [e, f];
    var j4 := Join([d, e, f], sep);
    assert j4 == d + [sep] + j5;
    assert [c, d, e, f][1..] == [d, e, f];
    var j3 := Join([c, d, e, f], sep);
    assert j3 == c + [sep] + j4;
    assert [b, c, d, e, f][1..] == [c, d, e, f];
    var j2 := Join([b, c, d, e, f], sep);
    assert j2 == b + [sep] + j3;
    assert [a, b, c, d, e, f][1..] == [b, c, d, e, f];
    assert Join([a, b, c, d, e, f], sep) == a + [sep] + j2;
  }

  /** Total number of occurrences of `c` over all the strings of `xs`. */
  function TotalOccurrences(xs: seq<string>, c: char): nat {
    if xs == [] then 0 else Occurrences(xs[0], c) + TotalOccurrences(xs[1..], c)
  }

  /** Joining `k` strings adds exactly `k - 1` separators to those already inside them. */
  lemma {:induction false} JoinOccurrences(xs: seq<string>, sep: char)
    requires |xs| > 0
    ensures Occurrences(Join(xs, sep), sep) == |xs| - 1 + TotalOccurrences(xs, sep)
  {
    if |xs| == 1 {
      assert xs[1..] == [];
    } else {
      JoinOccurrences(xs[1..], sep);
      OccurrencesAppend(xs[0] + [sep], Join(xs[1..], sep), sep);
      OccurrencesAppend(xs[0], [sep], sep);
      assert Occurrences([sep], sep) == 1;
    }
  }

  /** A character that is neither the separator nor inside any string is not in the join. */
  lemma {:induction false} JoinAvoids(xs: seq<string>, sep: char, ch: char)
    requires ch != sep
    requires forall i :: 0 <= i < |xs| ==> ch !in xs[i]
    ensures ch !in Join(xs, sep)
  {
    if |xs| > 1 {
      JoinAvoids(xs[1..], sep, ch);
      assert Join(xs, sep) == xs[0] + [sep] + Join(xs[1..], sep);
    }
  }

  /** Strings that all lack `c` hold no occurrence of it in total. */
  lemma {:induction false} TotalOccurrencesZero(xs: seq<string>, c: char)
    requires forall i :: 0 <= i < |xs| ==> c !in xs[i]
    ensures TotalOccurrences(xs, c) == 0
  {
    if xs != [] {
      TotalOccurrencesZero(xs[1..], c);
    }
  }

  lemma TotalOccurrencesCons(x: string, xs: seq<string>, c: char)
    ensures TotalOccurrences([x] + xs, c) == Occurrences(x, c) + TotalOccurrences(xs, c)
  {
    assert ([x] + xs)[1..] == xs;
  }

  /** The total over a list of six strings, spelled out. */
  lemma TotalOccurrencesSix(a: string, b: string, d: string, e: string, f: string, g: string, c: char)
    ensures TotalOccurrences([a, b, d, e, f, g], c) ==
      Occurrences(a, c) + Occurrences(b, c) + Occurrences(d, c) + Occurrences(e, c) + Occurrences(f, c) + Occurrences(g, c)
  {
    TotalOccurrencesCons(g, [], c);
    TotalOccurrencesCons(f, [g], c);
    TotalOccurrencesCons(e, [f, g], c);
    TotalOccurrencesCons(d, [e, f, g], c);
    TotalOccurrencesCons(b, [d, e, f, g], c);
    TotalOccurrencesCons(a, [b, d, e, f, g], c);
    assert [a] + [b, d, e, f, g] == [a, b, d, e, f, g];
    assert [b] + [d, e, f, g] == [b, d, e, f, g];
    assert [d] + [e, f, g] == [d, e, f, g];
    assert [e] + [f, g] == [e, f, g];
    assert [f] + [g] == [f, g];
    assert [g] + [] == [g];
  }

  /** Every joined string occurs in the join. */
  lemma {:induction false} JoinContainsEach(xs: seq<string>, sep: char, k: int)
    requires 0 <= k < |xs|
    ensures Contains(Join(xs, sep), xs[k])
  {
    if k == 0 {
      assert OccursAt(Join(xs, sep), xs[0], 0);
    } else {
      JoinContainsEach(xs[1..], sep, k - 1);
      ContainsInSuffixPart(xs[0] + [sep], Join(xs[1..], sep), xs[k]);
    }
  }

  /** The join of a non-empty list whose first string is non-empty is non-empty. */
  lemma JoinNonEmpty(xs: seq<string>, sep: char)
    requires |xs| > 0 && xs[0] != ""
    ensures Join(xs, sep) != ""
  {
  }

  /** The character for one decimal digit. */
  function DigitChar(d: nat): (c: char)
    requires d < 10
    ensures '0' <= c <= '9'
  {
    ('0' as int + d) as char
  }

  predicate AllDigits(s: string) {
    forall i :: 0 <= i < |s| ==> '0' <= s[i] <= '9'
  }

  /** The decimal text of a natural number, without leading zeros. */
  function NatText(n: nat): (s: string)
    ensures |s| > 0 && AllDigits(s)
    decreases n
  {
    if n < 10 then [DigitChar(n)] else NatText(n / 10) + [DigitChar(n % 10)]
  }

  /** The value of a string of decimal digits: the inverse of `NatText`. */
  function DigitsValue(s: string): nat
    requires AllDigits(s)
  {
    if s == [] then 0 else 10 * DigitsValue(s[..|s| - 1]) + (s[|s| - 1] as int - '0' as int)
  }

  lemma {:induction false} NatTextRoundTrip(n: nat)
    ensures DigitsValue(NatText(n)) == n
  {
    if n >= 10 {
      var s := NatText(n);
      assert s[..|s| - 1] == NatText(n / 10);
      NatTextRoundTrip(n / 10);
    }
  }

  function Pow10(w: nat): (p: nat)
    ensures p >= 1
  {
    if w == 0 then 1 else 10 * Pow10(w - 1)
  }

  /** A number below `10^w` has at most `w` digits. */
  lemma {:induction false} NatTextShort(n: nat, w: nat)
    requires 1 <= w && n < Pow10(w)
    ensures |NatText(n)| <= w
  {
    if n >= 10 {
      NatTextShort(n / 10, w - 1);
    }
  }

  /** `k` zeros read as 0. */
  lemma {:induction false} ZerosValue(k: nat)
    ensures AllDigits(seq(k, _ => '0')) && DigitsValue(seq(k, _ => '0')) == 0
  {
    if k > 0 {
      assert seq(k, _ => '0')[..k - 1] == seq(k - 1, _ => '0');
      ZerosValue(k - 1);
    }
  }

  /** Leading zeros do not change the value of a digit string. */
  lemma {:induction false} LeadingZeros(k: nat, t: string)
    requires AllDigits(t)
    ensures AllDigits(seq(k, _ => '0') + t) && DigitsValue(seq(k, _ => '0') + t) == DigitsValue(t)
  {
    var z := seq(k, _ => '0');
    if t == [] {
      assert z + t == z;
      ZerosValue(k);
    } else {
      var u := z + t;
      assert u[..|u| - 1] == z + t[..|t| - 1];
      LeadingZeros(k, t[..|t| - 1]);
    }
  }

  /** A number below `10^w`, padded to `w` digits, takes exactly `w` and reads back as itself. */
  lemma ZeroPaddedReadsBack(x: nat, w: nat)
    requires 1 <= w && x < Pow10(w)
    ensures |ZeroPadded(x, w)| == w && DigitsValue(ZeroPadded(x, w)) == x
  {
    var t := NatText(x);
    NatTextShort(x, w);
    NatTextRoundTrip(x);
    if |t| < w {
      LeadingZeros(w - |t|, t);
      assert ZeroPadded(x, w) == seq(w - |t|, _ => '0') + t;
    } else {
      assert ZeroPadded(x, w) == t;
    }
  }

  /** The decimal digits of `x`, padded with zeros on the left to at least `width` characters. */
  function ZeroPadded(x: nat, width: nat): (s: string)
    ensures |s| >= width && AllDigits(s)
  {
    var t := NatText(x);
    if |t| >= width then t else seq(width - |t|, _ => '0') + t
  }

  /** The digits after the decimal point of a number of cents below 100,
      trailing zeros dropped. */
  function FractionText(frac: nat): (s: string)
    requires frac < 100
    ensures AllDigits(s)
  {
    if frac == 0 then ""
    else if frac % 10 == 0 then [DigitChar(frac / 10)]
    else [DigitChar(frac / 10), DigitChar(frac % 10)]
  }

  /** The text of a non-negative number of cents: the integer part, then the
      fraction with trailing zeros dropped, after a point when there is one. */
  function UnsignedText(m: nat): (s: string)
    ensures |s| > 0 && '0' <= s[0] <= '9'
  {
    var frac := FractionText(m % 100);
    NatText(m / 100) + (if frac == "" then "" else "." + frac)
  }

  /** JavaScript's `Number.prototype.toString` for an amount held as a whole
      number of cents: a minus sign for a negative amount, then the text of
      its magnitude (`12050` gives "120.5", `45000` gives "450"). */
  function CentsText(cents: int): (s: string)
    ensures |s| > 0
    ensures s[0] == '-' <==> cents < 0
    ensures forall i :: 0 < i < |s| ==> s[i] == '.' || '0' <= s[i] <= '9'
    ensures forall i, j :: 0 <= i < j < |s| && s[i] == '.' ==> s[j] != '.'
  {
    UnsignedTextChars(if cents < 0 then -cents else cents);
    if cents < 0 then "-" + UnsignedText(-cents) else UnsignedText(cents)
  }

  /** `YYYY-MM-DD`: four-digit year, two-digit month and day. */
  function CivilText(date: CivilDate): (s: string)
    ensures |s| >= 10
  {
    YearText(date.year) + "-" + ZeroPadded(if date.month < 0 then 0 else date.month, 2)
      + "-" + ZeroPadded(if date.day < 0 then 0 else date.day, 2)
  }

  /** The year, on at least four digits; this is the form `toISOString` uses
      for the years 0 to 9999, the only years the application meets. */
  function YearText(year: int): (s: string)
    ensures |s| >= 4
  {
    if year < 0 then "-" + ZeroPadded(-year, 4) else ZeroPadded(year, 4)
  }

  /** `s` is `YYYY-MM-DD` for the date `d`: ten characters, dashes at
      positions 4 and 7, and digit groups reading as the year, the month and
      the day. */
  predicate IsoText(s: string, d: CivilDate) {
    && |s| == 10 && s[4] == '-' && s[7] == '-'
    && AllDigits(s[..4]) && AllDigits(s[5..7]) && AllDigits(s[8..])
    && DigitsValue(s[..4]) == d.year && DigitsValue(s[5..7]) == d.month && DigitsValue(s[8..]) == d.day
  }

  /** A date of the years 0 to 9999 is written as `YYYY-MM-DD`. */
  lemma CivilTextReadsBack(date: CivilDate)
    requires Valid(date) && 0 <= date.year <= 9999
    ensures IsoText(CivilText(date), date)
  {
    var y, m, d := ZeroPadded(date.year, 4), ZeroPadded(date.month, 2), ZeroPadded(date.day, 2);
    assert Pow10(2) == 100 && Pow10(4) == 10000;
    ZeroPaddedReadsBack(date.year, 4);
    ZeroPaddedReadsBack(date.month, 2);
    ZeroPaddedReadsBack(date.day, 2);
    assert CivilText(date) == y + "-" + m + "-" + d;
    DashedParts(y, m, d);
  }

  /** The three groups of `y-m-d` with groups of 4, 2 and 2 characters sit at fixed positions. */
  lemma DashedParts(y: string, m: string, d: string)
    requires |y| == 4 && |m| == 2 && |d| == 2
    ensures var s := y + "-" + m + "-" + d;
      |s| == 10 && s[4] == '-' && s[7] == '-' && s[..4] == y && s[5..7] == m && s[8..] == d
  {
  }

  /** `toISOString().split('T')[0]` for the UTC midnight that starts day
      number `day`: for the years 0 to 9999, `YYYY-MM-DD` for the calendar
      date of that day. Outside that range `toISOString` writes a signed
      six-digit year, which is not modelled. */
  function IsoDate(day: int): (s: string)
    ensures |s| >= 10 && DateChars(s)
    ensures ',' !in s && '\n' !in s
    ensures 0 <= CivilFromDays(day).year <= 9999 ==> IsoText(s, CivilFromDays(day))
  {
    var date := CivilFromDays(day);
    CivilTextChars(date);
    var s := CivilText(date);
    assert forall i :: 0 <= i < |s| ==> s[i] != ',' && s[i] != '\n';
    if 0 <= date.year <= 9999 then CivilTextReadsBack(date); s else s
  }

  /** Two days of the years 0 to 9999 with the same ISO text are the same day. */
  lemma IsoDateInjective(a: int, b: int)
    requires 0 <= CivilFromDays(a).year <= 9999 && 0 <= CivilFromDays(b).year <= 9999
    requires IsoDate(a) == IsoDate(b)
    ensures a == b
  {
    DaysFromCivilInjective(CivilFromDays(a), CivilFromDays(b));
  }

  /** Made of digits and minus signs only. */
  predicate DateChars(s: string) {
    forall i :: 0 <= i < |s| ==> s[i] == '-' || '0' <= s[i] <= '9'
  }

  lemma DateCharsAppend(a: string, b: string)
    requires DateChars(a) && DateChars(b)
    ensures DateChars(a + b)
  {
  }

  lemma DigitsAreDateChars(s: string)
    requires AllDigits(s)
    ensures DateChars(s)
  {
  }

  /** A rendered date holds digits and minus signs only. */
  lemma CivilTextChars(date: CivilDate)
    ensures DateChars(CivilText(date))
  {
    var year := YearText(date.year);
    var month := ZeroPadded(if date.month < 0 then 0 else date.month, 2);
    var day := ZeroPadded(if date.day < 0 then 0 else date.day, 2);
    DigitsAreDateChars(month);
    DigitsAreDateChars(day);
    if date.year < 0 {
      DigitsAreDateChars(ZeroPadded(-date.year, 4));
      DateCharsAppend("-", ZeroPadded(-date.year, 4));
    } else {
      DigitsAreDateChars(ZeroPadded(date.year, 4));
    }
    DateCharsAppend(year, "-");
    DateCharsAppend(year + "-", month);
    DateCharsAppend(year + "-" + month, "-");
    DateCharsAppend(year + "-" + month + "-", day);
  }

  /** Rendered amounts hold neither a comma nor a newline. */
  lemma CentsTextPlain(cents: int, ch: char)
    requires ch == ',' || ch == '\n'
    ensures ch !in CentsText(cents)
  {
    var m: nat := if cents < 0 then -cents else cents;
    UnsignedTextChars(m);
    var s := CentsText(cents);
    assert forall i :: 0 <= i < |s| ==> s[i] != ch;
  }

  /** The text of an unsigned amount is made of digits and points only. */
  lemma UnsignedTextChars(m: nat)
    ensures forall i :: 0 <= i < |UnsignedText(m)| ==> UnsignedText(m)[i] == '.' || '0' <= UnsignedText(m)[i] <= '9'
  {
  }

}
