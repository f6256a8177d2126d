/** The nine field checks of `Validator` (main.py), one predicate per field,
    each written as a direct recogniser over the field's text.

    The regular expressions they stand for are transcribed in `Patterns`, which
    proves each recogniser equivalent to `re.match` on its pattern.
 */
module Validator {
  import opened CharClasses
  import opened Decimal
  import opened Regex

  /** Occupations rejected by name (`__occupation_invalid`). */
  const OccupationBlacklist: seq<string> :=
    ["Монах", "Паладин", "Маг", "Вышивальщица", "Маникюрша", "Цветочница"]

  /** Political views rejected by name (`__political_views_invalid`). */
  const PoliticalViewsBlacklist: seq<string> :=
    [ "согласен с действиями Гарроша Адского Крика на посту вождя Орды",
      "патриот независимой Темерии", "поддерживает Братьев Бури",
      "поддерживает Имперский легион" ]

  /** Worldviews rejected by name (`__worldview_invalid`). */
  const WorldviewBlacklist: seq<string> :=
    [ "Культ проклятых", "Культ Механикус", "Храм Трибунала", "Светское гачимученничество",
      "культ богини Мелитэле", "Девять божеств", "Культ пророка Лебеды", "Культ Вечного Огня" ]

  /** The length of the longest prefix of `s` made of characters of `p`. */
  function RunLength(s: string, p: char -> bool): (n: nat)
    ensures n <= |s| && All(s[..n], p)
    ensures n < |s| ==> !p(s[n])
    decreases |s|
  {
    if |s| == 0 || !p(s[0]) then 0 else 1 + RunLength(s[1..], p)
  }

  /** A prefix of characters of `p` that stops at the end or at a character
      outside `p` is the one `RunLength` measures. */
  lemma {:induction false} RunLengthIs(s: string, p: char -> bool, n: nat)
    requires n <= |s| && All(s[..n], p)
    requires n < |s| ==> !p(s[n])
    ensures RunLength(s, p) == n
    decreases n
  {
    if n > 0 {
      assert p(s[..n][0]);
      assert s[1..][..n - 1] == s[..n][1..];
      RunLengthIs(s[1..], p, n - 1);
    }
  }

  /** `s` begins with `w`. */
  predicate StartsWith(s: string, w: string) {
    |w| <= |s| && s[..|w|] == w
  }

  /** `check_email`: a run of word characters, `@`, a run of domain
      characters, `.`, and two Latin letters open the string; whatever
      follows is not looked at. */
  predicate ValidEmail(s: string) {
    var user := RunLength(s, IsWordChar);
    && 0 < user < |s|
    && s[user] == '@'
    && var domain := RunLength(s[user + 1..], IsDomainChar);
    && 0 < domain
    && user + domain + 3 < |s|
    && s[user + 1 + domain] == '.'
    && IsLatinLetter(s[user + domain + 2])
    && IsLatinLetter(s[user + domain + 3])
  }

  /** One or two digits, a dot, one or two digits: the shape of `str(height)`. */
  predicate DecimalShape(t: string) {
    var whole := RunLength(t, IsDigit);
    && 1 <= whole <= 2
    && whole < |t|
    && t[whole] == '.'
    && 1 <= |t| - whole - 1 <= 2
    && All(t[whole + 1..], IsDigit)
  }

  /** The value of a `DecimalShape` text in hundredths: `"1.8"` is 180, `"1.75"` is 175. */
  function Hundredths(t: string): (v: nat)
    requires DecimalShape(t)
    ensures v < 10000
  {
    var whole := RunLength(t, IsDigit);
    var frac := t[whole + 1..];
    DigitsValue(t[..whole]) * 100 + (if |frac| == 1 then DigitsValue(frac) * 10 else DigitsValue(frac))
  }

  /** `check_height`, applied to the text `str(height)`: the shape must hold
      and the value must lie strictly between 1.00 and 2.50. */
  predicate ValidHeight(t: string) {
    var b := LineBody(t);
    DecimalShape(b) && 100 < Hundredths(b) < 250
  }

  /** `check__inn`: exactly twelve digits. */
  predicate ValidInn(s: string) {
    var b := LineBody(s);
    |b| == 12 && All(b, IsDigit)
  }

  /** `check_passport_series`: five characters, two digits, a whitespace
      character, two digits. */
  predicate ValidPassportSeries(s: string) {
    && |s| == 5
    && IsDigit(s[0]) && IsDigit(s[1])
    && IsSpace(s[2])
    && IsDigit(s[3]) && IsDigit(s[4])
  }

  /** `check_age`: `str(age)` is two digits and 14 < age < 99. */
  predicate ValidAge(n: int) {
    var b := LineBody(IntText(n));
    |b| == 2 && All(b, IsDigit) && 14 < n < 99
  }

  /** The pattern part of `check_occupation`: a capital Latin or Cyrillic
      letter followed by at least one more character, none of them a digit. */
  predicate OccupationShape(s: string) {
    |s| >= 2 && (IsLatinUpper(s[0]) || IsCyrillicUpper(s[0])) && NoDigit(s[1..])
  }

  /** `check_occupation` */
  predicate ValidOccupation(s: string) {
    s !in OccupationBlacklist && OccupationShape(s)
  }

  /** The pattern part of the political-views and worldview checks: non-empty, no digit. */
  predicate DigitFreeText(s: string) {
    |s| >= 1 && NoDigit(s)
  }

  /** `check_political_views` */
  predicate ValidPoliticalViews(s: string) {
    s !in PoliticalViewsBlacklist && DigitFreeText(s)
  }

  /** `check_worldview` */
  predicate ValidWorldview(s: string) {
    s !in WorldviewBlacklist && DigitFreeText(s)
  }

  /** The length of the optional `ул.` and `Аллея` markers that open an address. */
  function MarkerLength(s: string): nat {
    var street := if StartsWith(s, "ул.") then 3 else 0;
    street + (if StartsWith(s[street..], "Аллея") then 5 else 0)
  }

  /** Street characters ending in a digit, at least two of them: `[\w\.\s-]+\d+`. */
  predicate HouseTail(t: string) {
    |t| >= 2 && All(t, IsStreetChar) && IsDigit(t[|t| - 1])
  }

  /** The markers, one whitespace character, then the street and house number. */
  predicate AddressShape(s: string) {
    var m := MarkerLength(s);
    m < |s| && IsSpace(s[m]) && HouseTail(s[m + 1..])
  }

  /** `check_address` */
  predicate ValidAddress(s: string) {
    AddressShape(LineBody(s))
  }
}
