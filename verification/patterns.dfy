/** The regular expressions of main.py, transcribed into `Regex.Re`, and one
    lemma per field proving that `Validator`'s recogniser accepts exactly what
    `re.match` accepts for that pattern.
 */
module Patterns {
  import opened CharClasses
  import opened Regex
  import opened Decimal
  import opened Validator

  /** `\d` */
  const Digit: Re := Class(IsDigit)

  /** `\w+@[a-zA-Z_]+?\.[a-zA-Z]{2,6}` */
  const EmailRe: Re :=
    Cat(Plus(Class(IsWordChar)), EmailDomainRe)

  /** `@[a-zA-Z_]+?\.[a-zA-Z]{2,6}`, the part of the e-mail pattern after the user name. */
  const EmailDomainRe: Re :=
    Cat(Char('@'), Cat(Plus(Class(IsDomainChar)), EmailTldRe))

  /** `\.[a-zA-Z]{2,6}` */
  const EmailTldRe: Re :=
    Cat(Char('.'), Repeat(Class(IsLatinLetter), 2, 6))

  /** `\d{1,2}\.\d{1,2}`, framed by `^` and `$` in the source. */
  const HeightRe: Re :=
    Cat(Repeat(Digit, 1, 2), Cat(Char('.'), Repeat(Digit, 1, 2)))

  /** `\d{12}`, framed by `^` and `$` in the source. */
  const InnRe: Re := Repeat(Digit, 12, 12)

  /** `\d{2}\s\d{2}` */
  const PassportRe: Re :=
    Cat(Repeat(Digit, 2, 2), Cat(Class(IsSpace), Repeat(Digit, 2, 2)))

  /** `\d{2}`, framed by `^` and `$` in the source. */
  const AgeRe: Re := Repeat(Digit, 2, 2)

  /** `([A-Z]|[А-Я])[\D]+`, framed by `^` and `$` in the source. */
  const OccupationRe: Re :=
    Cat(Alt(Class(IsLatinUpper), Class(IsCyrillicUpper)), Plus(Class(IsNonDigit)))

  /** `[\D]+`, framed by `^` and `$` in the source (political views and worldview). */
  const DigitFreeRe: Re := Plus(Class(IsNonDigit))

  /** `(ул\.)?(Аллея)?\s[\w\.\s-]+\d+`, framed by `^` and `$` in the source. */
  const AddressRe: Re :=
    Cat(Opt(Literal("ул.")), AlleyRe)

  /** `(Аллея)?\s[\w\.\s-]+\d+` */
  const AlleyRe: Re :=
    Cat(Opt(Literal("Аллея")), SpacedTailRe)

  /** `\s[\w\.\s-]+\d+` */
  const SpacedTailRe: Re :=
    Cat(Class(IsSpace), HouseTailRe)

  /** `[\w\.\s-]+\d+` */
  const HouseTailRe: Re :=
    Cat(Plus(Class(IsStreetChar)), Plus(Digit))

  // ---------------------------------------------------------------------
  // Tax identifier and age: `^\d{n}$`
  // ---------------------------------------------------------------------

  /** `check__inn` accepts exactly what `re.match(r"^\d{12}$", inn)` accepts. */
  lemma InnMatches(s: string)
    ensures ValidInn(s) <==> MatchLine(InnRe, s)
  {
    ClassRepeatMatches(IsDigit, 12, 12, s);
    ClassRepeatMatches(IsDigit, 12, 12, LineBody(s));
    LineStrip(InnRe, s);
  }

  /** The pattern half of `check_age` is `re.match(r"^\d{2}$", str(age))`. */
  lemma AgeMatches(n: int)
    ensures ValidAge(n) <==> MatchLine(AgeRe, IntText(n)) && 14 < n < 99
  {
    var t := IntText(n);
    ClassRepeatMatches(IsDigit, 2, 2, t);
    ClassRepeatMatches(IsDigit, 2, 2, LineBody(t));
    LineStrip(AgeRe, t);
  }

  // ---------------------------------------------------------------------
  // Passport series: a length test and an unanchored-at-the-end pattern
  // ---------------------------------------------------------------------

  /** Every string `\d{2}\s\d{2}` matches in full passes `check_passport_series`. */
  lemma PassportReSound(t: string)
    requires Matches(PassportRe, t)
    ensures ValidPassportSeries(t)
  {
    var rest := Cat(Class(IsSpace), Repeat(Digit, 2, 2));
    var k :| 0 <= k <= |t| && Matches(Repeat(Digit, 2, 2), t[..k]) && Matches(rest, t[k..]);
    ClassRepeatMatches(IsDigit, 2, 2, t[..k]);
    CatClassLeft(IsSpace, Repeat(Digit, 2, 2), t[k..]);
    ClassRepeatMatches(IsDigit, 2, 2, t[k..][1..]);
    assert t[..k][0] == t[0] && t[..k][1] == t[1];
    assert t[k..][1..][0] == t[3] && t[k..][1..][1] == t[4];
  }

  /** Every string passing `check_passport_series` is matched in full by `\d{2}\s\d{2}`. */
  lemma PassportReComplete(t: string)
    requires ValidPassportSeries(t)
    ensures Matches(PassportRe, t)
  {
    ClassRepeatMatches(IsDigit, 2, 2, t[..2]);
    ClassRepeatMatches(IsDigit, 2, 2, t[3..]);
    CatClassLeft(IsSpace, Repeat(Digit, 2, 2), t[2..]);
    assert t[2..][1..] == t[3..];
    assert t[..2] + t[2..] == t;
  }

  /** `\d{2}\s\d{2}` matches in full exactly the strings `check_passport_series` accepts. */
  lemma PassportReMatches(t: string)
    ensures Matches(PassportRe, t) <==> ValidPassportSeries(t)
  {
    if Matches(PassportRe, t) {
      PassportReSound(t);
    }
    if ValidPassportSeries(t) {
      PassportReComplete(t);
    }
  }

  /** `check_passport_series` is `len(s) == 5` together with
      `re.match(r"\d{2}\s\d{2}", s)`. */
  lemma PassportMatches(s: string)
    ensures ValidPassportSeries(s) <==> |s| == 5 && MatchPrefix(PassportRe, s)
  {
    if |s| == 5 {
      PassportReMatches(s);
      if MatchPrefix(PassportRe, s) {
        var k :| 0 <= k <= |s| && Matches(PassportRe, s[..k]);
        PassportReMatches(s[..k]);
        assert s[..k] == s;
      }
      if ValidPassportSeries(s) {
        assert s[..5] == s;
      }
    }
  }

  // ---------------------------------------------------------------------
  // Political views and worldview: `^[\D]+$`
  // ---------------------------------------------------------------------

  /** A digit-free text stays digit-free with a line feed appended. */
  lemma NoDigitNewline(s: string)
    requires NoDigit(s)
    ensures NoDigit(s + "\n")
  {
    assert forall i :: 0 <= i < |s| ==> (s + "\n")[i] == s[i];
  }

  /** The pattern half of `check_political_views` and `check_worldview` is
      `re.match(r"^[\D]+$", s)`. */
  lemma DigitFreeMatches(s: string)
    ensures DigitFreeText(s) <==> MatchLine(DigitFreeRe, s)
  {
    ClassPlusMatches(IsNonDigit, s);
    var b := LineBody(s);
    ClassPlusMatches(IsNonDigit, b);
    if b != s && DigitFreeText(b) {
      NoDigitNewline(b);
    }
  }

  // ---------------------------------------------------------------------
  // Occupation: `^([A-Z]|[А-Я])[\D]+$`
  // ---------------------------------------------------------------------

  /** The strings `([A-Z]|[А-Я])[\D]+` matches in full. */
  lemma OccupationReMatches(t: string)
    ensures Matches(OccupationRe, t) <==> OccupationShape(t)
  {
    var capital := Alt(Class(IsLatinUpper), Class(IsCyrillicUpper));
    if Matches(OccupationRe, t) {
      var k :| 0 <= k <= |t| && Matches(capital, t[..k]) && Matches(Plus(Class(IsNonDigit)), t[k..]);
      assert Matches(Class(IsLatinUpper), t[..k]) || Matches(Class(IsCyrillicUpper), t[..k]);
      assert |t[..k]| == 1 && t[..k][0] == t[0];
      ClassPlusMatches(IsNonDigit, t[1..]);
    }
    if OccupationShape(t) {
      ClassPlusMatches(IsNonDigit, t[1..]);
      assert t[..1][0] == t[0];
      assert Matches(Class(IsLatinUpper), t[..1]) || Matches(Class(IsCyrillicUpper), t[..1]);
      assert Matches(capital, t[..1]);
      assert Matches(Cat(capital, Plus(Class(IsNonDigit))), t);
    }
  }

  /** The pattern half of `check_occupation` is `re.match(r"^([A-Z]|[А-Я])[\D]+$", s)`. */
  lemma OccupationMatches(s: string)
    ensures OccupationShape(s) <==> MatchLine(OccupationRe, s)
  {
    OccupationReMatches(s);
    var b := LineBody(s);
    OccupationReMatches(b);
    if b != s && OccupationShape(b) {
      NoDigitNewline(b[1..]);
      assert s[1..] == b[1..] + "\n";
    }
  }

  // ---------------------------------------------------------------------
  // Height: `^\d{1,2}\.\d{1,2}$` applied to `str(height)`
  // ---------------------------------------------------------------------

  /** The strings `\d{1,2}\.\d{1,2}` matches in full. */
  lemma DecimalShapeMatches(t: string)
    ensures DecimalShape(t) <==> Matches(HeightRe, t)
  {
    if DecimalShape(t) {
      DecimalShapeComplete(t);
    }
    if Matches(HeightRe, t) {
      DecimalShapeSound(t);
    }
  }

  /** Every text of the decimal shape is in the language of `\d{1,2}\.\d{1,2}`. */
  lemma DecimalShapeComplete(t: string)
    requires DecimalShape(t)
    ensures Matches(HeightRe, t)
  {
    var part := Repeat(Digit, 1, 2);
    var w := RunLength(t, IsDigit);
    ClassRepeatMatches(IsDigit, 1, 2, t[..w]);
    ClassRepeatMatches(IsDigit, 1, 2, t[w + 1..]);
    CatCharLeft('.', part, t[w..]);
    assert t[w..][1..] == t[w + 1..];
    assert t[..w] + t[w..] == t;
  }

  /** Every text in the language of `\d{1,2}\.\d{1,2}` has the decimal shape. */
  lemma DecimalShapeSound(t: string)
    requires Matches(HeightRe, t)
    ensures DecimalShape(t)
  {
    var part := Repeat(Digit, 1, 2);
    var rest := Cat(Char('.'), part);
    var k :| 0 <= k <= |t| && Matches(part, t[..k]) && Matches(rest, t[k..]);
    ClassRepeatMatches(IsDigit, 1, 2, t[..k]);
    CatCharLeft('.', part, t[k..]);
    assert t[k..][1..] == t[k + 1..];
    ClassRepeatMatches(IsDigit, 1, 2, t[k + 1..]);
    RunLengthIs(t, IsDigit, k);
  }

  /** A text of decimal shape ends in a digit, so never in a line feed. */
  lemma DecimalShapeEndsInDigit(t: string)
    requires DecimalShape(t)
    ensures IsDigit(t[|t| - 1])
  {
    var w := RunLength(t, IsDigit);
    assert t[w + 1..][|t| - w - 2] == t[|t| - 1];
  }

  /** The pattern half of `check_height` is `re.match(r"^\d{1,2}\.\d{1,2}$", str(height))`. */
  lemma HeightMatches(t: string)
    ensures DecimalShape(LineBody(t)) <==> MatchLine(HeightRe, t)
  {
    DecimalShapeMatches(t);
    DecimalShapeMatches(LineBody(t));
    if DecimalShape(t) {
      DecimalShapeEndsInDigit(t);
    }
    LineStrip(HeightRe, t);
  }

  // ---------------------------------------------------------------------
  // E-mail: `\w+@[a-zA-Z_]+?\.[a-zA-Z]{2,6}`, anchored at the start only
  // ---------------------------------------------------------------------

  /** A dot and two Latin letters are in the language of `\.[a-zA-Z]{2,6}`. */
  lemma ShortTldMatches(u: string)
    requires TldAt(u, 0)
    ensures Matches(EmailTldRe, u[..3])
  {
    var tld := u[..3][1..];
    assert tld == [u[1], u[2]];
    ClassRepeatMatches(IsLatinLetter, 2, 6, tld);
    CatCharLeft('.', Repeat(Class(IsLatinLetter), 2, 6), u[..3]);
  }

  /** A run of domain characters followed by the shortest top-level domain is
      in the language of `[a-zA-Z_]+?\.[a-zA-Z]{2,6}`. */
  lemma DomainForward(d: string, j: nat)
    requires TldAt(d, j) && 0 < j && All(d[..j], IsDomainChar)
    ensures Matches(Cat(Plus(Class(IsDomainChar)), EmailTldRe), d[..j + 3])
  {
    ShortTldMatches(d[j..]);
    ClassPlusMatches(IsDomainChar, d[..j]);
    var e := d[..j + 3];
    assert e[..j] == d[..j];
    assert e[j..] == d[j..][..3];
  }

  /** Whatever `check_email` accepts has a prefix in the language of the pattern. */
  lemma EmailForward(s: string)
    requires ValidEmail(s)
    ensures MatchPrefix(EmailRe, s)
  {
    var i := RunLength(s, IsWordChar);
    var d := s[i + 1..];
    var j := RunLength(d, IsDomainChar);
    assert TldAt(d, j);
    DomainForward(d, j);
    var t := s[..i + j + 4];
    assert t[i..][1..] == d[..j + 3];
    CatCharLeft('@', Cat(Plus(Class(IsDomainChar)), EmailTldRe), t[i..]);
    assert t[..i] == s[..i];
    ClassPlusMatches(IsWordChar, t[..i]);
    assert Matches(EmailRe, t);
  }

  /** A dot and two Latin letters open `u`: the shortest top-level domain. */
  predicate TldAt(u: string, p: nat) {
    p + 2 < |u| && u[p] == '.' && IsLatinLetter(u[p + 1]) && IsLatinLetter(u[p + 2])
  }

  /** What `[a-zA-Z_]+?\.[a-zA-Z]{2,6}` matches is a maximal run of domain
      characters followed by a top-level domain. */
  lemma DomainPrefix(u: string)
    requires Matches(Cat(Plus(Class(IsDomainChar)), EmailTldRe), u)
    ensures 0 < RunLength(u, IsDomainChar) && TldAt(u, RunLength(u, IsDomainChar))
  {
    var letters := Repeat(Class(IsLatinLetter), 2, 6);
    RunThenChar(IsDomainChar, '.', letters, u);
    var j := RunLength(u, IsDomainChar);
    ClassRepeatMatches(IsLatinLetter, 2, 6, u[j + 1..]);
    assert u[j + 1..][0] == u[j + 1] && u[j + 1..][1] == u[j + 2];
  }

  /** A maximal run in a prefix of `s` that ends inside the prefix is a maximal run of `s`. */
  lemma RunLengthOfPrefix(s: string, k: nat, p: char -> bool)
    requires k <= |s|
    requires RunLength(s[..k], p) < k
    ensures RunLength(s, p) == RunLength(s[..k], p)
  {
    var n := RunLength(s[..k], p);
    assert s[..k][..n] == s[..n];
    assert s[..k][n] == s[n];
    RunLengthIs(s, p, n);
  }

  /** What `[p]+` followed by a character `c` outside `p` and then `b` matches
      begins with its maximal run of `p`, which `c` ends. */
  lemma RunThenChar(p: char -> bool, c: char, b: Re, t: string)
    requires !p(c)
    requires Matches(Cat(Plus(Class(p)), Cat(Char(c), b)), t)
    ensures 0 < RunLength(t, p) < |t|
    ensures t[RunLength(t, p)] == c
    ensures Matches(b, t[RunLength(t, p) + 1..])
  {
    var i :| 0 <= i <= |t| && Matches(Plus(Class(p)), t[..i]) && Matches(Cat(Char(c), b), t[i..]);
    ClassPlusMatches(p, t[..i]);
    CatCharLeft(c, b, t[i..]);
    assert t[i] == c;
    RunLengthIs(t, p, i);
    assert t[i..][1..] == t[i + 1..];
  }

  /** What the e-mail pattern matches in full begins with its maximal run of
      word characters and an `@`. */
  lemma EmailUserMatch(t: string)
    requires Matches(EmailRe, t)
    ensures 0 < RunLength(t, IsWordChar) < |t|
    ensures t[RunLength(t, IsWordChar)] == '@'
    ensures Matches(Cat(Plus(Class(IsDomainChar)), EmailTldRe), t[RunLength(t, IsWordChar) + 1..])
  {
    RunThenChar(IsWordChar, '@', Cat(Plus(Class(IsDomainChar)), EmailTldRe), t);
  }

  /** What the e-mail pattern matches in a prefix `s[..k]` begins with the
      maximal run of word characters of `s` and an `@`. */
  lemma EmailUserPrefix(s: string, k: nat)
    requires k <= |s| && Matches(EmailRe, s[..k])
    ensures 0 < RunLength(s, IsWordChar) < k
    ensures s[RunLength(s, IsWordChar)] == '@'
    ensures Matches(Cat(Plus(Class(IsDomainChar)), EmailTldRe), s[RunLength(s, IsWordChar) + 1..k])
  {
    var t := s[..k];
    EmailUserMatch(t);
    RunLengthOfPrefix(s, k, IsWordChar);
    var i := RunLength(t, IsWordChar);
    assert t[i + 1..] == s[i + 1..k];
  }

  /** What `[a-zA-Z_]+?\.[a-zA-Z]{2,6}` matches in a prefix of `u` is a maximal
      run of domain characters of `u` followed by a top-level domain. */
  lemma DomainPrefixOf(u: string, m: nat)
    requires m <= |u| && Matches(Cat(Plus(Class(IsDomainChar)), EmailTldRe), u[..m])
    ensures 0 < RunLength(u, IsDomainChar) && TldAt(u, RunLength(u, IsDomainChar))
  {
    DomainPrefix(u[..m]);
    RunLengthOfPrefix(u, m, IsDomainChar);
    var j := RunLength(u, IsDomainChar);
    assert u[..m][j] == u[j] && u[..m][j + 1] == u[j + 1] && u[..m][j + 2] == u[j + 2];
  }

  /** Whatever has a prefix in the language of the pattern, `check_email` accepts. */
  lemma EmailBackward(s: string)
    requires MatchPrefix(EmailRe, s)
    ensures ValidEmail(s)
  {
    var k :| 0 <= k <= |s| && Matches(EmailRe, s[..k]);
    EmailUserPrefix(s, k);
    var i := RunLength(s, IsWordChar);
    var u := s[i + 1..];
    assert s[i + 1..k] == u[..k - i - 1];
    DomainPrefixOf(u, k - i - 1);
    var j := RunLength(u, IsDomainChar);
    assert u[j] == s[i + 1 + j] && u[j + 1] == s[i + j + 2] && u[j + 2] == s[i + j + 3];
  }

  /** `check_email` accepts exactly what `re.match(r"\w+@[a-zA-Z_]+?\.[a-zA-Z]{2,6}", email)` accepts. */
  lemma EmailMatches(s: string)
    ensures ValidEmail(s) <==> MatchPrefix(EmailRe, s)
  {
    if ValidEmail(s) {
      EmailForward(s);
    }
    if MatchPrefix(EmailRe, s) {
      EmailBackward(s);
    }
  }

  // ---------------------------------------------------------------------
  // Address: `^(ул\.)?(Аллея)?\s[\w\.\s-]+\d+$`
  // ---------------------------------------------------------------------

  /** The strings `[\w\.\s-]+\d+` matches in full. */
  lemma HouseTailMatches(t: string)
    ensures HouseTail(t) <==> Matches(HouseTailRe, t)
  {
    if HouseTail(t) {
      var n := |t| - 1;
      assert All(t[..n], IsStreetChar) by {
        forall i | 0 <= i < n ensures IsStreetChar(t[..n][i]) {
          assert t[..n][i] == t[i];
        }
      }
      ClassPlusMatches(IsStreetChar, t[..n]);
      assert t[n..] == [t[n]];
      ClassPlusMatches(IsDigit, t[n..]);
    }
    if Matches(HouseTailRe, t) {
      var k :| 0 <= k <= |t| && Matches(Plus(Class(IsStreetChar)), t[..k]) && Matches(Plus(Digit), t[k..]);
      ClassPlusMatches(IsStreetChar, t[..k]);
      ClassPlusMatches(IsDigit, t[k..]);
      forall i | 0 <= i < |t| ensures IsStreetChar(t[i]) {
        if i < k {
          assert t[..k][i] == t[i];
        } else {
          assert t[k..][i - k] == t[i];
        }
      }
      assert t[k..][|t| - 1 - k] == t[|t| - 1];
    }
  }

  /** An optional literal in front of `b` is either absent or opens the string. */
  lemma OptLiteralLeft(w: string, b: Re, s: string)
    ensures Matches(Cat(Opt(Literal(w)), b), s) <==>
      Matches(b, s) || (StartsWith(s, w) && Matches(b, s[|w|..]))
  {
    if Matches(Cat(Opt(Literal(w)), b), s) {
      var k :| 0 <= k <= |s| && Matches(Opt(Literal(w)), s[..k]) && Matches(b, s[k..]);
      if s[..k] == [] {
        assert s[k..] == s;
      } else {
        LiteralMatches(w, s[..k]);
      }
    }
    if Matches(b, s) {
      assert s[..0] == [] && s[0..] == s;
      assert Matches(Opt(Literal(w)), s[..0]);
    }
    if StartsWith(s, w) && Matches(b, s[|w|..]) {
      LiteralMatches(w, s[..|w|]);
      assert Matches(Opt(Literal(w)), s[..|w|]);
    }
  }

  /** One whitespace character followed by a house tail. */
  predicate SpacedTail(u: string) {
    |u| >= 1 && IsSpace(u[0]) && HouseTail(u[1..])
  }

  /** The strings `\s[\w\.\s-]+\d+` matches in full. */
  lemma SpacedTailMatches(u: string)
    ensures Matches(SpacedTailRe, u) <==> SpacedTail(u)
  {
    CatClassLeft(IsSpace, HouseTailRe, u);
    if |u| >= 1 {
      HouseTailMatches(u[1..]);
    }
  }

  /** The strings `(Аллея)?\s[\w\.\s-]+\d+` matches in full: the alley marker
      is taken exactly when the string starts with it. */
  lemma AlleyMatches(v: string)
    ensures Matches(AlleyRe, v) <==> SpacedTail(v[if StartsWith(v, "Аллея") then 5 else 0..])
  {
    OptLiteralLeft("Аллея", SpacedTailRe, v);
    SpacedTailMatches(v);
    if StartsWith(v, "Аллея") {
      SpacedTailMatches(v[5..]);
      assert v[0] == v[..5][0] == 'А';
    } else {
      assert v[0..] == v;
    }
  }

  /** The strings `(ул\.)?(Аллея)?\s[\w\.\s-]+\d+` matches in full are the ones
      `AddressShape` accepts: the greedy reading of the two markers loses nothing. */
  lemma AddressShapeMatches(s: string)
    ensures AddressShape(s) <==> Matches(AddressRe, s)
  {
    OptLiteralLeft("ул.", AlleyRe, s);
    var street := if StartsWith(s, "ул.") then 3 else 0;
    var v := s[street..];
    var alley := if StartsWith(v, "Аллея") then 5 else 0;
    var m := MarkerLength(s);
    assert m == street + alley;
    AlleyMatches(v);
    assert v[alley..] == s[m..];
    if StartsWith(s, "ул.") {
      assert s[0] == s[..3][0] == 'у';
      AlleyMatches(s);
      assert !StartsWith(s, "Аллея");
      assert s[0..] == s;
    } else {
      assert v == s;
    }
    if m < |s| {
      assert s[m..][1..] == s[m + 1..];
    }
  }

  /** `check_address` accepts exactly what
      `re.match(r"^(ул\.)?(Аллея)?\s[\w\.\s-]+\d+$", address)` accepts. */
  lemma AddressMatches(s: string)
    ensures ValidAddress(s) <==> MatchLine(AddressRe, s)
  {
    AddressShapeMatches(s);
    AddressShapeMatches(LineBody(s));
    if AddressShape(s) {
      var m := MarkerLength(s);
      var tail := s[m + 1..];
      assert tail[|tail| - 1] == s[|s| - 1];
    }
    LineStrip(AddressRe, s);
  }
}
