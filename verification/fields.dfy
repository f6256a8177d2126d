/** What each field check accepts, stated in the field's own terms: ranges of
    numbers, shapes of strings, and the effect of the blacklists.
 */
module FieldFacts {
  import opened CharClasses
  import opened Regex
  import opened Decimal
  import opened Validator

  // ---------------------------------------------------------------------
  // Age
  // ---------------------------------------------------------------------

  /** `str(n)` never ends in a line feed, so `$` has nothing to strip. */
  lemma IntTextEndsInDigit(n: int)
    ensures |IntText(n)| >= 1 && IsDigit(IntText(n)[|IntText(n)| - 1])
    ensures LineBody(IntText(n)) == IntText(n)
  {
    if n < 0 {
      var d := NatText(-n);
      assert IntText(n)[|IntText(n)| - 1] == d[|d| - 1];
    }
  }

  /** The pattern half of `check_age` alone accepts exactly the ages 10..99:
      negative, one-digit and three-digit ages fail it. */
  lemma AgeTextIsTwoDigits(n: int)
    ensures (var b := LineBody(IntText(n)); |b| == 2 && All(b, IsDigit)) <==> 10 <= n <= 99
  {
    IntTextEndsInDigit(n);
    if n < 0 {
      assert IntText(n)[0] == '-';
    } else {
      NatTextLength(n);
    }
  }

  /** `check_age` holds exactly for the ages 15..98. */
  lemma AgeRange(n: int)
    ensures ValidAge(n) <==> 15 <= n <= 98
  {
    AgeTextIsTwoDigits(n);
  }

  // ---------------------------------------------------------------------
  // Height
  // ---------------------------------------------------------------------

  /** `DigitsValue` of one or two digits. */
  lemma DigitsValueShort(s: string)
    requires 1 <= |s| <= 2 && All(s, IsDigit)
    ensures |s| == 1 ==> DigitsValue(s) == DigitValue(s[0])
    ensures |s| == 2 ==> DigitsValue(s) == DigitValue(s[0]) * 10 + DigitValue(s[1])
  {
    assert s[..|s| - 1][..0] == [];
    if |s| == 2 {
      assert s[..1] == [s[0]];
    }
  }

  /** Reading the rendered height back gives the number of hundredths that was rendered. */
  lemma HundredthsTextRoundTrip(h: nat)
    requires h < 10000
    ensures DecimalShape(HundredthsText(h))
    ensures Hundredths(HundredthsText(h)) == h
  {
    var whole := NatText(h / 100);
    var frac := FractionText(h % 100);
    var t := HundredthsText(h);
    NatTextLength(h / 100);
    NatTextRoundTrip(h / 100);
    var w := |whole|;
    assert t[..w] == whole;
    assert t[w] == '.';
    assert t[w + 1..] == frac;
    RunLengthIs(t, IsDigit, w);
    DigitsValueShort(frac);
  }

  /** The last character of a rendered height is a digit. */
  lemma HundredthsTextLineBody(h: nat)
    requires h < 10000
    ensures LineBody(HundredthsText(h)) == HundredthsText(h)
  {
    var t := HundredthsText(h);
    var frac := FractionText(h % 100);
    assert t[|t| - 1] == frac[|frac| - 1];
  }

  /** For a height of `h` hundredths of a metre, `check_height` holds exactly when
      1.00 < h/100 < 2.50: both bounds are exclusive. */
  lemma HeightRange(h: nat)
    requires h < 10000
    ensures ValidHeight(HundredthsText(h)) <==> 100 < h < 250
  {
    HundredthsTextRoundTrip(h);
    HundredthsTextLineBody(h);
  }

  /** The boundary heights: 1.0 and 2.5 fail, 1.01 and 2.49 pass. */
  lemma HeightBoundaries()
    ensures !ValidHeight(HundredthsText(100)) && ValidHeight(HundredthsText(101))
    ensures ValidHeight(HundredthsText(249)) && !ValidHeight(HundredthsText(250))
  {
    HeightRange(100);
    HeightRange(101);
    HeightRange(249);
    HeightRange(250);
  }

  // ---------------------------------------------------------------------
  // Tax identifier
  // ---------------------------------------------------------------------

  /** `check__inn` holds for twelve digits, optionally followed by one line feed. */
  lemma InnShape(s: string)
    ensures ValidInn(s) <==>
      && |s| >= 12 && All(s[..12], IsDigit)
      && (|s| == 12 || (|s| == 13 && s[12] == '\n'))
  {
    if |s| == 12 {
      assert s[..12] == s;
    }
    if |s| == 13 && s[12] == '\n' {
      assert LineBody(s) == s[..12];
    }
  }

  // ---------------------------------------------------------------------
  // E-mail
  // ---------------------------------------------------------------------

  /** A run that stops inside `s` is not lengthened by appending to `s`. */
  lemma RunLengthAppend(s: string, rest: string, p: char -> bool)
    requires RunLength(s, p) < |s|
    ensures RunLength(s + rest, p) == RunLength(s, p)
  {
    var n := RunLength(s, p);
    assert (s + rest)[..n] == s[..n];
    RunLengthIs(s + rest, p, n);
  }

  /** `check_email` is anchored at the start only: text appended to an accepted
      e-mail is never looked at. */
  lemma EmailIgnoresSuffix(s: string, rest: string)
    requires ValidEmail(s)
    ensures ValidEmail(s + rest)
  {
    var i := RunLength(s, IsWordChar);
    RunLengthAppend(s, rest, IsWordChar);
    assert (s + rest)[i + 1..] == s[i + 1..] + rest;
    RunLengthAppend(s[i + 1..], rest, IsDomainChar);
  }

  /** `a@b.co` passes. */
  lemma EmailAccepted()
    ensures ValidEmail("a@b.co")
  {
    RunLengthIs("a@b.co", IsWordChar, 1);
    assert "a@b.co"[2..] == "b.co";
    RunLengthIs("b.co", IsDomainChar, 1);
  }

  /** `a@b`, which has no top-level domain, fails. */
  lemma EmailWithoutTldRejected()
    ensures !ValidEmail("a@b")
  {
    RunLengthIs("a@b", IsWordChar, 1);
  }

  /** `a@bb.to` passes. */
  lemma ShortTldAccepted()
    ensures ValidEmail("a@bb.to")
  {
    RunLengthIs("a@bb.to", IsWordChar, 1);
    assert "a@bb.to"[2..] == "bb.to";
    RunLengthIs("bb.to", IsDomainChar, 2);
  }

  /** `a@bb.toolongtld` is the accepted `a@bb.to` with `olongtld` appended.
      Stated on its own so that the proof below reasons about the two short
      literals rather than unfolding the long one. */
  lemma LongTldEmailExtendsShortOne()
    ensures "a@bb.to" + "olongtld" == "a@bb.toolongtld"
  {
  }

  /** Because only the start is anchored, a top-level domain of more than six
      letters still passes: the pattern stops after `a@bb.to`. */
  lemma EmailLongTldAccepted()
    ensures ValidEmail("a@bb.toolongtld")
  {
    ShortTldAccepted();
    EmailIgnoresSuffix("a@bb.to", "olongtld");
    LongTldEmailExtendsShortOne();
  }

  /** The e-mail docstring promises that a space, a comma or a double dot makes
      the check fail; after an accepted start the check never looks at them. */
  lemma EmailAcceptsTrailingSpace()
    ensures ValidEmail("a@b.co x")
  {
    EmailAccepted();
    EmailIgnoresSuffix("a@b.co", " x");
    assert "a@b.co" + " x" == "a@b.co x";
  }

  /** `a@b.co,,` passes although it contains commas. */
  lemma EmailAcceptsTrailingCommas()
    ensures ValidEmail("a@b.co,,")
  {
    EmailAccepted();
    EmailIgnoresSuffix("a@b.co", ",,");
    assert "a@b.co" + ",," == "a@b.co,,";
  }

  /** `a@b.co..x` passes although it contains a double dot. */
  lemma EmailAcceptsDoubleDot()
    ensures ValidEmail("a@b.co..x")
  {
    EmailAccepted();
    EmailIgnoresSuffix("a@b.co", "..x");
    assert "a@b.co" + "..x" == "a@b.co..x";
  }

  // ---------------------------------------------------------------------
  // Passport series
  // ---------------------------------------------------------------------

  /** Two digit pairs around a space or a tab pass; a missing separator or
      a sixth character fails. */
  lemma PassportExamples()
    ensures ValidPassportSeries("12 34") && ValidPassportSeries("12\t34")
    ensures !ValidPassportSeries("1234") && !ValidPassportSeries("123 45")
  {
  }

  // ---------------------------------------------------------------------
  // Occupation, political views, worldview
  // ---------------------------------------------------------------------

  /** A text containing a digit. */
  predicate HasDigit(s: string) {
    exists i :: 0 <= i < |s| && IsDigit(s[i])
  }

  /** `check_occupation` holds exactly for a value off the blacklist that starts
      with a capital Latin or Cyrillic letter, has a second character, and
      contains no digit anywhere. */
  lemma OccupationAccepts(s: string)
    ensures ValidOccupation(s) <==>
      && s !in OccupationBlacklist
      && |s| >= 2
      && (IsLatinUpper(s[0]) || IsCyrillicUpper(s[0]))
      && !HasDigit(s)
  {
    if |s| >= 2 {
      if NoDigit(s[1..]) && (IsLatinUpper(s[0]) || IsCyrillicUpper(s[0])) {
        forall i | 0 <= i < |s| ensures !IsDigit(s[i]) {
          if i > 0 {
            assert s[1..][i - 1] == s[i];
          }
        }
      }
      if !HasDigit(s) {
        forall i | 0 <= i < |s[1..]| ensures !IsDigit(s[1..][i]) {
          assert s[1..][i] == s[i + 1];
        }
      }
    }
  }

  /** Each of the three free-text checks rejects every value of its blacklist and
      every value containing a digit. */
  lemma BlacklistsAndDigitsReject(s: string)
    ensures s in OccupationBlacklist || HasDigit(s) ==> !ValidOccupation(s)
    ensures s in PoliticalViewsBlacklist || HasDigit(s) ==> !ValidPoliticalViews(s)
    ensures s in WorldviewBlacklist || HasDigit(s) ==> !ValidWorldview(s)
  {
    OccupationAccepts(s);
  }

  // Each blacklist fact below is stated for one or two entries at a time,
  // and the long first political view is split into literal pieces, which
  // keeps every proof small; the `...BlacklistMatchesPattern` lemmas collect
  // them for the whole list.

  /** The first three occupations on the blacklist have the pattern's shape. */
  lemma FirstThreeOccupationsMatchPattern()
    ensures OccupationShape("Монах") && OccupationShape("Паладин") && OccupationShape("Маг")
  {
  }

  /** The last three occupations on the blacklist have the pattern's shape. */
  lemma LastThreeOccupationsMatchPattern()
    ensures OccupationShape("Вышивальщица") && OccupationShape("Маникюрша") && OccupationShape("Цветочница")
  {
  }

  /** The occupation blacklist is not redundant: every value on it has the
      shape the occupation pattern accepts, so only the list keeps it out. */
  lemma OccupationBlacklistMatchesPattern()
    ensures forall v :: v in OccupationBlacklist ==> OccupationShape(v)
  {
    FirstThreeOccupationsMatchPattern();
    LastThreeOccupationsMatchPattern();
  }

  /** The first entry of the political-views blacklist, as a text. */
  lemma FirstPoliticalViewText()
    ensures PoliticalViewsBlacklist[0] ==
      "согласен с действиями Гарроша Адского Крика на посту вождя Орды"
  {
  }

  /** The first political-views entry is its opening phrases followed by
      the phrase `на посту вождя Орды`. */
  lemma FirstPoliticalViewLastPhrase()
    ensures "согласен с действиями Гарроша Адского Крика на посту вождя Орды" ==
      "согласен с действиями Гарроша Адского Крика " + "на посту вождя Орды"
  {
  }

  /** The opening phrases of the first political-views entry, split in two. */
  lemma FirstPoliticalViewOpeningPhrases()
    ensures "согласен с действиями Гарроша Адского Крика " ==
      "согласен с действиями " + "Гарроша Адского Крика "
  {
  }

  /** The first phrase of the first political-views entry contains no digit. */
  lemma FirstPhraseDigitFree()
    ensures NoDigit("согласен с действиями ")
  {
  }

  /** The second and third phrases of the first political-views entry contain no digit. */
  lemma SecondAndThirdPhrasesDigitFree()
    ensures NoDigit("Гарроша Адского Крика ")
    ensures NoDigit("на посту вождя Орды")
  {
  }

  /** The first political-views entry, the longest text on any blacklist,
      contains no digit: each of its three phrases is digit-free. */
  lemma FirstPoliticalViewDigitFree()
    ensures NoDigit(PoliticalViewsBlacklist[0])
  {
    var head, middle, last := "согласен с действиями ", "Гарроша Адского Крика ", "на посту вождя Орды";
    FirstPoliticalViewText();
    FirstPoliticalViewLastPhrase();
    FirstPoliticalViewOpeningPhrases();
    FirstPhraseDigitFree();
    SecondAndThirdPhrasesDigitFree();
    NoDigitConcat(head, middle);
    NoDigitConcat(head + middle, last);
  }

  /** Joining two digit-free texts gives a digit-free text. */
  lemma NoDigitConcat(a: string, b: string)
    requires NoDigit(a) && NoDigit(b)
    ensures NoDigit(a + b)
  {
    forall i | 0 <= i < |a + b| ensures IsNonDigit((a + b)[i]) {
      if i >= |a| {
        assert (a + b)[i] == b[i - |a|];
      }
    }
  }

  /** The second political-views entry contains no digit. */
  lemma SecondPoliticalViewDigitFree()
    ensures NoDigit("патриот независимой Темерии")
  {
  }

  /** The third and fourth political-views entries contain no digit. */
  lemma ThirdAndFourthPoliticalViewsDigitFree()
    ensures NoDigit("поддерживает Братьев Бури")
    ensures NoDigit("поддерживает Имперский легион")
  {
  }

  /** The political-views blacklist is not redundant: no value on it contains a digit. */
  lemma PoliticalViewsBlacklistMatchesPattern()
    ensures forall v :: v in PoliticalViewsBlacklist ==> DigitFreeText(v)
  {
    FirstPoliticalViewDigitFree();
    SecondPoliticalViewDigitFree();
    ThirdAndFourthPoliticalViewsDigitFree();
  }

  /** The first and second worldviews on the blacklist contain no digit. */
  lemma FirstTwoWorldviewsDigitFree()
    ensures NoDigit("Культ проклятых") && NoDigit("Культ Механикус")
  {
  }

  /** The third worldview on the blacklist contains no digit. */
  lemma ThirdWorldviewDigitFree()
    ensures NoDigit("Храм Трибунала")
  {
  }

  /** The fourth worldview on the blacklist, the longest, contains no digit. */
  lemma FourthWorldviewDigitFree()
    ensures NoDigit("Светское гачимученничество")
  {
  }

  /** The fifth and sixth worldviews on the blacklist contain no digit. */
  lemma FifthAndSixthWorldviewsDigitFree()
    ensures NoDigit("культ богини Мелитэле") && NoDigit("Девять божеств")
  {
  }

  /** The seventh and eighth worldviews on the blacklist contain no digit. */
  lemma SeventhAndEighthWorldviewsDigitFree()
    ensures NoDigit("Культ пророка Лебеды") && NoDigit("Культ Вечного Огня")
  {
  }

  /** The worldview blacklist is not redundant: no value on it contains a digit. */
  lemma WorldviewBlacklistMatchesPattern()
    ensures forall v :: v in WorldviewBlacklist ==> DigitFreeText(v)
  {
    FirstTwoWorldviewsDigitFree();
    ThirdWorldviewDigitFree();
    FourthWorldviewDigitFree();
    FifthAndSixthWorldviewsDigitFree();
    SeventhAndEighthWorldviewsDigitFree();
  }

  /** `Программист` passes the occupation check. `программист` fails it because
      its first letter is lower-case, `Монах` because it is blacklisted, and
      `R2D2` because it contains digits. */
  lemma OccupationExamples()
    ensures ValidOccupation("Программист")
    ensures !ValidOccupation("программист")
    ensures !ValidOccupation("Монах")
    ensures !ValidOccupation("R2D2")
  {
    OccupationAccepts("R2D2");
    assert IsDigit("R2D2"[1]);
  }

  /** The docstring of `check_political_views` speaks of Cyrillic letters only,
      but any non-empty text without a digit passes: Latin letters, a comma, a
      space and an exclamation mark included. */
  lemma PoliticalViewsAcceptPunctuation()
    ensures ValidPoliticalViews("Hello, world!")
  {
  }

  /** The same gap for `check_worldview`: punctuation alone passes. */
  lemma WorldviewAcceptsPunctuation()
    ensures ValidWorldview("!!!")
  {
  }
}
