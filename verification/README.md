# Record validation in Dafny

This project models the record-validation engine of `main.py`. A record has
nine fields: e-mail, height, tax identifier (INN), passport series, age,
occupation, political views, worldview and address. The class `Validator`
checks each field with one predicate. `check_all` runs the nine predicates in
a fixed order and returns the index of the first one that fails, or 9 when
all of them pass. The batch loop adds each verdict either to the failing
check's counter or to the count of valid records.

Modules, one per file:

- `CharClasses` (`chars.dfy`): the character classes used by the patterns.
  - `\d` is an ASCII digit.
  - `\D` is any other character.
  - `\w` is an ASCII letter, an ASCII digit, `_`, or a Cyrillic letter in U+0400..U+045F.
  - `\s` is exactly the set of characters that Python's `str.isspace` accepts.
  - `[А-Я]` is U+0410..U+042F, so it does not include `Ё`.
- `Regex` (`regex.dfy`): a small regular-expression syntax `Re` and its
  language, `Matches`. Two further predicates give Python's matching rules:
  - `MatchPrefix` is `re.match` without an end anchor: some prefix of the text matches.
  - `MatchLine` is `re.match` with `^…$`. Python's `$` also matches just before a single final line feed.
- `Decimal` (`decimal.dfy`): decimal text.
  - Python's `str` of an integer.
  - The value of a string of digits.
  - `HundredthsText`, the text Python prints for a height of `h` hundredths of a metre.
- `Validator` (`validator.dfy`): the three blacklists and the nine field
  checks. Each check is a direct recogniser over the field's text.
- `Patterns` (`patterns.dfy`): each regular expression of `main.py`,
  transcribed into `Re`. Each comes with a lemma proving that the recogniser
  in `Validator` accepts exactly what `re.match` accepts.
- `FieldFacts` (`fields.dfy`): what each check accepts, in the field's own
  terms: age and height ranges, the shape of passport series and tax
  identifiers, the e-mail anchoring, and the blacklists.
- `Classifier` (`classifier.dfy`): the `Record` datatype and `Classify`, which is `check_all`.
- `Batch` (`batch.dfy`): the counting loop, as a method over a sequence of records.

Height is declared as a `float` in the source. Here it is the text
`str(height)`, and its value is read from that text in integer hundredths.
`HundredthsText(h)` is the text Python prints for `h / 100` when `h < 10000`.
The statements about height ranges are made over that text.

The docstring of `check_email` (main.py:71-73) says that an e-mail containing
spaces, commas or double dots, or one with a wrong domain, fails the check.
The code does not keep that promise. The pattern at main.py:77 is anchored
only at the start, so nothing after the first two letters of the top-level
domain is read. `a@b.co x`, `a@b.co,,` and `a@b.co..x` all pass
(`FieldFacts.EmailAcceptsTrailingSpace`, `EmailAcceptsTrailingCommas`,
`EmailAcceptsDoubleDot`). So does `a@bb.toolongtld`, whose top-level domain
is longer than the six letters the pattern allows (`FieldFacts.EmailLongTldAccepted`).
This model follows the code.

The docstrings of `check_political_views` and `check_worldview`
(main.py:154, 166) speak of Cyrillic letters only. The code at main.py:159
and 171 accepts any non-empty text without a digit and off the blacklist:
`Hello, world!` passes as a political view and `!!!` as a worldview
(`FieldFacts.PoliticalViewsAcceptPunctuation`, `WorldviewAcceptsPunctuation`).

## Model

| member | source | states |
|---|---|---|
| Regex.MatchPrefix | main.py:77 | `re.match` with no `$`, as in `check_email` (main.py:77) and `check_passport_series` (main.py:112): some prefix of the text, possibly empty, matches the pattern |
| Regex.MatchLine | main.py:88 | `re.match` with `^…$`, as in main.py:88, 100, 123, 134, 146, 159 and 171: the whole text matches, or the text ends in one line feed and the text before it matches |
| Patterns.EmailRe | main.py:77 | the transcription of `\w+@[a-zA-Z_]+?\.[a-zA-Z]{2,6}` |
| Patterns.HeightRe | main.py:88 | the transcription of `\d{1,2}\.\d{1,2}` |
| Patterns.InnRe | main.py:100 | the transcription of `\d{12}` |
| Patterns.PassportRe | main.py:112 | the transcription of `\d{2}\s\d{2}` |
| Patterns.AgeRe | main.py:123 | the transcription of `\d{2}` |
| Patterns.AddressRe | main.py:134 | the transcription of `(ул\.)?(Аллея)?\s[\w\.\s-]+\d+` |
| Patterns.OccupationRe | main.py:146 | the transcription of `([A-Z]\|[А-Я])[\D]+` |
| Patterns.DigitFreeRe | main.py:159 | the transcription of `[\D]+`, the pattern of both main.py:159 and main.py:171 |
| Validator.ValidEmail | main.py:77-79 | `check_email`: a run of word characters, `@`, a run of `[a-zA-Z_]`, a dot and two Latin letters open the e-mail; the rest is not read (partner: `Patterns.EmailMatches`) |
| Validator.Hundredths | main.py:88-89 | `float(height)` for a text of the shape `\d{1,2}\.\d{1,2}`, in hundredths; always below 10000, that is below 100.00 |
| Validator.ValidHeight | main.py:88-91 | `check_height` on the text `str(height)`: the shape `\d{1,2}\.\d{1,2}` (a final line feed allowed) and a value strictly between 100 and 250 hundredths (partners: `Patterns.HeightMatches`, `FieldFacts.HeightRange`) |
| Validator.ValidInn | main.py:100-102 | `check__inn`: twelve digits, a final line feed allowed (partner: `Patterns.InnMatches`) |
| Validator.ValidPassportSeries | main.py:112-114 | `check_passport_series`: five characters, digits at positions 0, 1, 3 and 4 and whitespace at 2 (partner: `Patterns.PassportMatches`) |
| Validator.ValidAge | main.py:123-125 | `check_age`: `str(age)` is two digits and 14 < age < 99 (partners: `Patterns.AgeMatches`, `FieldFacts.AgeRange`) |
| Validator.ValidAddress | main.py:134-136 | `check_address`: optional `ул.`, optional `Аллея`, one whitespace character, then street characters ending in a digit (partner: `Patterns.AddressMatches`) |
| Validator.ValidOccupation | main.py:146-149 | `check_occupation`: off the blacklist, a capital Latin or Cyrillic letter, then one or more non-digits (partners: `Patterns.OccupationMatches`, `FieldFacts.OccupationAccepts`) |
| Validator.ValidPoliticalViews | main.py:158-161 | `check_political_views`: off the blacklist, non-empty and digit-free (partner: `Patterns.DigitFreeMatches`) |
| Validator.ValidWorldview | main.py:170-173 | `check_worldview`: off the blacklist, non-empty and digit-free (partner: `Patterns.DigitFreeMatches`) |
| Decimal.NatText | main.py:123 | `str(n)` for n >= 0: at least one character, all of them digits; `Decimal.NatTextRoundTrip` reads it back to `n` |
| Decimal.IntText | main.py:123 | `str(age)`: non-empty; it starts with `-` exactly when the age is negative, and is all digits otherwise |
| Decimal.HundredthsText | main.py:88 | `str(height)` for a height of `h` hundredths below 100.00: three to five characters, one or two digits, a dot, then digits; the first and last characters are digits |
| Patterns.EmailMatches | main.py:77 | the e-mail recogniser holds exactly when some prefix of the text matches `\w+@[a-zA-Z_]+?\.[a-zA-Z]{2,6}` |
| FieldFacts.EmailIgnoresSuffix | main.py:77 | the e-mail check is anchored only at the start: appending any text to an accepted e-mail keeps it accepted |
| FieldFacts.EmailAccepted | main.py:77 | `a@b.co` passes the e-mail check |
| FieldFacts.EmailWithoutTldRejected | main.py:77 | `a@b` fails the e-mail check |
| FieldFacts.EmailAcceptsTrailingSpace | main.py:71-77 | `a@b.co x` passes, although the docstring says an e-mail containing a space fails |
| FieldFacts.EmailAcceptsTrailingCommas | main.py:71-77 | `a@b.co,,` passes, although the docstring says an e-mail containing a comma fails |
| FieldFacts.EmailAcceptsDoubleDot | main.py:71-77 | `a@b.co..x` passes, although the docstring says an e-mail containing a double dot fails |
| FieldFacts.EmailLongTldAccepted | main.py:77 | a top-level domain longer than six letters still passes, because only a prefix has to match |
| Patterns.DecimalShapeMatches | main.py:88 | the height-shape recogniser holds exactly for the texts matching `\d{1,2}\.\d{1,2}` |
| Patterns.HeightMatches | main.py:88 | the shape part of `check_height` holds exactly when `re.match(r"^\d{1,2}\.\d{1,2}$", text)` succeeds, a final line feed included |
| FieldFacts.HundredthsTextRoundTrip | main.py:88-89 | the text printed for `h` hundredths has the decimal shape, and reading it back gives `h` |
| FieldFacts.HeightRange | main.py:88-89 | for a height of `h` hundredths, the check holds exactly when 100 < h < 250; both bounds are exclusive |
| FieldFacts.HeightBoundaries | main.py:88-89 | 1.0 and 2.5 fail; 1.01 and 2.49 pass |
| Patterns.InnMatches | main.py:100 | the INN check holds exactly when `^\d{12}$` matches, a final line feed included |
| FieldFacts.InnShape | main.py:100 | the INN check holds exactly for twelve digits, optionally followed by a single line feed |
| Patterns.PassportReMatches | main.py:112 | `\d{2}\s\d{2}` matches in full exactly the five-character texts with digits at positions 0, 1, 3 and 4 and whitespace at position 2 |
| Patterns.PassportMatches | main.py:112 | the passport check holds exactly when the length is 5 and `re.match(r"\d{2}\s\d{2}", s)` succeeds |
| FieldFacts.PassportExamples | main.py:112 | `12 34` and `12\t34` pass; `1234` and `123 45` fail |
| Patterns.AgeMatches | main.py:123 | the age check holds exactly when `str(age)` matches `^\d{2}$` and 14 < age < 99 |
| FieldFacts.AgeTextIsTwoDigits | main.py:123 | the pattern half alone holds exactly for ages 10..99, so negative, one-digit and three-digit ages fail it |
| FieldFacts.AgeRange | main.py:123 | the age check holds exactly for ages 15..98 |
| Patterns.HouseTailMatches | main.py:134 | the street-and-house recogniser holds exactly for the texts matching `[\w\.\s-]+\d+` |
| Patterns.AddressShapeMatches | main.py:134 | the address recogniser, with greedy markers, holds exactly for the texts matching `(ул\.)?(Аллея)?\s[\w\.\s-]+\d+` |
| Patterns.AddressMatches | main.py:134 | the address check holds exactly when `re.match` with `^…$` succeeds, a final line feed included |
| Patterns.OccupationReMatches | main.py:146 | `([A-Z]\|[А-Я])[\D]+` matches exactly the texts of at least two characters that start with a capital Latin or Cyrillic letter and have no digit after it |
| Patterns.OccupationMatches | main.py:146 | the pattern part of the occupation check holds exactly when `^([A-Z]\|[А-Я])[\D]+$` matches |
| FieldFacts.OccupationAccepts | main.py:146-147 | the occupation check holds exactly for a value off the blacklist that has at least two characters, starts with a capital Latin or Cyrillic letter, and contains no digit |
| FieldFacts.OccupationExamples | main.py:146-147 | `Программист` passes; `программист`, the blacklisted `Монах` and `R2D2` fail |
| FieldFacts.PoliticalViewsAcceptPunctuation | main.py:151-161 | `Hello, world!` passes the political-views check, although the docstring speaks of Cyrillic letters only |
| FieldFacts.WorldviewAcceptsPunctuation | main.py:163-173 | `!!!` passes the worldview check, although the docstring speaks of Cyrillic letters only |
| Patterns.DigitFreeMatches | main.py:159 | the pattern part of the political-views and worldview checks holds exactly when `^[\D]+$` matches |
| Validator.OccupationBlacklist | main.py:34 | the six occupations rejected by name, character for character as in the source |
| Validator.PoliticalViewsBlacklist | main.py:35-37 | the four political views rejected by name, character for character as in the source |
| Validator.WorldviewBlacklist | main.py:38-39 | the eight worldviews rejected by name, character for character as in the source |
| FieldFacts.BlacklistsAndDigitsReject | main.py:34-39 | each of the occupation, political-views and worldview checks rejects every value on its blacklist and every value containing a digit |
| FieldFacts.OccupationBlacklistMatchesPattern | main.py:34 | every occupation on the blacklist has the shape the pattern accepts, so only the list rejects it |
| FieldFacts.PoliticalViewsBlacklistMatchesPattern | main.py:35-37 | every political view on the blacklist is digit-free and non-empty, so only the list rejects it |
| FieldFacts.WorldviewBlacklistMatchesPattern | main.py:38-39 | every worldview on the blacklist is digit-free and non-empty, so only the list rejects it |
| Classifier.Check | main.py:181-198 | check number `i` of `check_all`, in its order: 0 e-mail, 1 height, 2 INN, 3 passport series, 4 age, 5 occupation, 6 address, 7 political views, 8 worldview |
| Classifier.Classify | main.py:175-200 | the verdict lies in 0..9; every check before the verdict passes; the check at the verdict fails; 9 means all nine pass, and the converse holds |
| Classifier.FailureBoundsVerdict | main.py:181-198 | when check `i` fails, the verdict is at most `i`: a later failure is never reported in place of an earlier one |
| Classifier.EmailBeforeAge | main.py:181-190 | a record failing both e-mail and age gets verdict 0 |
| Classifier.AddressBeforeWorldview | main.py:181-198 | a record whose first six checks pass and which fails both address and worldview gets verdict 6 |
| Classifier.AgeFailure | main.py:181-190 | a record whose first four checks pass and which fails age gets verdict 4, whatever the later checks say |
| Classifier.EmailFailure | main.py:181-182 | a record failing e-mail gets verdict 0, whatever the other checks say |
| Classifier.AllChecksPass | main.py:181-200 | a record passing all nine checks gets verdict 9 |
| Batch.Start | main.py:239-240 | before the first record, the nine per-check counters and the valid count are all zero |
| Batch.Invalid | main.py:258-260 | `number_of_invalid_records` equals `checkers[0] + … + checkers[8]`, the nine-term sum the source writes out |
| Batch.Step | main.py:246-256 | one loop pass raises exactly one of the ten counters, by one: the valid count for verdict 9, otherwise `checkers[verdict]` |
| Batch.CountIsPositions | main.py:239-260 | the count of a verdict equals the number of positions that hold it |
| Batch.CountRecords | main.py:239-260 | after the loop, `checkers[i]` is the number of records with verdict `i`; the valid count is the number with verdict 9; and invalid plus valid equals the number of records |
| Batch.ScenarioClassified | main.py:181-200 | in a ten-record batch where records other than 3 and 7 pass every check, record 3 passes the first four checks and fails age, and record 7 fails e-mail and height, the verdicts are 4 for record 3, 0 for record 7 and 9 for the rest |
| Batch.ScenarioCount | main.py:247-256 | in the scenario's verdicts, 9 occurs eight times, 4 and 0 once each, and every other verdict never |
| Batch.TenRecordScenario | main.py:239-256 | that batch counts one age failure, one e-mail failure, no height failure and eight valid records |

## Left out

- Reading the input file (`ReadFile`, main.py:203-230): file I/O and windows-1251 decoding. The model takes the records as a sequence.
- Command-line parsing, the progress bar, the summary printout and the output-file text (main.py:233-272). These are plumbing and make no decisions. `CountRecords` returns the counters instead of printing them.
- Binary floating point in `check_height`: the model works on the decimal text `str(height)`. `HundredthsText` covers heights below 100.00; Python's exponent notation for very large or very small floats is not modelled.
- Full Unicode `\w`, `\d` and `[А-Я]` semantics: `\d` is ASCII digits only, and `\w` is limited to ASCII word characters plus Cyrillic U+0400..U+045F. Other scripts' letters and digits are classified as non-word and non-digit characters.
- FieldFacts.HeightRange: stated only for heights printed as `HundredthsText(h)` with `h < 10000`. `ValidHeight` itself accepts any text.
- Records with a missing field (a `KeyError` at main.py:243): every `Record` has all nine fields.
- Field types: every field of `Record` has one fixed type. `age` is an integer, and the other eight fields are strings, including `height` as its text `str(height)`. Seven fields are handed directly to `re.match` or `len`: e-mail, INN, passport series, occupation, political views, worldview and address. In the source a JSON value of another type in one of them makes the check raise `TypeError` and aborts the whole batch, with one exception described below. For the six fields other than the passport series, `re.match` raises; in occupation, political views and worldview the blacklist test `not in` comes first and does not raise. For example, a number in `inn` makes `re.match` raise at main.py:100. In `passport_series` (main.py:112) a number makes `len` raise. A JSON array or object there has a length, and `len == 5` is tested first: when its length is not 5 the check returns False quietly and the record is counted under verdict 3; only one of exactly five entries reaches `re.match` and raises. Neither the raising nor the quiet failure of a non-string value is modelled. `check_height` (main.py:88) never raises: it applies `str` first and calls `float` only on a text of the decimal shape, so every height value, a JSON string included, is covered by its text `str(height)`.
- Age given as a JSON string: `check_age` (main.py:123) applies only `str` and `int` to the value, so a string age that parses, such as `"25"` or `"25\n"`, passes in the source. `Record.age` is an integer, so such a record is not modelled. A float age such as `25.0` fails the pattern without raising, and is not modelled either.
- Regex search strategy: lazy (`+?`) and greedy quantifiers are treated alike, because `re.match` only reports whether a match exists.
