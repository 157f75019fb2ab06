# Card-number extractor, modelled in Dafny

The program pulls 16-digit payment-card numbers out of arbitrary text. It does this in five steps:

1. It scans the text with the pattern `(?<!\d)(?:\d[\s-]?){15}\d(?!\d)`, using `findall`.
2. It cleans every raw match by deleting its non-digits.
3. It keeps a cleaned number when all of these hold:
   - it has sixteen digits;
   - its issuer prefix is Visa (`4`), Mastercard (51–55, 2221–2720) or Mir (2200–2204);
   - it passes the Luhn checksum.
4. Each kept number goes into the result once, in the order of its first occurrence.
5. It returns that result.

This project models that pipeline (`main.py`, lines 8–69) and proves what each stage and the whole promise.

Modules:

- `Chars` (`chars.dfy`): the character classes. These are the ASCII digits and the code points that `\s` matches in a str pattern.
- `Scanner` (`scanner.dfy`): the matching rule, stated twice.
  - `IsMatch` is the declarative form: no digit before the match, sixteen digits with at most one whitespace-or-hyphen between consecutive digits, no digit after.
  - `MatchAt` is the operational form: what the pattern does when tried at one position. The two forms are proved equal.
  - `Matches` is the search `findall` performs. It is proved to return exactly the leftmost non-overlapping matches, in text order.
- `Normalizer` (`normalizer.dfy`): `re.sub(r'\D', '', match)` and the length guard.
- `Prefix` (`prefix.dfy`): `is_valid_prefix`. This includes Python's slicing when the string is shorter than four digits.
- `Luhn` (`luhn.dfy`): `luhn_validate` as a method with a loop, proved against the total over the reversed digits. There are also lemmas on the check digit and on single-digit error detection.
- `Pipeline` (`pipeline.dfy`): `find_and_validate_card_numbers` as a method with a loop over the raw matches. It keeps a `seen` set and the result list, proved against the function `Keep`. Lemmas state membership, absence of duplicates and first-occurrence order.
- `LuhnCases`, `ScannerCases`, `PipelineCases`: the scenarios of the unit tests, proved on the model.
  - The integration text is reproduced character for character. Its captions are written in pieces of at most ten characters.

## Model

| member | source | states |
|---|---|---|
| Scanner.MatchAtIsMatch | main.py:8 | The pattern tried at position i ends at j exactly when t[i..j] satisfies the matching rule: no digit before i, sixteen digits with at most one separator between consecutive digits and none at either end, no digit at j |
| Scanner.ScanIsLeftmostMatches | main.py:56 | The spans `findall` returns are matches, in left-to-right order without overlap, and every match start lies inside one of them; no other list of spans has these properties |
| Scanner.ScanSound | main.py:56 | Every span returned is a match of the pattern |
| Scanner.NoDigitsNoMatches | main.py:8 | A text without digits yields no match |
| Scanner.DigitRunMatches | main.py:8 | A run of digits alone yields itself when it has exactly sixteen digits, and nothing otherwise (15 or 17 digits give no match) |
| Scanner.FourGroupsMatch | main.py:8 | Sixteen digits in four groups of four, separated by one whitespace or hyphen, are matched whole |
| Scanner.FourGroupsThenGroup | main.py:8 | Four groups followed by a separator and a shorter fifth group still match on the first sixteen digits: the lookahead sees only the separator |
| Scanner.FiveGroupsMatches | main.py:8 | The same, stated on the characters of the text: the match is the first nineteen characters |
| Scanner.MatchesSplit | main.py:56 | A character that is neither a digit nor a separator splits the text: the matches of a + [c] + b are those of a, then those of b |
| Scanner.ScanAfterNonDigit | main.py:56 | A leading non-digit starts and ends no match: the spans found in the longer text are those of the rest, one position further right |
| Scanner.MatchesAfterNonDigit | main.py:8 | Putting any non-digit, separators included, in front of a text does not change its matches |
| Normalizer.NormalizeKeeps | main.py:60-62 | The cleaned match survives the length guard exactly when the match holds sixteen digits, and it is then the digits of the match |
| Normalizer.NormalizeMatches | main.py:60-62 | The length guard never discards a raw match of the pattern |
| Normalizer.DigitsOnlyCount | main.py:60 | Deleting non-digits leaves as many characters as the text has digits |
| Normalizer.DigitsOnlyFixed | main.py:60 | Cleaning leaves a string unchanged exactly when it consists of digits only |
| Normalizer.DigitsOnlyIdempotent | main.py:60 | Cleaning twice is cleaning once |
| Normalizer.DigitsOnlyAppend | main.py:60 | Cleaning distributes over concatenation |
| Normalizer.FourGroupsClean | main.py:60 | Cleaning a number written in four groups gives back the sixteen digits |
| Prefix.DecimalValueHead | main.py:18-19 | `int(s[:2])` and `int(s[:4])` are the values of the first two and four digits |
| Prefix.PrefixByDigits | main.py:18-29 | For four digits or more, the prefix rule accepts exactly a leading 4, 51–55, 2200–2204 and 2221–2720, written digit by digit |
| Prefix.PrefixShort | main.py:18-29 | For one to three digits, only a leading 4 or a two-digit 51–55 is accepted |
| Prefix.MastercardRange | main.py:23-24 | 51… and 55… are accepted, 50… and 56… rejected: the range is inclusive |
| Prefix.MirRange | main.py:27-28 | 2200… and 2204… are accepted, 2199… and 2205… rejected |
| Prefix.MastercardSeries2Range | main.py:25-26 | 2221… and 2720… are accepted, 2220… and 2721… rejected |
| Prefix.PrefixAcceptsExamples | unit_tests.py:36-37 | The Visa and Mastercard test numbers are accepted |
| Prefix.PrefixAcceptsSeries2Examples | unit_tests.py:38-39 | The Mir and 2-series Mastercard test numbers are accepted |
| Prefix.PrefixRejectsExamples | unit_tests.py:42-44 | The numbers starting 1, 6 and 2205 are rejected |
| Luhn.LuhnTerm | main.py:42-48 | The term a digit adds is at most nine: the digit itself at even positions, the digit sum of its double at odd positions |
| Luhn.ReversedDigits | main.py:40 | `list(map(int, s[::-1]))`: the k-th element is the value of the k-th digit from the right |
| Luhn.LuhnValidate | main.py:32-49 | The loop returns true exactly when the input is a non-empty digit string whose weighted total over the reversed digits is a multiple of ten |
| Luhn.LuhnNeedsDigits | main.py:36-37 | The empty string and any string with a non-digit are rejected |
| Luhn.LuhnCheckDigit | main.py:39-49 | A digit string is valid exactly when its last digit is the check digit computed from the digits before it |
| Luhn.LuhnDetectsSingleDigitError | main.py:39-49 | Changing one digit of a valid number always makes it invalid |
| Luhn.TermSumDiff | main.py:41-48 | Two digit lists that differ at one place differ in total only by the terms at that place |
| LuhnCases.VisaValid | unit_tests.py:21 | 4242424242424242 passes |
| LuhnCases.MastercardValid | unit_tests.py:22 | 5555555555554444 passes |
| LuhnCases.MirValid | unit_tests.py:23 | 2200601177358396 passes |
| LuhnCases.VisaTypoInvalid | unit_tests.py:27 | 4242424242424243 fails |
| LuhnCases.FiveDigitsInvalid | unit_tests.py:28 | 12345 fails, on its checksum and not on its length |
| LuhnCases.NonDigitsInvalid | unit_tests.py:29 | The empty string and "not a number" fail |
| LuhnCases.TwoDigitsValid | main.py:36-49 | No length is checked: the two-digit string 18 passes |
| LuhnCases.MastercardTypoInvalid | unit_tests.py:54 | 5555555555554443 fails |
| Pipeline.Check | main.py:60-65 | A raw match is kept exactly when its cleaned form has sixteen digits and passes both checks, and what is kept is the cleaned form |
| Pipeline.FindAndValidateCardNumbers | main.py:52-69 | The loop with its `seen` set returns Keep of the outcomes of the raw matches; the result has no duplicates and each element has sixteen digits, a valid prefix and a valid checksum |
| Pipeline.KeepStep | main.py:66-68 | One more outcome appends its number exactly when it is kept and not yet in the result |
| Pipeline.KeepMembers | main.py:59-68 | A number is in the result exactly when some raw match is kept as it |
| Pipeline.KeepDistinct | main.py:66-68 | No number is returned twice |
| Pipeline.KeepOrder | main.py:57-69 | Numbers come out in the order of their first acceptance |
| ScannerCases.PlainNumberMatches | unit_tests.py:53 | A sixteen-digit number without separators is one match |
| ScannerCases.GroupedMatches | unit_tests.py:52-55 | The hyphen- and space-grouped test numbers are matched whole |
| ScannerCases.SeventeenNoMatch | unit_tests.py:56 | 4242-4242-4242-42421 yields no match |
| ScannerCases.FifthGroupLeftOver | main.py:8 | 1234-5678-9012-3456-7890 yields 1234-5678-9012-3456 |
| ScannerCases.LineMatches | main.py:56 | A line made of a caption without digits, a colon, a space, a number and a full stop has the matches of its number |
| ScannerCases.LinesMatches | main.py:56 | Lines whose captions and ending hold no digit have the matches of their numbers, one number after the other |
| ScannerCases.SampleMatches | unit_tests.py:50-58 | `findall` on the integration text returns the five 16-digit numbers in text order, the repeated one twice, and nothing for the 17-digit one |
| PipelineCases.PlainCheck | main.py:60-65 | A sixteen-digit match is kept as itself exactly when both checks pass |
| PipelineCases.GroupedCheck | main.py:60 | Writing a number in four groups does not change what the loop makes of it |
| PipelineCases.VisaChecked | unit_tests.py:52 | The hyphenated Visa number is kept, cleaned |
| PipelineCases.MirChecked | unit_tests.py:53 | The Mir number is kept |
| PipelineCases.BadSumChecked | unit_tests.py:54 | The number with a wrong checksum is dropped |
| PipelineCases.BadPrefixChecked | unit_tests.py:55 | The number starting 6011 is dropped |
| PipelineCases.KeepSample | main.py:66-68 | Two kept numbers, two dropped matches and a repeat of the first give the two numbers once each, in order |
| PipelineCases.SampleOutcomes | unit_tests.py:50-58 | What the loop makes of each of the five matches of the integration text |
| PipelineCases.SampleResult | unit_tests.py:50-68 | The integration text yields exactly 4242424242424242 and 2200601177358396, in that order |
| PipelineCases.VisaAlone | unit_tests.py:52 | The hyphenated Visa number alone yields its sixteen digits |
| PipelineCases.BadSumAlone | unit_tests.py:54 | The number with a wrong checksum alone yields the empty list |
| PipelineCases.BadPrefixAlone | unit_tests.py:55 | The number starting 6011 alone yields the empty list |
| PipelineCases.SeventeenAlone | unit_tests.py:56 | The seventeen-digit number alone yields the empty list |
| PipelineCases.NoDigitsNoCards | main.py:56-69 | A text without digits yields the empty list |
| PipelineCases.NoCardsResult | unit_tests.py:73-76 | The sentence of the no-cards test yields the empty list |

## Left out

- Reading text from a URL (main.py:74-92) and from a file (main.py:95-110): network and file I/O. The core receives the text as a parameter.
- `main()` (main.py:115-150): console input, printing, `sys.exit` and the presentation-only sorting.
- The `re` engine. The pattern is modelled by its matching rule. With the separator optional and greedy, and the next slot needing a digit, the pattern has one possible end at each start, so backtracking adds nothing.
- Unicode digits. `\d`, `\D`, `isdigit()` and `int()` are modelled on the ASCII digits `'0'..'9'` only. Non-ASCII decimal digits would be matched and cleaned by the program, and `int` would accept or reject them in ways not captured here.
- Prefix.IsValidPrefix: requires a non-empty digit string. The program raises `ValueError` (main.py:18-19) on the empty string and on most non-digit input. A few non-digit strings get a verdict instead, since `int` accepts a sign and surrounding whitespace (`"4 "` is accepted, `"+5111111111111111"` rejected). The precondition excludes all of them, and the pipeline only ever calls it on sixteen digits.
- Luhn.LuhnValidate: a string that `isdigit()` accepts but `int` rejects (such as a superscript digit) would make the program raise. With ASCII digits this path does not exist.
- The unit-test mocks for the I/O functions.
- The integration test compares with `assertCountEqual`, and a comment there calls the order undetermined. The code keeps first-occurrence order, and the model follows the code (Pipeline.KeepOrder, PipelineCases.SampleResult).
