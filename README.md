# Password strength checker: the scoring engine in Dafny

This project models the scoring core of the password strength checker,
`pass_check.py`. The core takes a password and returns a score between 0 and 10,
an ordered list of feedback messages, a qualitative label and a ten-slot meter.
Scoring adds these parts:

- **Length** (`check_length`): 0 to 3 points, one message carrying the measured length.
- **Character types** (`check_character_types`): one point and one message per class.
  The classes are digits, uppercase, lowercase and the detected specials. There are always four messages.
- **Patterns** (`check_patterns`): one point off and one message per detection.
  - Every common pattern found costs a point.
  - The keyboard list stops at its first match, forwards or reversed.
  - The sequential-numbers regex and the repeated-character regex cost a point each.
- **Entropy bonus** (inside `calculate_entropy` and `check_password_strength`): one point when
  `length * log2(alphabet size)` reaches 60 bits.

`check_password_strength` clamps the sum to [0, 10]. `get_strength_label` and
`generate_password_meter` present the score.

Passwords are `string` (`seq<char>`) with ASCII semantics throughout.
A feedback message is an `Item(severity, message)`:

- The severity stands for the source's colour and emoji:
  - green check mark is `Positive`;
  - yellow information sign is `Warning`;
  - red cross or warning sign is `Negative`.
- The message names its kind and carries its literal values: the length, the class
  and count, the matched pattern, or the entropy.

The entropy appears in a message as `Bits(length, alphabetSize)`, or `NoAlphabet` when it is 0.

Modules, one per component:

- `Config`: the CONFIG constants.
  - It keeps the two special-character definitions apart. `SPECIAL_CHARS` is the broad configured
    set, 29 characters; nothing in scoring reads it. `DETECTED_SPECIALS` is the regex class
    `[!@#$%^&*(),.?":{}|<>]`, 20 characters. Counting and entropy use this one, and entropy
    still adds 32 to the alphabet for it.
- `Text`: the character classes and `str.lower` on ASCII. It also holds the `in` substring
  test, reversal, and the two run regexes `\d{3,}` and `(.)\1{3,}`, written as predicates.
  - The regex `.` does not match a newline, so four newlines in a row are not penalised.
- `Feedback`: severities, message kinds, items.
- `Entropy`: the alphabet size and the bonus decision `size^length >= 2^60`.
- `LengthCheck`, `CharacterTypes`, `Patterns`, `Strength`, `Label`, `Meter`: one per function
  of the source.
  - Functions that are straight conditionals stay Dafny functions.
  - Code that accumulates with `+=`, `append` and loops is a Dafny method.
  - The methods for character types, patterns and the total score are each proved equal to
    a specification function (`CharTypeFeedback`, `PatternFeedback`, `Evaluate`). The
    properties are then lemmas about those functions.
  - The meter method has no specification function. Its `ensures` describe the ten slots
    directly: their number, which ones are filled, their tier and the filled count.
- `Scenarios`: reports for concrete passwords. They include `""`, `"qwerty123"`,
  `"Xk9#mQ2!vL"`, `"Aa1!aaaa"` and `"qwert"` against `"qwertY"`.

Consequences of the code that the lemmas establish:

- **The score never exceeds 8.** The best raw total is 3 + 4 + 0 + 1. So the upper clamp
  never applies, the "Very Strong" label is unreachable and the meter never fills more than
  eight slots (`Strength.RawTotalRange`, `Scenarios.VeryStrongUnreachable`).
- **The entropy bonus needs at least ten characters.** Ten characters are enough only with a
  large alphabet. Sixty characters from any class are always enough.
- **Adding a missing class can lower the total score.** `"qwert"` scores 1 and `"qwertY"`
  scores 0. The new letter completes "qwerty", which costs a common-pattern and a
  keyboard-pattern penalty (`Scenarios.AddingClassCanLowerScore`). The class points
  themselves do rise by exactly one.
- `"qwerty123"` has 9 characters and scores 0; `"Xk9#mQ2!vL"` has 10 characters and scores 6.

## Model

| member | source | states |
|---|---|---|
| `Config.DetectedSpecialsNarrower` | pass_check.py:19 | every detected special is in the configured SPECIAL_CHARS, and `=` and `\` are configured but never detected |
| `Text.CountPositiveIff` | pass_check.py:104-109 | the findall count of a class is positive exactly when a search for the class finds a character |
| `Entropy.AlphabetSize` | pass_check.py:71-79 | the alphabet size is 0 exactly when no class is present, and otherwise lies between 10 and 94 |
| `Entropy.AlphabetEmptyIff` | pass_check.py:80-81 | entropy is zero exactly when no character is a digit, an ASCII letter or a detected special (empty or all-whitespace input among them) |
| `Entropy.EntropyOf` | pass_check.py:80-84 | the reported entropy is zero exactly for the empty alphabet; otherwise it stands for length times log2 of the alphabet size, with at least one character and at least ten symbols, so it is positive |
| `Entropy.BonusNeedsTenCharacters` | pass_check.py:211-216 | no password shorter than ten characters reaches 60 bits, even with all 94 symbols |
| `Entropy.SixtyCharactersSuffice` | pass_check.py:211-216 | sixty characters from any non-empty alphabet always reach 60 bits |
| `Entropy.BonusExtends` | pass_check.py:211-216 | extending a password never loses the entropy bonus |
| `Entropy.LongerMeansMoreEntropy` | pass_check.py:83 | repeating a password keeps its non-empty alphabet and gives strictly more entropy, as "aaaaaaaa" has more than "aaaa" |
| `Entropy.TwelveSpecialsOnThreshold` | pass_check.py:78-84 | twelve detected specials give exactly 60 bits (32^12 = 2^60) and earn the bonus; eleven do not |
| `LengthCheck.CheckLength` | pass_check.py:86-96 | points are the number of thresholds 8, 12 and 20 that the length reaches; the single message has the tier's kind and severity and carries the measured length |
| `LengthCheck.LengthMonotone` | pass_check.py:86-96 | a longer password never gets a lower length tier |
| `CharacterTypes.CheckCharacterTypes` | pass_check.py:98-139 | exactly four messages, ordered digits, upper, lower, special; each one is Positive with the count when its class is present and otherwise Negative "missing"; the points equal the number of classes present, 0 to 4 |
| `CharacterTypes.CharTypePointsByClass` | pass_check.py:111-137 | the character-type points are the sum of one indicator per class present |
| `CharacterTypes.CharTypePointsExtend` | pass_check.py:111-137 | extending a password never lowers its character-type points |
| `CharacterTypes.AddingMissingClass` | pass_check.py:111-137 | appending a character of a missing class adds exactly one character-type point |
| `Patterns.CheckPatterns` | pass_check.py:141-169 | the messages are the common hits, then the first keyboard hit, then the sequential and repeated penalties, and the points are minus their number |
| `Patterns.CommonHitsExact` | pass_check.py:147-150 | with no early exit, every common pattern that occurs in the lowercased password yields its message and no other pattern does; there are no common messages exactly when no pattern occurs |
| `Patterns.CommonHitsDistinct` | pass_check.py:147-150 | over a list without repeated patterns, no common-pattern message appears twice |
| `Patterns.CommonHitsCount` | pass_check.py:147-150 | over a list without repeated patterns, the number of common-pattern messages is the number of listed patterns that occur |
| `Patterns.CommonPenaltyCount` | pass_check.py:147-150 | for the configured list, each common pattern that occurs in the lowercased password costs exactly one point and is reported once |
| `Patterns.FirstKeyboardHitExact` | pass_check.py:153-157 | the keyboard check reports the first listed pattern that occurs forwards or reversed, and none exactly when no pattern matches |
| `Patterns.SequentialIffDigitRun` | pass_check.py:160-162 | the sequential penalty applies exactly when three digits stand in a row; the descending alternatives add nothing |
| `Patterns.PatternRange` | pass_check.py:141-169 | pattern points lie in [-10, 0] and equal minus the number of pattern messages |
| `Strength.Clamp` | pass_check.py:219 | the result is in [0, 10], equals the total inside that range, is 0 below it and is 10 above it |
| `Strength.CheckPasswordStrength` | pass_check.py:190-221 | the score is the clamped sum of the length, class and pattern points plus the entropy bonus; the feedback is the length message, the four class messages, the pattern messages and the entropy message, in that order; the score lies in [0, 10] |
| `Strength.RawTotalRange` | pass_check.py:190-221 | the raw total lies in [-10, 8], so the final score lies in [0, 8] and equals the raw total when that is not negative |
| `Strength.FeedbackLayout` | pass_check.py:195-216 | the report has 6 to 16 messages: length first, the four class messages next, the pattern messages, and the entropy message last |
| `Strength.ZeroEntropyWarning` | pass_check.py:211-216 | with an empty alphabet there is no bonus, the last message is the low-entropy warning for zero bits, and there are no class points |
| `Strength.NoClassIffNoAlphabet` | pass_check.py:69-139 | the entropy alphabet is empty exactly when the character-type points are zero |
| `Label.StrengthLabel` | pass_check.py:223-234 | every score in [0, 10] gets the label of its band (0-2, 3-4, 5-6, 7-8, 9-10); scores below the range get Very Weak and scores above it get Very Strong |
| `Label.BandsPartition` | pass_check.py:223-234 | every score in [0, 10] lies in exactly one label band |
| `Label.LabelMonotone` | pass_check.py:223-234 | a higher score never gets a weaker label |
| `Meter.GeneratePasswordMeter` | pass_check.py:171-188 | always ten slots; slot i is filled exactly when i is below the score; filled slots use the tier chosen by the score alone; the number filled is the score clamped to [0, 10] |
| `Scenarios.EmptyPasswordReport` | pass_check.py:190-221 | the empty password scores 0, with messages too short (0), the four missing classes and low entropy (zero) |
| `Scenarios.QwertyScoresZero` | pass_check.py:141-169 | "qwerty123" has the common-pattern messages for "123" and "qwerty", the keyboard message for "qwerty" and the sequential message, and it scores 0 |
| `Scenarios.MixedPasswordScoresSix` | pass_check.py:190-221 | "Xk9#mQ2!vL" scores 6: 1 for length, 4 for the classes, 1 for entropy, no pattern penalty |
| `Scenarios.RepeatedCharacterExamples` | pass_check.py:165-167 | "Aa1!aaaa" and "aaaa" trigger the repeated-character check; "Aa1!aaa", "aaa" and four newlines do not |
| `Scenarios.LabelBoundaries` | pass_check.py:225-234 | scores 2 to 10 get labels at the band edges: 2 Very Weak, 3 and 4 Weak, 5 and 6 Moderate, 7 and 8 Strong, 9 and 10 Very Strong |
| `Scenarios.VeryStrongUnreachable` | pass_check.py:219-234 | no password's score is labelled Very Strong |
| `Scenarios.AddingClassCanLowerScore` | pass_check.py:190-221 | appending "Y" to "qwert" adds a character-type point yet lowers the score from 1 to 0 |

## Left out

- `main` (pass_check.py:236-277) is left out. It is the input loop, the `quit` sentinel, the
  `time.sleep` animation, printing, logging and the catch-all error message. All of that is I/O.
- `print_banner`, colorama `init`/`Fore`/`Style` and `logging.basicConfig` (pass_check.py:8-67)
  are left out. They are presentation and file I/O. Message texts, colours and emoji are
  reduced to message kinds and severities.
- `LengthCheck.CheckLength`: the too-short message does not carry the constant minimum (8)
  that the source's text also prints.
- `Label.StrengthLabel`: the emoji and colour the source returns beside the label are left out.
- `Entropy.MeetsMinEntropy` is stated as `size^length >= 2^60` on integers, with no floating
  point. The source compares `round(length * log2(size), 2)` with 60. Rounding to two
  decimals could flip a value within 0.005 bits of 60. The model does not capture that.
  The one exact case, 32^12 = 2^60, is proved to earn the bonus.
- The float value of the entropy in the messages is left out. It is kept symbolic as the pair
  (length, alphabet size).
- `Meter.FilledBlocks` takes the float `int((score / 10) * 10)` to be the score itself. This
  assumes the float product is exact for integer scores.
- `Meter.GeneratePasswordMeter` returns slots, not the coloured string, so the colour codes
  and the final `RESET_ALL` are left out.
- Unicode behaviour is left out. Python's `\d` matches non-ASCII digits, and `str.lower()`
  maps non-ASCII letters. Here only `0`-`9` are digits and only `A`-`Z` are lowered.
  Every other character belongs to no class and is left unchanged.
- Python's regex engine is replaced by hand-written predicates with the same matches.
- The unused imports `random` and `string` are left out. `SPECIAL_CHARS` is kept only as a
  constant, because no scoring code reads it.
