/** `check_password_strength`: the sum of the parts plus the entropy bonus,
    clamped to [0, 10], with the feedback of every part in a fixed order. */
module Strength {
  import opened Config
  import opened Text
  import opened Feedback
  import opened Entropy
  import opened LengthCheck
  import opened CharacterTypes
  import opened Patterns

  datatype Report = Report(score: int, feedback: seq<Item>)

  /** `max(0, min(10, total))`. */
  function Clamp(total: int): (score: int)
    ensures 0 <= score <= 10
    ensures 0 <= total <= 10 ==> score == total
    ensures total < 0 ==> score == 0
    ensures total > 10 ==> score == 10
  {
    if total < 0 then 0 else if total > 10 then 10 else total
  }

  /** The last message: low or good entropy, with the reported value. */
  function EntropyItem(pw: string): Item
  {
    if MeetsMinEntropy(pw) then Item(Positive, GoodEntropy(EntropyOf(pw)))
    else Item(Warning, LowEntropy(EntropyOf(pw)))
  }

  function EntropyBonus(pw: string): int
  {
    if MeetsMinEntropy(pw) then 1 else 0
  }

  /** The total before the clamp. */
  function RawTotal(pw: string): int
  {
    CheckLength(pw).0 + CharTypePoints(pw) + PatternPoints(pw) + EntropyBonus(pw)
  }

  /** The report `check_password_strength` returns. */
  function Evaluate(pw: string): Report
  {
    Report(Clamp(RawTotal(pw)),
           [CheckLength(pw).1] + CharTypeFeedback(pw) + PatternFeedback(pw) + [EntropyItem(pw)])
  }

  method CheckPasswordStrength(password: string) returns (score: int, feedback: seq<Item>)
    ensures Report(score, feedback) == Evaluate(password)
    ensures 0 <= score <= 10
  {
    var totalScore := 0;
    feedback := [];

    var (lengthPoints, lengthMsg) := CheckLength(password);
    totalScore := totalScore + lengthPoints;
    feedback := feedback + [lengthMsg];

    var charPoints, charFeedback := CheckCharacterTypes(password);
    totalScore := totalScore + charPoints;
    feedback := feedback + charFeedback;

    var patternPoints, patternFeedback := CheckPatterns(password);
    totalScore := totalScore + patternPoints;
    feedback := feedback + patternFeedback;

    var entropy := EntropyOf(password);
    if !MeetsMinEntropy(password) {
      feedback := feedback + [Item(Warning, LowEntropy(entropy))];
    } else {
      totalScore := totalScore + 1;
      feedback := feedback + [Item(Positive, GoodEntropy(entropy))];
    }

    score := Clamp(totalScore);
  }

  /** The raw total lies in [-10, 8]: the best case is 3 + 4 + 0 + 1, so
      the final score never exceeds 8 and the upper clamp never applies. */
  lemma RawTotalRange(pw: string)
    ensures -10 <= RawTotal(pw) <= 8
    ensures 0 <= Evaluate(pw).score <= 8
    ensures Evaluate(pw).score == if RawTotal(pw) < 0 then 0 else RawTotal(pw)
  {
    PatternRange(pw);
    CharTypeSpecAgrees(pw);
  }

  /** The feedback is one length message, four class messages, the pattern
      messages and one entropy message, in that order. */
  lemma FeedbackLayout(pw: string)
    ensures var fb := Evaluate(pw).feedback;
      && |fb| == 6 + |PatternFeedback(pw)| <= 16
      && fb[0] == CheckLength(pw).1
      && (forall i :: 1 <= i <= 4 ==> fb[i] == ClassItem(pw, CLASS_ORDER[i - 1]))
      && fb[5..|fb| - 1] == PatternFeedback(pw)
      && fb[|fb| - 1] == EntropyItem(pw)
  {
    PatternRange(pw);
    CharTypeSpecAgrees(pw);
    var fb := Evaluate(pw).feedback;
    assert fb == [CheckLength(pw).1] + CharTypeFeedback(pw) + PatternFeedback(pw) + [EntropyItem(pw)];
    assert fb[5..|fb| - 1] == PatternFeedback(pw);
  }

  /** Zero entropy: no class present means no bonus and a low-entropy
      warning with the value 0 as the last message. */
  lemma ZeroEntropyWarning(pw: string)
    requires AlphabetSize(pw) == 0
    ensures EntropyBonus(pw) == 0
    ensures Evaluate(pw).feedback[|Evaluate(pw).feedback| - 1] == Item(Warning, LowEntropy(NoAlphabet))
    ensures CharTypePoints(pw) == 0
  {
    CharTypePointsByClass(pw);
  }

  /** The entropy bonus and the character-type points vanish together. */
  lemma NoClassIffNoAlphabet(pw: string)
    ensures AlphabetSize(pw) == 0 <==> CharTypePoints(pw) == 0
  {
    CharTypePointsByClass(pw);
  }
}
