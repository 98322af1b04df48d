/** Reports for concrete passwords. */
module Scenarios {
  import opened Config
  import opened Text
  import opened Feedback
  import opened Entropy
  import opened LengthCheck
  import opened CharacterTypes
  import opened Patterns
  import opened Strength
  import opened Label

  /** No common pattern matches when each has a character, `absent[j]`,
      that `low` lacks. */
  lemma NoCommonHits(low: string, pats: seq<string>, absent: string)
    requires |absent| == |pats|
    requires forall j :: 0 <= j < |pats| ==> absent[j] in pats[j] && absent[j] !in low
    ensures CommonHits(low, pats) == []
  {
    forall p | p in pats ensures !IsSubstring(p, low) {
      var j :| 0 <= j < |pats| && pats[j] == p;
      AbsentCharRulesOut(p, low, absent[j]);
    }
    CommonHitsExact(low, pats);
  }

  /** No keyboard pattern matches, forwards or backwards, under the same
      kind of witness. */
  lemma NoKeyboardHit(low: string, pats: seq<string>, absent: string)
    requires |absent| == |pats|
    requires forall j :: 0 <= j < |pats| ==> absent[j] in pats[j] && absent[j] !in low
    ensures FirstKeyboardHit(low, pats) == None
  {
    forall j | 0 <= j < |pats| ensures !KeyboardMatch(pats[j], low) {
      AbsentCharRulesOut(pats[j], low, absent[j]);
      ReverseKeepsChars(pats[j], absent[j]);
      AbsentCharRulesOut(Reverse(pats[j]), low, absent[j]);
    }
    FirstKeyboardHitExact(low, pats);
  }

  /** A password with those witnesses, no digit run and no repeated run
      draws no pattern penalty. */
  lemma NoPatterns(pw: string, low: string, commonAbsent: string, keyboardAbsent: string)
    requires low == Lower(pw)
    requires |commonAbsent| == |COMMON_PATTERNS|
    requires forall j :: 0 <= j < |COMMON_PATTERNS| ==>
      commonAbsent[j] in COMMON_PATTERNS[j] && commonAbsent[j] !in low
    requires |keyboardAbsent| == |KEYBOARD_PATTERNS|
    requires forall j :: 0 <= j < |KEYBOARD_PATTERNS| ==>
      keyboardAbsent[j] in KEYBOARD_PATTERNS[j] && keyboardAbsent[j] !in low
    requires !HasDigitRun(pw) && !HasRepeatRun(pw)
    ensures PatternFeedback(pw) == []
  {
    NoCommonHits(low, COMMON_PATTERNS, commonAbsent);
    NoKeyboardHit(low, KEYBOARD_PATTERNS, keyboardAbsent);
    SequentialIffDigitRun(pw);
  }

  /** The score of a password too short for the entropy bonus, from its
      length, class and pattern points. */
  lemma ShortPasswordScore(pw: string, classPoints: int, patternPoints: int)
    requires |pw| < 10
    requires CharTypePoints(pw) == classPoints && PatternPoints(pw) == patternPoints
    ensures Evaluate(pw).score == Clamp(CheckLength(pw).0 + classPoints + patternPoints)
  {
    if MeetsMinEntropy(pw) { BonusNeedsTenCharacters(pw); }
  }

  /** A password of lowercase letters and digits has no other class. */
  lemma LettersAndDigitsOnly(pw: string)
    requires forall i :: 0 <= i < |pw| ==> IsLower(pw[i]) || IsDigit(pw[i])
    ensures !Appears(pw, Uppercase) && !Appears(pw, Special)
  {
  }

  /** The empty password gets the minimal, fixed report. */
  lemma EmptyPasswordReport()
    ensures Evaluate("") == Report(0, [
      Item(Negative, TooShort(0)),
      Item(Negative, Missing(Digits)), Item(Negative, Missing(Uppercase)),
      Item(Negative, Missing(Lowercase)), Item(Negative, Missing(Special)),
      Item(Warning, LowEntropy(NoAlphabet))])
  {
    NoPatterns("", "", "1aqap10", "qaz1q");
    CharTypePointsByClass("");
  }

  /** Two distinct common patterns, the first keyboard pattern and a digit
      run cost at least four points, and each is reported. */
  lemma FourPenalties(pw: string, low: string, p1: string, p2: string, i1: int, i2: int, d: int)
    requires low == Lower(pw)
    requires p1 in COMMON_PATTERNS && p2 in COMMON_PATTERNS && p1 != p2
    requires OccursAt(p1, low, i1) && OccursAt(p2, low, i2)
    requires KeyboardMatch(KEYBOARD_PATTERNS[0], low)
    requires DigitRunAt(pw, d)
    ensures Item(Negative, CommonPattern(p1)) in PatternFeedback(pw)
    ensures Item(Negative, CommonPattern(p2)) in PatternFeedback(pw)
    ensures Item(Negative, KeyboardPattern(KEYBOARD_PATTERNS[0])) in PatternFeedback(pw)
    ensures Item(Negative, SequentialNumbers) in PatternFeedback(pw)
    ensures PatternPoints(pw) <= -4
  {
    CommonHitsExact(low, COMMON_PATTERNS);
    var common := CommonHits(low, COMMON_PATTERNS);
    var a, b := Item(Negative, CommonPattern(p1)), Item(Negative, CommonPattern(p2));
    assert a in common && b in common;
    assert |common| >= 2 by {
      var i :| 0 <= i < |common| && common[i] == a;
      var j :| 0 <= j < |common| && common[j] == b;
      assert i != j;
    }
    var rest := if HasRepeatRun(pw) then [Item(Negative, RepeatedCharacters)] else [];
    assert PatternFeedback(pw) == common + [Item(Negative, KeyboardPattern(KEYBOARD_PATTERNS[0]))]
      + [Item(Negative, SequentialNumbers)] + rest;
  }

  /** A pattern message is also a message of the report. */
  lemma PatternItemInReport(pw: string, it: Item)
    requires it in PatternFeedback(pw)
    ensures it in Evaluate(pw).feedback
  {
    FeedbackLayout(pw);
    var fb, pf := Evaluate(pw).feedback, PatternFeedback(pw);
    var k :| 0 <= k < |pf| && pf[k] == it;
    assert fb[5..|fb| - 1][k] == it;
  }

  /** The pattern part of "qwerty123": the common patterns "123" and
      "qwerty", the keyboard pattern "qwerty" and the digit run. */
  lemma QwertyPatterns()
    ensures Item(Negative, CommonPattern("123")) in PatternFeedback("qwerty123")
    ensures Item(Negative, CommonPattern("qwerty")) in PatternFeedback("qwerty123")
    ensures Item(Negative, KeyboardPattern("qwerty")) in PatternFeedback("qwerty123")
    ensures Item(Negative, SequentialNumbers) in PatternFeedback("qwerty123")
    ensures PatternPoints("qwerty123") <= -4
  {
    var pw := "qwerty123";
    assert Lower(pw) == pw;
    assert OccursAt("qwerty", pw, 0) && OccursAt("123", pw, 6);
    assert KeyboardMatch(KEYBOARD_PATTERNS[0], pw);
    assert DigitRunAt(pw, 6);
    FourPenalties(pw, pw, "123", "qwerty", 6, 0, 6);
  }

  /** "qwerty123" has digits and lowercase letters only. */
  lemma QwertyClassPoints()
    ensures CharTypePoints("qwerty123") == 2
  {
    var pw := "qwerty123";
    CharTypePointsByClass(pw);
    assert InClass(pw[0], Lowercase) && InClass(pw[6], Digits);
    assert forall i :: 0 <= i < |pw| ==> IsLower(pw[i]) || IsDigit(pw[i]);
    LettersAndDigitsOnly(pw);
  }

  /** "qwerty123" scores 0 and its report names those penalties. */
  lemma QwertyScoresZero()
    ensures Item(Negative, CommonPattern("123")) in Evaluate("qwerty123").feedback
    ensures Item(Negative, CommonPattern("qwerty")) in Evaluate("qwerty123").feedback
    ensures Item(Negative, KeyboardPattern("qwerty")) in Evaluate("qwerty123").feedback
    ensures Item(Negative, SequentialNumbers) in Evaluate("qwerty123").feedback
    ensures Evaluate("qwerty123").score == 0
  {
    var pw := "qwerty123";
    QwertyPatterns();
    QwertyClassPoints();
    PatternItemInReport(pw, Item(Negative, CommonPattern("123")));
    PatternItemInReport(pw, Item(Negative, CommonPattern("qwerty")));
    PatternItemInReport(pw, Item(Negative, KeyboardPattern("qwerty")));
    PatternItemInReport(pw, Item(Negative, SequentialNumbers));
    ShortPasswordScore(pw, 2, PatternPoints(pw));
  }

  /** "Xk9#mQ2!vL" avoids every pattern. */
  lemma MixedPasswordPatterns()
    ensures PatternFeedback("Xk9#mQ2!vL") == []
  {
    var pw := "Xk9#mQ2!vL";
    assert !DigitRunAt(pw, 0) && !DigitRunAt(pw, 1) && !DigitRunAt(pw, 2) && !DigitRunAt(pw, 3);
    assert !DigitRunAt(pw, 4) && !DigitRunAt(pw, 5) && !DigitRunAt(pw, 6) && !DigitRunAt(pw, 7);
    assert !RepeatAt(pw, 0) && !RepeatAt(pw, 1) && !RepeatAt(pw, 2) && !RepeatAt(pw, 3);
    assert !RepeatAt(pw, 4) && !RepeatAt(pw, 5) && !RepeatAt(pw, 6);
    NoPatterns(pw, "xk9#mq2!vl", "1awap10", "waz1a");
  }

  /** "Xk9#mQ2!vL" uses all four classes and earns the bonus: it scores
      1 (length) + 4 (classes) + 1 (entropy) = 6. */
  lemma MixedPasswordScoresSix()
    ensures Evaluate("Xk9#mQ2!vL").score == 6
  {
    var pw := "Xk9#mQ2!vL";
    MixedPasswordPatterns();
    assert InClass(pw[0], Uppercase) && InClass(pw[1], Lowercase);
    assert InClass(pw[2], Digits) && InClass(pw[3], Special);
    CharTypePointsByClass(pw);
    assert AlphabetSize(pw) == 94;
    TwoToTheSixty();
    assert Pow(94, 10) == 94 * Pow(94, 9);
    assert Pow(94, 9) == 572994802228616704;
  }

  /** Four equal characters in a row are penalised, three are not; a run of
      newlines is not, since the regex `.` does not match a newline. */
  lemma RepeatedCharacterExamples()
    ensures HasRepeatRun("Aa1!aaaa")
    ensures !HasRepeatRun("Aa1!aaa")
    ensures HasRepeatRun("aaaa") && !HasRepeatRun("aaa")
    ensures !HasRepeatRun("\n\n\n\n")
  {
    assert RepeatAt("Aa1!aaaa", 4);
    assert RepeatAt("aaaa", 0);
    var three := "Aa1!aaa";
    assert !RepeatAt(three, 0) && !RepeatAt(three, 1) && !RepeatAt(three, 2) && !RepeatAt(three, 3);
  }

  /** Label boundaries at the edges of each band. */
  lemma LabelBoundaries()
    ensures StrengthLabel(2) == VeryWeak && StrengthLabel(3) == Weak
    ensures StrengthLabel(4) == Weak && StrengthLabel(5) == Moderate
    ensures StrengthLabel(6) == Moderate && StrengthLabel(7) == Strong
    ensures StrengthLabel(8) == Strong && StrengthLabel(9) == VeryStrong
    ensures StrengthLabel(10) == VeryStrong
  {
  }

  /** Since no report scores above 8, no password is ever labelled
      Very Strong. */
  lemma VeryStrongUnreachable(pw: string)
    ensures StrengthLabel(Evaluate(pw).score) != VeryStrong
    ensures Rank(StrengthLabel(Evaluate(pw).score)) <= Rank(Strong)
  {
    RawTotalRange(pw);
  }

  /** "qwert" matches no pattern. */
  lemma QwertPatterns()
    ensures PatternFeedback("qwert") == []
  {
    var p := "qwert";
    assert !DigitRunAt(p, 0) && !DigitRunAt(p, 1) && !DigitRunAt(p, 2);
    assert !RepeatAt(p, 0) && !RepeatAt(p, 1);
    NoPatterns(p, "qwert", "1ayap10", "yaz1a");
  }

  /** "qwert" has only lowercase letters. */
  lemma QwertClassPoints()
    ensures CharTypePoints("qwert") == 1
  {
    var p := "qwert";
    CharTypePointsByClass(p);
    assert InClass(p[0], Lowercase);
    assert !Appears(p, Digits) && !Appears(p, Uppercase) && !Appears(p, Special);
  }

  /** "qwert" scores 1, for its lowercase letters. */
  lemma QwertScoresOne()
    ensures Evaluate("qwert").score == 1
  {
    QwertPatterns();
    QwertClassPoints();
    ShortPasswordScore("qwert", 1, 0);
  }

  /** "qwertY" contains the common and the keyboard pattern "qwerty". */
  lemma QwertyUpperPatterns()
    ensures PatternPoints("qwertY") <= -2
  {
    var q := "qwertY";
    var low := Lower(q);
    assert low == "qwerty";
    assert OccursAt("qwerty", low, 0);
    CommonHitsExact(low, COMMON_PATTERNS);
    assert Item(Negative, CommonPattern("qwerty")) in CommonHits(low, COMMON_PATTERNS);
    assert KeyboardMatch(KEYBOARD_PATTERNS[0], low);
  }

  /** "qwertY" has lowercase and uppercase letters. */
  lemma QwertyUpperClassPoints()
    ensures CharTypePoints("qwertY") == 2
  {
    var q := "qwertY";
    CharTypePointsByClass(q);
    assert InClass(q[0], Lowercase) && InClass(q[5], Uppercase);
    assert !Appears(q, Digits) && !Appears(q, Special);
  }

  /** "qwertY" pays a common and a keyboard penalty and scores 0. */
  lemma QwertyUpperScoresZero()
    ensures Evaluate("qwertY").score == 0
  {
    QwertyUpperPatterns();
    QwertyUpperClassPoints();
    ShortPasswordScore("qwertY", 2, PatternPoints("qwertY"));
  }

  /** Adding a missing class raises the class points but can lower the
      total: the new character can complete a penalised pattern. */
  lemma AddingClassCanLowerScore()
    ensures CharTypePoints("qwertY") == CharTypePoints("qwert") + 1
    ensures Evaluate("qwertY").score < Evaluate("qwert").score
  {
    assert "qwertY" == "qwert" + ['Y'];
    assert !Appears("qwert", Uppercase);
    AddingMissingClass("qwert", 'Y', Uppercase);
    QwertScoresOne();
    QwertyUpperScoresZero();
  }
}
