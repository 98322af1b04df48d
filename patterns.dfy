/** `check_patterns`: one point off and one message per detection. Common
    patterns are all tried; the keyboard list stops at its first match. */
module Patterns {
  import opened Config
  import opened Text
  import opened Feedback

  datatype Option<T> = None | Some(value: T)

  /** The common-pattern messages: one for every pattern of `pats` that
      occurs in `low`, in list order. */
  function CommonHits(low: string, pats: seq<string>): seq<Item>
  {
    if pats == [] then []
    else
      var p := pats[|pats| - 1];
      CommonHits(low, pats[..|pats| - 1])
      + (if IsSubstring(p, low) then [Item(Negative, CommonPattern(p))] else [])
  }

  /** `p` or its reversal occurs in `low`. */
  predicate KeyboardMatch(p: string, low: string)
  {
    IsSubstring(p, low) || IsSubstring(Reverse(p), low)
  }

  /** The keyboard pattern the loop reports before its `break`, if any. */
  function FirstKeyboardHit(low: string, pats: seq<string>): Option<string>
  {
    if pats == [] then None
    else if KeyboardMatch(pats[0], low) then Some(pats[0])
    else FirstKeyboardHit(low, pats[1..])
  }

  /** `re.search(r"(?:\d{3,})|(?:987|876|765|654|543|432|321)", pw)`. */
  predicate SequentialMatch(pw: string)
  {
    HasDigitRun(pw) || exists j :: 0 <= j < |DESCENDING_RUNS| && IsSubstring(DESCENDING_RUNS[j], pw)
  }

  /** The messages of `check_patterns`, in the order it appends them. */
  function PatternFeedback(pw: string): seq<Item>
  {
    var low := Lower(pw);
    CommonHits(low, COMMON_PATTERNS)
    + (match FirstKeyboardHit(low, KEYBOARD_PATTERNS)
       case Some(p) => [Item(Negative, KeyboardPattern(p))]
       case None => [])
    + (if SequentialMatch(pw) then [Item(Negative, SequentialNumbers)] else [])
    + (if HasRepeatRun(pw) then [Item(Negative, RepeatedCharacters)] else [])
  }

  /** Every detection costs one point. */
  function PatternPoints(pw: string): int
  {
    -|PatternFeedback(pw)|
  }

  method CheckPatterns(password: string) returns (points: int, feedback: seq<Item>)
    ensures feedback == PatternFeedback(password)
    ensures points == -|feedback|
  {
    points := 0;
    feedback := [];
    var low := Lower(password);

    for i := 0 to |COMMON_PATTERNS|
      invariant feedback == CommonHits(low, COMMON_PATTERNS[..i])
      invariant points == -|feedback|
    {
      var pattern := COMMON_PATTERNS[i];
      assert COMMON_PATTERNS[..i + 1][..i] == COMMON_PATTERNS[..i];
      if IsSubstring(pattern, low) {
        points := points - 1;
        feedback := feedback + [Item(Negative, CommonPattern(pattern))];
      }
    }
    assert COMMON_PATTERNS[..|COMMON_PATTERNS|] == COMMON_PATTERNS;
    ghost var common := feedback;

    var j := 0;
    while j < |KEYBOARD_PATTERNS|
      invariant 0 <= j <= |KEYBOARD_PATTERNS|
      invariant FirstKeyboardHit(low, KEYBOARD_PATTERNS) == FirstKeyboardHit(low, KEYBOARD_PATTERNS[j..])
      invariant feedback == common
      invariant points == -|feedback|
    {
      var pattern := KEYBOARD_PATTERNS[j];
      if IsSubstring(pattern, low) || IsSubstring(Reverse(pattern), low) {
        points := points - 1;
        feedback := feedback + [Item(Negative, KeyboardPattern(pattern))];
        break;
      }
      assert KEYBOARD_PATTERNS[j..][1..] == KEYBOARD_PATTERNS[j + 1..];
      j := j + 1;
    }
    assert feedback == common + (match FirstKeyboardHit(low, KEYBOARD_PATTERNS)
                                 case Some(p) => [Item(Negative, KeyboardPattern(p))]
                                 case None => []);

    if SequentialMatch(password) {
      points := points - 1;
      feedback := feedback + [Item(Negative, SequentialNumbers)];
    }

    if HasRepeatRun(password) {
      points := points - 1;
      feedback := feedback + [Item(Negative, RepeatedCharacters)];
    }
  }

  /** The common check has no early exit: its messages are exactly the
      patterns of the list that occur, and there are no more of them than
      patterns. */
  lemma {:induction false} CommonHitsExact(low: string, pats: seq<string>)
    ensures |CommonHits(low, pats)| <= |pats|
    ensures forall it :: it in CommonHits(low, pats) ==>
      it.severity == Negative && it.message.CommonPattern? &&
      it.message.pattern in pats && IsSubstring(it.message.pattern, low)
    ensures forall p :: p in pats && IsSubstring(p, low) ==>
      Item(Negative, CommonPattern(p)) in CommonHits(low, pats)
    ensures CommonHits(low, pats) == [] <==> forall p :: p in pats ==> !IsSubstring(p, low)
  {
    if pats != [] {
      var init := pats[..|pats| - 1];
      CommonHitsExact(low, init);
      assert pats == init + [pats[|pats| - 1]];
      forall p | p in pats && IsSubstring(p, low)
        ensures Item(Negative, CommonPattern(p)) in CommonHits(low, pats)
      {
        if p != pats[|pats| - 1] {
          assert p in init;
        }
      }
    }
  }

  /** A list without repetitions. */
  predicate Distinct(pats: seq<string>)
  {
    forall i, j :: 0 <= i < j < |pats| ==> pats[i] != pats[j]
  }

  /** Dropping the last pattern of a list without repetitions leaves such
      a list, which does not contain the dropped pattern. */
  lemma DistinctInit(pats: seq<string>)
    requires pats != [] && Distinct(pats)
    ensures Distinct(pats[..|pats| - 1])
    ensures pats[|pats| - 1] !in pats[..|pats| - 1]
  {
    var init := pats[..|pats| - 1];
    forall i | 0 <= i < |init| ensures init[i] != pats[|pats| - 1] {
      assert init[i] == pats[i];
    }
  }

  /** Over a list without repetitions, no common-pattern message repeats. */
  lemma {:induction false} CommonHitsDistinct(low: string, pats: seq<string>)
    requires Distinct(pats)
    ensures forall i, j :: 0 <= i < j < |CommonHits(low, pats)| ==>
      CommonHits(low, pats)[i] != CommonHits(low, pats)[j]
  {
    if pats != [] {
      var init, last := pats[..|pats| - 1], pats[|pats| - 1];
      DistinctInit(pats);
      CommonHitsDistinct(low, init);
      CommonHitsExact(low, init);
      var before := CommonHits(low, init);
      if IsSubstring(last, low) {
        var hit := Item(Negative, CommonPattern(last));
        assert hit !in before;
        var after := before + [hit];
        assert CommonHits(low, pats) == after;
        forall i, j | 0 <= i < j < |after| ensures after[i] != after[j] {
          if j < |before| {
            assert after[i] == before[i] && after[j] == before[j];
          } else {
            assert after[i] == before[i] && after[j] == hit;
          }
        }
      }
    }
  }

  /** Over a list without repetitions, there are as many common-pattern
      messages as patterns that occur. */
  lemma {:induction false} CommonHitsCount(low: string, pats: seq<string>)
    requires Distinct(pats)
    ensures |CommonHits(low, pats)| == |set p | p in pats && IsSubstring(p, low)|
  {
    if pats != [] {
      var init, last := pats[..|pats| - 1], pats[|pats| - 1];
      DistinctInit(pats);
      CommonHitsCount(low, init);
      assert pats == init + [last];
      var occurring := set p | p in init && IsSubstring(p, low);
      if IsSubstring(last, low) {
        assert (set p | p in pats && IsSubstring(p, low)) == occurring + {last};
      } else {
        assert (set p | p in pats && IsSubstring(p, low)) == occurring;
      }
    }
  }

  /** `check_patterns` takes one point off per common pattern that occurs
      in the lowercased password, and reports no pattern twice. */
  lemma CommonPenaltyCount(pw: string)
    ensures |CommonHits(Lower(pw), COMMON_PATTERNS)|
      == |set p | p in COMMON_PATTERNS && IsSubstring(p, Lower(pw))|
    ensures forall i, j :: 0 <= i < j < |CommonHits(Lower(pw), COMMON_PATTERNS)| ==>
      CommonHits(Lower(pw), COMMON_PATTERNS)[i] != CommonHits(Lower(pw), COMMON_PATTERNS)[j]
  {
    assert Distinct(COMMON_PATTERNS);
    CommonHitsCount(Lower(pw), COMMON_PATTERNS);
    CommonHitsDistinct(Lower(pw), COMMON_PATTERNS);
  }

  /** The keyboard check reports the first listed pattern that matches
      forwards or backwards, and nothing when none does. */
  lemma {:induction false} FirstKeyboardHitExact(low: string, pats: seq<string>)
    ensures FirstKeyboardHit(low, pats).None? <==>
      forall i :: 0 <= i < |pats| ==> !KeyboardMatch(pats[i], low)
    ensures FirstKeyboardHit(low, pats).Some? ==>
      exists i :: 0 <= i < |pats| && pats[i] == FirstKeyboardHit(low, pats).value
        && KeyboardMatch(pats[i], low)
        && forall j :: 0 <= j < i ==> !KeyboardMatch(pats[j], low)
  {
    if pats != [] && !KeyboardMatch(pats[0], low) {
      var rest := pats[1..];
      FirstKeyboardHitExact(low, rest);
      assert forall i :: 1 <= i < |pats| ==> pats[i] == rest[i - 1];
      if FirstKeyboardHit(low, rest).Some? {
        var i :| 0 <= i < |rest| && rest[i] == FirstKeyboardHit(low, rest).value
          && KeyboardMatch(rest[i], low)
          && forall j :: 0 <= j < i ==> !KeyboardMatch(rest[j], low);
        assert pats[i + 1] == rest[i];
        assert forall j :: 0 <= j < i + 1 ==> !KeyboardMatch(pats[j], low) by {
          forall j | 0 <= j < i + 1 ensures !KeyboardMatch(pats[j], low) {
            if j > 0 { assert pats[j] == rest[j - 1]; }
          }
        }
      }
    }
  }

  /** The explicit descending runs add nothing: the sequential penalty
      applies exactly when three digits stand in a row. */
  lemma SequentialIffDigitRun(pw: string)
    ensures SequentialMatch(pw) <==> HasDigitRun(pw)
  {
    if j :| 0 <= j < |DESCENDING_RUNS| && IsSubstring(DESCENDING_RUNS[j], pw) {
      var run := DESCENDING_RUNS[j];
      assert |run| == 3 && IsDigit(run[0]) && IsDigit(run[1]) && IsDigit(run[2]);
      var i :| 0 <= i <= |pw| && OccursAt(run, pw, i);
      assert pw[i] == run[0] && pw[i + 1] == run[1] && pw[i + 2] == run[2];
      assert DigitRunAt(pw, i);
    }
  }

  /** At most 7 common, 1 keyboard, 1 sequential and 1 repeated penalty. */
  lemma PatternRange(pw: string)
    ensures -(|COMMON_PATTERNS| + 3) <= PatternPoints(pw) <= 0
    ensures -10 <= PatternPoints(pw)
    ensures |PatternFeedback(pw)| == -PatternPoints(pw)
  {
    CommonHitsExact(Lower(pw), COMMON_PATTERNS);
  }
}
