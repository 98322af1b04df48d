/** `calculate_entropy`: the alphabet size from class presence and the
    decision whether the estimate reaches MIN_ENTROPY bits. The estimate
    `length * log2(size)` reaches 60 exactly when `size^length >= 2^60`,
    which is the integer form used here. */
module Entropy {
  import opened Config
  import opened Text
  import opened Feedback

  /** Nominal size of each class in the entropy model. */
  function ClassSize(k: CharClass): nat
  {
    match k
    case Lowercase => 26
    case Uppercase => 26
    case Digits => 10
    case Special => 32
  }

  /** The summed size of the classes that `re.search` finds in `pw`. */
  function AlphabetSize(pw: string): (size: nat)
    ensures size == 0 <==> forall k: CharClass :: !Appears(pw, k)
    ensures size == 0 || 10 <= size <= 94
  {
    (if Appears(pw, Lowercase) then ClassSize(Lowercase) else 0)
    + (if Appears(pw, Uppercase) then ClassSize(Uppercase) else 0)
    + (if Appears(pw, Digits) then ClassSize(Digits) else 0)
    + (if Appears(pw, Special) then ClassSize(Special) else 0)
  }

  /** The alphabet is empty exactly when no character is a digit, an ASCII
      letter or a detected special: the empty string, all-whitespace input,
      or a password made only of the specials scoring ignores. */
  lemma AlphabetEmptyIff(pw: string)
    ensures AlphabetSize(pw) == 0 <==>
      forall i :: 0 <= i < |pw| ==>
        !IsDigit(pw[i]) && !IsUpper(pw[i]) && !IsLower(pw[i]) && !IsDetectedSpecial(pw[i])
  {
    if AlphabetSize(pw) != 0 {
      var k: CharClass :| Appears(pw, k);
      var i :| 0 <= i < |pw| && InClass(pw[i], k);
    }
  }

  function Pow(b: nat, e: nat): nat
  {
    if e == 0 then 1 else b * Pow(b, e - 1)
  }

  /** The test `entropy >= MIN_ENTROPY` of `check_password_strength`, where
      `calculate_entropy` yields 0 for an empty alphabet. */
  predicate MeetsMinEntropy(pw: string)
  {
    var size := AlphabetSize(pw);
    size > 0 && Pow(size, |pw|) >= Pow(2, MIN_ENTROPY)
  }

  /** The value `calculate_entropy` reports, kept symbolic. A `Bits` value
      has at least one character and at least ten symbols, so the
      `length * log2(size)` it stands for is positive: the reported entropy
      is zero exactly for the empty alphabet. */
  function EntropyOf(pw: string): (e: Entropy)
    ensures e.NoAlphabet? <==> AlphabetSize(pw) == 0
    ensures e.Bits? ==> e.length == |pw| && e.alphabetSize == AlphabetSize(pw)
    ensures e.Bits? ==> 1 <= e.length && 10 <= e.alphabetSize
  {
    var size := AlphabetSize(pw);
    if size == 0 then NoAlphabet else Bits(|pw|, size)
  }

  lemma MulLe(a: nat, b: nat, x: nat, y: nat)
    requires a <= b && x <= y
    ensures a * x <= b * y
  {
  }

  lemma {:induction false} PowMonoBase(a: nat, b: nat, e: nat)
    requires a <= b
    ensures Pow(a, e) <= Pow(b, e)
  {
    if e > 0 {
      PowMonoBase(a, b, e - 1);
      MulLe(a, b, Pow(a, e - 1), Pow(b, e - 1));
    }
  }

  lemma {:induction false} PowMonoExp(b: nat, m: nat, n: nat)
    requires b >= 1 && m <= n
    ensures Pow(b, m) <= Pow(b, n)
    decreases n
  {
    if m < n {
      PowMonoExp(b, m, n - 1);
      assert Pow(b, n - 1) <= b * Pow(b, n - 1);
    }
  }

  lemma {:induction false} PowAdd(b: nat, m: nat, n: nat)
    ensures Pow(b, m + n) == Pow(b, m) * Pow(b, n)
    decreases n
  {
    if n > 0 {
      PowAdd(b, m, n - 1);
      assert Pow(b, m + n) == b * Pow(b, m + n - 1);
    }
  }

  /** 2^60, the threshold of the bonus, as a number. */
  lemma TwoToTheSixty()
    ensures Pow(2, MIN_ENTROPY) == 1152921504606846976
  {
    assert Pow(2, 10) == 1024;
    PowAdd(2, 10, 10);
    PowAdd(2, 20, 20);
    PowAdd(2, 40, 20);
  }

  /** With at least two symbols, each extra character adds entropy. */
  lemma {:induction false} PowStrictExp(b: nat, m: nat, n: nat)
    requires b >= 2 && m < n
    ensures Pow(b, m) < Pow(b, n)
    decreases n
  {
    PowMonoExp(b, m, n - 1);
    PowMonoExp(b, 0, n - 1);
    assert Pow(b, n - 1) < b * Pow(b, n - 1);
  }

  /** No password shorter than ten characters earns the entropy bonus:
      even the full 94-symbol alphabet gives 94^9 < 2^60. */
  lemma BonusNeedsTenCharacters(pw: string)
    requires MeetsMinEntropy(pw)
    ensures |pw| >= 10
  {
    if |pw| < 10 {
      PowMonoBase(AlphabetSize(pw), 94, |pw|);
      PowMonoExp(94, |pw|, 9);
      assert Pow(94, 9) == 572994802228616704;
      TwoToTheSixty();
    }
  }

  /** Sixty characters from any non-empty alphabet always earn the bonus. */
  lemma SixtyCharactersSuffice(pw: string)
    requires AlphabetSize(pw) > 0 && |pw| >= MIN_ENTROPY
    ensures MeetsMinEntropy(pw)
  {
    PowMonoBase(2, AlphabetSize(pw), |pw|);
    PowMonoExp(2, MIN_ENTROPY, |pw|);
  }

  /** Extending a password never loses the bonus: the alphabet cannot shrink
      and the length grows. */
  lemma BonusExtends(p: string, q: string)
    requires MeetsMinEntropy(p)
    ensures MeetsMinEntropy(p + q)
  {
    forall k: CharClass | Appears(p, k) ensures Appears(p + q, k) {
      AppearsExtends(p, q, k);
    }
    var a, b := AlphabetSize(p), AlphabetSize(p + q);
    assert a <= b;
    PowMonoBase(a, b, |p|);
    PowMonoExp(b, |p|, |p + q|);
  }

  /** Repeating a password keeps its alphabet and strictly raises its
      entropy ("aaaa" against "aaaaaaaa"). */
  lemma LongerMeansMoreEntropy(p: string)
    requires AlphabetSize(p) > 0
    ensures AlphabetSize(p + p) == AlphabetSize(p)
    ensures Pow(AlphabetSize(p), |p|) < Pow(AlphabetSize(p + p), |p + p|)
  {
    forall k: CharClass ensures Appears(p + p, k) <==> Appears(p, k) {
      if Appears(p, k) {
        AppearsExtends(p, p, k);
      }
      if Appears(p + p, k) {
        var i :| 0 <= i < |p + p| && InClass((p + p)[i], k);
        var j := if i < |p| then i else i - |p|;
        assert p[j] == (p + p)[i];
      }
    }
    PowStrictExp(AlphabetSize(p), |p|, |p + p|);
  }

  /** Twelve detected specials sit exactly on the threshold (32^12 = 2^60),
      eleven fall below it. */
  lemma TwelveSpecialsOnThreshold()
    ensures MeetsMinEntropy("!!!!!!!!!!!!")
    ensures !MeetsMinEntropy("!!!!!!!!!!!")
  {
    var twelve, eleven := "!!!!!!!!!!!!", "!!!!!!!!!!!";
    assert InClass(twelve[0], Special) && InClass(eleven[0], Special);
    assert AlphabetSize(twelve) == 32 && AlphabetSize(eleven) == 32;
    TwoToTheSixty();
    assert Pow(32, 12) == 1152921504606846976;
    assert Pow(32, 11) == 36028797018963968;
  }
}
