/** `check_character_types`: one point and one message per class present,
    always four messages, in the order digits, upper, lower, special. */
module CharacterTypes {
  import opened Text
  import opened Feedback

  const CLASS_ORDER: seq<CharClass> := [Digits, Uppercase, Lowercase, Special]

  /** The message reported for class `k`. */
  function ClassItem(pw: string, k: CharClass): Item
  {
    var n := Count(pw, k);
    if n > 0 then Item(Positive, Contains(k, n)) else Item(Negative, Missing(k))
  }

  /** The classes of `ks` that occur in `pw`, in order. */
  function PresentIn(ks: seq<CharClass>, pw: string): (r: seq<CharClass>)
    ensures |r| <= |ks|
  {
    if ks == [] then []
    else PresentIn(ks[..|ks| - 1], pw) + (if Appears(pw, ks[|ks| - 1]) then [ks[|ks| - 1]] else [])
  }

  /** The four messages, one per class. */
  function CharTypeFeedback(pw: string): seq<Item>
  {
    seq(4, i requires 0 <= i < 4 => ClassItem(pw, CLASS_ORDER[i]))
  }

  /** The points: the number of classes present. */
  function CharTypePoints(pw: string): int
  {
    |PresentIn(CLASS_ORDER, pw)|
  }

  function Indicator(b: bool): nat { if b then 1 else 0 }

  /** The points, class by class. */
  lemma CharTypePointsByClass(pw: string)
    ensures CharTypePoints(pw) ==
      Indicator(Appears(pw, Digits)) + Indicator(Appears(pw, Uppercase))
      + Indicator(Appears(pw, Lowercase)) + Indicator(Appears(pw, Special))
  {
    var k1, k2, k3 := [Digits], [Digits, Uppercase], [Digits, Uppercase, Lowercase];
    assert k1[..0] == [] && k2[..1] == k1 && k3[..2] == k2 && CLASS_ORDER[..3] == k3;
    assert |PresentIn(k1, pw)| == Indicator(Appears(pw, Digits));
    assert |PresentIn(k2, pw)| == |PresentIn(k1, pw)| + Indicator(Appears(pw, Uppercase));
    assert |PresentIn(k3, pw)| == |PresentIn(k2, pw)| + Indicator(Appears(pw, Lowercase));
  }

  method CheckCharacterTypes(password: string) returns (points: int, feedback: seq<Item>)
    ensures |feedback| == 4
    ensures forall i :: 0 <= i < 4 ==> feedback[i] == ClassItem(password, CLASS_ORDER[i])
    ensures forall i :: 0 <= i < 4 ==>
      (feedback[i].severity == Positive <==> Appears(password, CLASS_ORDER[i])) &&
      (feedback[i].severity == Positive ==> feedback[i].message == Contains(CLASS_ORDER[i], Count(password, CLASS_ORDER[i]))) &&
      (feedback[i].severity != Positive ==> feedback[i] == Item(Negative, Missing(CLASS_ORDER[i])))
    ensures points == |PresentIn(CLASS_ORDER, password)|
    ensures 0 <= points <= 4
  {
    var digits := Count(password, Digits);
    var uppercase := Count(password, Uppercase);
    var lowercase := Count(password, Lowercase);
    var special := Count(password, Special);
    CountPositiveIff(password, Digits);
    CountPositiveIff(password, Uppercase);
    CountPositiveIff(password, Lowercase);
    CountPositiveIff(password, Special);
    CharTypePointsByClass(password);
    points := 0;
    feedback := [];

    if digits > 0 {
      points := points + 1;
      feedback := feedback + [Item(Positive, Contains(Digits, digits))];
    } else {
      feedback := feedback + [Item(Negative, Missing(Digits))];
    }

    if uppercase > 0 {
      points := points + 1;
      feedback := feedback + [Item(Positive, Contains(Uppercase, uppercase))];
    } else {
      feedback := feedback + [Item(Negative, Missing(Uppercase))];
    }

    if lowercase > 0 {
      points := points + 1;
      feedback := feedback + [Item(Positive, Contains(Lowercase, lowercase))];
    } else {
      feedback := feedback + [Item(Negative, Missing(Lowercase))];
    }

    if special > 0 {
      points := points + 1;
      feedback := feedback + [Item(Positive, Contains(Special, special))];
    } else {
      feedback := feedback + [Item(Negative, Missing(Special))];
    }
  }

  /** The method and the specification functions describe the same result. */
  lemma CharTypeSpecAgrees(pw: string)
    ensures |CharTypeFeedback(pw)| == 4
    ensures forall i :: 0 <= i < 4 ==> CharTypeFeedback(pw)[i] == ClassItem(pw, CLASS_ORDER[i])
    ensures 0 <= CharTypePoints(pw) <= 4
  {
  }

  /** Presence is all that matters: `PresentIn` grows with the set of
      classes present. */
  lemma {:induction false} PresentInMono(ks: seq<CharClass>, p: string, q: string)
    requires forall k :: Appears(p, k) ==> Appears(q, k)
    ensures |PresentIn(ks, p)| <= |PresentIn(ks, q)|
  {
    if ks != [] {
      PresentInMono(ks[..|ks| - 1], p, q);
    }
  }

  /** Extending a password never lowers its character-type points. */
  lemma CharTypePointsExtend(p: string, q: string)
    ensures CharTypePoints(p) <= CharTypePoints(p + q)
  {
    forall k | Appears(p, k) ensures Appears(p + q, k) {
      AppearsExtends(p, q, k);
    }
    PresentInMono(CLASS_ORDER, p, p + q);
  }

  /** Appending a character of a missing class adds exactly one point. */
  lemma AddingMissingClass(p: string, c: char, k: CharClass)
    requires !Appears(p, k) && InClass(c, k)
    ensures CharTypePoints(p + [c]) == CharTypePoints(p) + 1
  {
    var q := p + [c];
    assert q[|p|] == c;
    assert Appears(q, k);
    forall k' | Appears(p, k') ensures Appears(q, k') {
      AppearsExtends(p, [c], k');
    }
    // every class present in q but not in p must be a class of c
    forall k' | Appears(q, k') && !Appears(p, k') ensures InClass(c, k') {
      var i :| 0 <= i < |q| && InClass(q[i], k');
      assert i == |p|;
    }
    // the classes are disjoint, so c belongs to k alone
    assert forall k' :: InClass(c, k') ==> k' == k;
    CharTypePointsByClass(p);
    CharTypePointsByClass(q);
  }
}
