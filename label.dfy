/** `get_strength_label`: the score's qualitative label. */
module Label {
  datatype Strength = VeryWeak | Weak | Moderate | Strong | VeryStrong

  /** The bands of the labels, as (lowest, highest, label). */
  const BANDS: seq<(int, int, Strength)> :=
    [(0, 2, VeryWeak), (3, 4, Weak), (5, 6, Moderate), (7, 8, Strong), (9, 10, VeryStrong)]

  function Rank(s: Strength): nat
  {
    match s
    case VeryWeak => 0
    case Weak => 1
    case Moderate => 2
    case Strong => 3
    case VeryStrong => 4
  }

  function StrengthLabel(score: int): (s: Strength)
    // on the score range, the label is the one of the band holding the score
    ensures forall b :: b in BANDS && b.0 <= score <= b.1 ==> s == b.2
    // outside it, the ends of the scale
    ensures score < 0 ==> s == VeryWeak
    ensures score > 10 ==> s == VeryStrong
  {
    if score <= 2 then VeryWeak
    else if score <= 4 then Weak
    else if score <= 6 then Moderate
    else if score <= 8 then Strong
    else VeryStrong
  }

  /** The bands cover [0, 10] without gaps or overlaps, so every score in
      range has exactly one band. */
  lemma BandsPartition(score: int)
    requires 0 <= score <= 10
    ensures exists b :: b in BANDS && b.0 <= score <= b.1
    ensures forall b, c :: b in BANDS && c in BANDS && b.0 <= score <= b.1 && c.0 <= score <= c.1 ==> b == c
  {
    assert BANDS[score / 2 - (if score % 2 == 0 && score > 0 then 1 else 0)] in BANDS;
  }

  /** A higher score never gets a weaker label. */
  lemma LabelMonotone(a: int, b: int)
    requires a <= b
    ensures Rank(StrengthLabel(a)) <= Rank(StrengthLabel(b))
  {
  }
}
