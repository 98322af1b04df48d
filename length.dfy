/** `check_length`: a 0-3 tier and one message carrying the measured length. */
module LengthCheck {
  import opened Config
  import opened Feedback

  function CheckLength(password: string): (r: (int, Item))
    // one point for each threshold the length reaches
    ensures r.0 == (if |password| >= MIN_LENGTH then 1 else 0)
                 + (if |password| >= RECOMMENDED_LENGTH then 1 else 0)
                 + (if |password| >= EXCELLENT_LENGTH then 1 else 0)
    ensures 0 <= r.0 <= 3
    ensures r.1.message.TooShort? <==> r.0 == 0
    ensures r.1.message.ConsiderLonger? <==> r.0 == 1
    ensures r.1.message.GoodLength? <==> r.0 == 2
    ensures r.1.message.ExcellentLength? <==> r.0 == 3
    ensures r.1.message.length == |password|
    ensures r.1.severity == if r.0 == 0 then Negative else if r.0 == 1 then Warning else Positive
  {
    var length := |password|;
    if length < MIN_LENGTH then (0, Item(Negative, TooShort(length)))
    else if length < RECOMMENDED_LENGTH then (1, Item(Warning, ConsiderLonger(length)))
    else if length < EXCELLENT_LENGTH then (2, Item(Positive, GoodLength(length)))
    else (3, Item(Positive, ExcellentLength(length)))
  }

  /** A longer password never scores a lower length tier. */
  lemma LengthMonotone(p: string, q: string)
    requires |p| <= |q|
    ensures CheckLength(p).0 <= CheckLength(q).0
  {
  }
}
