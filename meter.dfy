/** `generate_password_meter`: ten slots, the first `score` of them filled
    in a tier chosen by the score alone. */
module Meter {
  const TOTAL_BLOCKS: nat := 10

  /** The colour tier of filled slots. */
  datatype Tier = Low | Medium | High
  datatype Slot = Filled(tier: Tier) | Empty

  function FillTier(score: int): Tier
  {
    if score <= 3 then Low else if score <= 6 then Medium else High
  }

  /** `int((score / 10) * total_blocks)`; for an integer score the float
      product is taken to be the score itself. */
  function FilledBlocks(score: int): int
  {
    score
  }

  function CountFilled(meter: seq<Slot>): (n: nat)
    ensures n <= |meter|
  {
    if meter == [] then 0
    else CountFilled(meter[..|meter| - 1]) + (if meter[|meter| - 1].Filled? then 1 else 0)
  }

  method GeneratePasswordMeter(score: int) returns (meter: seq<Slot>)
    ensures |meter| == TOTAL_BLOCKS
    ensures forall i :: 0 <= i < |meter| ==> (meter[i].Filled? <==> i < FilledBlocks(score))
    ensures forall i :: 0 <= i < |meter| && meter[i].Filled? ==> meter[i].tier == FillTier(score)
    ensures CountFilled(meter) == if score < 0 then 0 else if score > 10 then 10 else score
  {
    var filledBlocks := FilledBlocks(score);
    meter := [];
    for i := 0 to TOTAL_BLOCKS
      invariant |meter| == i
      invariant forall j :: 0 <= j < i ==> (meter[j].Filled? <==> j < filledBlocks)
      invariant forall j :: 0 <= j < i && meter[j].Filled? ==> meter[j].tier == FillTier(score)
      invariant CountFilled(meter) == if filledBlocks < 0 then 0 else if filledBlocks > i then i else filledBlocks
    {
      assert (meter + [Empty])[..i] == meter;
      if i < filledBlocks {
        if score <= 3 {
          meter := meter + [Filled(Low)];
        } else if score <= 6 {
          meter := meter + [Filled(Medium)];
        } else {
          meter := meter + [Filled(High)];
        }
      } else {
        meter := meter + [Empty];
      }
    }
  }
}
