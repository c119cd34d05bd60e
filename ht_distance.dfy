/**
  Vertical distance of the horizontal tail above the wing: a T-tail sits on top of the fin, so
  it is the fin span; a conventional tail is on the wing plane.
 */
module HtDistance {

  /**
    `ComputeHTDistance.compute`: `hasTTail` is a real-valued flag and only 0.0 means a
    conventional tail; every other value places the tail at the top of the fin.
   */
  function HtHeight(hasTTail: real, vtSpan: real): (z: real)
    ensures hasTTail == 0.0 ==> z == 0.0
    ensures hasTTail != 0.0 ==> z == vtSpan
  {
    if hasTTail == 0.0 then 0.0 else vtSpan
  }

  /** The height is always either the wing plane or the fin top, and never above a fin of
      non-negative span. */
  lemma HeightIsPlaneOrFinTop(hasTTail: real, vtSpan: real)
    ensures HtHeight(hasTTail, vtSpan) == 0.0 || HtHeight(hasTTail, vtSpan) == vtSpan
    ensures 0.0 <= vtSpan ==> 0.0 <= HtHeight(hasTTail, vtSpan) <= vtSpan
  {
  }

  /** Only the T-tail height follows the fin span. */
  lemma HeightLinearInSpan(hasTTail: real, s1: real, s2: real)
    ensures HtHeight(hasTTail, s1 + s2) == HtHeight(hasTTail, s1) + HtHeight(hasTTail, s2)
  {
  }
}
