/**
  Main landing gear centre of gravity: the aft-most aircraft CG is placed on the mean
  aerodynamic chord, and the main gear is put where the two gears balance it.
 */
module UpdateMlg {
  import opened Numerics

  /** Default share of the aircraft weight carried by the front gear. */
  const DefaultFrontWeightRatio: real := 0.3

  /** `b` times `a / b` gives back `a`. */
  lemma DivCancels(a: real, b: real)
    requires b != 0.0
    ensures b * (a / b) == a
  {
  }

  /**
    Aft-most CG from its position `cgRatio` on the MAC, expressed as a fraction of the MAC
    length measured from the MAC leading edge (which lies a quarter chord ahead of `mac25x`).
   */
  function AftCg(mac25x: real, macLength: real, cgRatio: real): (x: real)
    ensures x - (mac25x - 0.25 * macLength) == cgRatio * macLength
    ensures cgRatio == 0.25 ==> x == mac25x
  {
    mac25x - 0.25 * macLength + cgRatio * macLength
  }

  /**
    Main gear CG from the aircraft CG `xCg`, the front gear CG `frontCg` and the front gear
    weight ratio `r`: the weighted mean of the two gear positions is the aircraft CG. The
    source divides by 1 - r without a check.
   */
  function MainGearCg(xCg: real, frontCg: real, r: real): (x: real)
    requires r != 1.0
    ensures r * frontCg + (1.0 - r) * x == xCg
    ensures frontCg == xCg ==> x == xCg
  {
    DivCancels(xCg - r * frontCg, 1.0 - r);
    (xCg - r * frontCg) / (1.0 - r)
  }

  /** The balance fixes the main gear position: no other value satisfies it. */
  lemma MainGearCgUnique(xCg: real, frontCg: real, r: real, x: real)
    requires r != 1.0
    requires r * frontCg + (1.0 - r) * x == xCg
    ensures x == MainGearCg(xCg, frontCg, r)
  {
    var m := MainGearCg(xCg, frontCg, r);
    assert x * (1.0 - r) == m * (1.0 - r);
    CancelNonZero(1.0 - r, x, m);
  }

  /** `UpdateMLG.compute`: the main gear CG that balances the aft-most CG. */
  function MainLandingGear(macLength: real, mac25x: real, cgRatio: real, frontCg: real, frontRatio: real): (x: real)
    requires frontRatio != 1.0
    ensures frontRatio * frontCg + (1.0 - frontRatio) * x == AftCg(mac25x, macLength, cgRatio)
  {
    MainGearCg(AftCg(mac25x, macLength, cgRatio), frontCg, frontRatio)
  }

  /** With the default ratio 0.3 the main gear sits at (x_cg - 0.3 x_front) / 0.7. */
  lemma DefaultFrontRatio(macLength: real, mac25x: real, cgRatio: real, frontCg: real)
    ensures MainLandingGear(macLength, mac25x, cgRatio, frontCg, DefaultFrontWeightRatio)
      == (AftCg(mac25x, macLength, cgRatio) - 0.3 * frontCg) / 0.7
    ensures 0.3 * frontCg + 0.7 * MainLandingGear(macLength, mac25x, cgRatio, frontCg, DefaultFrontWeightRatio)
      == AftCg(mac25x, macLength, cgRatio)
  {
  }
}
