/**
  Mass of hydrogen carried for the required endurance: the fuel-cell hydrogen flow at design
  power kept up for the whole endurance. The endurance input is in minutes while the flow is in
  kg/s.
 */
module HydrogenWeight {
  import opened Numerics
  import ComputeH2Storage

  /** `ComputeHydrogenWeight.compute` as written: the endurance in minutes times the flow in kg/s. */
  function HydrogenWeightAsWritten(enduranceMin: real, fcPower: real, vCell: real): (m: real)
    requires vCell != 0.0
    ensures m * ComputeH2Storage.FlowDivisor(vCell) == enduranceMin * fcPower
  {
    var f := ComputeH2Storage.HydrogenFlowRate(fcPower, vCell);
    assert enduranceMin * f * ComputeH2Storage.FlowDivisor(vCell)
      == enduranceMin * (f * ComputeH2Storage.FlowDivisor(vCell));
    enduranceMin * f
  }

  /** The mass for the endurance converted to seconds, so that a flow in kg/s gives kg. */
  function HydrogenWeight(enduranceMin: real, fcPower: real, vCell: real): (m: real)
    requires vCell != 0.0
    ensures m * ComputeH2Storage.FlowDivisor(vCell) == 60.0 * enduranceMin * fcPower
  {
    var f := ComputeH2Storage.HydrogenFlowRate(fcPower, vCell);
    assert 60.0 * enduranceMin * f * ComputeH2Storage.FlowDivisor(vCell)
      == 60.0 * enduranceMin * (f * ComputeH2Storage.FlowDivisor(vCell));
    60.0 * enduranceMin * f
  }

  /** As written, the mass is sixty times too small: it is the corrected mass over sixty. */
  lemma AsWrittenIsSixtyTimesSmaller(enduranceMin: real, fcPower: real, vCell: real)
    requires vCell != 0.0
    ensures 60.0 * HydrogenWeightAsWritten(enduranceMin, fcPower, vCell) == HydrogenWeight(enduranceMin, fcPower, vCell)
    ensures enduranceMin != 0.0 && fcPower != 0.0
      ==> HydrogenWeightAsWritten(enduranceMin, fcPower, vCell) != HydrogenWeight(enduranceMin, fcPower, vCell)
  {
    var f := ComputeH2Storage.HydrogenFlowRate(fcPower, vCell);
    if enduranceMin != 0.0 && fcPower != 0.0 {
      assert f != 0.0;
      assert enduranceMin * f != 0.0;
    }
  }

  /** The corrected mass is the hydrogen mass the storage component computes for an operation
      time equal to the endurance in seconds. */
  lemma MatchesStorageMass(enduranceMin: real, inp: ComputeH2Storage.StorageInputs)
    requires inp.vCell != 0.0 && inp.opTime == 60.0 * enduranceMin
    ensures HydrogenWeight(enduranceMin, inp.requiredPower, inp.vCell) == ComputeH2Storage.HydrogenMass(inp)
  {
  }

  /** The mass grows linearly with the endurance: zero endurance needs no hydrogen, and the
      masses of two endurances add up. */
  lemma WeightLinearInEndurance(e1: real, e2: real, fcPower: real, vCell: real)
    requires vCell != 0.0
    ensures HydrogenWeight(0.0, fcPower, vCell) == 0.0
    ensures HydrogenWeight(e1 + e2, fcPower, vCell)
      == HydrogenWeight(e1, fcPower, vCell) + HydrogenWeight(e2, fcPower, vCell)
  {
  }

  /** The mass grows linearly with the fuel-cell power. */
  lemma WeightLinearInPower(enduranceMin: real, p1: real, p2: real, vCell: real)
    requires vCell != 0.0
    ensures HydrogenWeight(enduranceMin, p1 + p2, vCell)
      == HydrogenWeight(enduranceMin, p1, vCell) + HydrogenWeight(enduranceMin, p2, vCell)
  {
    var d := ComputeH2Storage.FlowDivisor(vCell);
    var m1 := HydrogenWeight(enduranceMin, p1, vCell);
    var m2 := HydrogenWeight(enduranceMin, p2, vCell);
    var m := HydrogenWeight(enduranceMin, p1 + p2, vCell);
    assert (m1 + m2) * d == m1 * d + m2 * d;
    assert 60.0 * enduranceMin * (p1 + p2) == 60.0 * enduranceMin * p1 + 60.0 * enduranceMin * p2;
    assert m * d == (m1 + m2) * d;
    CancelNonZero(d, m, m1 + m2);
  }

  /** The mass is inversely proportional to the cell voltage: mass times voltage does not depend
      on the voltage. */
  lemma WeightInverseInVoltage(enduranceMin: real, fcPower: real, vCell: real)
    requires vCell != 0.0
    ensures HydrogenWeight(enduranceMin, fcPower, vCell) * vCell == HydrogenWeight(enduranceMin, fcPower, 1.0)
  {
    var m := HydrogenWeight(enduranceMin, fcPower, vCell);
    var m1 := HydrogenWeight(enduranceMin, fcPower, 1.0);
    var k := ComputeH2Storage.FlowDivisor(1.0);
    assert ComputeH2Storage.FlowDivisor(vCell) == vCell * k;
    assert (m * vCell) * k == m * (vCell * k);
    assert m1 * k == (m * vCell) * k;
    CancelNonZero(k, m * vCell, m1);
  }

}
