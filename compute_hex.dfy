/**
  Compact heat exchanger of the fuel-cell cooling system: the radiator area that dissipates the
  cooling power across the gap between the stack operating temperature and the cruise air
  temperature, and the radiator mass that area weighs.
 */
module ComputeHex {
  import opened Numerics

  /** Heat transfer coefficient (W/(m^2 K)), affine in the air speed through the exchanger. */
  function HeatTransferCoefficient(airSpeed: real): (h: real)
    ensures airSpeed == 0.0 ==> h == 99.9
    ensures 0.0 <= airSpeed ==> 99.9 <= h
  {
    1269.0 * airSpeed + 99.9
  }

  /** Faster air always transfers heat better. */
  lemma CoefficientIncreasing(v1: real, v2: real)
    requires v1 < v2
    ensures HeatTransferCoefficient(v1) < HeatTransferCoefficient(v2)
    ensures HeatTransferCoefficient(v2) - HeatTransferCoefficient(v1) == 1269.0 * (v2 - v1)
  {
  }

  /** Area whose heat flux at coefficient `h` over the gap `deltaT` carries `power`. */
  function NeededArea(power: real, h: real, deltaT: real): (a: real)
    requires h * deltaT != 0.0
    ensures a * (h * deltaT) == power
    ensures power == 0.0 ==> a == 0.0
  {
    power / (h * deltaT)
  }

  /** The area is proportional to the power it dissipates. */
  lemma AreaProportionalToPower(power: real, k: real, h: real, deltaT: real)
    requires h * deltaT != 0.0
    ensures NeededArea(k * power, h, deltaT) == k * NeededArea(power, h, deltaT)
  {
    var c := h * deltaT;
    var a := NeededArea(power, h, deltaT);
    var b := NeededArea(k * power, h, deltaT);
    assert (k * a) * c == k * (a * c);
    assert b * c == (k * a) * c;
    CancelNonZero(c, b, k * a);
  }

  /** With positive power, coefficient and temperature gap, the area is positive. */
  lemma AreaPositive(power: real, h: real, deltaT: real)
    requires 0.0 < power && 0.0 < h && 0.0 < deltaT
    ensures 0.0 < NeededArea(power, h, deltaT)
  {
    var c := h * deltaT;
    assert 0.0 < c;
    assert NeededArea(power, h, deltaT) * c == power;
  }

  datatype HexInputs = HexInputs(
    airSpeed: real,
    operatingTemperature: real,
    surfaceDensity: real,
    coolingPower: real,
    externalTemperature: real)

  datatype HexOutputs = HexOutputs(area: real, radiatorMass: real)

  /** Gap between the stack operating temperature and the outside air. */
  function TemperatureGap(inp: HexInputs): real {
    inp.operatingTemperature - inp.externalTemperature
  }

  /** The source divides by h * deltaT without a check. */
  predicate HexDefined(inp: HexInputs) {
    HeatTransferCoefficient(inp.airSpeed) * TemperatureGap(inp) != 0.0
  }

  /**
    `ComputeHex.compute`, given the cruise air temperature: the radiator dissipates exactly the
    cooling power, and its mass is its area times the areal density of the radiator.
   */
  function Hex(inp: HexInputs): (o: HexOutputs)
    requires HexDefined(inp)
    ensures o.area * (HeatTransferCoefficient(inp.airSpeed) * TemperatureGap(inp)) == inp.coolingPower
    ensures o.radiatorMass == o.area * inp.surfaceDensity
  {
    var area := NeededArea(inp.coolingPower, HeatTransferCoefficient(inp.airSpeed), TemperatureGap(inp));
    HexOutputs(area, area * inp.surfaceDensity)
  }

  /** A stack hotter than the outside air, with cooling power to shed and air flowing through the
      exchanger, needs a radiator of positive area, which has positive mass when the radiator
      material has positive areal density. */
  lemma RadiatorPositive(inp: HexInputs)
    requires 0.0 < inp.coolingPower && 0.0 <= inp.airSpeed && inp.externalTemperature < inp.operatingTemperature
    ensures HexDefined(inp)
    ensures 0.0 < Hex(inp).area
    ensures 0.0 < inp.surfaceDensity ==> 0.0 < Hex(inp).radiatorMass
  {
    var h := HeatTransferCoefficient(inp.airSpeed);
    assert 0.0 < h * TemperatureGap(inp);
    AreaPositive(inp.coolingPower, h, TemperatureGap(inp));
  }

  /** Doubling the cooling power doubles the radiator and its mass. */
  lemma DoublePowerDoublesRadiator(inp: HexInputs)
    requires HexDefined(inp)
    ensures Hex(inp.(coolingPower := 2.0 * inp.coolingPower)).area == 2.0 * Hex(inp).area
    ensures Hex(inp.(coolingPower := 2.0 * inp.coolingPower)).radiatorMass == 2.0 * Hex(inp).radiatorMass
  {
    var h := HeatTransferCoefficient(inp.airSpeed);
    AreaProportionalToPower(inp.coolingPower, 2.0, h, TemperatureGap(inp));
    var a := Hex(inp).area;
    assert (2.0 * a) * inp.surfaceDensity == 2.0 * (a * inp.surfaceDensity);
  }
}
