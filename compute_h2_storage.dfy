/**
  Gaseous hydrogen storage: the hydrogen the fuel cell consumes over the operation time, its
  volume at storage pressure and temperature, and the cylindrical tanks that hold it (thin-wall
  hoop-stress wall thickness, tank volume and mass).
 */
module ComputeH2Storage {
  import opened Numerics

  /** Faraday constant as the source rounds it (C/mol). */
  const Faraday: real := 96500.0
  /** Electrons per hydrogen molecule. */
  const ElectronsPerMolecule: real := 2.0
  /** Number of cells the flow formula assumes. */
  const CellCount: real := 500.0
  /** Specific gas constant of hydrogen used by the source (N m / (K kg)). */
  const HydrogenGasConstant: real := 4157.2

  /** The divisor of the hydrogen flow formula. */
  function FlowDivisor(vCell: real): real { vCell * ElectronsPerMolecule * Faraday * CellCount }

  /** Hydrogen mass flow drawn by the fuel cell at power `power` and cell voltage `vCell`: the
      flow times V_cell * 2 * 96500 * 500 gives back the power. */
  function HydrogenFlowRate(power: real, vCell: real): (f: real)
    requires vCell != 0.0
    ensures f * FlowDivisor(vCell) == power
    ensures power == 0.0 ==> f == 0.0
  {
    power / FlowDivisor(vCell)
  }

  /** Hydrogen compressibility factor, affine in the pressure. */
  function Compressibility(pressure: real): (z: real)
    ensures 0.0 <= pressure ==> 0.99704 <= z
    ensures pressure == 0.0 ==> z == 0.99704
  {
    0.99704 + 6.4149e-9 * pressure
  }

  /** Real-gas volume of `mass` kg of hydrogen: p V = Z R m T. */
  function HydrogenVolume(mass: real, temperature: real, pressure: real): (v: real)
    requires pressure != 0.0
    ensures v * pressure == Compressibility(pressure) * HydrogenGasConstant * mass * temperature
  {
    Compressibility(pressure) * HydrogenGasConstant * mass * temperature / pressure
  }

  /** The inputs of the storage component. */
  datatype StorageInputs = StorageInputs(
    vCell: real,
    requiredPower: real,
    opTime: real,
    pressure: real,
    temperature: real,
    nbTanks: real,
    lengthRadiusRatio: real,
    fos: real,
    maxStress: real,
    tankDensity: real,
    massFit: real)

  /** The seven outputs of the storage component. */
  datatype StorageOutputs = StorageOutputs(
    totalVolume: real,
    singleVolume: real,
    internalRadius: real,
    internalLength: real,
    wallThickness: real,
    singleMass: real,
    totalMass: real)

  /** The source divides by each of these without a check. */
  predicate StorageDefined(inp: StorageInputs) {
    inp.vCell != 0.0 && inp.pressure != 0.0 && inp.nbTanks != 0.0 && inp.lengthRadiusRatio != 0.0
      && inp.maxStress != 0.0
  }

  /** Hydrogen mass needed: the flow rate over the operation time. */
  function HydrogenMass(inp: StorageInputs): (m: real)
    requires inp.vCell != 0.0
    ensures m * FlowDivisor(inp.vCell) == inp.opTime * inp.requiredPower
  {
    var f := HydrogenFlowRate(inp.requiredPower, inp.vCell);
    assert inp.opTime * f * FlowDivisor(inp.vCell) == inp.opTime * (f * FlowDivisor(inp.vCell));
    inp.opTime * f
  }

  /** Internal volume of one tank: the hydrogen volume shared among the tanks. */
  function TankInternalVolume(inp: StorageInputs): (v: real)
    requires StorageDefined(inp)
    ensures v * inp.nbTanks == HydrogenVolume(HydrogenMass(inp), inp.temperature, inp.pressure)
  {
    HydrogenVolume(HydrogenMass(inp), inp.temperature, inp.pressure) / inp.nbTanks
  }

  /** The value whose cube root is the internal tank radius. */
  function RadiusCube(inp: StorageInputs): real
    requires StorageDefined(inp)
  {
    TankInternalVolume(inp) / (inp.lengthRadiusRatio * Pi)
  }

  /** Volume of a closed cylinder of radius `r` and length `l`. */
  function Cylinder(r: real, l: real): real { Pi * (r * r) * l }

  /**
    `ComputeH2Storage.compute`, given `radius`, the cube root of the internal tank volume over
    (length-to-radius ratio * pi). The internal cylinder of that radius and of length ratio * radius
    holds exactly one tank's share of the hydrogen; the wall is as thick as the thin-wall hoop
    stress formula asks; the outer cylinder adds one thickness to the radius and two to the
    length; the tank mass is its wall material times the density and the fitting factor.
   */
  function SizeStorage(inp: StorageInputs, radius: real): (o: StorageOutputs)
    requires StorageDefined(inp)
    requires IsCubeRoot(radius, RadiusCube(inp))
    ensures o.internalRadius == radius
    ensures Cylinder(o.internalRadius, o.internalLength) == TankInternalVolume(inp)
    ensures o.internalLength == inp.lengthRadiusRatio * o.internalRadius
    ensures o.wallThickness * (2.0 * inp.maxStress) == inp.pressure * o.internalRadius * inp.fos
    ensures o.singleVolume == Cylinder(o.internalRadius + o.wallThickness, o.internalLength + 2.0 * o.wallThickness)
    ensures o.singleMass == (o.singleVolume - TankInternalVolume(inp)) * inp.tankDensity * inp.massFit
    ensures o.totalVolume == inp.nbTanks * o.singleVolume && o.totalMass == inp.nbTanks * o.singleMass
  {
    var vInt := TankInternalVolume(inp);
    var length := inp.lengthRadiusRatio * radius;
    InternalCylinderHoldsShare(vInt, inp.lengthRadiusRatio, radius);
    var thickness := inp.pressure * radius * inp.fos / (2.0 * inp.maxStress);
    var exRadius := radius + thickness;
    var exLength := length + 2.0 * thickness;
    var volume := Pi * (exRadius * exRadius) * exLength;
    var mass := (volume - vInt) * inp.tankDensity * inp.massFit;
    StorageOutputs(volume * inp.nbTanks, volume, radius, length, thickness, mass, inp.nbTanks * mass)
  }

  /** The cube-root radius and the ratio-scaled length rebuild the internal volume. */
  lemma InternalCylinderHoldsShare(vInt: real, ratio: real, r: real)
    requires ratio != 0.0
    requires IsCubeRoot(r, vInt / (ratio * Pi))
    ensures Cylinder(r, ratio * r) == vInt
  {
    var c := vInt / (ratio * Pi);
    assert r * r * r == c;
    assert c * (ratio * Pi) == vInt;
    assert Pi * (r * r) * (ratio * r) == (r * r * r) * (ratio * Pi);
  }

  /** With a non-negative wall, a positive length ratio, and a non-negative density and fitting
      factor, no tank has negative mass. */
  lemma TankMassNonNegative(inp: StorageInputs, radius: real)
    requires StorageDefined(inp)
    requires IsCubeRoot(radius, RadiusCube(inp))
    requires 0.0 < inp.lengthRadiusRatio && 0.0 <= inp.tankDensity && 0.0 <= inp.massFit
    requires 0.0 <= SizeStorage(inp, radius).wallThickness
    ensures 0.0 <= SizeStorage(inp, radius).singleMass
  {
    var o := SizeStorage(inp, radius);
    var t := o.wallThickness;
    var l := o.internalLength;
    assert 0.0 <= l by { NonNegProduct(inp.lengthRadiusRatio, radius); }
    CylinderGrows(radius, l, t);
    var excess := o.singleVolume - TankInternalVolume(inp);
    assert 0.0 <= excess;
    NonNegProduct(excess, inp.tankDensity);
    NonNegProduct(excess * inp.tankDensity, inp.massFit);
  }

  lemma NonNegProduct(a: real, b: real)
    requires 0.0 <= a && 0.0 <= b
    ensures 0.0 <= a * b
  {
  }

  /** Thickening the wall of a cylinder by `t` >= 0 on the radius and 2t on the length does not
      shrink it. */
  lemma CylinderGrows(r: real, l: real, t: real)
    requires 0.0 <= r && 0.0 <= l && 0.0 <= t
    ensures Cylinder(r, l) <= Cylinder(r + t, l + 2.0 * t)
  {
    var R := r + t;
    var L := l + 2.0 * t;
    assert r * r <= R * R by { MonoMul(r, r, R, R); }
    MonoMul(r * r, l, R * R, L);
    assert 0.0 < Pi;
    assert Pi * (r * r * l) <= Pi * (R * R * L);
    assert Pi * (r * r) * l == Pi * (r * r * l);
    assert Pi * (R * R) * L == Pi * (R * R * L);
  }

  /** Products of non-negative numbers grow with both factors. */
  lemma MonoMul(a: real, b: real, c: real, d: real)
    requires 0.0 <= a <= c && 0.0 <= b <= d
    ensures a * b <= c * d
  {
    assert a * b <= c * b by { assert (c - a) * b >= 0.0; }
    assert c * b <= c * d by { assert c * (d - b) >= 0.0; }
  }
}
