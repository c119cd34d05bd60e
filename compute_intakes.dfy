/**
  Submerged (NACA) air intakes. Each intake is the reference NACA inlet scaled by the square
  root of the ratio of its mass flow to the reference mass flow, so that its inlet area grows
  in proportion to the flow. One intake feeds the fuel-cell stacks with their oxidiser flow;
  the others share the flow through the heat exchanger, whose air is the sea-level air at rest
  accelerated isentropically to the air speed.
 */
module ComputeIntakes {
  import opened Numerics

  /** Heat capacity ratio and specific gas constant of air used by the source. */
  const Gamma: real := 1.4
  const AirGasConstant: real := 287.0

  /** The reference NACA inlet: dimensions in mm and the mass flow it swallows in kg/s. */
  datatype NacaReference = NacaReference(length: real, width: real, depth: real, massFlow: real)

  datatype IntakeDims = IntakeDims(length: real, width: real, depth: real)

  /**
    The reference inlet scaled by `s`, the square root of `flow` over the reference flow. The
    scaled inlet keeps the reference proportions, each of its dimensions squared grows in
    proportion to the flow, and the reference flow gives back the reference inlet.
   */
  function ScaledIntake(ref: NacaReference, flow: real, s: real): (d: IntakeDims)
    requires ref.massFlow != 0.0
    requires IsSqrt(s, flow / ref.massFlow)
    ensures d.length * ref.width == d.width * ref.length
    ensures d.depth * ref.length == d.length * ref.depth
    ensures d.length * d.length * ref.massFlow == ref.length * ref.length * flow
    ensures d.width * d.width * ref.massFlow == ref.width * ref.width * flow
    ensures d.depth * d.depth * ref.massFlow == ref.depth * ref.depth * flow
    ensures flow == ref.massFlow ==> d == IntakeDims(ref.length, ref.width, ref.depth)
  {
    SquareScales(ref.length, s, flow, ref.massFlow);
    SquareScales(ref.width, s, flow, ref.massFlow);
    SquareScales(ref.depth, s, flow, ref.massFlow);
    ReferenceFlowUnitRoot(s, flow, ref.massFlow);
    IntakeDims(ref.length * s, ref.width * s, ref.depth * s)
  }

  /** Squaring a dimension scaled by the square root of `f / m` scales its square by `f / m`. */
  lemma SquareScales(a: real, s: real, f: real, m: real)
    requires m != 0.0 && IsSqrt(s, f / m)
    ensures (a * s) * (a * s) * m == a * a * f
  {
    assert (a * s) * (a * s) == (a * a) * (s * s);
    assert (s * s) * m == f;
    assert (a * a) * (s * s) * m == (a * a) * ((s * s) * m);
  }

  lemma ReferenceFlowUnitRoot(s: real, f: real, m: real)
    requires m != 0.0 && IsSqrt(s, f / m)
    ensures f == m ==> s == 1.0
  {
    if f == m {
      UnitRoot(s);
    }
  }

  /** The only non-negative square root of one is one. */
  lemma UnitRoot(s: real)
    requires IsSqrt(s, 1.0)
    ensures s == 1.0
  {
    if s < 1.0 {
      ScaleNonNeg(s, s, 1.0);
    } else if 1.0 < s {
      ScaleStrict(s, 1.0, s);
    }
  }

  /** Multiplying by a non-negative factor preserves order. */
  lemma ScaleNonNeg(k: real, a: real, b: real)
    requires 0.0 <= k && a <= b
    ensures k * a <= k * b
  {
    assert k * b - k * a == k * (b - a);
  }

  /** Multiplying by a positive factor preserves strict order. */
  lemma ScaleStrict(k: real, a: real, b: real)
    requires 0.0 < k && a < b
    ensures k * a < k * b
  {
    assert k * b - k * a == k * (b - a);
  }

  /** A larger flow never gives a smaller inlet (for a reference with positive flow and
      non-negative dimensions). */
  lemma ScaledIntakeMonotone(ref: NacaReference, f1: real, s1: real, f2: real, s2: real)
    requires 0.0 < ref.massFlow && 0.0 <= ref.length && 0.0 <= ref.width && 0.0 <= ref.depth
    requires IsSqrt(s1, f1 / ref.massFlow) && IsSqrt(s2, f2 / ref.massFlow)
    requires f1 <= f2
    ensures ScaledIntake(ref, f1, s1).length <= ScaledIntake(ref, f2, s2).length
    ensures ScaledIntake(ref, f1, s1).width <= ScaledIntake(ref, f2, s2).width
    ensures ScaledIntake(ref, f1, s1).depth <= ScaledIntake(ref, f2, s2).depth
  {
    FlowRootMonotone(ref.massFlow, f1, s1, f2, s2);
    var d1 := ScaledIntake(ref, f1, s1);
    var d2 := ScaledIntake(ref, f2, s2);
    assert d1 == IntakeDims(ref.length * s1, ref.width * s1, ref.depth * s1);
    assert d2 == IntakeDims(ref.length * s2, ref.width * s2, ref.depth * s2);
    assert d1.length <= d2.length by { ScaleNonNeg(ref.length, s1, s2); }
    assert d1.width <= d2.width by { ScaleNonNeg(ref.width, s1, s2); }
    assert d1.depth <= d2.depth by { ScaleNonNeg(ref.depth, s1, s2); }
  }

  /** The square root of the flow ratio grows with the flow. */
  lemma FlowRootMonotone(m: real, f1: real, s1: real, f2: real, s2: real)
    requires 0.0 < m && f1 <= f2
    requires IsSqrt(s1, f1 / m) && IsSqrt(s2, f2 / m)
    ensures s1 <= s2
  {
    DivideMonotone(f1, f2, m);
    RootMonotone(s1, s2);
  }

  lemma DivideMonotone(a: real, b: real, m: real)
    requires 0.0 < m && a <= b
    ensures a / m <= b / m
  {
    assert b / m - a / m == (b - a) / m;
  }

  /** Square roots preserve order. */
  lemma RootMonotone(s1: real, s2: real)
    requires 0.0 <= s1 && 0.0 <= s2 && s1 * s1 <= s2 * s2
    ensures s1 <= s2
  {
    if s2 < s1 {
      SquareStrict(s2, s1);
    }
  }

  lemma SquareStrict(a: real, b: real)
    requires 0.0 <= a < b
    ensures a * a < b * b
  {
    var d := b - a;
    assert b * b == a * a + 2.0 * a * d + d * d;
    assert 0.0 < d * d;
    assert 0.0 <= a * d;
  }

  /** Specific heat at constant pressure of air, gamma r / (gamma - 1). */
  function SpecificHeat(): (cp: real)
    ensures cp * (Gamma - 1.0) == Gamma * AirGasConstant
    ensures cp == 1004.5
  {
    Gamma * AirGasConstant / (Gamma - 1.0)
  }

  /** Static temperature of the air moving at `airSpeed` with total temperature `tAir` (the
      temperature at rest): the temperature drop pays for the kinetic energy. */
  function HexTemperature(tAir: real, airSpeed: real): (t: real)
    ensures (tAir - t) * (2.0 * SpecificHeat()) == airSpeed * airSpeed
    ensures t <= tAir
    ensures airSpeed == 0.0 ==> t == tAir
  {
    tAir - airSpeed * airSpeed / (2.0 * SpecificHeat())
  }

  /** The isentropic factor (T_air / T)^(gamma / (gamma - 1)) of a temperature ratio `q`
      = T_air / T, with the exponent 3.5 written as a cube times the square root `root` of `q`.
      It is positive, at least one when the air has cooled, and one when it has not. */
  function IsentropicFactor(q: real, root: real): (c: real)
    requires 0.0 < q && IsSqrt(root, q)
    ensures 0.0 < c
    ensures 1.0 <= q ==> 1.0 <= c
    ensures q == 1.0 ==> c == 1.0
  {
    FactorBounds(q, root);
    q * q * q * root
  }

  lemma FactorBounds(q: real, root: real)
    requires 0.0 < q && IsSqrt(root, q)
    ensures 0.0 < q * q * q * root
    ensures 1.0 <= q ==> 1.0 <= q * q * q * root
    ensures q == 1.0 ==> q * q * q * root == 1.0
  {
    assert root * root == q;
    PositiveProduct(q * q * q, root);
    if 1.0 <= q {
      assert 1.0 <= root by { RootMonotone(1.0, root); }
      assert 1.0 <= q * q;
      assert 1.0 <= q * q * q;
      assert 1.0 <= q * q * q * root;
    }
    if q == 1.0 {
      UnitRoot(root);
    }
  }

  lemma PositiveProduct(a: real, b: real)
    requires 0.0 < b
    requires 0.0 < a
    ensures 0.0 < a * b
  {
  }

  /** Isentropic relation p / p_air = (T / T_air)^3.5 for the air accelerated from rest,
      cooling from `tAir` to `tHex`, where `root` is the square root of T_air / T: the pressure drops with the
      temperature, and stays at p_air when the temperature does. */
  function HexPressure(pAir: real, tAir: real, tHex: real, root: real): (p: real)
    requires 0.0 < tAir && 0.0 < tHex
    requires IsSqrt(root, tAir / tHex)
    ensures p * IsentropicFactor(tAir / tHex, root) == pAir
    ensures tHex <= tAir && 0.0 <= pAir ==> 0.0 <= p <= pAir
    ensures tHex == tAir ==> p == pAir
  {
    TemperatureRatio(tAir, tHex);
    var c := IsentropicFactor(tAir / tHex, root);
    QuotientBounds(pAir, c);
    pAir / c
  }

  /** The ratio of two positive temperatures is positive, at least one when the first is the
      larger, and one when they are equal. */
  lemma TemperatureRatio(tAir: real, tHex: real)
    requires 0.0 < tAir && 0.0 < tHex
    ensures 0.0 < tAir / tHex
    ensures tHex <= tAir ==> 1.0 <= tAir / tHex
    ensures tHex == tAir ==> tAir / tHex == 1.0
  {
    assert tAir / tHex * tHex == tAir;
  }

  lemma QuotientBounds(a: real, c: real)
    requires 0.0 < c
    ensures (a / c) * c == a
    ensures 1.0 <= c && 0.0 <= a ==> 0.0 <= a / c <= a
    ensures c == 1.0 ==> a / c == a
  {
    assert a / c * c == a;
  }

  /** Ideal-gas density of the air at the heat exchanger. */
  function HexDensity(p: real, t: real): (rho: real)
    requires t != 0.0
    ensures rho * (AirGasConstant * t) == p
  {
    p / (AirGasConstant * t)
  }

  /** Mass flow through a single cooling intake: the heat-exchanger mass flow shared evenly. */
  function CoolingIntakeFlow(hexArea: real, airSpeed: real, rho: real, nbIntakes: real): (f: real)
    requires nbIntakes != 0.0
    ensures f * nbIntakes == hexArea * airSpeed * rho
  {
    hexArea * airSpeed * rho / nbIntakes
  }

  /** Twice as many intakes each take half the flow. */
  lemma DoublingIntakesHalvesFlow(hexArea: real, airSpeed: real, rho: real, nbIntakes: real)
    requires nbIntakes != 0.0
    ensures CoolingIntakeFlow(hexArea, airSpeed, rho, 2.0 * nbIntakes)
      == CoolingIntakeFlow(hexArea, airSpeed, rho, nbIntakes) / 2.0
  {
    var m := hexArea * airSpeed * rho;
    var f2 := CoolingIntakeFlow(hexArea, airSpeed, rho, 2.0 * nbIntakes);
    var f1 := CoolingIntakeFlow(hexArea, airSpeed, rho, nbIntakes);
    assert f2 * (2.0 * nbIntakes) == m;
    assert f1 * nbIntakes == m;
    assert (2.0 * f2) * nbIntakes == f1 * nbIntakes;
    CancelNonZero(nbIntakes, 2.0 * f2, f1);
  }

  /** Inputs of the intake component, with the sea-level air state the atmosphere model gives. */
  datatype IntakeInputs = IntakeInputs(
    hexArea: real,
    airSpeed: real,
    nbCoolingIntakes: real,
    oxMassFlow: real,
    seaLevelTemperature: real,
    seaLevelPressure: real)

  datatype IntakeOutputs = IntakeOutputs(fcIntake: IntakeDims, coolingIntake: IntakeDims)

  /** The square roots the component takes: of the fuel-cell flow ratio, of the temperature
      ratio (for the isentropic pressure) and of the cooling flow ratio. */
  datatype Roots = Roots(fc: real, temperature: real, cooling: real)

  /** Air state at the heat exchanger is physical: positive absolute temperatures. */
  predicate AirStateDefined(inp: IntakeInputs) {
    0.0 < inp.seaLevelTemperature && 0.0 < HexTemperature(inp.seaLevelTemperature, inp.airSpeed)
  }

  /** Density of the air moving through the heat exchanger. */
  function HexAirDensity(inp: IntakeInputs, tRoot: real): real
    requires AirStateDefined(inp)
    requires IsSqrt(tRoot, inp.seaLevelTemperature / HexTemperature(inp.seaLevelTemperature, inp.airSpeed))
  {
    var t := HexTemperature(inp.seaLevelTemperature, inp.airSpeed);
    HexDensity(HexPressure(inp.seaLevelPressure, inp.seaLevelTemperature, t, tRoot), t)
  }

  /** Flow through each cooling intake. */
  function CoolingFlow(inp: IntakeInputs, tRoot: real): real
    requires AirStateDefined(inp) && inp.nbCoolingIntakes != 0.0
    requires IsSqrt(tRoot, inp.seaLevelTemperature / HexTemperature(inp.seaLevelTemperature, inp.airSpeed))
  {
    CoolingIntakeFlow(inp.hexArea, inp.airSpeed, HexAirDensity(inp, tRoot), inp.nbCoolingIntakes)
  }

  /**
    `ComputeIntakes.compute`: the fuel-cell intake is the reference inlet scaled to the oxidiser
    flow, and each cooling intake is the reference inlet scaled to its share of the
    heat-exchanger flow.
   */
  function Intakes(inp: IntakeInputs, ref: NacaReference, roots: Roots): (o: IntakeOutputs)
    requires ref.massFlow != 0.0 && inp.nbCoolingIntakes != 0.0 && AirStateDefined(inp)
    requires IsSqrt(roots.fc, inp.oxMassFlow / ref.massFlow)
    requires IsSqrt(roots.temperature, inp.seaLevelTemperature / HexTemperature(inp.seaLevelTemperature, inp.airSpeed))
    requires IsSqrt(roots.cooling, CoolingFlow(inp, roots.temperature) / ref.massFlow)
    ensures o.fcIntake == ScaledIntake(ref, inp.oxMassFlow, roots.fc)
    ensures o.coolingIntake == ScaledIntake(ref, CoolingFlow(inp, roots.temperature), roots.cooling)
  {
    IntakeOutputs(
      ScaledIntake(ref, inp.oxMassFlow, roots.fc),
      ScaledIntake(ref, CoolingFlow(inp, roots.temperature), roots.cooling))
  }

  /** At zero air speed the heat exchanger sees the sea-level air state: the cooling intakes
      share the flow of air at sea-level density. */
  lemma StillAirDensity(inp: IntakeInputs, tRoot: real)
    requires AirStateDefined(inp) && inp.airSpeed == 0.0
    requires IsSqrt(tRoot, inp.seaLevelTemperature / HexTemperature(inp.seaLevelTemperature, inp.airSpeed))
    ensures HexAirDensity(inp, tRoot) * (AirGasConstant * inp.seaLevelTemperature) == inp.seaLevelPressure
  {
    var t := HexTemperature(inp.seaLevelTemperature, inp.airSpeed);
    assert t == inp.seaLevelTemperature;
    assert HexPressure(inp.seaLevelPressure, inp.seaLevelTemperature, t, tRoot) == inp.seaLevelPressure;
  }
}
