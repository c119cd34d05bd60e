/**
  Aircraft polars. The non-equilibrated polar is the wing parabola over a sweep of angles of
  attack; the equilibrated (trimmed) polar sweeps the aircraft mass and asks the trim solver how
  the lift splits between wing, tail and elevator at each mass.
 */
module ComputePolar {
  import opened Numerics
  import UpdateMlg

  /** Number of angles of the non-equilibrated polar. */
  const NbPointsAlpha: nat := 16
  /** Number of masses of the equilibrated polar. */
  const NbPoints: nat := 10

  /**
    `np.linspace(start, stop, n)` for n >= 2: n points from `start` to `stop` (the last one is
    `stop` itself), each `start + i * step` with step (stop - start) / (n - 1).
   */
  function Linspace(start: real, stop: real, n: nat): (xs: seq<real>)
    requires 2 <= n
    ensures |xs| == n
    ensures xs[0] == start && xs[n - 1] == stop
  {
    var step := (stop - start) / (n - 1) as real;
    seq(n, i requires 0 <= i < n => if i == n - 1 then stop else start + i as real * step)
  }

  /** The points of a linspace are evenly spaced. */
  lemma LinspaceEvenlySpaced(start: real, stop: real, n: nat, i: nat)
    requires 2 <= n && i + 1 < n
    ensures Linspace(start, stop, n)[i + 1] - Linspace(start, stop, n)[i] == (stop - start) / (n - 1) as real
  {
    var xs := Linspace(start, stop, n);
    var step := (stop - start) / (n - 1) as real;
    assert xs[i] == start + i as real * step;
    if i + 1 == n - 1 {
      StepTimesCount(stop - start, (n - 1) as real);
      NextMultiple(i as real, step);
    } else {
      assert xs[i + 1] == start + (i + 1) as real * step;
      NextMultiple(i as real, step);
    }
  }

  lemma StepTimesCount(d: real, m: real)
    requires m != 0.0
    ensures m * (d / m) == d
  {
  }

  lemma NextMultiple(i: real, s: real)
    ensures (i + 1.0) * s - i * s == s
  {
  }

  /** A linspace with stop above start is strictly increasing. */
  lemma LinspaceIncreasing(start: real, stop: real, n: nat)
    requires 2 <= n && start < stop
    ensures StrictlyIncreasing(Linspace(start, stop, n))
  {
    var xs := Linspace(start, stop, n);
    var step := (stop - start) / (n - 1) as real;
    assert 0.0 < step;
    forall i, j | 0 <= i < j < n
      ensures xs[i] < xs[j]
    {
      LinspaceBetween(start, stop, n, i, j);
    }
  }

  lemma LinspaceBetween(start: real, stop: real, n: nat, i: nat, j: nat)
    requires 2 <= n && start < stop && i < j < n
    ensures Linspace(start, stop, n)[i] < Linspace(start, stop, n)[j]
    decreases j - i
  {
    var xs := Linspace(start, stop, n);
    LinspaceEvenlySpaced(start, stop, n, j - 1);
    assert 0.0 < (stop - start) / (n - 1) as real;
    if i < j - 1 {
      LinspaceBetween(start, stop, n, i, j - 1);
    }
  }

  /** Angles of attack of the non-equilibrated polar: 0 to 15 degrees, in radians. */
  function AlphaSweep(): (alphas: seq<real>)
    ensures |alphas| == NbPointsAlpha
  {
    var degrees := Linspace(0.0, 15.0, NbPointsAlpha);
    seq(NbPointsAlpha, i requires 0 <= i < NbPointsAlpha => degrees[i] * Pi / 180.0)
  }

  /** The i-th angle is i degrees. */
  lemma AlphaSweepDegrees(i: nat)
    requires i < NbPointsAlpha
    ensures AlphaSweep()[i] == i as real * (Pi / 180.0)
  {
    var degrees := Linspace(0.0, 15.0, NbPointsAlpha);
    assert degrees[i] == i as real;
    DegreesToRadians(i as real);
  }

  lemma DegreesToRadians(d: real)
    ensures d * Pi / 180.0 == d * (Pi / 180.0)
  {
  }

  /** A polar: lift coefficients and the matching drag coefficients. */
  datatype Polar = Polar(cl: seq<real>, cd: seq<real>)

  /** The parabolic drag of a lift coefficient. */
  function ParabolicDrag(cd0: real, k: real, cl: real): real { cd0 + k * cl * cl }

  /**
    `_compute_non_equilibrated_polar.compute` for one speed regime: the lift grows linearly with
    the angle from `cl0`, and every point lies on the parabola cd = cd0 + k cl^2.
   */
  function NonEquilibratedPolar(cl0: real, clAlpha: real, cd0: real, k: real): (p: Polar)
    ensures |p.cl| == NbPointsAlpha && |p.cd| == NbPointsAlpha
    ensures p.cl[0] == cl0
    ensures forall i :: 0 <= i < NbPointsAlpha ==> p.cd[i] == ParabolicDrag(cd0, k, p.cl[i])
  {
    var alphas := AlphaSweep();
    AlphaSweepDegrees(0);
    var cl := seq(NbPointsAlpha, i requires 0 <= i < NbPointsAlpha => cl0 + alphas[i] * clAlpha);
    Polar(cl, seq(NbPointsAlpha, i requires 0 <= i < NbPointsAlpha => ParabolicDrag(cd0, k, cl[i])))
  }

  /** Consecutive lift coefficients differ by the lift gained over one degree. */
  lemma NonEquilibratedLiftStep(cl0: real, clAlpha: real, cd0: real, k: real, i: nat)
    requires i + 1 < NbPointsAlpha
    ensures NonEquilibratedPolar(cl0, clAlpha, cd0, k).cl[i + 1]
          - NonEquilibratedPolar(cl0, clAlpha, cd0, k).cl[i] == clAlpha * (Pi / 180.0)
  {
    AlphaSweepDegrees(i);
    AlphaSweepDegrees(i + 1);
    LiftStep(i as real, Pi / 180.0, clAlpha);
  }

  lemma LiftStep(i: real, r: real, clAlpha: real)
    ensures (i + 1.0) * r * clAlpha - i * r * clAlpha == clAlpha * r
  {
  }

  /** With a non-negative induced-drag factor no point has less drag than cd0. */
  lemma NonEquilibratedDragAtLeastCd0(cl0: real, clAlpha: real, cd0: real, k: real, i: nat)
    requires 0.0 <= k && i < NbPointsAlpha
    ensures cd0 <= NonEquilibratedPolar(cl0, clAlpha, cd0, k).cd[i]
  {
    var cl := NonEquilibratedPolar(cl0, clAlpha, cd0, k).cl[i];
    SquareNonNegative(k, cl);
  }

  lemma SquareNonNegative(k: real, x: real)
    requires 0.0 <= k
    ensures 0.0 <= k * x * x
  {
    assert 0.0 <= x * x;
    assert k * x * x == k * (x * x);
  }

  /** Lift split returned by the trim solver: wing, horizontal tail alone, and elevator. */
  datatype Repartition = Repartition(clWing: real, clHtpOnly: real, clElevator: real)

  /**
    The trim solver `found_cl_repartition`, given the load factor, the mass, the dynamic
    pressure, the low-speed flag and the CG position (with the other aircraft data fixed).
   */
  type TrimSolver = (real, real, real, bool, real) -> Repartition

  /** Induced-drag factors and zero-lift drag of one speed regime. */
  datatype DragCoefficients = DragCoefficients(kWing: real, kHtp: real, cd0: real)

  /** The inputs of the equilibrated polar that are not handed on to the trim solver. */
  datatype EquilibratedInputs = EquilibratedInputs(
    mtow: real,
    lowSpeedDrag: DragCoefficients,
    cruiseDrag: DragCoefficients,
    cruiseAltitude: real,
    vApproach: real,
    vCruise: real,
    macLength: real,
    mac25x: real)

  /** The regime a polar is computed for. */
  datatype FlightCondition = FlightCondition(drag: DragCoefficients, altitude: real, speed: real)

  /** Low speed: sea level at approach speed; cruise: cruise altitude at cruise speed. */
  function Condition(inp: EquilibratedInputs, lowSpeed: bool): (fc: FlightCondition)
    ensures lowSpeed ==> fc == FlightCondition(inp.lowSpeedDrag, 0.0, inp.vApproach)
    ensures !lowSpeed ==> fc == FlightCondition(inp.cruiseDrag, inp.cruiseAltitude, inp.vCruise)
  {
    if lowSpeed then FlightCondition(inp.lowSpeedDrag, 0.0, inp.vApproach)
    else FlightCondition(inp.cruiseDrag, inp.cruiseAltitude, inp.vCruise)
  }

  /** The ten masses of the sweep, from half to one and a half MTOW. */
  function MassSweep(mtow: real): (masses: seq<real>)
    ensures |masses| == NbPoints
    ensures masses[0] == 0.5 * mtow && masses[NbPoints - 1] == 1.5 * mtow
  {
    Linspace(0.5 * mtow, 1.5 * mtow, NbPoints)
  }

  /** The masses are a ninth of MTOW apart, hence in increasing order for a positive MTOW. */
  lemma MassSweepSpacing(mtow: real, i: nat)
    requires i + 1 < NbPoints
    ensures MassSweep(mtow)[i + 1] - MassSweep(mtow)[i] == mtow / 9.0
    ensures 0.0 < mtow ==> StrictlyIncreasing(MassSweep(mtow))
  {
    LinspaceEvenlySpaced(0.5 * mtow, 1.5 * mtow, NbPoints, i);
    if 0.0 < mtow {
      LinspaceIncreasing(0.5 * mtow, 1.5 * mtow, NbPoints);
    }
  }

  /**
    CG handed to the trim solver: with a non-zero `x_cg_ratio` option, that fraction of the MAC
    behind its leading edge; with the default ratio 0, the sentinel -1.0.
   */
  function PolarCg(xCgRatio: real, macLength: real, mac25x: real): (x: real)
    ensures xCgRatio == 0.0 ==> x == -1.0
    ensures xCgRatio != 0.0 ==> x == UpdateMlg.AftCg(mac25x, macLength, xCgRatio)
  {
    if xCgRatio != 0.0 then mac25x - 0.25 * macLength + xCgRatio * macLength else -1.0
  }

  /** Dynamic pressure 0.5 rho v^2 of the regime, with `density` the standard atmosphere. */
  function DynamicPressure(fc: FlightCondition, density: real -> real): real {
    0.5 * density(fc.altitude) * fc.speed * fc.speed
  }

  /** The trim solver's answer at one mass of the sweep (load factor 1). */
  function TrimAt(inp: EquilibratedInputs, lowSpeed: bool, xCgRatio: real, density: real -> real,
                  solver: TrimSolver, mass: real): Repartition
  {
    var fc := Condition(inp, lowSpeed);
    solver(1.0, mass, DynamicPressure(fc, density), lowSpeed, PolarCg(xCgRatio, inp.macLength, inp.mac25x))
  }

  /** Total lift of a repartition. */
  function TotalLift(r: Repartition): real { r.clWing + r.clHtpOnly + r.clElevator }

  /** Drag of a repartition: wing parabola plus the tail parabola on tail-plus-elevator lift. */
  function TrimmedDrag(d: DragCoefficients, r: Repartition): real {
    d.cd0 + d.kWing * r.clWing * r.clWing
      + d.kHtp * (r.clHtpOnly + r.clElevator) * (r.clHtpOnly + r.clElevator)
  }

  /**
    `_compute_equilibrated_polar.compute`: for each mass of the sweep, in order, the solver's
    lift split is appended to the wing, tail, elevator and total lift arrays; the drag array is
    then formed from the three split arrays.
   */
  method ComputeEquilibratedPolar(inp: EquilibratedInputs, lowSpeed: bool, xCgRatio: real,
                                  density: real -> real, solver: TrimSolver)
    returns (p: Polar)
    ensures |p.cl| == NbPoints && |p.cd| == NbPoints
    ensures forall i :: 0 <= i < NbPoints ==>
      p.cl[i] == TotalLift(TrimAt(inp, lowSpeed, xCgRatio, density, solver, MassSweep(inp.mtow)[i]))
    ensures forall i :: 0 <= i < NbPoints ==>
      p.cd[i] == TrimmedDrag(Condition(inp, lowSpeed).drag,
                             TrimAt(inp, lowSpeed, xCgRatio, density, solver, MassSweep(inp.mtow)[i]))
  {
    var fc := Condition(inp, lowSpeed);
    var masses := MassSweep(inp.mtow);
    var x := PolarCg(xCgRatio, inp.macLength, inp.mac25x);
    var q := DynamicPressure(fc, density);
    var wing: seq<real> := [];
    var htp: seq<real> := [];
    var elevator: seq<real> := [];
    var cl: seq<real> := [];
    var n := 0;
    while n < |masses|
      invariant 0 <= n <= |masses|
      invariant |wing| == n && |htp| == n && |elevator| == n && |cl| == n
      invariant forall i :: 0 <= i < n ==>
        Repartition(wing[i], htp[i], elevator[i]) == TrimAt(inp, lowSpeed, xCgRatio, density, solver, masses[i])
      invariant forall i :: 0 <= i < n ==> cl[i] == wing[i] + htp[i] + elevator[i]
    {
      var r := solver(1.0, masses[n], q, lowSpeed, x);
      wing := wing + [r.clWing];
      htp := htp + [r.clHtpOnly];
      elevator := elevator + [r.clElevator];
      cl := cl + [r.clWing + r.clHtpOnly + r.clElevator];
      n := n + 1;
    }
    var d := fc.drag;
    var cd := seq(|wing|, i requires 0 <= i < |wing| =>
      d.cd0 + d.kWing * wing[i] * wing[i] + d.kHtp * (htp[i] + elevator[i]) * (htp[i] + elevator[i]));
    p := Polar(cl, cd);
  }

  /** A point where tail and elevator carry no lift between them lies on the wing parabola. */
  lemma UntrimmedPointOnWingParabola(d: DragCoefficients, r: Repartition)
    requires r.clHtpOnly + r.clElevator == 0.0
    ensures TrimmedDrag(d, r) == ParabolicDrag(d.cd0, d.kWing, TotalLift(r))
  {
    var t := r.clHtpOnly + r.clElevator;
    assert d.kHtp * t * t == 0.0;
    assert TotalLift(r) == r.clWing;
  }

  /** With non-negative induced-drag factors no trimmed point has less drag than cd0. */
  lemma TrimmedDragAtLeastCd0(d: DragCoefficients, r: Repartition)
    requires 0.0 <= d.kWing && 0.0 <= d.kHtp
    ensures d.cd0 <= TrimmedDrag(d, r)
  {
    SquareNonNegative(d.kWing, r.clWing);
    SquareNonNegative(d.kHtp, r.clHtpOnly + r.clElevator);
  }
}
