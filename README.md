# FAST-GA sizing core in Dafny

This project models the closed-form core of FAST-GA, a general-aviation aircraft design tool,
as it appears in the repository's hybrid-powertrain fork, and proves properties of it. The
modelled parts are:

- **Flap aerodynamics.** The flap drag increment from Young's charts is a dispatch on the flap
  type. Each branch evaluates polynomial fits and interpolates them over the wing thickness
  ratio, which is clipped to the digitised range. The module also covers the flap-to-wing area
  ratio and the Roskam pitching-moment increment.
- **Aircraft polars.** The non-equilibrated polar is a 16-angle sweep on the wing parabola. The
  equilibrated polar is a 10-mass sweep that asks the trim solver for the lift split at each
  mass.
- **Battery sizing.** Cells come from a preset table or from the arguments. The series and
  parallel cell counts are ceilings. The pack volume, total volume and weight follow from the
  counts. The second battery model adds a temperature-correction table and a design-capacity
  formula.
- **Hydrogen storage.** The hydrogen the fuel cell consumes is stored in cylindrical tanks whose
  wall is sized by the thin-wall hoop-stress formula.
- **NACA intakes.** Each intake is the reference NACA inlet scaled to its mass flow. The cooling
  intakes take the heat-exchanger flow of sea-level air accelerated isentropically to the air
  speed.
- **Heat exchanger.** The radiator area balances the cooling power, and its mass follows from
  that area.
- **Small geometry and CG formulas.** These are the main landing gear CG balance, the battery
  and fuel-cell CG placements, the wing root and kink chords, the hydrogen mass for an
  endurance, and the horizontal-tail height.

Floating-point quantities are `real`. Pi is the double nearest to pi. A square root or cube
root is an argument, constrained by `IsSqrt` / `IsCubeRoot` to satisfy its defining equation.
The standard atmosphere and the trim solver are function-valued arguments. So are the
constants module the battery and intake code import (`BATT_OVERHEAD`, `CELL_WEIGHT_FRACTION`,
`NACA_INTAKE`), which is not part of this model.

Flagged as written in the source, and kept as written in the model:

- The slotted-flap 30 % k2 fit has the linear coefficient `41677e-3` (41.677), three orders of
  magnitude above its neighbours. `HighLiftAero.SlottedThickWingDragIsNegative` shows it makes
  the drag increment negative.
- `ComputeBatteries.compute` reads cell capacity and mass under `data:propulsion:` keys, but
  declares them under `data:geometry:` (compute_batteries.py:39-40, 67-68).
- `ComputeBatteriesV2.compute` declares `pack_volume` and `tot_volume` but never assigns them.
- `ComputeH2Storage.compute` reads `operation_time` and `mass_fitting_factor` under undeclared
  keys (lines 57, 65). It writes `tank_internal_length` where `tank_internal_height` is
  declared (line 95). It writes both tank masses under `data:geometry:` keys where
  `data:weight:` keys are declared (lines 97-98).
- `ComputeHex.compute` reads the surface density and the cruise altitude under undeclared keys
  (lines 45, 47).
- The battery CG and the fuel-cell CG components both declare
  `data:weight:hybrid_powertrain:battery:CG:x`. Both write `data:weight:propulsion:battery:CG:x`
  instead (`BatteryCg.Outputs`, `FuelCellCg.Outputs`, `FuelCellCg.SharesBatteryCgOutputKey`).
  The fuel-cell component's class is also named `ComputeBatteryCG`.

Each source file is one module. `Numerics` holds the shared numeric building blocks and
`Wrappers` the `Option`/`Result` types.

## Model

| member | source | states |
|---|---|---|
| Numerics.Ceil | src/fastga/models/geometry/geom_components/hybrid_powertrain/components/resources/battery.py:169 | `math.ceil`: the result is the least integer not below its argument |
| Numerics.Clip | src/fastga/models/aerodynamics/components/high_lift_aero.py:246 | `np.clip`: the result lies in [lo, hi] and is the point of that interval nearest to the argument |
| Numerics.ClipIdempotent | src/fastga/models/aerodynamics/components/high_lift_aero.py:246 | clipping twice is clipping once |
| Numerics.Lerp | src/fastga/models/aerodynamics/components/high_lift_aero.py:244-246 | the straight line through the two points: it passes through both end points, and between them it stays between their values |
| Numerics.Interp | src/fastga/models/aerodynamics/components/high_lift_aero.py:244-246 | linear `interp1d`: at a node it returns the node value; inside a segment it is that segment's line and stays between the segment's end values |
| HighLiftAero.FlapTypeOf | src/fastga/models/aerodynamics/components/high_lift_aero.py:231-303 | the flap type is plain exactly for code 0.0 and slotted exactly for code 1.0; every other code is split |
| HighLiftAero.K1 | src/fastga/models/aerodynamics/components/high_lift_aero.py:231-318 | k1 equals the node fit at each thickness node, is constant beyond the clip bounds ([0.12, 0.30], or [0.12, 0.21] for slotted), and between two nodes lies between their fits |
| HighLiftAero.K2 | src/fastga/models/aerodynamics/components/high_lift_aero.py:247-339 | the plain-flap k2 is one fit in the deflection; the slotted and split k2 equal the node fit at each node, are constant beyond [0.12, 0.30], and between nodes lie between the node fits |
| HighLiftAero.InterpThickness | src/fastga/models/aerodynamics/components/high_lift_aero.py:244-246 | interpolation of three node values over the thickness nodes 0.12, 0.21, 0.30 at the clipped ratio: the end values beyond the ends, the middle value at 0.21, and between the two node values inside each segment |
| HighLiftAero.InterpSlottedK1 | src/fastga/models/aerodynamics/components/high_lift_aero.py:269-271 | the same over the two slotted-flap nodes 0.12 and 0.21, with the ratio clipped to [0.12, 0.21] |
| HighLiftAero.DragLinearInAreaRatio | src/fastga/models/aerodynamics/components/high_lift_aero.py:340 | k1·k2·area ratio is additive in the area ratio, is the ratio times the unit-ratio value, and is zero at ratio zero |
| HighLiftAero.FlapsDeltaCd | src/fastga/models/aerodynamics/components/high_lift_aero.py:217-342 | zero flap area gives zero drag increment |
| HighLiftAero.FactorsClipThickness | src/fastga/models/aerodynamics/components/high_lift_aero.py:244-339 | both factors at any thickness ratio equal those at the ratio clipped to [0.12, 0.30], for every flap type |
| HighLiftAero.DeltaCdClipsThickness | src/fastga/models/aerodynamics/components/high_lift_aero.py:244-339 | the drag increment is the one at the clipped thickness: any t/c above 0.30 gives the 0.30 value, and any below 0.12 the 0.12 value |
| HighLiftAero.SlottedClipsDiffer | src/fastga/models/aerodynamics/components/high_lift_aero.py:269-301 | for slotted flaps k1 is already clipped at 0.21 while k2 is not: at 25 % thickness k1 equals its 21 % value and k2 differs from its 21 % value |
| HighLiftAero.PlainAndSplitShareK1 | src/fastga/models/aerodynamics/components/high_lift_aero.py:231-318 | plain and split flaps have the same k1 and differ only in k2 |
| HighLiftAero.SlottedThickWingDragIsNegative | src/fastga/models/aerodynamics/components/high_lift_aero.py:290-298 | with the 41.677 coefficient as written, a 30-degree slotted flap (chord ratio 0.25) on a 30 % thick wing gets a negative drag increment for every positive area ratio |
| HighLiftAero.ThickSlottedFitAt30 | src/fastga/models/aerodynamics/components/high_lift_aero.py:290-298 | the 30 % slotted k2 fit is negative at 30 degrees |
| HighLiftAero.FlapAreaIsStripPlusTrapezoid | src/fastga/models/aerodynamics/components/high_lift_aero.py:416-418 | the flap area is the inboard strip plus a trapezoid from the root chord to the tapered chord at the flap's outer end; span ratio 0 leaves only the strip (y2 − y1)·root chord, and span ratio 1 covers the whole outer panel |
| HighLiftAero.FlapAreaRatio | src/fastga/models/aerodynamics/components/high_lift_aero.py:402-422 | the ratio times the wing area is twice the half-wing flap area (y1 is half the fuselage width); with span ratio 0 it is twice the inboard strip |
| HighLiftAero.KpFactor | src/fastga/models/aerodynamics/components/high_lift_aero.py:207-211 | k_p lies in [0.5, 0.75]; the taper ratio is clamped to [0, 1], so taper ≤ 0 gives 0.65 and taper ≥ 1 gives 0.5; taper 0.2 gives the peak 0.75 |
| HighLiftAero.FlapsDeltaCm | src/fastga/models/aerodynamics/components/high_lift_aero.py:195-214 | ΔCM has the opposite sign to ΔCL (zero for zero), its size is between 0.135 and 0.2025 times that of ΔCL, and it is −0.1755·ΔCL for taper ≤ 0 and −0.135·ΔCL for taper ≥ 1 |
| HighLiftAero.MomentOppositeToLift | src/fastga/models/aerodynamics/components/high_lift_aero.py:210-212 | for any k_p in [0.5, 0.75], k_p·(−0.27)·ΔCL has the opposite sign to ΔCL and is bounded by 0.135 and 0.2025 times it |
| UpdateMlg.AftCg | src/fastga/models/weight/cg/cg_components/update_mlg.py:45 | the aft CG lies `cgRatio` MAC lengths behind the MAC leading edge (a quarter chord ahead of MAC25); ratio 0.25 puts it at MAC25 |
| UpdateMlg.MainGearCg | src/fastga/models/weight/cg/cg_components/update_mlg.py:46 | moment balance: r·x_front + (1 − r)·x_main = x_cg; if the front gear is at x_cg so is the main gear |
| UpdateMlg.MainGearCgUnique | src/fastga/models/weight/cg/cg_components/update_mlg.py:46 | the balance determines the main gear position: any position satisfying it is the computed one |
| UpdateMlg.MainLandingGear | src/fastga/models/weight/cg/cg_components/update_mlg.py:37-48 | the main gear CG balances the aft-most CG against the front gear |
| UpdateMlg.DefaultFrontRatio | src/fastga/models/weight/cg/cg_components/update_mlg.py:31-46 | with the default front weight ratio 0.3, x_main = (x_cg − 0.3·x_front)/0.7 and 0.3·x_front + 0.7·x_main = x_cg |
| ComputePolar.Linspace | src/fastga/models/aerodynamics/components/compute_polar.py:97 | `np.linspace`: n points whose first is the start and last is the stop |
| ComputePolar.LinspaceEvenlySpaced | src/fastga/models/aerodynamics/components/compute_polar.py:215 | consecutive points differ by (stop − start)/(n − 1) |
| ComputePolar.LinspaceIncreasing | src/fastga/models/aerodynamics/components/compute_polar.py:215 | with start < stop the points are strictly increasing |
| ComputePolar.AlphaSweep | src/fastga/models/aerodynamics/components/compute_polar.py:97 | the angle sweep has NB_POINTS_ALPHA = 16 points |
| ComputePolar.AlphaSweepDegrees | src/fastga/models/aerodynamics/components/compute_polar.py:97 | the i-th angle is i degrees in radians, i·π/180 |
| ComputePolar.NonEquilibratedPolar | src/fastga/models/aerodynamics/components/compute_polar.py:97-100 | the polar has 16 points, its first lift is cl0, and every point lies on the parabola cd = cd0 + k·cl² |
| ComputePolar.NonEquilibratedLiftStep | src/fastga/models/aerodynamics/components/compute_polar.py:97-98 | consecutive lift coefficients differ by cl_alpha·π/180 |
| ComputePolar.NonEquilibratedDragAtLeastCd0 | src/fastga/models/aerodynamics/components/compute_polar.py:100 | with k ≥ 0 no point has drag below cd0 |
| ComputePolar.Condition | src/fastga/models/aerodynamics/components/compute_polar.py:190-203 | low speed uses the low-speed coefficients, altitude 0 and the approach speed; cruise uses the cruise coefficients, the cruise altitude and the cruise speed |
| ComputePolar.MassSweep | src/fastga/models/aerodynamics/components/compute_polar.py:215 | the mass sweep has NB_POINTS = 10 masses from 0.5·MTOW to 1.5·MTOW |
| ComputePolar.MassSweepSpacing | src/fastga/models/aerodynamics/components/compute_polar.py:215 | the masses are MTOW/9 apart, and strictly increasing for positive MTOW |
| ComputePolar.PolarCg | src/fastga/models/aerodynamics/components/compute_polar.py:218-223 | ratio 0 gives the sentinel −1.0; any other ratio gives the aft-CG formula of `UpdateMlg.AftCg` |
| ComputePolar.ComputeEquilibratedPolar | src/fastga/models/aerodynamics/components/compute_polar.py:186-250 | the trimmed polar has 10 points; point i is the trim solver's split at the i-th mass (load factor 1, dynamic pressure 0.5·ρ·v², polar CG); its lift is the sum of the three lifts, and its drag is cd0 + k_wing·cl_wing² + k_htp·(cl_htp + cl_elev)² |
| ComputePolar.UntrimmedPointOnWingParabola | src/fastga/models/aerodynamics/components/compute_polar.py:237-243 | a point whose tail and elevator lifts cancel lies on the wing parabola of its total lift |
| ComputePolar.TrimmedDragAtLeastCd0 | src/fastga/models/aerodynamics/components/compute_polar.py:239-243 | with non-negative induced-drag factors no trimmed point has drag below cd0 |
| Battery.FirstMissing | src/fastga/models/geometry/geom_components/hybrid_powertrain/components/resources/battery.py:86-90 | the first preset key absent from a table entry, which is the key the preset lookup raises on; none exactly when all are present |
| Battery.NewBattery | src/fastga/models/geometry/geom_components/hybrid_powertrain/components/resources/battery.py:57-119 | `Battery.__init__`: a listed type whose entry lacks a preset key raises KeyError on the first missing key; otherwise a listed type takes its cell from the table and an unlisted type from the arguments, and the other fields are copied |
| Battery.LiSFails | src/fastga/models/geometry/geom_components/hybrid_powertrain/components/resources/battery.py:34-90 | selecting 'LI-S' raises KeyError('DIAMETER') |
| Battery.LgHg2Preset | src/fastga/models/geometry/geom_components/hybrid_powertrain/components/resources/battery.py:22-90 | selecting 'LG-HG2' succeeds with the 18 mm × 65 mm, 3000 mAh, 44.5 g, 3.6 V cell |
| Battery.PresetIgnoresCellArguments | src/fastga/models/geometry/geom_components/hybrid_powertrain/components/resources/battery.py:84-90 | for a listed type the cell arguments do not affect the result |
| Battery.CellVoltage | src/fastga/models/geometry/geom_components/hybrid_powertrain/components/resources/battery.py:128-137 | V_cell plus the SOC drop 0.94·SOC and the resistive drop R·capacity·C-rate gives back the nominal cell voltage |
| Battery.CellVoltageDecreasesWithSoc | src/fastga/models/geometry/geom_components/hybrid_powertrain/components/resources/battery.py:137 | V_cell strictly decreases as SOC grows |
| Battery.CellsInSeries | src/fastga/models/geometry/geom_components/hybrid_powertrain/components/resources/battery.py:166-169 | for V_cell > 0 the series count covers the nominal voltage (n·V_cell ≥ V_nom) and one cell fewer would not |
| Battery.CellsInSeriesIsLeast | src/fastga/models/geometry/geom_components/hybrid_powertrain/components/resources/battery.py:166-169 | every count that covers the nominal voltage is at least the series count |
| Battery.CellsInParallel | src/fastga/models/geometry/geom_components/hybrid_powertrain/components/resources/battery.py:171-176 | the parallel count is at least the power-sized and the endurance-sized counts and equals one of them; it covers both requirements, and one fewer fails at least one |
| Battery.PackVolume | src/fastga/models/geometry/geom_components/hybrid_powertrain/components/resources/battery.py:182-193 | the pack volume is the per-cell share π·d²·l/(4·0.907·overhead) times N_series·N_parallel |
| Battery.TotalVolume | src/fastga/models/geometry/geom_components/hybrid_powertrain/components/resources/battery.py:195-199 | the total volume is nb_packs pack volumes; a single pack gives the pack volume |
| Battery.Weight | src/fastga/models/geometry/geom_components/hybrid_powertrain/components/resources/battery.py:201-203 | the weight times CELL_WEIGHT_FRACTION is N_parallel·N_series·cell mass |
| Battery.DepthOfDischarge | src/fastga/models/geometry/geom_components/hybrid_powertrain/components/resources/battery.py:205-206 | depth of discharge plus SOC is 1 |
| ComputeBatteries.ComputeBatteries | src/fastga/models/geometry/geom_components/hybrid_powertrain/components/compute_batteries.py:58-106 | for a battery type given as a string: fails exactly when the battery constructor fails, with its error; otherwise outputs exactly the battery's N_series, N_parallel, pack volume and total volume (the source's array-typed input makes every call raise TypeError, see Left out) |
| ComputeBatteries.SinglePackTotalIsPack | src/fastga/models/geometry/geom_components/hybrid_powertrain/components/compute_batteries.py:100-106 | with one pack of argument cells the total volume output equals the pack volume output |
| ComputeBatteries.TemperatureFactor | src/fastga/models/geometry/geom_components/hybrid_powertrain/components/compute_batteries.py:147-170 | the factor lies in [1.00, 1.59]; it is 1.00 outside (288, 348] and at least 1.04 inside |
| ComputeBatteries.TemperatureBandsClosedAbove | src/fastga/models/geometry/geom_components/hybrid_powertrain/components/compute_batteries.py:157-160 | the bands are closed above: 298 K gives 1.59, anything in (298, 308] gives 1.40 |
| ComputeBatteries.TemperatureFactorNonIncreasing | src/fastga/models/geometry/geom_components/hybrid_powertrain/components/compute_batteries.py:157-170 | on (288, 348] the factor never increases with temperature |
| ComputeBatteries.TotalLoad | src/fastga/models/geometry/geom_components/hybrid_powertrain/components/compute_batteries.py:141 | the total load in Ah times the bank voltage is power times backup time |
| ComputeBatteries.DesignCapacity | src/fastga/models/geometry/geom_components/hybrid_powertrain/components/compute_batteries.py:142 | the design capacity times eff·(1 − SOC) is the load corrected for wire loss, ageing and temperature |
| ComputeBatteries.DesignCapacityCoversLoad | src/fastga/models/geometry/geom_components/hybrid_powertrain/components/compute_batteries.py:141-142 | with non-negative loss factors, efficiency in (0, 1] and SOC in [0, 1), the design capacity is at least the bare total load |
| ComputeBatteries.ComputeBatteriesV2 | src/fastga/models/geometry/geom_components/hybrid_powertrain/components/compute_batteries.py:126-144 | outputs the design capacity and leaves both declared volume outputs unassigned |
| ComputeH2Storage.HydrogenFlowRate | src/fastga/models/geometry/geom_components/hybrid_powertrain/components/compute_h2_storage.py:68 | the flow times V_cell·2·96500·500 gives back the power; zero power needs no flow |
| ComputeH2Storage.Compressibility | src/fastga/models/geometry/geom_components/hybrid_powertrain/components/compute_h2_storage.py:72 | Z is at least 0.99704 for non-negative pressure and equals it at zero pressure |
| ComputeH2Storage.HydrogenVolume | src/fastga/models/geometry/geom_components/hybrid_powertrain/components/compute_h2_storage.py:72-74 | real-gas law p·V = Z·R·m·T with R = 4157.2 |
| ComputeH2Storage.HydrogenMass | src/fastga/models/geometry/geom_components/hybrid_powertrain/components/compute_h2_storage.py:68-69 | the mass times the flow divisor is operation time times power |
| ComputeH2Storage.TankInternalVolume | src/fastga/models/geometry/geom_components/hybrid_powertrain/components/compute_h2_storage.py:77 | the tanks' internal volumes add up to the hydrogen volume |
| ComputeH2Storage.SizeStorage | src/fastga/models/geometry/geom_components/hybrid_powertrain/components/compute_h2_storage.py:68-98 | the internal cylinder (radius r, length lr·r) holds exactly one tank's share, π·lr·r³ = V_int; the wall satisfies t·2σ = P·r·FoS; the tank is the cylinder of radius r + t and length L + 2t; its mass is (tank volume − V_int)·density·fit; the totals are nb_tanks times the single values |
| ComputeH2Storage.InternalCylinderHoldsShare | src/fastga/models/geometry/geom_components/hybrid_powertrain/components/compute_h2_storage.py:77-79 | the cube-root radius and the ratio-scaled length rebuild the internal volume |
| ComputeH2Storage.TankMassNonNegative | src/fastga/models/geometry/geom_components/hybrid_powertrain/components/compute_h2_storage.py:82-89 | with a non-negative wall, positive length ratio, and non-negative density and fitting factor, the tank mass is non-negative |
| ComputeH2Storage.CylinderGrows | src/fastga/models/geometry/geom_components/hybrid_powertrain/components/compute_h2_storage.py:83-85 | adding the wall (t on the radius, 2t on the length) never shrinks the cylinder |
| ComputeIntakes.ScaledIntake | src/fastga/models/geometry/geom_components/hybrid_powertrain/components/compute_intakes.py:65-95 | the scaled inlet keeps the reference proportions, each dimension squared is the reference one times the flow ratio (L² = ref_L²·flow/ref_flow), and the reference flow gives the reference inlet |
| ComputeIntakes.ScaledIntakeMonotone | src/fastga/models/geometry/geom_components/hybrid_powertrain/components/compute_intakes.py:65-70 | a larger flow never gives a smaller inlet |
| ComputeIntakes.SpecificHeat | src/fastga/models/geometry/geom_components/hybrid_powertrain/components/compute_intakes.py:78-80 | cp = γ·r/(γ − 1) with γ = 1.4 and r = 287, which is 1004.5 |
| ComputeIntakes.HexTemperature | src/fastga/models/geometry/geom_components/hybrid_powertrain/components/compute_intakes.py:85 | the temperature drop times 2·cp is v²; the moving air is never warmer than the air at rest |
| ComputeIntakes.IsentropicFactor | src/fastga/models/geometry/geom_components/hybrid_powertrain/components/compute_intakes.py:86 | the factor (T_air/T)^(γ/(γ − 1)) = q³·√q of the temperature ratio q is positive, at least 1 when the air has cooled (q ≥ 1), and exactly 1 when it has not |
| ComputeIntakes.HexPressure | src/fastga/models/geometry/geom_components/hybrid_powertrain/components/compute_intakes.py:86 | isentropic relation: the pressure times the isentropic factor of T_air/T is p_air; for T ≤ T_air the pressure is in [0, p_air], and equal temperatures give p_air |
| ComputeIntakes.HexDensity | src/fastga/models/geometry/geom_components/hybrid_powertrain/components/compute_intakes.py:87 | ideal gas: ρ·r·T = p |
| ComputeIntakes.CoolingIntakeFlow | src/fastga/models/geometry/geom_components/hybrid_powertrain/components/compute_intakes.py:88 | the per-intake flows add up to area·speed·ρ |
| ComputeIntakes.DoublingIntakesHalvesFlow | src/fastga/models/geometry/geom_components/hybrid_powertrain/components/compute_intakes.py:88 | twice as many intakes each take half the flow |
| ComputeIntakes.Intakes | src/fastga/models/geometry/geom_components/hybrid_powertrain/components/compute_intakes.py:49-99 | the fuel-cell intake is the reference inlet scaled to the oxidiser flow; each cooling intake is it scaled to its share of the heat-exchanger flow |
| ComputeIntakes.StillAirDensity | src/fastga/models/geometry/geom_components/hybrid_powertrain/components/compute_intakes.py:82-87 | at zero air speed the heat exchanger sees sea-level air: ρ·r·T_air = p_air |
| ComputeHex.HeatTransferCoefficient | src/fastga/models/geometry/geom_components/hybrid_powertrain/components/compute_hex.py:51 | h is 99.9 in still air and at least that for non-negative speed |
| ComputeHex.CoefficientIncreasing | src/fastga/models/geometry/geom_components/hybrid_powertrain/components/compute_hex.py:51 | h is strictly increasing in the air speed with slope 1269 |
| ComputeHex.NeededArea | src/fastga/models/geometry/geom_components/hybrid_powertrain/components/compute_hex.py:55 | area·h·ΔT equals the cooling power |
| ComputeHex.AreaProportionalToPower | src/fastga/models/geometry/geom_components/hybrid_powertrain/components/compute_hex.py:55 | scaling the power by k scales the area by k |
| ComputeHex.AreaPositive | src/fastga/models/geometry/geom_components/hybrid_powertrain/components/compute_hex.py:55 | positive power, coefficient and temperature gap give a positive area |
| ComputeHex.Hex | src/fastga/models/geometry/geom_components/hybrid_powertrain/components/compute_hex.py:42-60 | the radiator dissipates exactly the cooling power across op_T − ext_T, and its mass is area times surface density |
| ComputeHex.RadiatorPositive | src/fastga/models/geometry/geom_components/hybrid_powertrain/components/compute_hex.py:50-59 | a stack hotter than the outside air with power to shed gets a radiator of positive area, and of positive mass for positive density |
| ComputeHex.DoublePowerDoublesRadiator | src/fastga/models/geometry/geom_components/hybrid_powertrain/components/compute_hex.py:55-59 | doubling the cooling power doubles both the area and the mass |
| BatteryCg.SinglePackX | src/fastga/models/weight/cg/cg_components/b_propulsion/b4_battery_cg.py:52-54 | the single-pack CG is equidistant from the two battery locations and lies between them |
| BatteryCg.BatteryCgAsWritten | src/fastga/models/weight/cg/cg_components/b_propulsion/b4_battery_cg.py:51-56 | one pack gives the midpoint of 0.1·fuselage length and front length + 0.9·cabin length; any other count gives fuselage length + pilot seat length |
| BatteryCg.AsWrittenPlacesPacksAftOfFuselage | src/fastga/models/weight/cg/cg_components/b_propulsion/b4_battery_cg.py:55-56 | for any pack count other than 1 and a pilot seat of positive length, the CG lies behind the end of the fuselage |
| BatteryCg.AsWrittenTwoPackExample | src/fastga/models/weight/cg/cg_components/b_propulsion/b4_battery_cg.py:55-56 | two packs in an 8 m fuselage with a 1 m pilot seat get a CG at 9 m |
| BatteryCg.BatteryCg | src/fastga/models/weight/cg/cg_components/b_propulsion/b4_battery_cg.py:20-56 | as above, but the multi-pack position is one pilot-seat length behind the front fuselage |
| BatteryCg.BatteryCgWithinFuselage | src/fastga/models/weight/cg/cg_components/b_propulsion/b4_battery_cg.py:51-56 | with a layout that fits in the fuselage, the corrected CG lies inside it for every pack count |
| BatteryCg.Outputs | src/fastga/models/weight/cg/cg_components/b_propulsion/b4_battery_cg.py:40-58 | the result is written under `data:weight:propulsion:battery:CG:x`, and the declared output is not written |
| FuelCellCg.FuelCellCgX | src/fastga/models/weight/cg/cg_components/b_propulsion/b5_fuel_cell_cg.py:37-43 | the stack CG is a tenth of the fuselage length, independent of the stack count, and lies in [0, length] for a non-negative length |
| FuelCellCg.StacksAtFrontBatteryLocation | src/fastga/models/weight/cg/cg_components/b_propulsion/b5_fuel_cell_cg.py:43 | the stacks sit at the battery CG component's first battery location, so a single pack is not ahead of them when the cabin location is behind them |
| FuelCellCg.Outputs | src/fastga/models/weight/cg/cg_components/b_propulsion/b5_fuel_cell_cg.py:33-45 | the result is written under the propulsion battery key, and the declared output is not written |
| FuelCellCg.SharesBatteryCgOutputKey | src/fastga/models/weight/cg/cg_components/b_propulsion/b5_fuel_cell_cg.py:45 | the fuel-cell CG and the battery CG write the same single key |
| WingL2L3.WingChords | src/fastga/models/geometry/geom_components/wing/components/compute_wing_l2_l3.py:38-50 | the root chord gives a planform (centre rectangle plus tapered outer panel) of exactly the wing area, and the kink chord equals the root chord |
| WingL2L3.PlanformIsChordTimesDivisor | src/fastga/models/geometry/geom_components/wing/components/compute_wing_l2_l3.py:45 | the planform area is the root chord times 2·y2 + (y4 − y2)·(1 + λ) |
| WingL2L3.RootChordUnique | src/fastga/models/geometry/geom_components/wing/components/compute_wing_l2_l3.py:45 | the root chord is the only chord giving the wing area |
| WingL2L3.RectangularWing | src/fastga/models/geometry/geom_components/wing/components/compute_wing_l2_l3.py:45 | taper 1 gives the chord S/(2·y4) |
| WingL2L3.ChordPositive | src/fastga/models/geometry/geom_components/wing/components/compute_wing_l2_l3.py:45 | positive area, 0 ≤ y2 ≤ y4, y4 > 0 and non-negative taper give a positive divisor and chord |
| HydrogenWeight.HydrogenWeightAsWritten | src/fastga/models/weight/mass_breakdown/b_propulsion/b4_2_hydrogen_weight.py:37-38 | the mass is the endurance in minutes times the flow in kg/s |
| HydrogenWeight.HydrogenWeight | src/fastga/models/weight/mass_breakdown/b_propulsion/b4_2_hydrogen_weight.py:25-38 | the mass is the flow in kg/s over the endurance converted to seconds |
| HydrogenWeight.AsWrittenIsSixtyTimesSmaller | src/fastga/models/weight/mass_breakdown/b_propulsion/b4_2_hydrogen_weight.py:25-38 | the as-written mass is the corrected mass divided by 60, and differs from it for non-zero endurance and power |
| HydrogenWeight.MatchesStorageMass | src/fastga/models/weight/mass_breakdown/b_propulsion/b4_2_hydrogen_weight.py:37-38 | the flow formula is the storage component's, and the mass equals the storage hydrogen mass for an operation time of the endurance in seconds |
| HydrogenWeight.WeightLinearInEndurance | src/fastga/models/weight/mass_breakdown/b_propulsion/b4_2_hydrogen_weight.py:38 | zero endurance needs no hydrogen; the mass is additive in the endurance |
| HydrogenWeight.WeightLinearInPower | src/fastga/models/weight/mass_breakdown/b_propulsion/b4_2_hydrogen_weight.py:37-38 | the mass is additive in the fuel-cell power |
| HydrogenWeight.WeightInverseInVoltage | src/fastga/models/weight/mass_breakdown/b_propulsion/b4_2_hydrogen_weight.py:37 | the mass is inversely proportional to the cell voltage: mass·V_cell does not depend on V_cell |
| HtDistance.HtHeight | src/fastga/models/geometry/geom_components/ht/components/compute_ht_distance.py:39-48 | a flag of exactly 0.0 gives height 0; any other flag value gives the fin span |
| HtDistance.HeightIsPlaneOrFinTop | src/fastga/models/geometry/geom_components/ht/components/compute_ht_distance.py:43-48 | the height is always 0 or the fin span, and within [0, span] for a non-negative span |
| HtDistance.HeightLinearInSpan | src/fastga/models/geometry/geom_components/ht/components/compute_ht_distance.py:43-46 | for a fixed flag the height is additive in the span |

## Findings

| source | as written | input that shows it | evidently intended | confidence | as-written member | corrected member |
|---|---|---|---|---|---|---|
| src/fastga/models/weight/mass_breakdown/b_propulsion/b4_2_hydrogen_weight.py:25-38 | the endurance is declared in minutes and multiplied by a flow commented as kg/s, giving a mass commented as kg | endurance 60 min at a flow of 1 kg/s gives 60 kg instead of 3600 kg | convert the endurance to seconds first | medium, not executed | HydrogenWeight.HydrogenWeightAsWritten, HydrogenWeight.AsWrittenIsSixtyTimesSmaller | HydrogenWeight.HydrogenWeight, HydrogenWeight.MatchesStorageMass |
| src/fastga/models/weight/cg/cg_components/b_propulsion/b4_battery_cg.py:55-56 | for any pack count other than one, the CG is the fuselage length plus the pilot seat length | two packs, 8 m fuselage, 2 m nose, 3 m cabin and 1 m pilot seat give a CG at 9 m, behind the tail | place the packs one pilot-seat length behind the front fuselage, as the class description puts a pack behind the pilot seat | low, not executed | BatteryCg.BatteryCgAsWritten, BatteryCg.AsWrittenPlacesPacksAftOfFuselage | BatteryCg.BatteryCg, BatteryCg.BatteryCgWithinFuselage |

The battery CG class description also swaps the roles: it puts one pack behind the pilot seat
and two packs at the front. The code's one-pack branch instead averages two battery locations.
The correction above changes only the station of the other branch.

## Left out

- Division by zero: the source never checks a divisor. NumPy yields inf or NaN, and `math.ceil`
  then raises. Every divisor is a `requires … != 0` here. That covers 1 − front weight ratio,
  the MAC-free wing area, the cell voltage, the power and endurance divisors, the overhead and
  weight fractions, the bank voltage, efficiency·(1 − SOC), the tank count, the length ratio,
  the maximum stress, the storage pressure, the reference intake flow, the intake count,
  h·ΔT and the chord divisor.
- Square and cube roots: these are witnesses that satisfy `IsSqrt`/`IsCubeRoot`. On a negative
  argument, `math.sqrt` raises ValueError (compute_intakes.py:66, 91), and the `** (1 / 3)` of
  the array cube root gives NaN (compute_h2_storage.py:78). The witness requires exclude both
  cases rather than model them.
- IEEE rounding and NaN propagation are not modelled; all quantities are exact reals. In
  particular γ/(γ − 1) is 3.5 exactly.
- ComputeIntakes.HexPressure: requires a positive heat-exchanger temperature. For air speeds
  high enough to make T_hex ≤ 0, the source produces NaN.
- The standard atmosphere (`Atmosphere`/`atmosphere`, ISO 2533) is not part of this model. The
  sea-level temperature and pressure of the intakes and the cruise temperature of the heat
  exchanger are inputs. The density of the trimmed polar is a function argument.
- The trim solver `found_cl_repartition` is not part of this model. It is a function argument
  of the trimmed polar, and its fourth result is ignored, as in the source.
- The constants module (`BATT_OVERHEAD`, `CELL_WEIGHT_FRACTION`, `NACA_INTAKE`) is not part of
  this model. Its values are parameters.
- The non-equilibrated polar is modelled for one speed regime. The selection of the four
  low-speed or cruise coefficients (compute_polar.py:86-95) is the caller's choice of arguments.
- The flap lift increment, CL_max, compressible slotted-flap lift and the elevator drag path
  depend on empirical chart functions (`FigureDigitization`) that are not part of this model.
  The same goes for `compute` of the high-lift component, which loops over the flight phases
  to fill its outputs. ΔCL is an input of `HighLiftAero.FlapsDeltaCm`.
- Battery methods that reference attributes or methods that do not exist are not modelled:
  `compute_power`, `compute_voltage`, `compute_capacity`, `compute_discharge_current` and both
  `compute_batt_voltage`. They would raise AttributeError if called.
- `nb_packs` is a real, as the component passes it, not the `int` the annotation suggests.
- ComputeBatteries.ComputeBatteries: models the component with the battery type passed as a
  string. As written, the component reads the type as an input array
  (compute_batteries.py:32, 60) and hands it to the battery constructor (line 79). The
  constructor's `battery_type in CellTypes` test (battery.py:84) must hash the type, and a
  NumPy array cannot be hashed, so the source raises TypeError on every call before any preset
  lookup or sizing. The model does not capture that failure.
- ComputeBatteries.ComputeBatteriesV2: OpenMDAO leaves unassigned outputs at their default
  value. The model records them as absent (`None`).
- The key-name mismatches listed above are kept as written. The framework's reaction to a
  read of an undeclared input or a write of an undeclared output is not modelled. The formulas
  are over named parameters.
- `b6_h2_storage_cg.py` reads an undeclared input and assigns no output, so there is no
  behaviour to model.
- The tail-weight regression, the OpenMDAO groups and wiring, and the tests are not part of
  this model.
- Units are those of the source and are not checked. In particular, the hydrogen flow formula
  (power over V_cell·2·96500·500) is kept as written, in both the storage and the weight
  components.
