/**
  The battery pack model: cell parameters taken from a preset table or from the caller, cell
  voltage under load, the numbers of cells in series and in parallel, pack and total volume,
  weight and depth of discharge.
 */
module Battery {
  import opened Wrappers
  import opened Numerics

  /** Preset cell types, each a table of named parameters (sizes in mm, capacity in mAh, mass
      in g, voltages in V). The 'LI-S' entry only gives its specific energy and density. */
  const CellTypes: map<string, map<string, real>> := map[
    "LG-HG2" := map[
      "DIAMETER" := 18.0, "LENGTH" := 65.0, "SPECIFIC_ENERGY" := 240.0, "ENERGY_DENSITY" := 670.0,
      "RATED_CAPACITY" := 3000.0, "CELL_MASS" := 44.5, "I_MAX" := 20.0, "V_CUT_OFF" := 2.5,
      "V_NOM" := 3.6],
    "LI-S" := map["SPECIFIC_ENERGY" := 550.0, "ENERGY_DENSITY" := 620.0]
  ]

  /** The preset entries read when a battery is built from the table, in reading order. */
  const PresetKeys: seq<string> := ["DIAMETER", "LENGTH", "RATED_CAPACITY", "CELL_MASS", "V_NOM"]

  /** Python's dictionary lookup failure. */
  datatype BatteryError = KeyError(key: string)

  /** The constructor's arguments (the commented-out ones are not part of the constructor). */
  datatype BatteryArgs = BatteryArgs(
    requiredEnergy: real,
    inCurrent: real,
    cellDiameter: real,
    cellLength: real,
    cellCapacity: real,
    cellNomVolt: real,
    cellMass: real,
    maxCRate: real,
    intResistance: real,
    soc: real,
    sysNomVoltage: real,
    motorTakeOffPower: real,
    motorEff: real,
    batteryType: string,
    nbPacks: real)

  /** The cell parameters of a battery. */
  datatype Cell = Cell(diameter: real, length: real, capacity: real, mass: real, nomVoltage: real)

  /** A battery as its constructor leaves it. */
  datatype Battery = Battery(
    cell: Cell,
    nbPacks: real,
    energy: real,
    inCurrent: real,
    maxCRate: real,
    intResistance: real,
    soc: real,
    nomVoltage: real,
    motorTakeOffPower: real,
    motorEff: real)

  /** The first of `keys` that `m` lacks, if any. */
  function FirstMissing(keys: seq<string>, m: map<string, real>): (r: Option<string>)
    ensures r.None? <==> forall k :: k in keys ==> k in m
    ensures r.Some? ==>
      exists i :: (0 <= i < |keys| && keys[i] == r.value && r.value !in m
                   && forall j :: 0 <= j < i ==> keys[j] in m)
  {
    if keys == [] then None
    else if keys[0] !in m then Some(keys[0])
    else
      var rest := FirstMissing(keys[1..], m);
      assert forall k :: k in keys[1..] ==> k in keys;
      assert forall k :: k in keys ==> k == keys[0] || k in keys[1..];
      if rest.Some? then
        var i :| 0 <= i < |keys[1..]| && keys[1..][i] == rest.value && rest.value !in m
          && forall j :: 0 <= j < i ==> keys[1..][j] in m;
        assert keys[i + 1] == rest.value;
        assert forall j :: 0 <= j < i + 1 ==> keys[j] in m by {
          forall j | 0 <= j < i + 1 ensures keys[j] in m {
            if j > 0 { assert keys[j] == keys[1..][j - 1]; }
          }
        }
        rest
      else rest
  }

  /** Cell parameters read from a complete preset entry. */
  function PresetCell(data: map<string, real>): Cell
    requires forall k :: k in PresetKeys ==> k in data
  {
    assert PresetKeys[0] in PresetKeys && PresetKeys[1] in PresetKeys && PresetKeys[2] in PresetKeys;
    assert PresetKeys[3] in PresetKeys && PresetKeys[4] in PresetKeys;
    Cell(data["DIAMETER"], data["LENGTH"], data["RATED_CAPACITY"], data["CELL_MASS"], data["V_NOM"])
  }

  /**
    `Battery.__init__`: a known battery type takes its cell from the preset table (failing on
    the first parameter the entry lacks) and ignores the cell arguments; any other type takes
    the cell from the arguments. The remaining fields are copied from the arguments.
   */
  function NewBattery(args: BatteryArgs): (r: Result<Battery, BatteryError>)
    ensures r.Err? <==> args.batteryType in CellTypes && FirstMissing(PresetKeys, CellTypes[args.batteryType]).Some?
    ensures r.Err? ==> r.error == KeyError(FirstMissing(PresetKeys, CellTypes[args.batteryType]).value)
    ensures r.Ok? && args.batteryType in CellTypes ==> r.value.cell == PresetCell(CellTypes[args.batteryType])
    ensures args.batteryType !in CellTypes ==>
      r.Ok? && r.value.cell == Cell(args.cellDiameter, args.cellLength, args.cellCapacity, args.cellMass, args.cellNomVolt)
    ensures r.Ok? ==>
      r.value.nbPacks == args.nbPacks && r.value.energy == args.requiredEnergy
      && r.value.inCurrent == args.inCurrent && r.value.maxCRate == args.maxCRate
      && r.value.intResistance == args.intResistance && r.value.soc == args.soc
      && r.value.nomVoltage == args.sysNomVoltage && r.value.motorTakeOffPower == args.motorTakeOffPower
      && r.value.motorEff == args.motorEff
  {
    var cell :=
      if args.batteryType in CellTypes then
        var data := CellTypes[args.batteryType];
        match FirstMissing(PresetKeys, data)
        case Some(k) => Err(KeyError(k))
        case None => Ok(PresetCell(data))
      else Ok(Cell(args.cellDiameter, args.cellLength, args.cellCapacity, args.cellMass, args.cellNomVolt));
    match cell
    case Err(e) => Err(e)
    case Ok(c) => Ok(Battery(c, args.nbPacks, args.requiredEnergy, args.inCurrent, args.maxCRate,
                             args.intResistance, args.soc, args.sysNomVoltage, args.motorTakeOffPower,
                             args.motorEff))
  }

  /** Choosing the 'LI-S' preset fails on its missing diameter. */
  lemma LiSFails(args: BatteryArgs)
    requires args.batteryType == "LI-S"
    ensures NewBattery(args) == Err(KeyError("DIAMETER"))
  {
    assert "LI-S" in CellTypes;
    assert "DIAMETER" !in CellTypes["LI-S"];
    assert FirstMissing(PresetKeys, CellTypes["LI-S"]) == Some("DIAMETER");
  }

  /** Choosing 'LG-HG2' gives its table values, whatever cell arguments were passed. */
  lemma LgHg2Preset(args: BatteryArgs)
    requires args.batteryType == "LG-HG2"
    ensures NewBattery(args).Ok?
    ensures NewBattery(args).value.cell == Cell(18.0, 65.0, 3000.0, 44.5, 3.6)
  {
    var data := CellTypes["LG-HG2"];
    assert forall k :: k in PresetKeys ==> k in data;
  }

  /** Built from a preset, two batteries whose arguments differ only in the cell parameters are
      the same battery. */
  lemma PresetIgnoresCellArguments(a1: BatteryArgs, a2: BatteryArgs)
    requires a1.batteryType in CellTypes
    requires a2 == a1.(cellDiameter := a2.cellDiameter, cellLength := a2.cellLength,
                       cellCapacity := a2.cellCapacity, cellMass := a2.cellMass,
                       cellNomVolt := a2.cellNomVolt)
    ensures NewBattery(a1) == NewBattery(a2)
  {
  }

  /** Voltage drop per unit of state of charge. */
  const VoltageDropPerSoc: real := 0.94

  /** `compute_V_cell`: nominal voltage less a linear state-of-charge drop and the resistive drop
      at the maximum C-rate. */
  function CellVoltage(b: Battery): (v: real)
    ensures v + VoltageDropPerSoc * b.soc + b.intResistance * b.cell.capacity * b.maxCRate == b.cell.nomVoltage
  {
    b.cell.nomVoltage - VoltageDropPerSoc * b.soc - b.intResistance * b.cell.capacity * b.maxCRate
  }

  /** The cell voltage strictly decreases as the state of charge grows. */
  lemma CellVoltageDecreasesWithSoc(b: Battery, soc: real)
    requires b.soc < soc
    ensures CellVoltage(b.(soc := soc)) < CellVoltage(b)
  {
  }

  /** From x / v <= n < x / v + 1 and v > 0 follows n v >= x > (n - 1) v. */
  lemma CeilOfQuotient(x: real, v: real, n: int)
    requires 0.0 < v
    requires x / v <= n as real && (n - 1) as real < x / v
    ensures x <= n as real * v && (n - 1) as real * v < x
  {
    assert x / v * v == x;
    MulRight(x / v, n as real, v);
    MulRightStrict((n - 1) as real, x / v, v);
  }

  lemma MulRight(a: real, b: real, v: real)
    requires a <= b && 0.0 < v
    ensures a * v <= b * v
  {
    assert (b - a) * v >= 0.0;
  }

  lemma MulRightStrict(a: real, b: real, v: real)
    requires a < b && 0.0 < v
    ensures a * v < b * v
  {
    assert (b - a) * v > 0.0;
  }

  /**
    `compute_nb_cells_ser`: ceil(system voltage / cell voltage). For a positive cell voltage this
    is the least number of cells whose voltages add up to the system voltage.
   */
  function CellsInSeries(b: Battery): (n: int)
    requires CellVoltage(b) != 0.0
    ensures 0.0 < CellVoltage(b) ==>
      b.nomVoltage <= n as real * CellVoltage(b) && (n - 1) as real * CellVoltage(b) < b.nomVoltage
  {
    var n := Ceil(b.nomVoltage / CellVoltage(b));
    if 0.0 < CellVoltage(b) then
      CeilOfQuotient(b.nomVoltage, CellVoltage(b), n);
      n
    else n
  }

  /** No smaller number of cells reaches the system voltage. */
  lemma CellsInSeriesIsLeast(b: Battery, m: int)
    requires 0.0 < CellVoltage(b)
    requires b.nomVoltage <= m as real * CellVoltage(b)
    ensures CellsInSeries(b) <= m
  {
    var n := CellsInSeries(b);
    var v := CellVoltage(b);
    assert (n - 1) as real * v < b.nomVoltage;
    if m < n {
      MulRight(m as real, (n - 1) as real, v);
      assert false;
    }
  }

  /** The divisors of the two parallel-count formulas. */
  function PowerDivisor(b: Battery): real
    requires CellVoltage(b) != 0.0
  {
    CellVoltage(b) * CellsInSeries(b) as real * b.motorEff * b.cell.capacity * b.maxCRate
  }

  function EnduranceDivisor(b: Battery): real {
    b.cell.capacity * b.nomVoltage
  }

  /** Parallel strings needed for the take-off power. */
  function CellsForPower(b: Battery): int
    requires CellVoltage(b) != 0.0 && PowerDivisor(b) != 0.0
  {
    Ceil(b.motorTakeOffPower / PowerDivisor(b))
  }

  /** Parallel strings needed for the required energy. */
  function CellsForEndurance(b: Battery): int
    requires EnduranceDivisor(b) != 0.0
  {
    Ceil(b.energy / EnduranceDivisor(b))
  }

  /**
    `compute_nb_cells_par`: the larger of the power-sized and the endurance-sized counts, that
    is the least integer that covers both requirements.
   */
  function CellsInParallel(b: Battery): (n: int)
    requires CellVoltage(b) != 0.0 && PowerDivisor(b) != 0.0 && EnduranceDivisor(b) != 0.0
    ensures n >= CellsForPower(b) && n >= CellsForEndurance(b)
    ensures n == CellsForPower(b) || n == CellsForEndurance(b)
    ensures b.motorTakeOffPower / PowerDivisor(b) <= n as real && b.energy / EnduranceDivisor(b) <= n as real
    ensures (n - 1) as real < b.motorTakeOffPower / PowerDivisor(b) || (n - 1) as real < b.energy / EnduranceDivisor(b)
  {
    if CellsForPower(b) >= CellsForEndurance(b) then CellsForPower(b) else CellsForEndurance(b)
  }

  /** Hexagonal packing density of cylindrical cells. */
  const HexPackingDensity: real := 0.907

  /** The conditions under which the pack formulas divide by non-zero values. */
  predicate Sizable(b: Battery, battOverhead: real) {
    CellVoltage(b) != 0.0 && PowerDivisor(b) != 0.0 && EnduranceDivisor(b) != 0.0 && battOverhead != 0.0
  }

  /** Volume of one cell's share of the pack: a cylinder enlarged by packing and overhead. */
  function CellShareVolume(b: Battery, battOverhead: real): real
    requires battOverhead != 0.0
  {
    Pi * b.cell.diameter * b.cell.diameter * b.cell.length / (4.0 * HexPackingDensity * battOverhead)
  }

  /**
    `compute_pack_volume`: the cylinders of all Ns x Np cells, packed hexagonally and enlarged by
    the pack overhead `battOverhead` (a repository constant, not part of this model).
   */
  function PackVolume(b: Battery, battOverhead: real): (v: real)
    requires Sizable(b, battOverhead)
    ensures v == CellShareVolume(b, battOverhead) * (CellsInSeries(b) * CellsInParallel(b)) as real
  {
    var ns := CellsInSeries(b) as real;
    var np := CellsInParallel(b) as real;
    var d := b.cell.diameter;
    PackVolumeRegroup(Pi * d * d * b.cell.length, ns, np, 4.0 * HexPackingDensity * battOverhead);
    Pi * d * d * b.cell.length * ns * np / (4.0 * HexPackingDensity * battOverhead)
  }

  lemma PackVolumeRegroup(c: real, ns: real, np: real, q: real)
    requires q != 0.0
    ensures c * ns * np / q == c / q * (ns * np)
  {
    assert c * ns * np == c * (ns * np);
    assert c * (ns * np) / q == c / q * (ns * np);
  }

  /** `compute_tot_volume`: all packs together. */
  function TotalVolume(b: Battery, battOverhead: real): (v: real)
    requires Sizable(b, battOverhead)
    ensures v == CellShareVolume(b, battOverhead) * (b.nbPacks * (CellsInSeries(b) * CellsInParallel(b)) as real)
    ensures b.nbPacks == 1.0 ==> v == PackVolume(b, battOverhead)
  {
    var share := CellShareVolume(b, battOverhead);
    var cells := (CellsInSeries(b) * CellsInParallel(b)) as real;
    assert b.nbPacks * (share * cells) == share * (b.nbPacks * cells);
    b.nbPacks * PackVolume(b, battOverhead)
  }

  /** `compute_weight`: cell mass of all cells over the cell weight fraction (a repository
      constant, not part of this model). */
  function Weight(b: Battery, cellWeightFraction: real): (w: real)
    requires CellVoltage(b) != 0.0 && PowerDivisor(b) != 0.0 && EnduranceDivisor(b) != 0.0
    requires cellWeightFraction != 0.0
    ensures w * cellWeightFraction == (CellsInParallel(b) * CellsInSeries(b)) as real * b.cell.mass
  {
    WeightRegroup(CellsInParallel(b) as real, CellsInSeries(b) as real, b.cell.mass, cellWeightFraction);
    CellsInParallel(b) as real * CellsInSeries(b) as real * b.cell.mass / cellWeightFraction
  }

  lemma WeightRegroup(np: real, ns: real, m: real, f: real)
    requires f != 0.0
    ensures np * ns * m / f * f == (np * ns) * m
  {
    assert np * ns * m == (np * ns) * m;
  }

  /** `depth_of_discharge`: the share of the charge that is not kept. */
  function DepthOfDischarge(b: Battery): (d: real)
    ensures d + b.soc == 1.0
  {
    1.0 - b.soc
  }
}
