/**
  The two battery sizing components: one built on the battery pack model (cell counts and
  volumes), the other sizing the design capacity of a backup bank from the load, the losses and
  a temperature correction.
 */
module ComputeBatteries {
  import opened Wrappers
  import opened Battery

  /** The four outputs of the first component. */
  datatype BatteryOutputs = BatteryOutputs(nSeries: int, nParallel: int, packVolume: real, totVolume: real)

  /**
    `ComputeBatteries.compute`: builds the battery from the inputs and writes its cell counts and
    volumes; a failing preset lookup propagates. `battOverhead` is a repository constant.
   */
  function ComputeBatteries(args: BatteryArgs, battOverhead: real): (r: Result<BatteryOutputs, BatteryError>)
    requires NewBattery(args).Ok? ==> Sizable(NewBattery(args).value, battOverhead)
    ensures r.Err? <==> NewBattery(args).Err?
    ensures r.Err? ==> r.error == NewBattery(args).error
    ensures r.Ok? ==>
      var b := NewBattery(args).value;
      r.value == BatteryOutputs(CellsInSeries(b), CellsInParallel(b), PackVolume(b, battOverhead),
                                TotalVolume(b, battOverhead))
  {
    match NewBattery(args)
    case Err(e) => Err(e)
    case Ok(b) =>
      Ok(BatteryOutputs(CellsInSeries(b), CellsInParallel(b), PackVolume(b, battOverhead),
                        TotalVolume(b, battOverhead)))
  }

  /** Outputs of the component for a single pack: the total volume is the pack volume. */
  lemma SinglePackTotalIsPack(args: BatteryArgs, battOverhead: real)
    requires args.nbPacks == 1.0 && args.batteryType !in CellTypes
    requires Sizable(NewBattery(args).value, battOverhead)
    ensures ComputeBatteries(args, battOverhead).Ok?
    ensures ComputeBatteries(args, battOverhead).value.totVolume == ComputeBatteries(args, battOverhead).value.packVolume
  {
  }

  /**
    `compute_temperature_corr_f`: the correction factor of the operating temperature (K), a
    step function over 10 K bands from 288 K to 348 K, each band open below and closed above.
   */
  function TemperatureFactor(opT: real): (f: real)
    ensures 1.0 <= f <= 1.59
    ensures opT <= 288.0 || 348.0 < opT ==> f == 1.0
    ensures 288.0 < opT <= 348.0 ==> 1.04 <= f
  {
    if 288.0 < opT <= 298.0 then 1.59
    else if 298.0 < opT <= 308.0 then 1.40
    else if 308.0 < opT <= 318.0 then 1.30
    else if 318.0 < opT <= 328.0 then 1.19
    else if 328.0 < opT <= 338.0 then 1.11
    else if 338.0 < opT <= 348.0 then 1.04
    else 1.00
  }

  /** The band ends belong to the colder band: 298 K still gets 1.59, anything above it 1.40. */
  lemma TemperatureBandsClosedAbove(opT: real)
    requires 298.0 < opT <= 308.0
    ensures TemperatureFactor(298.0) == 1.59
    ensures TemperatureFactor(opT) == 1.40
  {
  }

  /** Inside the tabulated range the factor never grows with temperature. */
  lemma TemperatureFactorNonIncreasing(t1: real, t2: real)
    requires 288.0 < t1 <= t2 <= 348.0
    ensures TemperatureFactor(t2) <= TemperatureFactor(t1)
  {
  }

  /** Ampere-hours drawn by the load over the backup time. */
  function TotalLoad(requiredPower: real, backupTime: real, bankVoltage: real): (l: real)
    requires bankVoltage != 0.0
    ensures l * bankVoltage == requiredPower * backupTime
  {
    requiredPower * backupTime / bankVoltage
  }

  /** The inputs of the second component. */
  datatype CapacityInputs = CapacityInputs(
    requiredPower: real,
    bankVoltage: real,
    backupTime: real,
    wireLossFactor: real,
    agingFactor: real,
    efficiency: real,
    soc: real,
    operatingTemperature: real)

  /** The source divides by the bank voltage and by efficiency * (1 - SOC) without checks. */
  predicate CapacityDefined(inp: CapacityInputs) {
    inp.bankVoltage != 0.0 && inp.efficiency != 0.0 && inp.soc != 1.0
  }

  /** The load scaled up by wire losses, ageing and temperature. */
  function CorrectedLoad(inp: CapacityInputs): real
    requires inp.bankVoltage != 0.0
  {
    TotalLoad(inp.requiredPower, inp.backupTime, inp.bankVoltage)
      * (1.0 + inp.wireLossFactor) * (1.0 + inp.agingFactor) * TemperatureFactor(inp.operatingTemperature)
  }

  /**
    Design capacity: the corrected load divided by the efficiency and by the usable share
    1 - SOC of the charge.
   */
  function DesignCapacity(inp: CapacityInputs): (c: real)
    requires CapacityDefined(inp)
    ensures c * (inp.efficiency * (1.0 - inp.soc)) == CorrectedLoad(inp)
  {
    var q := inp.efficiency * (1.0 - inp.soc);
    assert q != 0.0;
    CorrectedLoad(inp) / q
  }

  /** With non-negative loss factors, an efficiency in (0, 1] and a SOC in [0, 1), the design
      capacity covers at least the raw load. */
  lemma DesignCapacityCoversLoad(inp: CapacityInputs)
    requires CapacityDefined(inp)
    requires 0.0 <= inp.wireLossFactor && 0.0 <= inp.agingFactor
    requires 0.0 < inp.efficiency <= 1.0 && 0.0 <= inp.soc < 1.0
    requires 0.0 <= TotalLoad(inp.requiredPower, inp.backupTime, inp.bankVoltage)
    ensures TotalLoad(inp.requiredPower, inp.backupTime, inp.bankVoltage) <= DesignCapacity(inp)
  {
    var l := TotalLoad(inp.requiredPower, inp.backupTime, inp.bankVoltage);
    var g := (1.0 + inp.wireLossFactor) * (1.0 + inp.agingFactor) * TemperatureFactor(inp.operatingTemperature);
    AtLeastOne(1.0 + inp.wireLossFactor, 1.0 + inp.agingFactor, TemperatureFactor(inp.operatingTemperature));
    assert CorrectedLoad(inp) == l * g;
    ScaleUp(l, g);
    var q := inp.efficiency * (1.0 - inp.soc);
    FractionOfUnit(inp.efficiency, 1.0 - inp.soc);
    DivideByFraction(l * g, q);
  }

  lemma AtLeastOne(a: real, b: real, c: real)
    requires 1.0 <= a && 1.0 <= b && 1.0 <= c
    ensures 1.0 <= a * b * c
  {
    assert 1.0 <= a * b by { assert a * b - 1.0 == (a - 1.0) * b + (b - 1.0); }
    assert a * b * c - 1.0 == (a * b - 1.0) * c + (c - 1.0);
  }

  lemma ScaleUp(l: real, g: real)
    requires 0.0 <= l && 1.0 <= g
    ensures l <= l * g
  {
    assert l * g - l == l * (g - 1.0);
  }

  lemma FractionOfUnit(a: real, b: real)
    requires 0.0 < a <= 1.0 && 0.0 < b <= 1.0
    ensures 0.0 < a * b <= 1.0
  {
    assert a * b <= 1.0 * b;
  }

  lemma DivideByFraction(x: real, q: real)
    requires 0.0 <= x && 0.0 < q <= 1.0
    ensures x <= x / q
  {
    var y := x / q;
    assert y * q == x;
    assert 0.0 <= y;
    assert y - x == y * (1.0 - q);
    assert 0.0 <= y * (1.0 - q);
  }

  /** What the second component writes: only the design capacity; the pack and total volume
      outputs it declares are never assigned. */
  datatype CapacityOutputs = CapacityOutputs(designCapacity: real, packVolume: Option<real>, totVolume: Option<real>)

  /** `ComputeBatteriesV2.compute`. */
  function ComputeBatteriesV2(inp: CapacityInputs): (o: CapacityOutputs)
    requires CapacityDefined(inp)
    ensures o.designCapacity == DesignCapacity(inp)
    ensures o.packVolume.None? && o.totVolume.None?
  {
    CapacityOutputs(DesignCapacity(inp), None, None)
  }
}
