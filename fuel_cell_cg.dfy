/**
  Longitudinal centre of gravity of the fuel-cell stacks: at most two stacks side by side, so
  the position depends on the fuselage length only.
 */
module FuelCellCg {
  import BatteryCg

  /** The stacks sit at 10% of the fuselage length. */
  function FuelCellCgX(fusLength: real): (x: real)
    ensures 10.0 * x == fusLength
    ensures 0.0 <= fusLength ==> 0.0 <= x <= fusLength
  {
    0.1 * fusLength
  }

  /** The stacks share the first battery location of the battery CG component, so a single
      battery pack never sits ahead of them when the cabin battery location is behind them. */
  lemma StacksAtFrontBatteryLocation(inp: BatteryCg.CgInputs)
    ensures FuelCellCgX(inp.fusLength) == BatteryCg.FrontBatteryX(inp)
    ensures inp.nbPacks == 1.0 && BatteryCg.FrontBatteryX(inp) <= BatteryCg.CabinBatteryX(inp)
      ==> FuelCellCgX(inp.fusLength) <= BatteryCg.BatteryCg(inp)
  {
  }

  /** The component declares the same output as the battery CG component and, like it, writes
      under the propulsion battery key instead. */
  function Outputs(fusLength: real): (out: map<string, real>)
    ensures out.Keys == {BatteryCg.WrittenOutputKey} && BatteryCg.DeclaredOutputKey !in out
    ensures out[BatteryCg.WrittenOutputKey] == FuelCellCgX(fusLength)
  {
    map[BatteryCg.WrittenOutputKey := FuelCellCgX(fusLength)]
  }

  /** The fuel-cell CG and the battery CG components write under the same key name. */
  lemma SharesBatteryCgOutputKey(fusLength: real, inp: BatteryCg.CgInputs)
    ensures Outputs(fusLength).Keys == BatteryCg.Outputs(inp).Keys
  {
  }
}
