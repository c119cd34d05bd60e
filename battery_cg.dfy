/**
  Longitudinal centre of gravity of the battery packs. With one pack, the mass is taken to sit
  midway between two battery locations: 10% of the fuselage length, and 90% of the cabin behind
  the front fuselage. Otherwise the component places it one pilot-seat length behind a
  reference station; as written, that station is the fuselage length itself.
 */
module BatteryCg {

  /** The output the component declares, and the different key its computation writes. */
  const DeclaredOutputKey: string := "data:weight:hybrid_powertrain:battery:CG:x"
  const WrittenOutputKey: string := "data:weight:propulsion:battery:CG:x"

  datatype CgInputs = CgInputs(
    nbPacks: real,
    fusLength: real,
    pilotSeatLength: real,
    fusFrontLength: real,
    cabinLength: real)

  /** First battery location: 10% of the fuselage length. */
  function FrontBatteryX(inp: CgInputs): real { 0.1 * inp.fusLength }

  /** Second battery location: 90% of the cabin, measured from the end of the front fuselage. */
  function CabinBatteryX(inp: CgInputs): real { inp.fusFrontLength + 0.9 * inp.cabinLength }

  /** The single-pack position: equidistant from the two battery locations. */
  function SinglePackX(inp: CgInputs): (x: real)
    ensures x - FrontBatteryX(inp) == CabinBatteryX(inp) - x
    ensures FrontBatteryX(inp) <= CabinBatteryX(inp) ==> FrontBatteryX(inp) <= x <= CabinBatteryX(inp)
    ensures CabinBatteryX(inp) <= FrontBatteryX(inp) ==> CabinBatteryX(inp) <= x <= FrontBatteryX(inp)
  {
    (FrontBatteryX(inp) + CabinBatteryX(inp)) / 2.0
  }

  /**
    `ComputeBatteryCG.compute` as written: the single-pack position when `nbPacks` is 1, and
    otherwise the fuselage length plus the pilot seat length.
   */
  function BatteryCgAsWritten(inp: CgInputs): (x: real)
    ensures inp.nbPacks == 1.0 ==> x == SinglePackX(inp)
    ensures inp.nbPacks != 1.0 ==> x - inp.fusLength == inp.pilotSeatLength
  {
    if inp.nbPacks == 1.0 then SinglePackX(inp) else inp.fusLength + inp.pilotSeatLength
  }

  /** As written, any pack count other than one with a pilot seat of positive length puts the
      battery behind the tail of the fuselage. */
  lemma AsWrittenPlacesPacksAftOfFuselage(inp: CgInputs)
    requires inp.nbPacks != 1.0 && 0.0 < inp.pilotSeatLength
    ensures inp.fusLength < BatteryCgAsWritten(inp)
  {
  }

  /** A concrete aircraft: two packs, an 8 m fuselage with a 2 m nose, a 3 m cabin and a 1 m pilot
      seat get a battery CG at 9 m. */
  lemma AsWrittenTwoPackExample()
    ensures BatteryCgAsWritten(CgInputs(2.0, 8.0, 1.0, 2.0, 3.0)) == 9.0
  {
  }

  /**
    The placement with the reference station taken as the front fuselage length, so that the
    packs sit one pilot-seat length behind the nose section, where the component's own
    description puts a pack behind the pilot seat.
   */
  function BatteryCg(inp: CgInputs): (x: real)
    ensures inp.nbPacks == 1.0 ==> x == SinglePackX(inp)
    ensures inp.nbPacks != 1.0 ==> x - inp.fusFrontLength == inp.pilotSeatLength
  {
    if inp.nbPacks == 1.0 then SinglePackX(inp) else inp.fusFrontLength + inp.pilotSeatLength
  }

  /** A layout whose nose section, pilot seat and cabin are non-negative and fit in the fuselage. */
  predicate ConsistentLayout(inp: CgInputs) {
    0.0 <= inp.fusFrontLength && 0.0 <= inp.pilotSeatLength && 0.0 <= inp.cabinLength
      && inp.fusFrontLength + inp.pilotSeatLength <= inp.fusLength
      && inp.fusFrontLength + inp.cabinLength <= inp.fusLength
  }

  /** With a consistent layout the corrected battery CG lies inside the fuselage, whatever the
      pack count. */
  lemma BatteryCgWithinFuselage(inp: CgInputs)
    requires ConsistentLayout(inp)
    ensures 0.0 <= BatteryCg(inp) <= inp.fusLength
  {
    var a := FrontBatteryX(inp);
    var b := CabinBatteryX(inp);
    assert 0.0 <= a <= inp.fusLength;
    assert 0.0 <= b <= inp.fusLength;
    var x := SinglePackX(inp);
    assert x + x == a + b;
  }

  /** The outputs as written: one entry, under the written key and not the declared one. */
  function Outputs(inp: CgInputs): (out: map<string, real>)
    ensures out.Keys == {WrittenOutputKey} && DeclaredOutputKey !in out
    ensures out[WrittenOutputKey] == BatteryCgAsWritten(inp)
  {
    map[WrittenOutputKey := BatteryCgAsWritten(inp)]
  }
}
