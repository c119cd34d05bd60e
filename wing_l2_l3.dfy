/**
  Wing root and kink chords from the wing area. The planform is a rectangular centre section
  of half-span y2 and chord l2, continued by a straight-tapered outer panel from y2 to the tip
  at y4, whose tip chord is the taper ratio times l2. There is no kink: the kink chord is the
  root chord.
 */
module WingL2L3 {

  /** Reference definition: area of both halves of that planform for a root chord `l2`. */
  function PlanformArea(l2: real, y2: real, y4: real, taper: real): real {
    2.0 * (y2 * l2 + (y4 - y2) * (l2 + taper * l2) / 2.0)
  }

  /** The quantity the source divides the wing area by. */
  function ChordDivisor(y2: real, y4: real, taper: real): real {
    2.0 * y2 + (y4 - y2) * (1.0 + taper)
  }

  datatype Chords = Chords(root: real, kink: real)

  /**
    `ComputeWingL2AndL3.compute`: the root chord is the one whose planform has the given wing
    area, and the kink chord equals it.
   */
  function WingChords(area: real, y2: real, y4: real, taper: real): (c: Chords)
    requires ChordDivisor(y2, y4, taper) != 0.0
    ensures PlanformArea(c.root, y2, y4, taper) == area
    ensures c.kink == c.root
  {
    var l2 := area / ChordDivisor(y2, y4, taper);
    PlanformIsChordTimesDivisor(l2, y2, y4, taper);
    Chords(l2, l2)
  }

  /** The planform area is linear in the root chord. */
  lemma PlanformIsChordTimesDivisor(l2: real, y2: real, y4: real, taper: real)
    ensures PlanformArea(l2, y2, y4, taper) == l2 * ChordDivisor(y2, y4, taper)
  {
    assert (y4 - y2) * (l2 + taper * l2) == l2 * ((y4 - y2) * (1.0 + taper));
  }

  /** The root chord is the only chord that gives the wing area. */
  lemma RootChordUnique(area: real, y2: real, y4: real, taper: real, l: real)
    requires ChordDivisor(y2, y4, taper) != 0.0
    requires PlanformArea(l, y2, y4, taper) == area
    ensures l == WingChords(area, y2, y4, taper).root
  {
    var d := ChordDivisor(y2, y4, taper);
    var r := WingChords(area, y2, y4, taper).root;
    PlanformIsChordTimesDivisor(l, y2, y4, taper);
    PlanformIsChordTimesDivisor(r, y2, y4, taper);
    assert (l - r) * d == 0.0;
  }

  /** An untapered wing is a rectangle: the chord is the area over the full span 2 y4. */
  lemma RectangularWing(area: real, y2: real, y4: real)
    requires y4 != 0.0
    ensures ChordDivisor(y2, y4, 1.0) == 2.0 * y4
    ensures WingChords(area, y2, y4, 1.0).root == area / (2.0 * y4)
  {
  }

  /** A positive area over a planform with non-negative stations y2 <= y4, a non-negative taper
      and a positive span gives a positive chord. */
  lemma ChordPositive(area: real, y2: real, y4: real, taper: real)
    requires 0.0 < area && 0.0 <= y2 <= y4 && 0.0 < y4 && 0.0 <= taper
    ensures 0.0 < ChordDivisor(y2, y4, taper)
    ensures 0.0 < WingChords(area, y2, y4, taper).root
  {
    var d := ChordDivisor(y2, y4, taper);
    assert 0.0 <= (y4 - y2) * (1.0 + taper);
    assert (y4 - y2) * (1.0 + taper) >= y4 - y2 by {
      assert (y4 - y2) * (1.0 + taper) == (y4 - y2) + (y4 - y2) * taper;
    }
    assert 0.0 < d;
    var l := WingChords(area, y2, y4, taper).root;
    PlanformIsChordTimesDivisor(l, y2, y4, taper);
  }
}
