/**
  Drag and pitching-moment increments of the wing flaps (Young's drag charts as given by
  Gudmundsson, Roskam's moment factor). The lift increment itself comes from empirical chart
  functions that are not part of this model and is an input here.
 */
module HighLiftAero {
  import opened Numerics

  datatype FlapType = Plain | Slotted | Split

  /** The flap-type input is a float: exactly 0.0 is a plain flap, exactly 1.0 a slotted one,
      and every other value falls through to the split-flap branch. */
  function FlapTypeOf(code: real): (t: FlapType)
    ensures t == Plain <==> code == 0.0
    ensures t == Slotted <==> code == 1.0
  {
    if code == 0.0 then Plain else if code == 1.0 then Slotted else Split
  }

  /** Thickness ratios at which the drag charts are digitised. */
  const ThicknessNodes: seq<real> := [0.12, 0.21, 0.30]
  /** The slotted-flap k1 chart is only digitised up to 21 % thickness. */
  const SlottedK1Nodes: seq<real> := [0.12, 0.21]

  /** A chart fit, given by its coefficients in increasing powers, evaluated at `x`. */
  function Poly(coeffs: seq<real>, x: real): real
    decreases |coeffs|
  {
    if coeffs == [] then 0.0 else coeffs[0] + x * Poly(coeffs[1..], x)
  }

  /** k1 fits in chord ratio, shared by plain and split flaps, at 12, 21 and 30 % thickness. */
  const PlainSplitK1Coeffs: seq<seq<real>> := [
    [-0.00103, 3.165, 14.091, -21.09],
    [-0.0050, 3.363, 12.68, -19.988],
    [-0.0031, 4.372, 4.694, -0.000]
  ]

  /** k1 fits in chord ratio of the slotted flap at 12 and 21 % thickness. */
  const SlottedK1Coeffs: seq<seq<real>> := [
    [-0.0089, 2.3705, 28.929, -111.6, 179.32],
    [-0.0054, 3.4564, 8.2658, -0.000, 0.000]
  ]

  /** k2 fit in deflection (degrees) of the plain flap. */
  const PlainK2Coeffs: seq<real> := [-1.4729e-3, 6.843e-4, 5.387e-5, -3.795e-7]

  /** Linear coefficient of the 30 % slotted-flap k2 fit, kept as the source writes it
      (`41677e-3`, that is 41.677). */
  const SlottedK2Linear030: real := 41677e-3

  /** k2 fits in deflection of the slotted flap at 12, 21 and 30 % thickness. */
  const SlottedK2Coeffs: seq<seq<real>> := [
    [-3.892e-4, 6.8324e-4, -9.89444e-5, 6.1742e-6, -1.2846e-7, 1.1685e-9, -3.9877e-12],
    [-3.3591e-4, -2.64884e-4, 5.6732e-5, -9.8465e-7, 1.0025e-8, -4.6025e-11, -0.0],
    [6.749e-4, -SlottedK2Linear030, 5.3342e-5, -3.6841e-7, -0.0, 0.0, 0.0]
  ]

  /** k2 fits in deflection of the split flap at 12, 21 and 30 % thickness. */
  const SplitK2Coeffs: seq<seq<real>> := [
    [-2.219e-5, 1.0110e-3, 5.5496e-5, -4.161e-7],
    [8.1775e-4, -4.8877e-5, 7.4060e-5, -5.1007e-7],
    [5.1647e-4, -1.2443e-4, 5.598e-5, -3.2740e-7]
  ]

  /** The values of a family of fits at `x`, one per thickness node. */
  function EvalFits(fits: seq<seq<real>>, x: real): (ys: seq<real>)
    ensures |ys| == |fits|
  {
    seq(|fits|, i requires 0 <= i < |fits| => Poly(fits[i], x))
  }

  function PlainSplitK1Fits(c: real): seq<real> { EvalFits(PlainSplitK1Coeffs, c) }
  function SlottedK1Fits(c: real): seq<real> { EvalFits(SlottedK1Coeffs, c) }
  function PlainK2(a: real): real { Poly(PlainK2Coeffs, a) }
  function SlottedK2Fits(a: real): seq<real> { EvalFits(SlottedK2Coeffs, a) }
  function SplitK2Fits(a: real): seq<real> { EvalFits(SplitK2Coeffs, a) }

  /**
    The chord-ratio factor k1: the chart fits interpolated linearly in thickness ratio `t`,
    after clipping `t` to the digitised range ([0.12, 0.30], or [0.12, 0.21] for slotted flaps).
   */
  function K1(kind: FlapType, c: real, t: real): (k: real)
    ensures kind != Slotted ==> (t <= 0.12 ==> k == PlainSplitK1Fits(c)[0])
    ensures kind != Slotted ==> (t == 0.21 ==> k == PlainSplitK1Fits(c)[1])
    ensures kind != Slotted ==> (0.30 <= t ==> k == PlainSplitK1Fits(c)[2])
    ensures kind != Slotted ==> (0.12 <= t <= 0.21 ==>
      Min(PlainSplitK1Fits(c)[0], PlainSplitK1Fits(c)[1]) <= k
        <= Max(PlainSplitK1Fits(c)[0], PlainSplitK1Fits(c)[1]))
    ensures kind != Slotted ==> (0.21 <= t <= 0.30 ==>
      Min(PlainSplitK1Fits(c)[1], PlainSplitK1Fits(c)[2]) <= k
        <= Max(PlainSplitK1Fits(c)[1], PlainSplitK1Fits(c)[2]))
    ensures kind == Slotted ==> (t <= 0.12 ==> k == SlottedK1Fits(c)[0])
    ensures kind == Slotted ==> (0.21 <= t ==> k == SlottedK1Fits(c)[1])
    ensures kind == Slotted ==> (0.12 <= t <= 0.21 ==>
      Min(SlottedK1Fits(c)[0], SlottedK1Fits(c)[1]) <= k
        <= Max(SlottedK1Fits(c)[0], SlottedK1Fits(c)[1]))
  {
    match kind
    case Slotted => InterpSlottedK1(SlottedK1Fits(c), t)
    case _ => InterpThickness(PlainSplitK1Fits(c), t)
  }

  /** Node values interpolated over the three thickness nodes at the ratio clipped to
      [0.12, 0.30]: the end values beyond the ends, the middle value at 21 %, and between the
      two node values of the segment in between. */
  function InterpThickness(ys: seq<real>, t: real): (k: real)
    requires |ys| == 3
    ensures t <= 0.12 ==> k == ys[0]
    ensures t == 0.21 ==> k == ys[1]
    ensures 0.30 <= t ==> k == ys[2]
    ensures 0.12 <= t <= 0.21 ==> Min(ys[0], ys[1]) <= k <= Max(ys[0], ys[1])
    ensures 0.21 <= t <= 0.30 ==> Min(ys[1], ys[2]) <= k <= Max(ys[1], ys[2])
  {
    assert StrictlyIncreasing(ThicknessNodes);
    assert ThicknessNodes[0] == 0.12 && ThicknessNodes[1] == 0.21 && ThicknessNodes[2] == 0.30;
    Interp(ThicknessNodes, ys, Clip(t, 0.12, 0.30))
  }

  /** The same over the two slotted-flap k1 nodes, at the ratio clipped to [0.12, 0.21]. */
  function InterpSlottedK1(ys: seq<real>, t: real): (k: real)
    requires |ys| == 2
    ensures t <= 0.12 ==> k == ys[0]
    ensures 0.21 <= t ==> k == ys[1]
    ensures 0.12 <= t <= 0.21 ==> Min(ys[0], ys[1]) <= k <= Max(ys[0], ys[1])
  {
    assert StrictlyIncreasing(SlottedK1Nodes);
    assert SlottedK1Nodes[0] == 0.12 && SlottedK1Nodes[1] == 0.21;
    Interp(SlottedK1Nodes, ys, Clip(t, 0.12, 0.21))
  }

  /** Node fits of k2 for the flap types whose k2 depends on thickness. */
  function K2Fits(kind: FlapType, a: real): seq<real>
    requires kind != Plain
  {
    if kind == Slotted then SlottedK2Fits(a) else SplitK2Fits(a)
  }

  /**
    The deflection factor k2: for a plain flap a single fit in the deflection; for slotted and
    split flaps the fits interpolated in the thickness ratio clipped to [0.12, 0.30].
   */
  function K2(kind: FlapType, a: real, t: real): (k: real)
    ensures kind == Plain ==> k == PlainK2(a)
    ensures kind != Plain ==> (t <= 0.12 ==> k == K2Fits(kind, a)[0])
    ensures kind != Plain ==> (t == 0.21 ==> k == K2Fits(kind, a)[1])
    ensures kind != Plain ==> (0.30 <= t ==> k == K2Fits(kind, a)[2])
    ensures kind != Plain ==> (0.12 <= t <= 0.21 ==>
      Min(K2Fits(kind, a)[0], K2Fits(kind, a)[1]) <= k <= Max(K2Fits(kind, a)[0], K2Fits(kind, a)[1]))
    ensures kind != Plain ==> (0.21 <= t <= 0.30 ==>
      Min(K2Fits(kind, a)[1], K2Fits(kind, a)[2]) <= k <= Max(K2Fits(kind, a)[1], K2Fits(kind, a)[2]))
  {
    match kind
    case Plain => PlainK2(a)
    case _ => InterpThickness(K2Fits(kind, a), t)
  }

  /** ΔCD = k1 * k2 * area ratio. */
  function DragFromFactors(k1: real, k2: real, areaRatio: real): real {
    k1 * k2 * areaRatio
  }

  /** The increment is linear in the area ratio, hence zero without flap area. */
  lemma DragLinearInAreaRatio(k1: real, k2: real, r1: real, r2: real)
    ensures DragFromFactors(k1, k2, r1 + r2) == DragFromFactors(k1, k2, r1) + DragFromFactors(k1, k2, r2)
    ensures DragFromFactors(k1, k2, r1) == r1 * DragFromFactors(k1, k2, 1.0)
    ensures DragFromFactors(k1, k2, 0.0) == 0.0
  {
  }

  /**
    `_get_flaps_delta_cd`: drag increment of a flap of type `code`, chord ratio `c`, wing
    thickness ratio `t`, deflection `a` (degrees) and flap-to-wing area ratio `areaRatio`.
   */
  function FlapsDeltaCd(code: real, c: real, t: real, a: real, areaRatio: real): (d: real)
    ensures areaRatio == 0.0 ==> d == 0.0
  {
    DragFromFactors(K1(FlapTypeOf(code), c, t), K2(FlapTypeOf(code), a, t), areaRatio)
  }

  /** Thickness ratios outside the charts are clipped, never rejected: both factors at any `t`
      are those at `t` clipped to [0.12, 0.30], for every flap type. */
  lemma FactorsClipThickness(kind: FlapType, c: real, t: real, a: real)
    ensures K1(kind, c, t) == K1(kind, c, Clip(t, 0.12, 0.30))
    ensures K2(kind, a, t) == K2(kind, a, Clip(t, 0.12, 0.30))
  {
    var t1 := Clip(t, 0.12, 0.30);
    assert Clip(t1, 0.12, 0.30) == t1;
    assert Clip(t1, 0.12, 0.21) == Clip(t, 0.12, 0.21);
  }

  /** So the drag increment at any thickness ratio is the one at the clipped ratio; in
      particular every ratio above 0.30 gives the 0.30 value and every ratio below 0.12 the
      0.12 value. */
  lemma DeltaCdClipsThickness(code: real, c: real, t: real, a: real, areaRatio: real)
    ensures FlapsDeltaCd(code, c, t, a, areaRatio) == FlapsDeltaCd(code, c, Clip(t, 0.12, 0.30), a, areaRatio)
    ensures 0.30 <= t ==> FlapsDeltaCd(code, c, t, a, areaRatio) == FlapsDeltaCd(code, c, 0.30, a, areaRatio)
    ensures t <= 0.12 ==> FlapsDeltaCd(code, c, t, a, areaRatio) == FlapsDeltaCd(code, c, 0.12, a, areaRatio)
  {
    var kind := FlapTypeOf(code);
    FactorsClipThickness(kind, c, t, a);
    if 0.30 <= t {
      FactorsClipThickness(kind, c, 0.30, a);
    }
    if t <= 0.12 {
      FactorsClipThickness(kind, c, 0.12, a);
    }
  }

  /** For slotted flaps the two clips differ: k1 no longer changes above 21 % thickness while k2
      still does (at zero deflection the 25 % value differs from the 21 % one). */
  lemma SlottedClipsDiffer(c: real)
    ensures K1(Slotted, c, 0.25) == K1(Slotted, c, 0.21)
    ensures K2(Slotted, 0.0, 0.25) != K2(Slotted, 0.0, 0.21)
  {
    var fits := SlottedK2Fits(0.0);
    assert fits[1] == -3.3591e-4 && fits[2] == 6.749e-4;
    assert K2(Slotted, 0.0, 0.25) == Lerp(0.21, fits[1], 0.30, fits[2], 0.25);
  }

  /** Plain (code 0) and split (any code but 0 and 1) flaps share their k1 and differ only in
      the k2 factor. */
  lemma PlainAndSplitShareK1(code: real, c: real, t: real, a: real, areaRatio: real)
    requires code != 0.0 && code != 1.0
    ensures K1(Plain, c, t) == K1(Split, c, t)
    ensures FlapsDeltaCd(0.0, c, t, a, areaRatio) == DragFromFactors(K1(Split, c, t), PlainK2(a), areaRatio)
    ensures FlapsDeltaCd(code, c, t, a, areaRatio) == DragFromFactors(K1(Plain, c, t), K2(Split, a, t), areaRatio)
  {
  }

  /** Because of the linear coefficient 41.677 of the 30 % fit, a 30-degree slotted flap of
      chord ratio 0.25 on a 30 % thick wing gets a negative drag increment. */
  lemma SlottedThickWingDragIsNegative(areaRatio: real)
    requires 0.0 < areaRatio
    ensures FlapsDeltaCd(1.0, 0.25, 0.30, 30.0, areaRatio) < 0.0
  {
    var k1 := K1(Slotted, 0.25, 0.30);
    var k2 := K2(Slotted, 30.0, 0.30);
    assert k1 == Poly(SlottedK1Coeffs[1], 0.25);
    assert k2 == Poly(SlottedK2Coeffs[2], 30.0);
    assert SlottedK1Coeffs[1] == [-0.0054, 3.4564, 8.2658, -0.000, 0.000];
    assert SlottedK2Coeffs[2] == [6.749e-4, -41.677, 5.3342e-5, -3.6841e-7, -0.0, 0.0, 0.0];
    assert 0.0 < k1;
    ThickSlottedFitAt30();
    OppositeSignsGiveNegativeDrag(k1, k2, areaRatio);
  }

  /** The 30 % slotted k2 fit at 30 degrees: 6.749e-4 - 41.677 * 30 + ..., about -1250. */
  lemma ThickSlottedFitAt30()
    ensures Poly(SlottedK2Coeffs[2], 30.0) < 0.0
  {
    var p := SlottedK2Coeffs[2];
    assert p == [6.749e-4, -41.677, 5.3342e-5, -3.6841e-7, -0.0, 0.0, 0.0];
    assert Poly(p[6..], 30.0) == 0.0 + 30.0 * Poly(p[7..], 30.0);
    assert Poly(p[5..], 30.0) == 0.0;
    assert Poly(p[4..], 30.0) == 0.0;
    assert Poly(p[3..], 30.0) == -3.6841e-7;
    assert Poly(p[2..], 30.0) == 5.3342e-5 + 30.0 * -3.6841e-7;
    assert Poly(p[1..], 30.0) == -41.677 + 30.0 * (5.3342e-5 + 30.0 * -3.6841e-7);
    assert Poly(p, 30.0) == 6.749e-4 + 30.0 * (-41.677 + 30.0 * (5.3342e-5 + 30.0 * -3.6841e-7));
  }

  lemma OppositeSignsGiveNegativeDrag(k1: real, k2: real, areaRatio: real)
    requires 0.0 < k1 && k2 < 0.0 && 0.0 < areaRatio
    ensures DragFromFactors(k1, k2, areaRatio) < 0.0
  {
    assert k1 * k2 < 0.0;
  }

  /**
    Flap area measured on one half wing: the strip under the fuselage-to-root part (y1 to y2) at
    root chord, plus the flapped part of the outer panel.
   */
  function FlapArea(wingSpan: real, taper: real, y1: real, y2: real, rootChord: real, spanRatio: real): real {
    (y2 - y1) * rootChord
      + spanRatio * (wingSpan / 2.0 - y2) * (rootChord * (2.0 - (1.0 - taper) * spanRatio)) * 0.5
  }

  /** A trapezoid of width `w` between parallel sides `c1` and `c2`. */
  function Trapezoid(w: real, c1: real, c2: real): real { w * (c1 + c2) / 2.0 }

  /** The outer flapped part is the trapezoid from the root chord to the linearly tapered chord
      at the flap's outer end; with no flap span only the inboard strip is left, and a
      full-span flap covers the whole outer panel. */
  lemma FlapAreaIsStripPlusTrapezoid(wingSpan: real, taper: real, y1: real, y2: real, rootChord: real, spanRatio: real)
    ensures FlapArea(wingSpan, taper, y1, y2, rootChord, spanRatio)
      == (y2 - y1) * rootChord
       + Trapezoid(spanRatio * (wingSpan / 2.0 - y2), rootChord, rootChord * (1.0 - (1.0 - taper) * spanRatio))
    ensures FlapArea(wingSpan, taper, y1, y2, rootChord, 0.0) == (y2 - y1) * rootChord
    ensures FlapArea(wingSpan, taper, y1, y2, rootChord, 1.0)
      == (y2 - y1) * rootChord + Trapezoid(wingSpan / 2.0 - y2, rootChord, taper * rootChord)
  {
  }

  /** `_compute_flap_area_ratio`: both half-wing flaps over the wing reference area. */
  function FlapAreaRatio(wingSpan: real, wingArea: real, taper: real, fuselageWidth: real,
                         rootY: real, rootChord: real, spanRatio: real): (r: real)
    requires wingArea != 0.0
    ensures r * wingArea == 2.0 * FlapArea(wingSpan, taper, fuselageWidth / 2.0, rootY, rootChord, spanRatio)
    ensures spanRatio == 0.0 ==> r * wingArea == 2.0 * (rootY - fuselageWidth / 2.0) * rootChord
  {
    2.0 * FlapArea(wingSpan, taper, fuselageWidth / 2.0, rootY, rootChord, spanRatio) / wingArea
  }

  /** Taper ratios at which the moment factor k_p is digitised, and its values there. */
  const TaperNodes: seq<real> := [0.0, 0.2, 0.33, 0.5, 1.0]
  const KpValues: seq<real> := [0.65, 0.75, 0.7, 0.63, 0.5]

  /** k_p: the digitised factor interpolated at the taper ratio clipped to [0, 1]. */
  function KpFactor(taper: real): (k: real)
    ensures 0.5 <= k <= 0.75
    ensures taper <= 0.0 ==> k == 0.65
    ensures 1.0 <= taper ==> k == 0.5
    ensures taper == 0.2 ==> k == 0.75
  {
    var x := Clip(taper, 0.0, 1.0);
    assert StrictlyIncreasing(TaperNodes);
    var k := Interp(TaperNodes, KpValues, x);
    assert x <= 0.2 ==> TaperNodes[0] <= x <= TaperNodes[1];
    assert 0.2 <= x <= 0.33 ==> TaperNodes[1] <= x <= TaperNodes[2];
    assert 0.33 <= x <= 0.5 ==> TaperNodes[2] <= x <= TaperNodes[3];
    assert 0.5 <= x ==> TaperNodes[3] <= x <= TaperNodes[4];
    k
  }

  /**
    Moment increment from the lift increment `deltaCl`: k_p * (-0.27) * deltaCl. It always has
    the opposite sign to the lift increment and between 0.135 and 0.2025 times its size; at the
    ends of the taper clip the factor is 0.65 * 0.27 (taper at most 0) and 0.5 * 0.27 (taper at
    least 1).
   */
  function FlapsDeltaCm(taper: real, deltaCl: real): (cm: real)
    ensures 0.0 < deltaCl ==> cm < 0.0
    ensures deltaCl < 0.0 ==> 0.0 < cm
    ensures deltaCl == 0.0 ==> cm == 0.0
    ensures ScaledBetween(-cm, deltaCl, 0.135, 0.2025)
    ensures taper <= 0.0 ==> cm == -0.1755 * deltaCl
    ensures 1.0 <= taper ==> cm == -0.135 * deltaCl
  {
    var k := KpFactor(taper);
    MomentOppositeToLift(k, deltaCl);
    k * (-0.27) * deltaCl
  }

  /** A moment factor k_p in [0.5, 0.75] maps `d` to a value of the other sign, 0.135 to 0.2025
      times as large, and the factors at the two taper limits give fixed multiples of `d`. */
  lemma MomentOppositeToLift(k: real, d: real)
    requires 0.5 <= k <= 0.75
    ensures 0.0 < d ==> k * (-0.27) * d < 0.0
    ensures d < 0.0 ==> 0.0 < k * (-0.27) * d
    ensures d == 0.0 ==> k * (-0.27) * d == 0.0
    ensures ScaledBetween(-(k * (-0.27) * d), d, 0.135, 0.2025)
    ensures k == 0.65 ==> k * (-0.27) * d == -0.1755 * d
    ensures k == 0.5 ==> k * (-0.27) * d == -0.135 * d
  {
    var f := k * (-0.27);
    assert -0.2025 <= f <= -0.135;
    assert k * (-0.27) * d == f * d;
    if 0.0 <= d {
      ScaleBetween(0.135, -f, 0.2025, d);
      assert (-f) * d == -(f * d);
    }
    if d <= 0.0 {
      ScaleBetween(0.135, -f, 0.2025, -d);
      assert (-f) * -d == f * d;
    }
  }

  /** `y` lies between lo * x and hi * x, whatever the sign of `x`. */
  predicate ScaledBetween(y: real, x: real, lo: real, hi: real) {
    (0.0 <= x ==> lo * x <= y <= hi * x) && (x <= 0.0 ==> hi * x <= y <= lo * x)
  }

  /** A factor between `lo` and `hi` scales a non-negative `e` to between lo * e and hi * e. */
  lemma ScaleBetween(lo: real, m: real, hi: real, e: real)
    requires lo <= m <= hi && 0.0 <= e
    ensures lo * e <= m * e <= hi * e
  {
    assert (m - lo) * e >= 0.0;
    assert (hi - m) * e >= 0.0;
  }
}
