/**
 * The colour-harmony scorer of src/utils/beautyCalculator.js: the RGB to
 * Hue/Value/Chroma conversion, the pairwise harmony classification, the
 * aggregate "beauty" score and its display transform.
 *
 * Numbers are exact reals; `calcDist(v, c, sv, sc) < 1` is decided by the sum
 * of squares being below 1, which is the same comparison since `Math.sqrt`
 * is monotone and sqrt(x) < 1 exactly when x < 1.
 */
module BeautyCalculator {
  import opened Wrappers
  import opened Color

  // ---------------------------------------------------------------------
  // RGB to HVC
  // ---------------------------------------------------------------------

  function Max3(a: real, b: real, c: real): (m: real)
    ensures m == a || m == b || m == c
    ensures m >= a && m >= b && m >= c
  {
    if a >= b && a >= c then a else if b >= c then b else c
  }

  function Min3(a: real, b: real, c: real): (m: real)
    ensures m == a || m == b || m == c
    ensures m <= a && m <= b && m <= c
  {
    if a <= b && a <= c then a else if b <= c then b else c
  }

  /** Truncation toward zero. */
  function Trunc(x: real): int {
    if x >= 0.0 then x.Floor else -((-x).Floor)
  }

  /** JavaScript's `x % m` on numbers: the remainder carries the sign of `x`. */
  function JsRem(x: real, m: real): real
    requires m != 0.0
  {
    x - m * (Trunc(x / m) as real)
  }

  /** `rgbToHVC`: the hexcone hue, V = 10 * max and C = 10 * (max - min). */
  function RgbToHvc(rgb: Rgb): Hvc {
    var r := rgb.r / 255.0;
    var g := rgb.g / 255.0;
    var b := rgb.b / 255.0;
    var mx := Max3(r, g, b);
    var mn := Min3(r, g, b);
    var delta := mx - mn;
    var h :=
      if delta > 0.0 then
        var sector :=
          if mx == r then JsRem((g - b) / delta, 6.0)
          else if mx == g then (b - r) / delta + 2.0
          else (r - g) / delta + 4.0;
        var degrees := sector * 60.0;
        if degrees < 0.0 then degrees + 360.0 else degrees
      else 0.0;
    Hvc(h, mx * 10.0, delta * 10.0)
  }

  lemma DivUnit(a: real, d: real)
    requires d > 0.0 && -d <= a <= d
    ensures -1.0 <= a / d <= 1.0
  {
  }

  /** On [-1, 1] the source's `% 6` leaves its operand unchanged. */
  lemma RemSixIsIdentity(x: real)
    requires -1.0 <= x <= 1.0
    ensures JsRem(x, 6.0) == x
  {
    if x >= 0.0 {
      assert (x / 6.0).Floor == 0;
    } else {
      assert (-(x / 6.0)).Floor == 0;
    }
  }

  /** In the `max === r` branch the sector quotient already lies in [-1, 1]. */
  lemma RedSectorInUnit(rgb: Rgb)
    requires InRange(rgb)
    ensures var r, g, b := rgb.r / 255.0, rgb.g / 255.0, rgb.b / 255.0;
            var delta := Max3(r, g, b) - Min3(r, g, b);
            delta > 0.0 ==> -1.0 <= (g - b) / delta <= 1.0
                            && JsRem((g - b) / delta, 6.0) == (g - b) / delta
  {
    var r, g, b := rgb.r / 255.0, rgb.g / 255.0, rgb.b / 255.0;
    var delta := Max3(r, g, b) - Min3(r, g, b);
    if delta > 0.0 {
      DivUnit(g - b, delta);
      RemSixIsIdentity((g - b) / delta);
    }
  }

  /** For components in [0, 255]: H in [0, 360), V in [0, 10], C in [0, V]. */
  lemma HvcRange(rgb: Rgb)
    requires InRange(rgb)
    ensures var hvc := RgbToHvc(rgb);
            0.0 <= hvc.h < 360.0 && 0.0 <= hvc.v <= 10.0 && 0.0 <= hvc.c <= hvc.v
  {
    var r, g, b := rgb.r / 255.0, rgb.g / 255.0, rgb.b / 255.0;
    var mx, mn := Max3(r, g, b), Min3(r, g, b);
    var delta := mx - mn;
    if delta > 0.0 {
      if mx == r {
        RedSectorInUnit(rgb);
      } else if mx == g {
        DivUnit(b - r, delta);
      } else {
        DivUnit(r - g, delta);
      }
    }
  }

  /** A grey (r = g = b) has hue 0 and chroma 0. */
  lemma GreyHasNoHue(rgb: Rgb)
    requires rgb.r == rgb.g == rgb.b
    ensures RgbToHvc(rgb).h == 0.0 && RgbToHvc(rgb).c == 0.0
  {
  }

  /** Pure red, green and blue sit at 0, 120 and 240 degrees with V = C = 10. */
  lemma PrimaryHues()
    ensures RgbToHvc(Rgb(255.0, 0.0, 0.0)) == Hvc(0.0, 10.0, 10.0)
    ensures RgbToHvc(Rgb(0.0, 255.0, 0.0)) == Hvc(120.0, 10.0, 10.0)
    ensures RgbToHvc(Rgb(0.0, 0.0, 255.0)) == Hvc(240.0, 10.0, 10.0)
  {
    RemSixIsIdentity(0.0);
  }

  // ---------------------------------------------------------------------
  // Pairwise classification
  // ---------------------------------------------------------------------

  /** The harmony categories; `Label` gives the text the source reports. */
  datatype Eval =
    | Identity         // same-hue / same-tone harmony
    | FirstAmbiguity   // first ambiguous zone
    | Similarity       // similarity harmony
    | SecondAmbiguity  // second ambiguous zone
    | Contrast         // contrast harmony
    | Grey             // hue override when either colour is achromatic
    | Glare            // value override for a value difference above 9

  function Label(e: Eval): string {
    match e
    case Identity => "同一調和"
    case FirstAmbiguity => "第1の曖昧"
    case Similarity => "類似調和"
    case SecondAmbiguity => "第2の曖昧"
    case Contrast => "対比調和"
    case Grey => "灰色"
    case Glare => "眩輝"
  }

  /** The seven labels are distinct, so a record's text fields name its categories unambiguously. */
  lemma LabelsDistinct(e1: Eval, e2: Eval)
    ensures Label(e1) == Label(e2) <==> e1 == e2
  {
  }

  datatype Grade = Grade(eval: Eval, point: real)

  function Abs(x: real): (r: real)
    ensures r >= 0.0 && (r == x || r == -x)
  {
    if x < 0.0 then -x else x
  }

  /** Circular hue distance: `|h1 - h2|`, folded to `360 - d` above 180. */
  function HueDifference(h1: real, h2: real): real {
    var d := Abs(h1 - h2);
    if d > 180.0 then 360.0 - d else d
  }

  /** For hues in [0, 360) the folded difference lies in [0, 180]. */
  lemma HueDifferenceRange(h1: real, h2: real)
    requires 0.0 <= h1 < 360.0 && 0.0 <= h2 < 360.0
    ensures 0.0 <= HueDifference(h1, h2) <= 180.0
    ensures HueDifference(h1, h2) == HueDifference(h2, h1)
  {
  }

  /** A hue band: a difference below `below` that no earlier band took gets `grade`. */
  datatype HueBand = HueBand(below: real, grade: Grade)

  /** The thresholds 1, 7, 12, 28 of the hue chain, in the order they are tried. */
  const HueBands: seq<HueBand> := [
    HueBand(1.0, Grade(Identity, 1.5)),
    HueBand(7.0, Grade(FirstAmbiguity, 0.0)),
    HueBand(12.0, Grade(Similarity, 1.1)),
    HueBand(28.0, Grade(SecondAmbiguity, 0.65))
  ]

  /** The if/else-if chain over `bands`: the first band the difference lies below, else contrast. */
  function FirstHueBand(hDiff: real, bands: seq<HueBand>): Grade {
    if bands == [] then Grade(Contrast, 1.7)
    else if hDiff < bands[0].below then bands[0].grade
    else FirstHueBand(hDiff, bands[1..])
  }

  /** The table walk is the if/else-if chain of the four hue thresholds. */
  lemma {:induction false} HueChain(hDiff: real)
    ensures FirstHueBand(hDiff, HueBands) ==
            if hDiff < 1.0 then Grade(Identity, 1.5)
            else if hDiff < 7.0 then Grade(FirstAmbiguity, 0.0)
            else if hDiff < 12.0 then Grade(Similarity, 1.1)
            else if hDiff < 28.0 then Grade(SecondAmbiguity, 0.65)
            else Grade(Contrast, 1.7)
  {
    var b1, b2, b3, b4 := HueBands[1..], HueBands[2..], HueBands[3..], HueBands[4..];
    assert b1[1..] == b2 && b2[1..] == b3 && b3[1..] == b4 && b4 == [];
    assert FirstHueBand(hDiff, b4) == Grade(Contrast, 1.7);
    var g3 := FirstHueBand(hDiff, b3);
    assert b3[0] == HueBand(28.0, Grade(SecondAmbiguity, 0.65));
    assert g3 == if hDiff < 28.0 then Grade(SecondAmbiguity, 0.65) else Grade(Contrast, 1.7);
    var g2 := FirstHueBand(hDiff, b2);
    assert b2[0] == HueBand(12.0, Grade(Similarity, 1.1));
    assert g2 == if hDiff < 12.0 then Grade(Similarity, 1.1) else g3;
    var g1 := FirstHueBand(hDiff, b1);
    assert b1[0] == HueBand(7.0, Grade(FirstAmbiguity, 0.0));
    assert g1 == if hDiff < 7.0 then Grade(FirstAmbiguity, 0.0) else g2;
    assert HueBands[0] == HueBand(1.0, Grade(Identity, 1.5));
  }

  /** Hue grade: the hue chain, overridden by Grey when either chroma is below 1. */
  function HueGrade(hDiff: real, c1: real, c2: real): Grade {
    if c1 < 1.0 || c2 < 1.0 then Grade(Grey, 1.0) else FirstHueBand(hDiff, HueBands)
  }

  /** The grade as bands: each category holds exactly on its half-open band. */
  lemma HueGradeBands(hDiff: real, c1: real, c2: real)
    ensures var g, grey := HueGrade(hDiff, c1, c2), c1 < 1.0 || c2 < 1.0;
            && (g.eval == Grey <==> grey)
            && (g.eval == Identity <==> !grey && hDiff < 1.0)
            && (g.eval == FirstAmbiguity <==> !grey && 1.0 <= hDiff < 7.0)
            && (g.eval == Similarity <==> !grey && 7.0 <= hDiff < 12.0)
            && (g.eval == SecondAmbiguity <==> !grey && 12.0 <= hDiff < 28.0)
            && (g.eval == Contrast <==> !grey && 28.0 <= hDiff)
            && g.eval != Glare
            && g.point == HuePoint(g.eval)
  {
    HueChain(hDiff);
  }

  /** The hue score each hue category carries. */
  function HuePoint(e: Eval): real {
    match e
    case Identity => 1.5
    case FirstAmbiguity => 0.0
    case Similarity => 1.1
    case SecondAmbiguity => 0.65
    case Contrast => 1.7
    case _ => 1.0
  }

  /** `calcDist(v, c, sv, sc) < 1`, with both sides squared. */
  predicate WithinEllipse(v: real, c: real, sv: real, sc: real)
    requires sv > 0.0 && sc > 0.0
  {
    Sq(v / sv) + Sq(c / sc) < 1.0
  }

  datatype ValueChromaGrade = ValueChromaGrade(vEval: Eval, vPoint: real, cEval: Eval, cPoint: real)

  /** A positive ellipse semi-axis. */
  type Axis = x: real | x > 0.0 witness 1.0

  /** An ellipse of the value/chroma chain with the category and scores it assigns. */
  datatype Ellipse = Ellipse(sv: Axis, sc: Axis, eval: Eval, vPoint: real, cPoint: real)

  /** The ellipses (0.25, 0.5), (0.5, 3), (1.5, 5), (2.5, 7.5), in the order they are tried. */
  const Ellipses: seq<Ellipse> := [
    Ellipse(0.25, 0.5, Identity, -1.3, 0.8),
    Ellipse(0.5, 3.0, FirstAmbiguity, -1.0, 0.0),
    Ellipse(1.5, 5.0, Similarity, 0.7, 0.1),
    Ellipse(2.5, 7.5, SecondAmbiguity, -0.2, 0.0)
  ]

  /** The if/else-if chain over `es`: the first ellipse holding the pair, else contrast. */
  function FirstEllipse(vDiff: real, cDiff: real, es: seq<Ellipse>): ValueChromaGrade {
    if es == [] then ValueChromaGrade(Contrast, 3.7, Contrast, 0.4)
    else if WithinEllipse(vDiff, cDiff, es[0].sv, es[0].sc) then
      ValueChromaGrade(es[0].eval, es[0].vPoint, es[0].eval, es[0].cPoint)
    else FirstEllipse(vDiff, cDiff, es[1..])
  }

  /** The table walk is the if/else-if chain of the four ellipses. */
  lemma {:induction false} EllipseChain(vDiff: real, cDiff: real)
    ensures FirstEllipse(vDiff, cDiff, Ellipses) ==
            if WithinEllipse(vDiff, cDiff, 0.25, 0.5) then ValueChromaGrade(Identity, -1.3, Identity, 0.8)
            else if WithinEllipse(vDiff, cDiff, 0.5, 3.0) then ValueChromaGrade(FirstAmbiguity, -1.0, FirstAmbiguity, 0.0)
            else if WithinEllipse(vDiff, cDiff, 1.5, 5.0) then ValueChromaGrade(Similarity, 0.7, Similarity, 0.1)
            else if WithinEllipse(vDiff, cDiff, 2.5, 7.5) then ValueChromaGrade(SecondAmbiguity, -0.2, SecondAmbiguity, 0.0)
            else ValueChromaGrade(Contrast, 3.7, Contrast, 0.4)
  {
    var e1, e2, e3, e4 := Ellipses[1..], Ellipses[2..], Ellipses[3..], Ellipses[4..];
    assert e1[1..] == e2 && e2[1..] == e3 && e3[1..] == e4 && e4 == [];
    var contrast := ValueChromaGrade(Contrast, 3.7, Contrast, 0.4);
    assert FirstEllipse(vDiff, cDiff, e4) == contrast;
    var g3 := FirstEllipse(vDiff, cDiff, e3);
    assert e3[0] == Ellipse(2.5, 7.5, SecondAmbiguity, -0.2, 0.0);
    assert g3 == if WithinEllipse(vDiff, cDiff, 2.5, 7.5)
                 then ValueChromaGrade(SecondAmbiguity, -0.2, SecondAmbiguity, 0.0) else contrast;
    var g2 := FirstEllipse(vDiff, cDiff, e2);
    assert e2[0] == Ellipse(1.5, 5.0, Similarity, 0.7, 0.1);
    assert g2 == if WithinEllipse(vDiff, cDiff, 1.5, 5.0)
                 then ValueChromaGrade(Similarity, 0.7, Similarity, 0.1) else g3;
    var g1 := FirstEllipse(vDiff, cDiff, e1);
    assert e1[0] == Ellipse(0.5, 3.0, FirstAmbiguity, -1.0, 0.0);
    assert g1 == if WithinEllipse(vDiff, cDiff, 0.5, 3.0)
                 then ValueChromaGrade(FirstAmbiguity, -1.0, FirstAmbiguity, 0.0) else g2;
    assert Ellipses[0] == Ellipse(0.25, 0.5, Identity, -1.3, 0.8);
  }

  /** Value/chroma grade: the ellipse chain, then a value difference above 9 overrides the value side with Glare. */
  function ValueChromaGradeOf(vDiff: real, cDiff: real): ValueChromaGrade {
    var byEllipse := FirstEllipse(vDiff, cDiff, Ellipses);
    if vDiff > 9.0 then byEllipse.(vEval := Glare, vPoint := -2.0) else byEllipse
  }

  /** The value score each ellipse category carries. */
  function EllipseValuePoint(e: Eval): real {
    match e
    case Identity => -1.3
    case FirstAmbiguity => -1.0
    case Similarity => 0.7
    case SecondAmbiguity => -0.2
    case _ => 3.7
  }

  /** The chroma score each ellipse category carries. */
  function EllipseChromaPoint(e: Eval): real {
    match e
    case Identity => 0.8
    case FirstAmbiguity => 0.0
    case Similarity => 0.1
    case SecondAmbiguity => 0.0
    case _ => 0.4
  }

  lemma SqMono(a: real, b: real)
    requires 0.0 <= a <= b
    ensures Sq(a) <= Sq(b)
  {
  }

  /** Scaling both axes of an ellipse up keeps every point inside it. */
  lemma EllipseGrows(v: real, c: real, sv: real, sc: real, sv': real, sc': real)
    requires v >= 0.0 && c >= 0.0
    requires 0.0 < sv <= sv' && 0.0 < sc <= sc'
    requires WithinEllipse(v, c, sv, sc)
    ensures WithinEllipse(v, c, sv', sc')
  {
    DivShrinks(v, sv, sv');
    DivShrinks(c, sc, sc');
    SqMono(v / sv', v / sv);
    SqMono(c / sc', c / sc);
  }

  lemma DivShrinks(x: real, p: real, q: real)
    requires x >= 0.0 && 0.0 < p <= q
    ensures 0.0 <= x / q <= x / p
  {
  }

  /**
   * The four ellipses are nested, so a category is decided by its own
   * ellipse and the one before it: exactly one of the five branches fires,
   * and the chroma category is always the branch's label.
   */
  lemma ValueChromaBands(vDiff: real, cDiff: real)
    requires vDiff >= 0.0 && cDiff >= 0.0
    ensures var g := ValueChromaGradeOf(vDiff, cDiff);
            var w1 := WithinEllipse(vDiff, cDiff, 0.25, 0.5);
            var w2 := WithinEllipse(vDiff, cDiff, 0.5, 3.0);
            var w3 := WithinEllipse(vDiff, cDiff, 1.5, 5.0);
            var w4 := WithinEllipse(vDiff, cDiff, 2.5, 7.5);
            && (g.cEval == Identity <==> w1)
            && (g.cEval == FirstAmbiguity <==> w2 && !w1)
            && (g.cEval == Similarity <==> w3 && !w2)
            && (g.cEval == SecondAmbiguity <==> w4 && !w3)
            && (g.cEval == Contrast <==> !w4)
            && g.cPoint == EllipseChromaPoint(g.cEval)
            && (vDiff > 9.0 ==> g.vEval == Glare && g.vPoint == -2.0)
            && (vDiff <= 9.0 ==> g.vEval == g.cEval && g.vPoint == EllipseValuePoint(g.cEval))
  {
    EllipseChain(vDiff, cDiff);
    if WithinEllipse(vDiff, cDiff, 0.25, 0.5) {
      EllipseGrows(vDiff, cDiff, 0.25, 0.5, 0.5, 3.0);
    }
    if WithinEllipse(vDiff, cDiff, 0.5, 3.0) {
      EllipseGrows(vDiff, cDiff, 0.5, 3.0, 1.5, 5.0);
    }
    if WithinEllipse(vDiff, cDiff, 1.5, 5.0) {
      EllipseGrows(vDiff, cDiff, 1.5, 5.0, 2.5, 7.5);
    }
  }

  /** A glare pair lies outside every ellipse, so its chroma side is contrast. */
  lemma GlareIsContrast(vDiff: real, cDiff: real)
    requires vDiff > 9.0 && cDiff >= 0.0
    ensures var g := ValueChromaGradeOf(vDiff, cDiff);
            g.vEval == Glare && g.vPoint == -2.0 && g.cEval == Contrast && g.cPoint == 0.4
  {
    DivShrinks(vDiff, 1.0, 2.5);
    assert vDiff / 2.5 >= 1.0;
    SqMono(1.0, vDiff / 2.5);
    SqNonNegative(cDiff / 7.5);
    ValueChromaBands(vDiff, cDiff);
  }

  // ---------------------------------------------------------------------
  // Pair records and the beauty score
  // ---------------------------------------------------------------------

  /** A palette entry with its HVC computed once (`coloritems`). */
  datatype ColorItem = ColorItem(rgb: Rgb, hvc: Hvc)

  /** One `pairDetails` record. */
  datatype PairDetail = PairDetail(
    i: nat, j: nat, color1: Rgb, color2: Rgb,
    hDifferent: real, hEval: Eval, hPoint: real,
    vDifferent: real, vEval: Eval, vPoint: real,
    cDifferent: real, cEval: Eval, cPoint: real,
    order: real)

  datatype BeautyResult = BeautyResult(beauty: real, complexity: nat, pairDetails: seq<PairDetail>)

  function ColorItems(colors: seq<Rgb>): (items: seq<ColorItem>)
    ensures |items| == |colors|
    ensures forall k :: 0 <= k < |items| ==> items[k] == ColorItem(colors[k], RgbToHvc(colors[k]))
  {
    seq(|colors|, k requires 0 <= k < |colors| => ColorItem(colors[k], RgbToHvc(colors[k])))
  }

  /** The record the loop body builds for palette entries i < j; its order is the sum of the three scores. */
  function ComparePair(i: nat, j: nat, a: ColorItem, b: ColorItem): (d: PairDetail)
    ensures d.i == i && d.j == j && d.color1 == a.rgb && d.color2 == b.rgb
    ensures d.order == d.hPoint + d.vPoint + d.cPoint
  {
    var hDiff := HueDifference(a.hvc.h, b.hvc.h);
    var hue := HueGrade(hDiff, a.hvc.c, b.hvc.c);
    var vDiff := Abs(a.hvc.v - b.hvc.v);
    var cDiff := Abs(a.hvc.c - b.hvc.c);
    var vc := ValueChromaGradeOf(vDiff, cDiff);
    PairDetail(i, j, a.rgb, b.rgb,
               hDiff, hue.eval, hue.point,
               vDiff, vc.vEval, vc.vPoint,
               cDiff, vc.cEval, vc.cPoint,
               hue.point + vc.vPoint + vc.cPoint)
  }

  // ---------------------------------------------------------------------
  // The order in which the nested loops visit the pairs
  // ---------------------------------------------------------------------

  /** The pairs (i, i+1), ..., (i, j-1) the inner loop visits while its index stays below `j`. */
  function RowPairs(i: nat, j: nat): (ps: seq<(nat, nat)>)
    requires i < j
    ensures |ps| == j - i - 1
    decreases j
  {
    if j == i + 1 then [] else RowPairs(i, j - 1) + [(i, j - 1)]
  }

  /** Index of the first pair of row `a` among the pairs of an n-colour palette. */
  function RowStart(n: nat, a: nat): nat
    requires a <= n
  {
    if a == 0 then 0 else RowStart(n, a - 1) + (n - a)
  }

  /** Position of the pair a < b in the visiting order of an n-colour palette. */
  function Position(n: nat, a: nat, b: nat): nat
    requires a < b <= n
  {
    RowStart(n, a) + (b - a - 1)
  }

  /** The pairs visited while the outer index stays below `i`. */
  function PairsBefore(n: nat, i: nat): (ps: seq<(nat, nat)>)
    requires i <= n
    ensures |ps| == RowStart(n, i)
  {
    if i == 0 then [] else PairsBefore(n, i - 1) + RowPairs(i - 1, n)
  }

  /** Lexicographic order of index pairs. */
  predicate LexLess(p: (nat, nat), q: (nat, nat)) {
    p.0 < q.0 || (p.0 == q.0 && p.1 < q.1)
  }

  /** Closed form of the row offsets: a rows hold a(2n-a-1)/2 pairs. */
  lemma {:induction false} RowStartClosedForm(n: nat, a: nat)
    requires a <= n
    ensures 2 * RowStart(n, a) == a * (2 * n - a - 1)
  {
    if a > 0 {
      RowStartClosedForm(n, a - 1);
      ClosedFormStep(n, a);
    }
  }

  lemma ClosedFormStep(n: int, a: int)
    ensures (a - 1) * (2 * n - (a - 1) - 1) + 2 * (n - a) == a * (2 * n - a - 1)
  {
  }

  /** Pair t of row i is (i, i+1+t). */
  lemma {:induction false} RowPairAt(i: nat, j: nat, t: nat)
    requires i < j && t < j - i - 1
    ensures RowPairs(i, j)[t] == (i, i + 1 + t)
    decreases j
  {
    if t < j - i - 2 {
      RowPairAt(i, j - 1, t);
    }
  }

  /** Every visited pair (a, b) has a < b < n, and a below the outer bound. */
  lemma {:induction false} PairsBeforeAt(n: nat, i: nat, t: nat)
    requires i <= n && t < RowStart(n, i)
    ensures PairsBefore(n, i)[t].0 < i && PairsBefore(n, i)[t].0 < PairsBefore(n, i)[t].1 < n
  {
    var prev := PairsBefore(n, i - 1);
    if t < |prev| {
      PairsBeforeAt(n, i - 1, t);
    } else {
      RowPairAt(i - 1, n, t - |prev|);
    }
  }

  /** The loops visit the pairs in strictly increasing lexicographic order. */
  lemma {:induction false} PairsBeforeLex(n: nat, i: nat, t: nat, u: nat)
    requires i <= n && t < u < RowStart(n, i)
    ensures LexLess(PairsBefore(n, i)[t], PairsBefore(n, i)[u])
  {
    var prev, row := PairsBefore(n, i - 1), RowPairs(i - 1, n);
    var ps := PairsBefore(n, i);
    assert ps == prev + row;
    if u < |prev| {
      PairsBeforeLex(n, i - 1, t, u);
      assert ps[t] == prev[t] && ps[u] == prev[u];
    } else if t < |prev| {
      PairsBeforeAt(n, i - 1, t);
      RowPairAt(i - 1, n, u - |prev|);
      assert ps[t] == prev[t] && ps[u] == row[u - |prev|];
    } else {
      RowPairAt(i - 1, n, t - |prev|);
      RowPairAt(i - 1, n, u - |prev|);
      assert ps[t] == row[t - |prev|] && ps[u] == row[u - |prev|];
    }
  }

  /** Every pair a < b with a below the outer bound is visited, at `Position(n, a, b)`. */
  lemma {:induction false} PairsBeforePosition(n: nat, i: nat, a: nat, b: nat)
    requires i <= n && a < i && a < b < n
    ensures Position(n, a, b) < RowStart(n, i) && PairsBefore(n, i)[Position(n, a, b)] == (a, b)
  {
    var prev := PairsBefore(n, i - 1);
    if a < i - 1 {
      PairsBeforePosition(n, i - 1, a, b);
    } else {
      RowPairAt(i - 1, n, b - i);
    }
  }

  // ---------------------------------------------------------------------
  // The records pushed for the visited pairs
  // ---------------------------------------------------------------------

  /**
   * What the inner loop pushes for row `i` while its index stays below `j`,
   * when the loop body builds `grade(i, j, items[i], items[j])`.
   */
  function RowDetails<A, T>(items: seq<A>, grade: (nat, nat, A, A) -> T, i: nat, j: nat): (ds: seq<T>)
    requires i < |items| && i + 1 <= j <= |items|
    ensures |ds| == j - i - 1
    decreases j
  {
    if j == i + 1 then []
    else RowDetails(items, grade, i, j - 1) + [grade(i, j - 1, items[i], items[j - 1])]
  }

  /** What the nested loops push while the outer index stays below `i`. */
  function DetailsBefore<A, T>(items: seq<A>, grade: (nat, nat, A, A) -> T, i: nat): (ds: seq<T>)
    requires i <= |items|
    ensures |ds| == RowStart(|items|, i)
  {
    if i == 0 then [] else DetailsBefore(items, grade, i - 1) + RowDetails(items, grade, i - 1, |items|)
  }

  lemma {:induction false} RowDetailsAt<A, T>(items: seq<A>, grade: (nat, nat, A, A) -> T, i: nat, j: nat, t: nat)
    requires i < |items| && i + 1 <= j <= |items| && t < j - i - 1
    ensures RowDetails(items, grade, i, j)[t] == grade(i, i + 1 + t, items[i], items[i + 1 + t])
    decreases j
  {
    if t < j - i - 2 {
      RowDetailsAt(items, grade, i, j - 1, t);
    }
  }

  /** Element t is the grade of the t-th visited pair. */
  lemma {:induction false} DetailsBeforeAt<A, T>(items: seq<A>, grade: (nat, nat, A, A) -> T, i: nat, t: nat)
    requires i <= |items| && t < RowStart(|items|, i)
    ensures var p := PairsBefore(|items|, i)[t];
            p.0 < p.1 < |items| && DetailsBefore(items, grade, i)[t] == grade(p.0, p.1, items[p.0], items[p.1])
  {
    var n := |items|;
    PairsBeforeAt(n, i, t);
    var prev, row := DetailsBefore(items, grade, i - 1), RowDetails(items, grade, i - 1, n);
    var pprev, prow := PairsBefore(n, i - 1), RowPairs(i - 1, n);
    assert DetailsBefore(items, grade, i) == prev + row;
    assert PairsBefore(n, i) == pprev + prow;
    if t < |prev| {
      DetailsBeforeAt(items, grade, i - 1, t);
      assert DetailsBefore(items, grade, i)[t] == prev[t] && PairsBefore(n, i)[t] == pprev[t];
    } else {
      var k := t - |prev|;
      RowDetailsAt(items, grade, i - 1, n, k);
      RowPairAt(i - 1, n, k);
      assert DetailsBefore(items, grade, i)[t] == row[k] && PairsBefore(n, i)[t] == prow[k];
    }
  }

  /** Sum of the `order` fields. */
  function OrderSum(ds: seq<PairDetail>): real {
    if ds == [] then 0.0 else OrderSum(ds[..|ds| - 1]) + ds[|ds| - 1].order
  }

  datatype Dimension = HueDim | ValueDim | ChromaDim

  function Difference(d: PairDetail, dim: Dimension): real {
    match dim
    case HueDim => d.hDifferent
    case ValueDim => d.vDifferent
    case ChromaDim => d.cDifferent
  }

  /** How many records differ by more than 2 along `dim`. */
  function CountDifferent(ds: seq<PairDetail>, dim: Dimension): (count: nat)
    ensures count <= |ds|
  {
    if ds == [] then 0
    else CountDifferent(ds[..|ds| - 1], dim) + (if Difference(ds[|ds| - 1], dim) > 2.0 then 1 else 0)
  }

  /** `ordersum / complexity`. */
  function Quotient(sum: real, complexity: nat): real
    requires complexity > 0
  {
    sum / complexity as real
  }

  /** The result for a palette of at least two graded entries. */
  function Score(items: seq<ColorItem>): BeautyResult
    requires |items| >= 2
  {
    var details := DetailsBefore(items, ComparePair, |items|);
    var complexity := |items| + CountDifferent(details, HueDim)
                      + CountDifferent(details, ValueDim) + CountDifferent(details, ChromaDim);
    BeautyResult(Quotient(OrderSum(details), complexity), complexity, details)
  }

  /** The value `calculateBeautyDetails` returns; None stands for `null`. */
  function BeautyDetails(clusteredColors: Option<seq<Rgb>>): Option<BeautyResult> {
    if clusteredColors.None? || |clusteredColors.value| < 2 then None
    else Some(Score(ColorItems(clusteredColors.value)))
  }

  /** The running totals agree with the records pushed so far. */
  predicate Totals(ds: seq<PairDetail>, orderSum: real, hCount: nat, vCount: nat, cCount: nat) {
    && orderSum == OrderSum(ds)
    && hCount == CountDifferent(ds, HueDim)
    && vCount == CountDifferent(ds, ValueDim)
    && cCount == CountDifferent(ds, ChromaDim)
  }

  function Bump(count: nat, diff: real): nat {
    if diff > 2.0 then count + 1 else count
  }

  lemma TotalsAppend(ds: seq<PairDetail>, orderSum: real, hCount: nat, vCount: nat, cCount: nat, d: PairDetail)
    requires Totals(ds, orderSum, hCount, vCount, cCount)
    ensures Totals(ds + [d], orderSum + d.order, Bump(hCount, d.hDifferent),
                   Bump(vCount, d.vDifferent), Bump(cCount, d.cDifferent))
  {
    assert (ds + [d])[..|ds|] == ds;
  }

  /**
   * `calculateBeautyDetails`: null for a missing palette or one with fewer
   * than two colours; otherwise every pair i < j is graded, in loop order,
   * while the order sum and the three difference counts accumulate.
   */
  method CalculateBeautyDetails(clusteredColors: Option<seq<Rgb>>) returns (result: Option<BeautyResult>)
    ensures result.None? <==> clusteredColors.None? || |clusteredColors.value| < 2
    ensures result == BeautyDetails(clusteredColors)
  {
    if clusteredColors.None? || |clusteredColors.value| < 2 {
      return None;
    }
    var items := ColorItems(clusteredColors.value);
    var n := |items|;
    var hCount, vCount, cCount := 0, 0, 0;
    var orderSum := 0.0;
    var pairDetails: seq<PairDetail> := [];
    var i := 0;
    while i < n
      invariant 0 <= i <= n
      invariant pairDetails == DetailsBefore(items, ComparePair, i)
      invariant Totals(pairDetails, orderSum, hCount, vCount, cCount)
    {
      pairDetails, orderSum, hCount, vCount, cCount :=
        GradeRow(items, i, pairDetails, orderSum, hCount, vCount, cCount);
      i := i + 1;
    }
    var complexity := n + hCount + vCount + cCount;
    result := Some(BeautyResult(Quotient(orderSum, complexity), complexity, pairDetails));
  }

  /** The inner loop of `calculateBeautyDetails`: grades (i, j) for every j > i. */
  method GradeRow(items: seq<ColorItem>, i: nat, pairDetails0: seq<PairDetail>,
                  orderSum0: real, hCount0: nat, vCount0: nat, cCount0: nat)
    returns (pairDetails: seq<PairDetail>, orderSum: real, hCount: nat, vCount: nat, cCount: nat)
    requires i < |items|
    requires Totals(pairDetails0, orderSum0, hCount0, vCount0, cCount0)
    ensures pairDetails == pairDetails0 + RowDetails(items, ComparePair, i, |items|)
    ensures Totals(pairDetails, orderSum, hCount, vCount, cCount)
  {
    pairDetails, orderSum, hCount, vCount, cCount := pairDetails0, orderSum0, hCount0, vCount0, cCount0;
    var j := i + 1;
    while j < |items|
      invariant i + 1 <= j <= |items|
      invariant pairDetails == pairDetails0 + RowDetails(items, ComparePair, i, j)
      invariant Totals(pairDetails, orderSum, hCount, vCount, cCount)
    {
      var pair := ComparePair(i, j, items[i], items[j]);
      TotalsAppend(pairDetails, orderSum, hCount, vCount, cCount, pair);
      orderSum := orderSum + pair.order;
      if pair.hDifferent > 2.0 { hCount := hCount + 1; }
      if pair.vDifferent > 2.0 { vCount := vCount + 1; }
      if pair.cDifferent > 2.0 { cCount := cCount + 1; }
      pairDetails := pairDetails + [pair];
      j := j + 1;
    }
  }

  // ---------------------------------------------------------------------
  // Properties of the result
  // ---------------------------------------------------------------------

  /**
   * A scored palette of n entries has n(n-1)/2 records: record t grades
   * the t-th visited pair, every pair a < b appears exactly at
   * `Position(n, a, b)`, and the records come in lexicographic order.
   */
  lemma ScoreShape(items: seq<ColorItem>)
    requires |items| >= 2
    ensures var ds, n := Score(items).pairDetails, |items|;
            && 2 * |ds| == n * (n - 1)
            && (forall t :: 0 <= t < |ds| ==>
                  ds[t].i < ds[t].j < n && ds[t] == ComparePair(ds[t].i, ds[t].j, items[ds[t].i], items[ds[t].j]))
            && (forall t, u :: 0 <= t < u < |ds| ==> LexLess((ds[t].i, ds[t].j), (ds[u].i, ds[u].j)))
            && (forall a, b :: 0 <= a < b < n ==>
                  Position(n, a, b) < |ds| && ds[Position(n, a, b)].i == a && ds[Position(n, a, b)].j == b)
  {
    var n := |items|;
    var ds := DetailsBefore(items, ComparePair, n);
    assert Score(items).pairDetails == ds;
    RowStartClosedForm(n, n);
    DetailsGraded(items);
    DetailsOrdered(items);
    DetailsComplete(items);
  }

  /** Every record grades its own pair of entries. */
  lemma DetailsGraded(items: seq<ColorItem>)
    ensures var ds, n := DetailsBefore(items, ComparePair, |items|), |items|;
            forall t :: 0 <= t < |ds| ==>
              && ds[t].i == PairsBefore(n, n)[t].0 && ds[t].j == PairsBefore(n, n)[t].1
              && ds[t].i < ds[t].j < n && ds[t] == ComparePair(ds[t].i, ds[t].j, items[ds[t].i], items[ds[t].j])
  {
    var n := |items|;
    var ps, ds := PairsBefore(n, n), DetailsBefore(items, ComparePair, n);
    forall t | 0 <= t < |ds|
      ensures ds[t].i == ps[t].0 && ds[t].j == ps[t].1
      ensures ds[t].i < ds[t].j < n && ds[t] == ComparePair(ds[t].i, ds[t].j, items[ds[t].i], items[ds[t].j])
    {
      DetailsBeforeAt(items, ComparePair, n, t);
    }
  }

  /** The records come in strictly increasing lexicographic order of their pairs. */
  lemma DetailsOrdered(items: seq<ColorItem>)
    ensures var ds := DetailsBefore(items, ComparePair, |items|);
            forall t, u :: 0 <= t < u < |ds| ==> LexLess((ds[t].i, ds[t].j), (ds[u].i, ds[u].j))
  {
    var n := |items|;
    var ds := DetailsBefore(items, ComparePair, n);
    DetailsGraded(items);
    forall t, u | 0 <= t < u < |ds|
      ensures LexLess((ds[t].i, ds[t].j), (ds[u].i, ds[u].j))
    {
      PairsBeforeLex(n, n, t, u);
    }
  }

  /** Every pair a < b has its record, at `Position(n, a, b)`. */
  lemma DetailsComplete(items: seq<ColorItem>)
    ensures var ds, n := DetailsBefore(items, ComparePair, |items|), |items|;
            forall a, b :: 0 <= a < b < n ==>
              Position(n, a, b) < |ds| && ds[Position(n, a, b)].i == a && ds[Position(n, a, b)].j == b
  {
    var n := |items|;
    var ds := DetailsBefore(items, ComparePair, n);
    DetailsGraded(items);
    forall a, b | 0 <= a < b < n
      ensures Position(n, a, b) < |ds| && ds[Position(n, a, b)].i == a && ds[Position(n, a, b)].j == b
    {
      PairsBeforePosition(n, n, a, b);
    }
  }

  /**
   * `complexity = n + HdifferentCount + VdifferentCount + CdifferentCount`,
   * each count at most the number of records (n(n-1)/2 of them, see
   * ScoreShape); so n <= complexity <= n + 3 * records.
   */
  lemma ComplexityBounds(items: seq<ColorItem>)
    requires |items| >= 2
    ensures var r, n := Score(items), |items|;
            var h, v, c := CountDifferent(r.pairDetails, HueDim), CountDifferent(r.pairDetails, ValueDim),
                           CountDifferent(r.pairDetails, ChromaDim);
            && r.complexity == n + h + v + c
            && h <= |r.pairDetails| && v <= |r.pairDetails| && c <= |r.pairDetails|
            && n <= r.complexity <= n + 3 * |r.pairDetails|
  {
  }

  /** For colours in range every difference lies in its natural interval. */
  lemma PairDifferencesInRange(colors: seq<Rgb>)
    requires |colors| >= 2
    requires forall k :: 0 <= k < |colors| ==> InRange(colors[k])
    ensures var ds := BeautyDetails(Some(colors)).value.pairDetails;
            forall t :: 0 <= t < |ds| ==>
              0.0 <= ds[t].hDifferent <= 180.0 && 0.0 <= ds[t].vDifferent <= 10.0
              && 0.0 <= ds[t].cDifferent <= 10.0
  {
    var items := ColorItems(colors);
    ScoreShape(items);
    var ds := Score(items).pairDetails;
    forall t | 0 <= t < |ds|
      ensures 0.0 <= ds[t].hDifferent <= 180.0 && 0.0 <= ds[t].vDifferent <= 10.0
              && 0.0 <= ds[t].cDifferent <= 10.0
    {
      var a, b := colors[ds[t].i], colors[ds[t].j];
      HvcRange(a);
      HvcRange(b);
      HueDifferenceRange(RgbToHvc(a).h, RgbToHvc(b).h);
    }
  }

  /** Swapping the two entries of a pair changes only the colour fields of its record. */
  lemma ComparePairSwap(i: nat, j: nat, a: ColorItem, b: ColorItem)
    ensures var p, q := ComparePair(i, j, a, b), ComparePair(i, j, b, a);
            && p.hDifferent == q.hDifferent && p.hEval == q.hEval && p.hPoint == q.hPoint
            && p.vDifferent == q.vDifferent && p.vEval == q.vEval && p.vPoint == q.vPoint
            && p.cDifferent == q.cDifferent && p.cEval == q.cEval && p.cPoint == q.cPoint
            && p.order == q.order && p.color1 == q.color2 && p.color2 == q.color1
  {
    assert HueDifference(a.hvc.h, b.hvc.h) == HueDifference(b.hvc.h, a.hvc.h) by {
      assert Abs(a.hvc.h - b.hvc.h) == Abs(b.hvc.h - a.hvc.h);
    }
    assert Abs(a.hvc.v - b.hvc.v) == Abs(b.hvc.v - a.hvc.v);
    assert Abs(a.hvc.c - b.hvc.c) == Abs(b.hvc.c - a.hvc.c);
  }

  /** Scoring [a, b] and [b, a] gives the same beauty, complexity and grades. */
  lemma TwoColourSwap(a: ColorItem, b: ColorItem)
    ensures var ab, ba := Score([a, b]), Score([b, a]);
            && ab.pairDetails == [ComparePair(0, 1, a, b)] && ba.pairDetails == [ComparePair(0, 1, b, a)]
            && ab.beauty == ba.beauty && ab.complexity == ba.complexity
  {
    assert DetailsBefore([a, b], ComparePair, 2) == [ComparePair(0, 1, a, b)] by {
      assert RowDetails([a, b], ComparePair, 1, 2) == [];
      assert RowDetails([a, b], ComparePair, 0, 2) == [ComparePair(0, 1, a, b)];
    }
    assert DetailsBefore([b, a], ComparePair, 2) == [ComparePair(0, 1, b, a)] by {
      assert RowDetails([b, a], ComparePair, 1, 2) == [];
      assert RowDetails([b, a], ComparePair, 0, 2) == [ComparePair(0, 1, b, a)];
    }
    ComparePairSwap(0, 1, a, b);
  }

  // ---------------------------------------------------------------------
  // Display transform
  // ---------------------------------------------------------------------

  /**
   * `beautyToPoint(x) = 100 * x / (x + 0.5)`. At x = -0.5 the source divides
   * by zero and yields a non-finite number, modelled as None.
   */
  function BeautyToPoint(x: real): Option<real> {
    if x + 0.5 == 0.0 then None else Some(100.0 * x / (x + 0.5))
  }

  /** A zero score maps to zero, a non-negative one into [0, 100). */
  lemma BeautyToPointBounds(x: real)
    requires x >= 0.0
    ensures BeautyToPoint(0.0) == Some(0.0)
    ensures BeautyToPoint(x).Some? && 0.0 <= BeautyToPoint(x).value < 100.0
  {
  }

  /** On non-negative scores the transform never decreases. */
  lemma BeautyToPointMonotone(x: real, y: real)
    requires 0.0 <= x <= y
    ensures BeautyToPoint(x).Some? && BeautyToPoint(y).Some?
    ensures BeautyToPoint(x).value <= BeautyToPoint(y).value
  {
    assert 100.0 * x / (x + 0.5) == 100.0 - 50.0 / (x + 0.5);
    assert 100.0 * y / (y + 0.5) == 100.0 - 50.0 / (y + 0.5);
    ReciprocalShrinks(x + 0.5, y + 0.5);
  }

  lemma ReciprocalShrinks(p: real, q: real)
    requires 0.0 < p <= q
    ensures 50.0 / q <= 50.0 / p
  {
  }
}
