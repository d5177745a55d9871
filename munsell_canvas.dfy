/**
 * The colour logic of src/MunsellCanvas.jsx: parsing the tab-separated
 * Munsell table, the nearest-Munsell lookup, and the two lists of placed
 * colours (fixed sample colours and extracted colours).
 *
 * `parseFloat` and `new THREE.Color(hex).toArray().map(c => c * 255)` are
 * foreign parsers; they are parameters here (`parseNumber`, `hexToRgb`).
 * The distance `Math.sqrt(...)` is only compared with `<`, so squared
 * distances are compared instead.
 */
module MunsellCanvas {
  import opened Wrappers
  import opened Color
  import opened Text
  import KMeans

  /**
   * `{ hex, hvc }`, the record drawn as a sphere (lines 49-52); `hvc` is
   * `[parseFloat(parts[1]), parseFloat(parts[2]), parseFloat(parts[3])]`.
   */
  datatype MunsellPoint = MunsellPoint(hex: string, hvc: Hvc)

  /** `{ hex, hvc, rgb }`, the record searched by the lookup (lines 76-80). */
  datatype MunsellEntry = MunsellEntry(hex: string, hvc: Hvc, rgb: Rgb)

  /** `{ color, hvc }`, one colour to place; `hvc` is null when nothing matched. */
  datatype Placed = Placed(color: string, hvc: Option<Hvc>)

  // ---------------------------------------------------------------------
  // map(...).filter(Boolean) and filter(...)
  // ---------------------------------------------------------------------

  /** `.filter(Boolean)` over records or `null`: the present values, in order. */
  function Present<T>(xs: seq<Option<T>>): (ys: seq<T>)
    ensures |ys| <= |xs|
  {
    if xs == [] then []
    else Present(xs[..|xs| - 1]) + (if xs[|xs| - 1].Some? then [xs[|xs| - 1].value] else [])
  }

  /** Filtering distributes over concatenation: order is kept. */
  lemma {:induction false} PresentAppend<T>(a: seq<Option<T>>, b: seq<Option<T>>)
    ensures Present(a + b) == Present(a) + Present(b)
  {
    if b == [] {
      assert a + b == a;
    } else {
      PresentAppend(a, b[..|b| - 1]);
      assert (a + b)[..|a + b| - 1] == a + b[..|b| - 1];
    }
  }

  /** A single element is kept exactly when it is present. */
  lemma PresentSingle<T>(x: Option<T>)
    ensures Present([x]) == if x.Some? then [x.value] else []
  {
    assert [x][..0] == [];
  }

  /** `.filter(item => item.hvc)`: the items that found a Munsell colour, in order. */
  function WithHvc(items: seq<Placed>): (kept: seq<Placed>)
    ensures |kept| <= |items|
  {
    if items == [] then []
    else WithHvc(items[..|items| - 1]) + (if items[|items| - 1].hvc.Some? then [items[|items| - 1]] else [])
  }

  lemma {:induction false} WithHvcAppend(a: seq<Placed>, b: seq<Placed>)
    ensures WithHvc(a + b) == WithHvc(a) + WithHvc(b)
  {
    if b == [] {
      assert a + b == a;
    } else {
      WithHvcAppend(a, b[..|b| - 1]);
      assert (a + b)[..|a + b| - 1] == a + b[..|b| - 1];
    }
  }

  /** Every kept item has an `hvc`. */
  lemma {:induction false} WithHvcKept(items: seq<Placed>)
    ensures forall t :: 0 <= t < |WithHvc(items)| ==> WithHvc(items)[t].hvc.Some?
  {
    if items != [] {
      WithHvcKept(items[..|items| - 1]);
    }
  }

  /** Nothing is dropped when every item has an `hvc`. */
  lemma {:induction false} WithHvcAll(items: seq<Placed>)
    requires forall t :: 0 <= t < |items| ==> items[t].hvc.Some?
    ensures WithHvc(items) == items
  {
    if items != [] {
      var n := |items|;
      var front := items[..n - 1];
      forall t | 0 <= t < n - 1
        ensures front[t].hvc.Some?
      {
        assert front[t] == items[t];
      }
      WithHvcAll(front);
      assert front + [items[n - 1]] == items;
    }
  }

  /** Everything is dropped when no item has an `hvc`. */
  lemma {:induction false} WithHvcNone(items: seq<Placed>)
    requires forall t :: 0 <= t < |items| ==> items[t].hvc.None?
    ensures WithHvc(items) == []
  {
    if items != [] {
      var n := |items|;
      var front := items[..n - 1];
      forall t | 0 <= t < n - 1
        ensures front[t].hvc.None?
      {
        assert front[t] == items[t];
      }
      WithHvcNone(front);
    }
  }

  // ---------------------------------------------------------------------
  // The tab-separated table
  // ---------------------------------------------------------------------

  /** `line.split('\t')`; both parsers need at least four fields. */
  function Fields(line: string): seq<string> {
    Split(line, '\t')
  }

  /** Lines 47-52: a sphere record, or `null` for a line with fewer than four fields. */
  function ParsePoint(line: string, parseNumber: string -> real): Option<MunsellPoint> {
    var parts := Fields(line);
    if |parts| < 4 then None
    else Some(MunsellPoint(parts[0], Hvc(parseNumber(parts[1]), parseNumber(parts[2]), parseNumber(parts[3]))))
  }

  /** Lines 72-80: a lookup record, or `null` for a line with fewer than four fields. */
  function ParseEntry(line: string, parseNumber: string -> real, hexToRgb: string -> Rgb): Option<MunsellEntry> {
    var parts := Fields(line);
    if |parts| < 4 then None
    else
      var hex := parts[0];
      Some(MunsellEntry(hex, Hvc(parseNumber(parts[1]), parseNumber(parts[2]), parseNumber(parts[3])), hexToRgb(hex)))
  }

  /** Lines 46-52: `lines.map(...)`. */
  function ParsePoints(lines: seq<string>, parseNumber: string -> real): (xs: seq<Option<MunsellPoint>>)
    ensures |xs| == |lines|
    ensures forall i :: 0 <= i < |xs| ==> xs[i] == ParsePoint(lines[i], parseNumber)
  {
    seq(|lines|, i requires 0 <= i < |lines| => ParsePoint(lines[i], parseNumber))
  }

  /** Lines 46-53: `text.split('\n').map(...).filter(Boolean)`. */
  function MunsellPoints(text: string, parseNumber: string -> real): seq<MunsellPoint> {
    Present(ParsePoints(Split(text, '\n'), parseNumber))
  }

  /** Lines 71-80: `munsellData.map(...)`. */
  function ParseEntries(munsellData: seq<string>, parseNumber: string -> real, hexToRgb: string -> Rgb)
    : (xs: seq<Option<MunsellEntry>>)
    ensures |xs| == |munsellData|
    ensures forall i :: 0 <= i < |xs| ==> xs[i] == ParseEntry(munsellData[i], parseNumber, hexToRgb)
  {
    seq(|munsellData|, i requires 0 <= i < |munsellData| => ParseEntry(munsellData[i], parseNumber, hexToRgb))
  }

  /** Lines 71-81: `munsellData.map(...).filter(Boolean)`. */
  function MunsellEntries(munsellData: seq<string>, parseNumber: string -> real, hexToRgb: string -> Rgb)
    : seq<MunsellEntry>
  {
    Present(ParseEntries(munsellData, parseNumber, hexToRgb))
  }

  /**
   * A line parses exactly when it holds at least three tabs (four fields);
   * its hex is then the first field, and both parsers agree on hex and hvc.
   */
  lemma ParseEntryFields(line: string, parseNumber: string -> real, hexToRgb: string -> Rgb)
    ensures ParseEntry(line, parseNumber, hexToRgb).Some? <==> Occurrences(line, '\t') >= 3
    ensures ParsePoint(line, parseNumber).Some? <==> Occurrences(line, '\t') >= 3
    ensures ParseEntry(line, parseNumber, hexToRgb).Some? ==>
              var e := ParseEntry(line, parseNumber, hexToRgb).value;
              e.hex == Fields(line)[0] && '\t' !in e.hex && e.rgb == hexToRgb(e.hex) &&
              ParsePoint(line, parseNumber) == Some(MunsellPoint(e.hex, e.hvc))
  {
    SplitLength(line, '\t');
  }

  /** The lookup records of a table split in two are those of each half, in order. */
  lemma MunsellEntriesAppend(a: seq<string>, b: seq<string>, parseNumber: string -> real, hexToRgb: string -> Rgb)
    ensures MunsellEntries(a + b, parseNumber, hexToRgb) ==
              MunsellEntries(a, parseNumber, hexToRgb) + MunsellEntries(b, parseNumber, hexToRgb)
  {
    var xa := ParseEntries(a, parseNumber, hexToRgb);
    var xb := ParseEntries(b, parseNumber, hexToRgb);
    assert ParseEntries(a + b, parseNumber, hexToRgb) == xa + xb;
    PresentAppend(xa, xb);
  }

  /** A single line contributes its record when it has four fields, and nothing otherwise. */
  lemma MunsellEntriesSingle(line: string, parseNumber: string -> real, hexToRgb: string -> Rgb)
    ensures MunsellEntries([line], parseNumber, hexToRgb) ==
              if |Fields(line)| >= 4 then [ParseEntry(line, parseNumber, hexToRgb).value] else []
  {
    assert ParseEntries([line], parseNumber, hexToRgb) == [ParseEntry(line, parseNumber, hexToRgb)];
    PresentSingle(ParseEntry(line, parseNumber, hexToRgb));
  }

  /** The sphere records of lookup records. */
  function AsPoints(es: seq<MunsellEntry>): (ps: seq<MunsellPoint>)
    ensures |ps| == |es|
  {
    seq(|es|, i requires 0 <= i < |es| => MunsellPoint(es[i].hex, es[i].hvc))
  }

  lemma {:induction false} PresentAsPoints(ys: seq<Option<MunsellPoint>>, xs: seq<Option<MunsellEntry>>)
    requires |ys| == |xs|
    requires forall i :: 0 <= i < |xs| ==>
               ys[i] == (if xs[i].Some? then Some(MunsellPoint(xs[i].value.hex, xs[i].value.hvc)) else None)
    ensures Present(ys) == AsPoints(Present(xs))
  {
    if xs != [] {
      var n := |xs|;
      PresentAsPoints(ys[..n - 1], xs[..n - 1]);
      var front := Present(xs[..n - 1]);
      if xs[n - 1].Some? {
        assert Present(xs) == front + [xs[n - 1].value];
        assert AsPoints(front + [xs[n - 1].value]) == AsPoints(front) + [MunsellPoint(xs[n - 1].value.hex, xs[n - 1].value.hvc)];
      }
    }
  }

  /**
   * The spheres drawn from the table text are exactly the lookup records of
   * its lines, without their colour: the two parsers keep the same lines,
   * in the same order, with the same hex and hvc.
   */
  lemma MunsellPointsAgree(text: string, parseNumber: string -> real, hexToRgb: string -> Rgb)
    ensures MunsellPoints(text, parseNumber) == AsPoints(MunsellEntries(Split(text, '\n'), parseNumber, hexToRgb))
  {
    var lines := Split(text, '\n');
    forall i | 0 <= i < |lines|
      ensures ParsePoints(lines, parseNumber)[i] ==
                (var x := ParseEntries(lines, parseNumber, hexToRgb)[i];
                 if x.Some? then Some(MunsellPoint(x.value.hex, x.value.hvc)) else None)
    {
      ParseEntryFields(lines[i], parseNumber, hexToRgb);
    }
    PresentAsPoints(ParsePoints(lines, parseNumber), ParseEntries(lines, parseNumber, hexToRgb));
  }

  // ---------------------------------------------------------------------
  // findClosestMunsell
  // ---------------------------------------------------------------------

  /**
   * The index the `forEach` loop settles on after the first `m` entries:
   * the first entry strictly closer than every earlier one; None before
   * any entry (`minDistance` is still `Infinity`).
   */
  function ClosestIndex(rgb: Rgb, es: seq<MunsellEntry>, m: nat): (b: Option<nat>)
    requires m <= |es|
    ensures b.None? <==> m == 0
    ensures b.Some? ==> b.value < m
    ensures b.Some? ==> forall j :: 0 <= j < m ==> DistanceSq(rgb, es[b.value].rgb) <= DistanceSq(rgb, es[j].rgb)
    ensures b.Some? ==> forall j :: 0 <= j < b.value ==> DistanceSq(rgb, es[b.value].rgb) < DistanceSq(rgb, es[j].rgb)
  {
    if m == 0 then None
    else
      var b := ClosestIndex(rgb, es, m - 1);
      if b.None? || DistanceSq(rgb, es[m - 1].rgb) < DistanceSq(rgb, es[b.value].rgb) then Some(m - 1) else b
  }

  /** The record `findClosestMunsell` returns; None for `null`. */
  function Closest(rgb: Rgb, es: seq<MunsellEntry>): Option<MunsellEntry> {
    match ClosestIndex(rgb, es, |es|)
    case None => None
    case Some(i) => Some(es[i])
  }

  /**
   * `findClosestMunsell(rgb, munsellData)`: parse the table, then scan it
   * keeping the first entry at strictly smaller distance than any before.
   */
  method FindClosestMunsell(rgb: Rgb, munsellData: seq<string>, parseNumber: string -> real, hexToRgb: string -> Rgb)
    returns (closestColor: Option<MunsellEntry>)
    ensures closestColor == Closest(rgb, MunsellEntries(munsellData, parseNumber, hexToRgb))
  {
    closestColor := None;
    var minDistance: Option<real> := None;
    var munsellColors := MunsellEntries(munsellData, parseNumber, hexToRgb);
    var k := 0;
    while k < |munsellColors|
      invariant 0 <= k <= |munsellColors|
      invariant closestColor.None? <==> k == 0
      invariant minDistance.None? <==> k == 0
      invariant k > 0 ==> closestColor == Some(munsellColors[ClosestIndex(rgb, munsellColors, k).value])
      invariant k > 0 ==> minDistance == Some(DistanceSq(rgb, closestColor.value.rgb))
    {
      var munsellColor := munsellColors[k];
      var distance := DistanceSq(rgb, munsellColor.rgb);
      if minDistance.None? || distance < minDistance.value {
        minDistance := Some(distance);
        closestColor := Some(munsellColor);
      }
      k := k + 1;
    }
  }

  /**
   * The lookup answers `null` exactly when no line parses; otherwise it
   * returns a parsed entry no parsed entry is strictly closer than, and
   * every entry listed before it is strictly farther.
   */
  lemma ClosestSpec(rgb: Rgb, es: seq<MunsellEntry>)
    ensures Closest(rgb, es).None? <==> es == []
    ensures Closest(rgb, es).Some? ==>
              (exists i :: 0 <= i < |es| && Closest(rgb, es) == Some(es[i]) &&
                (forall j :: 0 <= j < |es| ==> DistanceSq(rgb, es[i].rgb) <= DistanceSq(rgb, es[j].rgb)) &&
                (forall j :: 0 <= j < i ==> DistanceSq(rgb, es[i].rgb) < DistanceSq(rgb, es[j].rgb)))
  {
    var b := ClosestIndex(rgb, es, |es|);
    if b.Some? {
      var i := b.value;
      assert Closest(rgb, es) == Some(es[i]);
    }
  }

  // ---------------------------------------------------------------------
  // SampleColors and ExtractedColors
  // ---------------------------------------------------------------------

  /** The six fixed sample colours. */
  const SampleColorStrings: seq<string> :=
    ["255,0,0", "0,255,0", "0,0,255", "255,255,0", "0,255,255", "255,0,255"]

  /**
   * `colorStr.split(',').map(c => parseInt(c, 10))`, of which the lookup
   * reads `rgb[0]`, `rgb[1]` and `rgb[2]`. None when there are fewer than
   * three pieces or one of the first three is not a number: every distance
   * is then NaN, no comparison succeeds and the lookup answers `null`.
   * Pieces after the third are never read.
   */
  function SampleRgb(colorStr: string): (rgb: Option<Rgb>)
    ensures rgb.Some? <==> |Split(colorStr, ',')| >= 3 && ParseNumbers(Split(colorStr, ',')[..3]).Some?
  {
    var parts := Split(colorStr, ',');
    if |parts| < 3 then None
    else
      match ParseNumbers(parts[..3])
      case Some(ns) => Some(Rgb(ns[0] as real, ns[1] as real, ns[2] as real))
      case None => None
  }

  /** The six samples as integer colours. */
  const SamplePixels: seq<KMeans.Pixel> := [
    KMeans.Pixel(255, 0, 0), KMeans.Pixel(0, 255, 0), KMeans.Pixel(0, 0, 255),
    KMeans.Pixel(255, 255, 0), KMeans.Pixel(0, 255, 255), KMeans.Pixel(255, 0, 255)
  ]

  /** Every sample string reads back as its colour, so no sample hits the NaN path. */
  lemma SampleColorsParse(t: nat)
    requires t < |SampleColorStrings|
    ensures SampleRgb(SampleColorStrings[t]) == Some(KMeans.AsRgb(SamplePixels[t]))
  {
    var p := SamplePixels[t];
    SampleStringFormat(t);
    KMeans.FormatCentroidParses(p);
    ParsedSample(SampleColorStrings[t], p);
  }

  /** A string that parses to exactly three numbers is read as that colour. */
  lemma ParsedSample(colorStr: string, p: KMeans.Pixel)
    requires p.r >= 0 && p.g >= 0 && p.b >= 0
    requires ParseNumbers(Split(colorStr, ',')) == Some([p.r, p.g, p.b])
    ensures SampleRgb(colorStr) == Some(KMeans.AsRgb(p))
  {
    var parts := Split(colorStr, ',');
    assert |parts| == 3 && parts[..3] == parts;
  }

  /** Each sample string is the "r,g,b" text of its colour. */
  lemma SampleStringFormat(t: nat)
    requires t < |SampleColorStrings|
    ensures SampleColorStrings[t] == KMeans.FormatCentroid(SamplePixels[t])
  {
    ComponentStrings();
    var hi, lo := IntToString(255), IntToString(0);
    if t == 0 {
      assert SampleColorStrings[0] == hi + "," + lo + "," + lo;
    } else if t == 1 {
      assert SampleColorStrings[1] == lo + "," + hi + "," + lo;
    } else if t == 2 {
      assert SampleColorStrings[2] == lo + "," + lo + "," + hi;
    } else if t == 3 {
      assert SampleColorStrings[3] == hi + "," + hi + "," + lo;
    } else if t == 4 {
      assert SampleColorStrings[4] == lo + "," + hi + "," + hi;
    } else {
      assert SampleColorStrings[5] == hi + "," + lo + "," + hi;
    }
  }

  /** The decimal texts of the two component values the samples use. */
  lemma ComponentStrings()
    ensures IntToString(0) == "0" && IntToString(255) == "255"
  {
    assert NatToString(2) == "2";
    assert NatToString(25) == NatToString(2) + [DigitChar(5)] == "25";
    assert NatToString(255) == NatToString(25) + [DigitChar(5)] == "255";
  }

  /** Lines 111-114: one sample colour and the hvc of its closest Munsell colour. */
  function PlaceSample(colorStr: string, munsellData: seq<string>, parseNumber: string -> real, hexToRgb: string -> Rgb)
    : Placed
  {
    var closest := match SampleRgb(colorStr)
      case Some(rgb) => Closest(rgb, MunsellEntries(munsellData, parseNumber, hexToRgb))
      case None => None;
    Placed("rgb(" + colorStr + ")", if closest.Some? then Some(closest.value.hvc) else None)
  }

  /** The `closestColors` memo of `SampleColors`, lines 109-116. */
  function SampleColors(munsellData: Option<seq<string>>, parseNumber: string -> real, hexToRgb: string -> Rgb)
    : seq<Placed>
  {
    if munsellData.None? then []
    else
      var ss := SampleColorStrings;
      WithHvc(seq(|ss|, i requires 0 <= i < |ss| => PlaceSample(ss[i], munsellData.value, parseNumber, hexToRgb)))
  }

  /** `rgb(${rgb.join(',')})` for an extracted integer colour. */
  function RgbLabel(p: KMeans.Pixel): string {
    "rgb(" + Join([IntToString(p.r), IntToString(p.g), IntToString(p.b)], ',') + ")"
  }

  /** Lines 131-135: one extracted colour and the hvc of its closest Munsell colour. */
  function PlaceExtracted(p: KMeans.Pixel, munsellData: seq<string>, parseNumber: string -> real, hexToRgb: string -> Rgb)
    : Placed
  {
    var closest := Closest(KMeans.AsRgb(p), MunsellEntries(munsellData, parseNumber, hexToRgb));
    Placed(RgbLabel(p), if closest.Some? then Some(closest.value.hvc) else None)
  }

  /** The `closestColors` memo of `ExtractedColors`, lines 128-140. */
  function ExtractedColors(extractedColors: Option<seq<KMeans.Pixel>>, munsellData: Option<seq<string>>,
                           parseNumber: string -> real, hexToRgb: string -> Rgb): seq<Placed>
  {
    if extractedColors.None? || munsellData.None? then []
    else
      var xs := extractedColors.value;
      WithHvc(seq(|xs|, i requires 0 <= i < |xs| => PlaceExtracted(xs[i], munsellData.value, parseNumber, hexToRgb)))
  }

  /**
   * Extracted colours: no more outputs than inputs, each placed with an
   * hvc; all of them are placed when some line of the table parses, none
   * when no line does, and the order of the inputs is kept.
   */
  lemma ExtractedColorsPlaced(extractedColors: Option<seq<KMeans.Pixel>>, munsellData: Option<seq<string>>,
                              parseNumber: string -> real, hexToRgb: string -> Rgb)
    ensures var out := ExtractedColors(extractedColors, munsellData, parseNumber, hexToRgb);
            && (extractedColors.Some? ==> |out| <= |extractedColors.value|)
            && (forall t :: 0 <= t < |out| ==> out[t].hvc.Some?)
            && (extractedColors.Some? && munsellData.Some? &&
                MunsellEntries(munsellData.value, parseNumber, hexToRgb) != [] ==>
                  |out| == |extractedColors.value| &&
                  forall t :: 0 <= t < |out| ==>
                    (out[t].color == RgbLabel(extractedColors.value[t]) &&
                     out[t].hvc == Some(Closest(KMeans.AsRgb(extractedColors.value[t]),
                                                MunsellEntries(munsellData.value, parseNumber, hexToRgb)).value.hvc)))
            && (munsellData.Some? && MunsellEntries(munsellData.value, parseNumber, hexToRgb) == [] ==> out == [])
  {
    if extractedColors.Some? && munsellData.Some? {
      var xs := extractedColors.value;
      var es := MunsellEntries(munsellData.value, parseNumber, hexToRgb);
      var items := seq(|xs|, i requires 0 <= i < |xs| => PlaceExtracted(xs[i], munsellData.value, parseNumber, hexToRgb));
      forall t | 0 <= t < |xs|
        ensures items[t].hvc.Some? <==> es != []
      {
        ClosestSpec(KMeans.AsRgb(xs[t]), es);
      }
      WithHvcKept(items);
      if es != [] {
        WithHvcAll(items);
      } else {
        WithHvcNone(items);
      }
    }
  }

  /**
   * Sample colours: each placed with an hvc; all six, in order and labelled
   * `rgb(colorStr)`, when some line of the table parses, and none when no
   * line does.
   */
  lemma SampleColorsPlaced(munsellData: Option<seq<string>>, parseNumber: string -> real, hexToRgb: string -> Rgb)
    ensures var out := SampleColors(munsellData, parseNumber, hexToRgb);
            && |out| <= 6
            && (forall t :: 0 <= t < |out| ==> out[t].hvc.Some?)
            && (munsellData.Some? && MunsellEntries(munsellData.value, parseNumber, hexToRgb) != [] ==>
                  |out| == 6 &&
                  forall t :: 0 <= t < |out| ==>
                    (out[t].color == "rgb(" + SampleColorStrings[t] + ")" &&
                     out[t].hvc == Some(Closest(KMeans.AsRgb(SamplePixels[t]),
                                                MunsellEntries(munsellData.value, parseNumber, hexToRgb)).value.hvc)))
            && (munsellData.Some? && MunsellEntries(munsellData.value, parseNumber, hexToRgb) == [] ==> out == [])
  {
    if munsellData.Some? {
      var ss := SampleColorStrings;
      var es := MunsellEntries(munsellData.value, parseNumber, hexToRgb);
      var items := seq(|ss|, i requires 0 <= i < |ss| => PlaceSample(ss[i], munsellData.value, parseNumber, hexToRgb));
      forall t | 0 <= t < |ss|
        ensures items[t].color == "rgb(" + ss[t] + ")"
        ensures items[t].hvc.Some? <==> es != []
        ensures es != [] ==> items[t].hvc == Some(Closest(KMeans.AsRgb(SamplePixels[t]), es).value.hvc)
      {
        PlacedSample(t, munsellData.value, parseNumber, hexToRgb);
      }
      if es == [] {
        WithHvcNone(items);
      } else {
        WithHvcAll(items);
      }
      WithHvcKept(items);
    }
  }

  /** Sample t is labelled `rgb(colorStr)` and carries the hvc of the Munsell colour closest to it. */
  lemma PlacedSample(t: nat, munsellData: seq<string>, parseNumber: string -> real, hexToRgb: string -> Rgb)
    requires t < |SampleColorStrings|
    ensures var p, es := PlaceSample(SampleColorStrings[t], munsellData, parseNumber, hexToRgb),
                         MunsellEntries(munsellData, parseNumber, hexToRgb);
            && p.color == "rgb(" + SampleColorStrings[t] + ")"
            && (p.hvc.Some? <==> es != [])
            && (es != [] ==> p.hvc == Some(Closest(KMeans.AsRgb(SamplePixels[t]), es).value.hvc))
  {
    SampleColorsParse(t);
    ClosestSpec(KMeans.AsRgb(SamplePixels[t]), MunsellEntries(munsellData, parseNumber, hexToRgb));
  }
}
