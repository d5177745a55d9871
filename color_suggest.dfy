/**
 * The suggestion ranking of src/ColorSuggest.jsx: every candidate colour is
 * appended to the clustered palette, the extended palette is rescored, and
 * the candidates are ranked by how much they change the beauty score,
 * largest change first, ties kept in candidate order.
 */
module ColorSuggest {
  import opened Wrappers
  import opened Color
  import opened Text
  import BeautyCalculator

  /** A colour offered for addition: `{ name, rgb }`. */
  datatype Candidate = Candidate(name: string, rgb: Rgb)

  /** An entry of the `munsellColors` prop; `hex` may be missing. */
  datatype MunsellColor = MunsellColor(hex: Option<string>, rgb: Rgb)

  /** `{ ...color, newBeauty, difference }`. */
  datatype Suggestion = Suggestion(name: string, rgb: Rgb, newBeauty: real, difference: real)

  /** The five representative colours used when no Munsell colours are given. */
  const FallbackColors: seq<Candidate> := [
    Candidate("白", Rgb(255.0, 255.0, 255.0)),
    Candidate("黒", Rgb(0.0, 0.0, 0.0)),
    Candidate("赤", Rgb(255.0, 0.0, 0.0)),
    Candidate("青", Rgb(0.0, 0.0, 255.0)),
    Candidate("緑", Rgb(0.0, 128.0, 0.0))
  ]

  /** The `currentBeauty` memo: the palette's beauty, or None for `null`. */
  function CurrentBeauty(clusteredColors: Option<seq<Rgb>>): (b: Option<real>)
    ensures b.Some? <==> clusteredColors.Some? && |clusteredColors.value| >= 2
  {
    match BeautyCalculator.BeautyDetails(clusteredColors)
    case None => None
    case Some(result) => Some(result.beauty)
  }

  /** `!currentBeauty`: both `null` and a score of exactly 0 are falsy. */
  predicate Falsy(b: Option<real>) {
    b.None? || b.value == 0.0
  }

  /** `mc.hex || `munsell-${idx}``: a missing or empty hex falls back to the index. */
  function MunsellName(hex: Option<string>, idx: nat): (name: string)
    ensures name != []
  {
    if hex.Some? && hex.value != [] then hex.value else "munsell-" + NatToString(idx)
  }

  /** `sourceColors`: every Munsell colour when there is at least one, the fallback colours otherwise. */
  function Candidates(munsellColors: Option<seq<MunsellColor>>): (cs: seq<Candidate>)
    ensures munsellColors.None? || munsellColors.value == [] ==> cs == FallbackColors
    ensures munsellColors.Some? && munsellColors.value != [] ==>
              |cs| == |munsellColors.value| &&
              forall idx :: 0 <= idx < |cs| ==>
                cs[idx] == Candidate(MunsellName(munsellColors.value[idx].hex, idx), munsellColors.value[idx].rgb)
  {
    if munsellColors.Some? && |munsellColors.value| > 0 then
      var ms := munsellColors.value;
      seq(|ms|, idx requires 0 <= idx < |ms| => Candidate(MunsellName(ms[idx].hex, idx), ms[idx].rgb))
    else FallbackColors
  }

  /** One candidate rescored on `[...clusteredColors, color.rgb]`; a `null` result counts as 0. */
  function Rescore(clusteredColors: seq<Rgb>, currentBeauty: real, color: Candidate): Suggestion {
    var newBeauty := BeautyCalculator.BeautyDetails(Some(clusteredColors + [color.rgb])).GetOr(
      BeautyCalculator.BeautyResult(0.0, 0, [])).beauty;
    Suggestion(color.name, color.rgb, newBeauty, newBeauty - currentBeauty)
  }

  /** `sourceColors.map(...)`. */
  function RescoreAll(clusteredColors: seq<Rgb>, currentBeauty: real, cs: seq<Candidate>): (ss: seq<Suggestion>)
    ensures |ss| == |cs|
  {
    seq(|cs|, i requires 0 <= i < |cs| => Rescore(clusteredColors, currentBeauty, cs[i]))
  }

  // ---------------------------------------------------------------------
  // The stable sort by difference, largest first
  // ---------------------------------------------------------------------

  /** Non-increasing by difference. */
  predicate SortedByDifference(s: seq<Suggestion>) {
    forall i, j :: 0 <= i < j < |s| ==> s[i].difference >= s[j].difference
  }

  /** Puts `x` before the first entry it is not smaller than. */
  function Insert(s: seq<Suggestion>, x: Suggestion): (r: seq<Suggestion>)
    ensures |r| == |s| + 1
  {
    if s == [] then [x]
    else if x.difference >= s[0].difference then [x] + s
    else [s[0]] + Insert(s[1..], x)
  }

  /**
   * `.sort((a, b) => b.difference - a.difference)`, a stable sort: insertion
   * of each element, from the last to the first, ahead of every equal one.
   */
  function SortByDifference(s: seq<Suggestion>): (r: seq<Suggestion>)
    ensures |r| == |s|
  {
    if s == [] then [] else Insert(SortByDifference(s[1..]), s[0])
  }

  /** The entries of `s` whose difference is `d`, in order. */
  function WithDifference(s: seq<Suggestion>, d: real): seq<Suggestion> {
    if s == [] then []
    else (if s[0].difference == d then [s[0]] else []) + WithDifference(s[1..], d)
  }

  lemma {:induction false} InsertSorted(s: seq<Suggestion>, x: Suggestion)
    requires SortedByDifference(s)
    ensures SortedByDifference(Insert(s, x))
  {
    if s != [] && x.difference < s[0].difference {
      var rest := s[1..];
      assert SortedByDifference(rest) by {
        forall i, j | 0 <= i < j < |rest|
          ensures rest[i].difference >= rest[j].difference
        {
          assert rest[i] == s[i + 1] && rest[j] == s[j + 1];
        }
      }
      InsertSorted(rest, x);
      forall t | 0 <= t < |rest|
        ensures rest[t].difference <= s[0].difference
      {
        assert rest[t] == s[t + 1];
      }
      InsertBelow(rest, x, s[0].difference);
    }
  }

  /** Inserting adds no entry above a bound that holds for `x` and for all of `s`. */
  lemma {:induction false} InsertBelow(s: seq<Suggestion>, x: Suggestion, bound: real)
    requires x.difference <= bound
    requires forall t :: 0 <= t < |s| ==> s[t].difference <= bound
    ensures forall t :: 0 <= t < |Insert(s, x)| ==> Insert(s, x)[t].difference <= bound
  {
    if s != [] && x.difference < s[0].difference {
      var rest := s[1..];
      forall t | 0 <= t < |rest|
        ensures rest[t].difference <= bound
      {
        assert rest[t] == s[t + 1];
      }
      InsertBelow(rest, x, bound);
      assert Insert(s, x) == [s[0]] + Insert(rest, x);
    }
  }

  lemma {:induction false} InsertMultiset(s: seq<Suggestion>, x: Suggestion)
    ensures multiset(Insert(s, x)) == multiset(s) + multiset{x}
  {
    if s != [] && x.difference < s[0].difference {
      InsertMultiset(s[1..], x);
      assert s == [s[0]] + s[1..];
    }
  }

  /** Inserting `x` into a sorted sequence puts it ahead of every entry with the same difference. */
  lemma {:induction false} InsertWithDifference(s: seq<Suggestion>, x: Suggestion, d: real)
    requires SortedByDifference(s)
    ensures WithDifference(Insert(s, x), d) ==
              (if x.difference == d then [x] else []) + WithDifference(s, d)
  {
    if s != [] && x.difference < s[0].difference {
      var rest := s[1..];
      assert SortedByDifference(rest) by {
        forall i, j | 0 <= i < j < |rest|
          ensures rest[i].difference >= rest[j].difference
        {
          assert rest[i] == s[i + 1] && rest[j] == s[j + 1];
        }
      }
      InsertWithDifference(rest, x, d);
      var r := Insert(s, x);
      assert r[0] == s[0] && r[1..] == Insert(rest, x);
    }
  }

  /** The sorted result is non-increasing in difference. */
  lemma {:induction false} SortSorted(s: seq<Suggestion>)
    ensures SortedByDifference(SortByDifference(s))
  {
    if s != [] {
      SortSorted(s[1..]);
      InsertSorted(SortByDifference(s[1..]), s[0]);
    }
  }

  /** The sorted result is a permutation of its input. */
  lemma {:induction false} SortPermutation(s: seq<Suggestion>)
    ensures multiset(SortByDifference(s)) == multiset(s)
  {
    if s != [] {
      SortPermutation(s[1..]);
      InsertMultiset(SortByDifference(s[1..]), s[0]);
      assert s == [s[0]] + s[1..];
    }
  }

  /** Stability: entries with equal difference keep their input order. */
  lemma {:induction false} SortStable(s: seq<Suggestion>, d: real)
    ensures WithDifference(SortByDifference(s), d) == WithDifference(s, d)
  {
    if s != [] {
      SortStable(s[1..], d);
      SortSorted(s[1..]);
      InsertWithDifference(SortByDifference(s[1..]), s[0], d);
    }
  }

  // ---------------------------------------------------------------------
  // The suggestions memo
  // ---------------------------------------------------------------------

  /** The `suggestions` memo. */
  function Suggestions(clusteredColors: Option<seq<Rgb>>, munsellColors: Option<seq<MunsellColor>>): seq<Suggestion> {
    var currentBeauty := CurrentBeauty(clusteredColors);
    if clusteredColors.None? || Falsy(currentBeauty) then []
    else SortByDifference(RescoreAll(clusteredColors.value, currentBeauty.value, Candidates(munsellColors)))
  }

  /**
   * No suggestions exactly when the palette is missing, too small to score,
   * or scores exactly 0; otherwise one suggestion per candidate.
   */
  lemma SuggestionsEmpty(clusteredColors: Option<seq<Rgb>>, munsellColors: Option<seq<MunsellColor>>)
    ensures Suggestions(clusteredColors, munsellColors) == [] <==>
              clusteredColors.None? || Falsy(CurrentBeauty(clusteredColors))
    ensures !(clusteredColors.None? || Falsy(CurrentBeauty(clusteredColors))) ==>
              |Suggestions(clusteredColors, munsellColors)| == |Candidates(munsellColors)|
  {
  }

  /** An extended palette always scores, so the fallback to 0 never applies. */
  lemma ExtendedPaletteScores(clusteredColors: seq<Rgb>, currentBeauty: real, color: Candidate)
    requires |clusteredColors| >= 1
    ensures BeautyCalculator.BeautyDetails(Some(clusteredColors + [color.rgb])).Some?
    ensures Rescore(clusteredColors, currentBeauty, color).newBeauty ==
              BeautyCalculator.BeautyDetails(Some(clusteredColors + [color.rgb])).value.beauty
  {
  }

  /**
   * The suggestions are the rescored candidates, reordered: sorted by
   * difference, largest first, a permutation of the rescored list, and
   * stable among equal differences. Each rescored entry keeps its
   * candidate's name and colour, and its difference is its new score minus
   * the current one.
   */
  lemma SuggestionsRanked(clusteredColors: Option<seq<Rgb>>, munsellColors: Option<seq<MunsellColor>>, d: real)
    requires clusteredColors.Some? && !Falsy(CurrentBeauty(clusteredColors))
    ensures var cs := Candidates(munsellColors);
            var current := CurrentBeauty(clusteredColors).value;
            var rescored := RescoreAll(clusteredColors.value, current, cs);
            var out := Suggestions(clusteredColors, munsellColors);
            && SortedByDifference(out)
            && multiset(out) == multiset(rescored)
            && WithDifference(out, d) == WithDifference(rescored, d)
            && (forall i :: 0 <= i < |cs| ==>
                  rescored[i].name == cs[i].name && rescored[i].rgb == cs[i].rgb &&
                  rescored[i].difference == rescored[i].newBeauty - current)
  {
    var rescored := RescoreAll(clusteredColors.value, CurrentBeauty(clusteredColors).value, Candidates(munsellColors));
    SortSorted(rescored);
    SortPermutation(rescored);
    SortStable(rescored, d);
  }
}
