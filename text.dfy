/**
 * The string operations the core relies on: JavaScript's
 * `String.prototype.split` with a one-character separator, its inverse
 * `Array.prototype.join`, decimal formatting of integers (template
 * literals such as `${c[0]},${c[1]},${c[2]}`) and `parseInt(s, 10)` on
 * strings of decimal digits.
 */
module Text {
  import opened Wrappers

  /** `s.split(sep)`: the maximal separator-free pieces, always at least one. */
  function Split(s: string, sep: char): (parts: seq<string>)
    ensures |parts| >= 1
    ensures forall t :: 0 <= t < |parts| ==> sep !in parts[t]
  {
    if s == [] then [""]
    else if s[0] == sep then [""] + Split(s[1..], sep)
    else
      var rest := Split(s[1..], sep);
      [[s[0]] + rest[0]] + rest[1..]
  }

  /** `parts.join(sep)`. */
  function Join(parts: seq<string>, sep: char): string
    requires |parts| >= 1
  {
    if |parts| == 1 then parts[0] else parts[0] + [sep] + Join(parts[1..], sep)
  }

  /** Number of occurrences of `c` in `s`. */
  function Occurrences(s: string, c: char): nat {
    if s == [] then 0 else (if s[0] == c then 1 else 0) + Occurrences(s[1..], c)
  }

  /** Splitting yields one more piece than there are separators. */
  lemma {:induction false} SplitLength(s: string, sep: char)
    ensures |Split(s, sep)| == Occurrences(s, sep) + 1
  {
    if s != [] {
      SplitLength(s[1..], sep);
    }
  }

  /** Joining the pieces of a split gives back the original string. */
  lemma {:induction false} JoinSplit(s: string, sep: char)
    ensures Join(Split(s, sep), sep) == s
  {
    if s != [] {
      JoinSplit(s[1..], sep);
      var rest := Split(s[1..], sep);
      if s[0] != sep {
        if |rest| == 1 {
          assert Split(s, sep) == [[s[0]] + rest[0]];
        } else {
          var parts := Split(s, sep);
          assert parts[1..] == rest[1..];
          assert Join(parts, sep) == [s[0]] + rest[0] + [sep] + Join(rest[1..], sep);
        }
      }
    }
  }

  /** Splitting a join of separator-free pieces gives back the pieces. */
  lemma {:induction false} SplitJoin(parts: seq<string>, sep: char)
    requires |parts| >= 1
    requires forall t :: 0 <= t < |parts| ==> sep !in parts[t]
    ensures Split(Join(parts, sep), sep) == parts
  {
    if |parts| == 1 {
      SplitPiece(parts[0], sep);
    } else {
      SplitJoin(parts[1..], sep);
      SplitPieceThen(parts[0], sep, Join(parts[1..], sep));
    }
  }

  lemma {:induction false} SplitPiece(p: string, sep: char)
    requires sep !in p
    ensures Split(p, sep) == [p]
  {
    if p != [] {
      SplitPiece(p[1..], sep);
      assert [p[0]] + p[1..] == p;
    }
  }

  lemma {:induction false} SplitPieceThen(p: string, sep: char, tail: string)
    requires sep !in p
    ensures Split(p + [sep] + tail, sep) == [p] + Split(tail, sep)
  {
    if p == [] {
      assert p + [sep] + tail == [sep] + tail;
    } else {
      var s := p + [sep] + tail;
      assert s[0] == p[0] && s[0] != sep;
      assert s[1..] == p[1..] + [sep] + tail;
      SplitPieceThen(p[1..], sep, tail);
      assert [p[0]] + p[1..] == p;
    }
  }

  predicate IsDigit(c: char) { '0' <= c <= '9' }

  function DigitChar(d: nat): (c: char)
    requires d < 10
    ensures IsDigit(c)
  {
    "0123456789"[d]
  }

  /** Decimal representation of a natural number, without leading zeros. */
  function NatToString(n: nat): (s: string)
    ensures |s| >= 1
    ensures forall t :: 0 <= t < |s| ==> IsDigit(s[t])
  {
    if n < 10 then [DigitChar(n)] else NatToString(n / 10) + [DigitChar(n % 10)]
  }

  /** Decimal representation of an integer, with a leading '-' when negative. */
  function IntToString(n: int): string {
    if n < 0 then "-" + NatToString(-n) else NatToString(n)
  }

  /** `parseInt(s, 10)` on a non-empty string of decimal digits. */
  function ParseDigits(s: string): nat
    requires forall t :: 0 <= t < |s| ==> IsDigit(s[t])
  {
    if s == [] then 0
    else 10 * ParseDigits(s[..|s| - 1]) + DigitValue(s[|s| - 1])
  }

  function DigitValue(c: char): (d: nat)
    requires IsDigit(c)
    ensures d < 10
  {
    (c as int) - ('0' as int)
  }

  /** Formatting then parsing a natural number gives it back. */
  lemma {:induction false} ParseNatToString(n: nat)
    ensures ParseDigits(NatToString(n)) == n
  {
    if n >= 10 {
      ParseNatToString(n / 10);
      var s := NatToString(n);
      assert s[..|s| - 1] == NatToString(n / 10);
    }
  }

  predicate AllDigits(s: string) {
    forall t :: 0 <= t < |s| ==> IsDigit(s[t])
  }

  /**
   * `parts.map(c => parseInt(c, 10))` when every piece is a non-empty run
   * of decimal digits; None when some piece is not (`parseInt` gives NaN
   * for an empty piece).
   */
  function ParseNumbers(parts: seq<string>): (ns: Option<seq<nat>>)
    ensures ns.Some? ==> |ns.value| == |parts|
  {
    if parts == [] then Some([])
    else
      var last := parts[|parts| - 1];
      match ParseNumbers(parts[..|parts| - 1])
      case None => None
      case Some(front) =>
        if last != [] && AllDigits(last) then Some(front + [ParseDigits(last)]) else None
  }

  lemma JoinThree(x: string, y: string, z: string, sep: char)
    ensures Join([x, y, z], sep) == x + [sep] + y + [sep] + z
  {
    assert [x, y, z][1..] == [y, z];
    assert [y, z][1..] == [z];
    assert Join([y, z], sep) == y + [sep] + z;
  }

  /** Three non-empty digit runs parse to their three values. */
  lemma ParseThree(x: string, y: string, z: string)
    requires x != [] && y != [] && z != []
    requires AllDigits(x) && AllDigits(y) && AllDigits(z)
    ensures ParseNumbers([x, y, z]) == Some([ParseDigits(x), ParseDigits(y), ParseDigits(z)])
  {
    var a, b, c := ParseDigits(x), ParseDigits(y), ParseDigits(z);
    ParseNumbersSnoc([], x);
    assert [] + [x] == [x] && [] + [a] == [a];
    assert ParseNumbers([x]) == Some([a]);
    ParseNumbersSnoc([x], y);
    assert [x] + [y] == [x, y] && [a] + [b] == [a, b];
    assert ParseNumbers([x, y]) == Some([a, b]);
    ParseNumbersSnoc([x, y], z);
    assert [x, y] + [z] == [x, y, z] && [a, b] + [c] == [a, b, c];
  }

  /** Appending one digit run appends its value. */
  lemma ParseNumbersSnoc(parts: seq<string>, p: string)
    requires p != [] && AllDigits(p) && ParseNumbers(parts).Some?
    ensures ParseNumbers(parts + [p]) == Some(ParseNumbers(parts).value + [ParseDigits(p)])
  {
    assert (parts + [p])[..|parts|] == parts;
  }
}
