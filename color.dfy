/**
 * Colours as plain RGB triples and the Euclidean RGB distance of
 * src/colorutil.js.
 *
 * Components are reals: colours reach the scorer and the Munsell lookup
 * both as integer bytes and as `THREE.Color(hex)` components scaled by 255.
 * `colorDistance` returns `Math.sqrt` of the sum of squares; the model
 * keeps that sum, the squared distance. The distances the program uses
 * (`euclideanDist`, `calcDist(...) < 1` and `findClosestMunsell`'s) are
 * only compared, and `sqrt(a) < sqrt(b)` holds exactly when `a < b`.
 */
module Color {

  datatype Rgb = Rgb(r: real, g: real, b: real)

  /** A Munsell-style triple: hue in degrees, value and chroma on a 0..10 scale. */
  datatype Hvc = Hvc(h: real, v: real, c: real)

  /** Every component lies in [0, 255]. */
  predicate InRange(c: Rgb) {
    0.0 <= c.r <= 255.0 && 0.0 <= c.g <= 255.0 && 0.0 <= c.b <= 255.0
  }

  function Sq(x: real): real { x * x }

  /** `colorDistance(c1, c2)` squared: dr*dr + dg*dg + db*db. */
  function DistanceSq(c1: Rgb, c2: Rgb): real {
    Sq(c1.r - c2.r) + Sq(c1.g - c2.g) + Sq(c1.b - c2.b)
  }

  lemma SqNonNegative(x: real)
    ensures Sq(x) >= 0.0
    ensures Sq(x) == 0.0 <==> x == 0.0
  {
    if x > 0.0 {
      calc { Sq(x); == x * x; > 0.0; }
    } else if x < 0.0 {
      calc { Sq(x); == (-x) * (-x); > 0.0; }
    }
  }

  /** The distance is never negative. */
  lemma DistanceNonNegative(c1: Rgb, c2: Rgb)
    ensures DistanceSq(c1, c2) >= 0.0
  {
    SqNonNegative(c1.r - c2.r);
    SqNonNegative(c1.g - c2.g);
    SqNonNegative(c1.b - c2.b);
  }

  /** The distance does not depend on argument order. */
  lemma DistanceSymmetric(c1: Rgb, c2: Rgb)
    ensures DistanceSq(c1, c2) == DistanceSq(c2, c1)
  {
    assert Sq(c1.r - c2.r) == Sq(c2.r - c1.r);
    assert Sq(c1.g - c2.g) == Sq(c2.g - c1.g);
    assert Sq(c1.b - c2.b) == Sq(c2.b - c1.b);
  }

  /** The distance is zero exactly when the two colours coincide. */
  lemma DistanceZeroIff(c1: Rgb, c2: Rgb)
    ensures DistanceSq(c1, c2) == 0.0 <==> c1 == c2
  {
    SqNonNegative(c1.r - c2.r);
    SqNonNegative(c1.g - c2.g);
    SqNonNegative(c1.b - c2.b);
  }
}
