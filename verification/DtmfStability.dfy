/** The rounded two-term recurrence behind one tone: its energy grows slowly enough to bound every sample.

    With c the coefficient as a fraction, the exact recurrence y' = 2*c*y1 - y2 keeps the quadratic form
    y1*y1 + y2*y2 - 2*c*y1*y2.  Rounding moves each new value by at most one half, so the square root
    of the form grows by at most one half a step; the lemmas say so without square roots. */
module DtmfStability {

  // The last two values of a tone, newest first.
  datatype Tone = Tone(y1: int, y2: int)

  // a * b / 2^15, rounded to the nearest integer.
  function Rounded(a: int, b: int): int { (a * b + 0x4000) / 0x8000 }

  function Advance(coeff: int, t: Tone): Tone {
    Tone(Rounded(coeff, 2 * t.y1) - t.y2, t.y1)
  }

  function Iterate(coeff: int, t: Tone, n: nat): Tone {
    if n == 0 then t else Advance(coeff, Iterate(coeff, t, n - 1))
  }

  ghost function Fraction(coeff: int): real { coeff as real / 32768.0 }

  ghost function Energy(c: real, y1: real, y2: real): real {
    y1 * y1 + y2 * y2 - 2.0 * c * y1 * y2
  }

  ghost function ToneEnergy(coeff: int, t: Tone): real {
    Energy(Fraction(coeff), t.y1 as real, t.y2 as real)
  }

  lemma SquareNonNegative(x: real)
    ensures x * x >= 0.0
  {
  }

  lemma ProductMonotone(a: real, b: real, x: real, y: real)
    requires 0.0 <= a <= b && 0.0 <= x <= y
    ensures a * x <= b * y
  {
    assert a * x <= a * y;
    assert (b - a) * y >= 0.0;
  }

  lemma ProductPositive(a: real, b: real)
    requires a > 0.0 && b > 0.0
    ensures a * b > 0.0
  {
  }

  lemma LargerSquare(x: real, r: real)
    requires x > r >= 0.0
    ensures x * x > r * r
  {
    ProductPositive(x - r, x + r);
    assert (x - r) * (x + r) == x * x - r * r;
  }

  lemma BoundFromSquare(x: real, r: real)
    requires r >= 0.0 && x * x <= r * r
    ensures -r <= x <= r
  {
    if x > r {
      LargerSquare(x, r);
    }
    if -x > r {
      LargerSquare(-x, r);
    }
  }

  lemma ScaleBound(e: real, d: real, r: real)
    requires -0.5 <= e <= 0.5 && -r <= d <= r
    ensures 2.0 * e * d <= r && e * e <= 0.25
  {
    var a := if e >= 0.0 then e else -e;
    var b := if d >= 0.0 then d else -d;
    ProductMonotone(a, 0.5, b, r);
    assert e * d == a * b || e * d == -(a * b);
    ProductMonotone(0.0, a, 0.0, b);
    ProductMonotone(a, 0.5, a, 0.5);
    assert e * e == a * a;
  }

  // One step in outline: the form splits into d*d + w, and an error e moves it by 2*e*d + e*e.
  lemma RadiusStep(before: real, after: real, d: real, w: real, e: real, r: real)
    requires before == d * d + w && w >= 0.0
    requires after == before + 2.0 * e * d + e * e
    requires r >= 0.0 && before <= r * r && -0.5 <= e <= 0.5
    ensures after <= (r + 0.5) * (r + 0.5)
  {
    BoundFromSquare(d, r);
    ScaleBound(e, d, r);
    assert (r + 0.5) * (r + 0.5) == r * r + r + 0.25;
  }

  // How far the form moves when the new value misses the exact one by e.
  lemma EnergyAfterError(c: real, y1: real, y2: real, e: real)
    ensures Energy(c, 2.0 * c * y1 - y2 + e, y1) == Energy(c, y1, y2) + 2.0 * e * (c * y1 - y2) + e * e
  {
    var u := c * y1;
    var z := 2.0 * u - y2 + e;
    assert 2.0 * c * y1 == 2.0 * u;
    assert 2.0 * c * z * y1 == 2.0 * u * z;
    assert 2.0 * c * y1 * y2 == 2.0 * u * y2;
    assert z * z - 2.0 * u * z == (e - y2) * z;
    assert (e - y2) * z == 2.0 * e * u - e * y2 + e * e - 2.0 * u * y2 + y2 * y2 - e * y2;
  }

  // The two squares the form is made of.
  lemma EnergySplit(c: real, y1: real, y2: real)
    ensures Energy(c, y1, y2) == (c * y1 - y2) * (c * y1 - y2) + (1.0 - c * c) * (y1 * y1)
  {
    var u := c * y1;
    assert 2.0 * c * y1 * y2 == 2.0 * u * y2;
    assert (c * c) * (y1 * y1) == u * u;
    assert (1.0 - c * c) * (y1 * y1) == y1 * y1 - u * u;
  }

  lemma FractionBelowOne(coeff: int)
    requires 0 < coeff < 32768
    ensures 0.0 < Fraction(coeff) < 1.0
    ensures Fraction(coeff) * Fraction(coeff) < 1.0
  {
    var c := Fraction(coeff);
    assert c * c < 1.0 * c;
  }

  // Rounding to nearest misses by at most one half.
  lemma RoundingError(coeff: int, y: int) returns (e: real)
    ensures -0.5 <= e <= 0.5
    ensures Rounded(coeff, 2 * y) as real == 2.0 * Fraction(coeff) * y as real + e
  {
    var p := coeff * (2 * y);
    var q := Rounded(coeff, 2 * y);
    assert q * 0x8000 <= p + 0x4000 < (q + 1) * 0x8000;
    e := q as real - p as real / 32768.0;
    assert p as real == coeff as real * (2.0 * y as real);
    assert p as real / 32768.0 == 2.0 * Fraction(coeff) * y as real;
    var gap := q * 0x8000 - p;
    assert e == gap as real / 32768.0;
    assert -0x4000 <= gap <= 0x4000;
  }

  lemma WeightNonNegative(coeff: int, y: real)
    requires 0 < coeff < 32768
    ensures (1.0 - Fraction(coeff) * Fraction(coeff)) * (y * y) >= 0.0
  {
    FractionBelowOne(coeff);
    SquareNonNegative(y);
    ProductMonotone(0.0, 1.0 - Fraction(coeff) * Fraction(coeff), 0.0, y * y);
  }

  // One step of the exact recurrence, missed by e.
  lemma StepEnergy(coeff: int, y1: real, y2: real, e: real, next: real, r: real)
    requires 0 < coeff < 32768 && r >= 0.0 && -0.5 <= e <= 0.5
    requires Energy(Fraction(coeff), y1, y2) <= r * r
    requires next == 2.0 * Fraction(coeff) * y1 - y2 + e
    ensures Energy(Fraction(coeff), next, y1) <= (r + 0.5) * (r + 0.5)
  {
    var c := Fraction(coeff);
    EnergyAfterError(c, y1, y2, e);
    EnergySplit(c, y1, y2);
    WeightNonNegative(coeff, y1);
    RadiusStep(Energy(c, y1, y2), Energy(c, 2.0 * c * y1 - y2 + e, y1),
               c * y1 - y2, (1.0 - c * c) * (y1 * y1), e, r);
  }

  // One step of the rounded recurrence adds at most one half to the radius.
  lemma AdvanceEnergy(coeff: int, t: Tone, r: real)
    requires 0 < coeff < 32768 && r >= 0.0
    requires ToneEnergy(coeff, t) <= r * r
    ensures ToneEnergy(coeff, Advance(coeff, t)) <= (r + 0.5) * (r + 0.5)
  {
    var e := RoundingError(coeff, t.y1);
    StepEnergy(coeff, t.y1 as real, t.y2 as real, e, Advance(coeff, t).y1 as real, r);
  }

  // The radius after n steps: one half more for each.
  ghost function Radius(r: real, n: nat): (radius: real)
    requires r >= 0.0
    ensures radius >= r
  {
    if n == 0 then r else Radius(r, n - 1) + 0.5
  }

  lemma {:induction false} RadiusValue(r: real, n: nat)
    requires r >= 0.0
    ensures Radius(r, n) == r + n as real / 2.0
  {
    if n > 0 {
      RadiusValue(r, n - 1);
    }
  }

  // From any start and for any coefficient, n steps leave the energy within the n-th radius.
  lemma {:induction false} IterateEnergy(coeff: int, t: Tone, r: real, n: nat)
    requires 0 < coeff < 32768 && r >= 0.0
    requires ToneEnergy(coeff, t) <= r * r
    ensures ToneEnergy(coeff, Iterate(coeff, t, n)) <= Radius(r, n) * Radius(r, n)
  {
    hide Advance, ToneEnergy;
    if n > 0 {
      IterateEnergy(coeff, t, r, n - 1);
      AdvanceEnergy(coeff, Iterate(coeff, t, n - 1), Radius(r, n - 1));
    }
  }

  // The square of a value, as far as the energy does not pull it back.
  ghost function Weighed(coeff: int, y: int): real {
    (1.0 - Fraction(coeff) * Fraction(coeff)) * (y as real * y as real)
  }

  lemma WeightBelowEnergy(c: real, y1: real, y2: real)
    ensures (1.0 - c * c) * (y1 * y1) <= Energy(c, y1, y2)
  {
    EnergySplit(c, y1, y2);
    SquareNonNegative(c * y1 - y2);
  }

  lemma WeighedBelowEnergy(coeff: int, t: Tone)
    ensures Weighed(coeff, t.y1) <= ToneEnergy(coeff, t)
  {
    WeightBelowEnergy(Fraction(coeff), t.y1 as real, t.y2 as real);
  }

  // What the radius says about the newest value.
  lemma AmplitudeBound(coeff: int, t: Tone, r: real, n: nat)
    requires 0 < coeff < 32768 && r >= 0.0
    requires ToneEnergy(coeff, t) <= r * r
    ensures Weighed(coeff, Iterate(coeff, t, n).y1) <= Radius(r, n) * Radius(r, n)
  {
    IterateEnergy(coeff, t, r, n);
    WeighedBelowEnergy(coeff, Iterate(coeff, t, n));
  }

  lemma {:induction false} RadiusGrows(r: real, k: nat, n: nat)
    requires r >= 0.0 && k <= n
    ensures Radius(r, k) <= Radius(r, n)
    ensures Radius(r, k) * Radius(r, k) <= Radius(r, n) * Radius(r, n)
  {
    if k < n {
      RadiusGrows(r, k, n - 1);
    }
    ProductMonotone(Radius(r, k), Radius(r, n), Radius(r, k), Radius(r, n));
  }

  lemma WeighedGrows(coeff: int, y: int, limit: int)
    requires 0 < coeff < 32768 && limit >= 0 && (y >= limit || y <= -limit)
    ensures Weighed(coeff, y) >= Weighed(coeff, limit)
  {
    FractionBelowOne(coeff);
    var a, b := if y >= 0 then y as real else -(y as real), limit as real;
    ProductMonotone(b, a, b, a);
    assert y as real * y as real == a * a;
    SquareNonNegative(b);
    var w := 1.0 - Fraction(coeff) * Fraction(coeff);
    ProductMonotone(w, w, b * b, a * a);
  }

  // A limit that the radius at step n stays under holds every value up to step n.
  lemma WithinLimit(coeff: int, t: Tone, r: real, n: nat, limit: int, k: nat)
    requires 0 < coeff < 32768 && r >= 0.0 && k <= n && limit >= 0
    requires ToneEnergy(coeff, t) <= r * r
    requires Radius(r, n) * Radius(r, n) < Weighed(coeff, limit)
    ensures -limit < Iterate(coeff, t, k).y1 < limit
  {
    AmplitudeBound(coeff, t, r, k);
    RadiusGrows(r, k, n);
    var y := Iterate(coeff, t, k).y1;
    if !(-limit < y < limit) {
      WeighedGrows(coeff, y, limit);
    }
  }
}
