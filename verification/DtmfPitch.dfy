/** What a key sounds like: the pitch its coefficients stand for, the strength of its two tones, and how closely
    the rounded samples follow the ideal oscillator. */
module DtmfPitch {
  import opened DtmfStability
  import opened Dtmf

  // ---------- Cosines ----------

  ghost function Power(x: real, k: nat): real { if k == 0 then 1.0 else Power(x, k - 1) * x }

  // Partial sums of the series of the cosine, in powers of the square of the angle.
  ghost function UpperCosine(low: real, high: real): real {
    1.0 - low / 2.0 + Power(high, 2) / 24.0 - Power(low, 3) / 720.0 + Power(high, 4) / 40320.0
  }

  ghost function LowerCosine(low: real, high: real): real {
    1.0 - high / 2.0 + Power(low, 2) / 24.0 - Power(high, 3) / 720.0 + Power(low, 4) / 40320.0
    - Power(high, 5) / 3628800.0
  }

  // Between two partial sums, where the cosine of every angle up to one and a half is; x is its square.
  ghost predicate LikeCosine(x: real, y: real) { LowerCosine(x, x) <= y <= UpperCosine(x, x) }

  ghost function Angle(pi: real, frequency: int): real { 2.0 * pi * frequency as real / 8000.0 }

  // What is known of the cosine of the angle that a tone turns through in one of 8000 samples a second.
  ghost predicate CosineFor(frequency: int, pi: real, y: real) {
    3.141592 <= pi <= 3.141593 && LikeCosine(Angle(pi, frequency) * Angle(pi, frequency), y)
  }

  // In 1/32768, within one unit of that cosine.
  ghost predicate Tunes(coeff: int, frequency: int) {
    forall pi: real, y: real :: CosineFor(frequency, pi, y) ==> -1.0 <= coeff as real - 32768.0 * y <= 1.0
  }

  lemma {:induction false} PowerGrows(a: real, b: real, k: nat)
    requires 0.0 <= a <= b
    ensures 0.0 <= Power(a, k) <= Power(b, k)
  {
    if k > 0 {
      PowerGrows(a, b, k - 1);
      ProductMonotone(Power(a, k - 1), Power(b, k - 1), a, b);
      ProductMonotone(0.0, Power(a, k - 1), 0.0, a);
    }
  }

  lemma CosineBounds(a: real, x: real, b: real, y: real)
    requires 0.0 <= a <= x <= b && LikeCosine(x, y)
    ensures LowerCosine(a, b) <= y <= UpperCosine(a, b)
  {
    hide Power;
    forall k: nat ensures Power(a, k) <= Power(x, k) <= Power(b, k) {
      PowerGrows(a, x, k);
      PowerGrows(x, b, k);
    }
  }

  // The square of the angle, for a number close to pi.
  lemma AngleBounds(pi: real, frequency: int)
    requires 3.141592 <= pi <= 3.141593 && frequency > 0
    ensures var f := frequency as real / 4000.0;
            0.0 <= 3.141592 * f * (3.141592 * f) <= Angle(pi, frequency) * Angle(pi, frequency)
                <= 3.141593 * f * (3.141593 * f)
  {
    var f := frequency as real / 4000.0;
    assert Angle(pi, frequency) == pi * f;
    ProductMonotone(3.141592, pi, f, f);
    ProductMonotone(pi, 3.141593, f, f);
    assert 0.0 <= 3.141592 * f <= pi * f <= 3.141593 * f;
    ProductMonotone(3.141592 * f, pi * f, 3.141592 * f, pi * f);
    ProductMonotone(pi * f, 3.141593 * f, pi * f, 3.141593 * f);
    SquareNonNegative(3.141592 * f);
  }

  lemma TunesFrom(coeff: int, frequency: int, a: real, b: real)
    requires frequency > 0
    requires var f := frequency as real / 4000.0;
             0.0 <= a <= 3.141592 * f * (3.141592 * f) && 3.141593 * f * (3.141593 * f) <= b
    requires 32768.0 * UpperCosine(a, b) <= coeff as real + 1.0
    requires 32768.0 * LowerCosine(a, b) >= coeff as real - 1.0
    ensures Tunes(coeff, frequency)
  {
    hide UpperCosine, LowerCosine, LikeCosine, Angle;
    forall pi: real, y: real | CosineFor(frequency, pi, y)
      ensures -1.0 <= coeff as real - 32768.0 * y <= 1.0
    {
      AngleBounds(pi, frequency);
      CosineBounds(a, Angle(pi, frequency) * Angle(pi, frequency), b, y);
    }
  }

  lemma PowerValues(x: real)
    ensures Power(x, 2) == x * x && Power(x, 3) == x * x * x && Power(x, 4) == x * x * x * x
    ensures Power(x, 5) == x * x * x * x * x
  {
    assert Power(x, 1) == x;
    assert Power(x, 3) == Power(x, 2) * x;
    assert Power(x, 4) == Power(x, 3) * x;
  }

  lemma Tuned697()
    ensures Tunes(27980, 697)
  {
    PowerValues(0.299671);
    PowerValues(0.299672);
    TunesFrom(27980, 697, 0.299671, 0.299672);
  }

  lemma Tuned770()
    ensures Tunes(26956, 770)
  {
    PowerValues(0.36573);
    PowerValues(0.365731);
    TunesFrom(26956, 770, 0.36573, 0.365731);
  }

  lemma Tuned852()
    ensures Tunes(25701, 852)
  {
    PowerValues(0.447773);
    PowerValues(0.447775);
    TunesFrom(25701, 852, 0.447773, 0.447775);
  }

  lemma Tuned941()
    ensures Tunes(24218, 941)
  {
    PowerValues(0.546208);
    PowerValues(0.54621);
    TunesFrom(24218, 941, 0.546208, 0.54621);
  }

  lemma Tuned1209()
    ensures Tunes(19073, 1209)
  {
    PowerValues(0.901637);
    PowerValues(0.901639);
    TunesFrom(19073, 1209, 0.901637, 0.901639);
  }

  lemma Tuned1336()
    ensures Tunes(16325, 1336)
  {
    PowerValues(1.101013);
    PowerValues(1.101014);
    TunesFrom(16325, 1336, 1.101013, 1.101014);
  }

  lemma Tuned1477()
    ensures Tunes(13085, 1477)
  {
    PowerValues(1.345676);
    PowerValues(1.345678);
    TunesFrom(13085, 1477, 1.345676, 1.345678);
  }

  lemma Tuned1633()
    ensures Tunes(9315, 1633)
  {
    PowerValues(1.644947);
    PowerValues(1.644949);
    TunesFrom(9315, 1633, 1.644947, 1.644949);
  }

  // ---------- Keys ----------

  lemma KeyCoefficients(r: nat, c: nat)
    requires r < 4 && c < 4
    ensures Coefficients(["123A", "456B", "789C", "*0#D"][r][c])
            == ([27980, 26956, 25701, 24218][r], [19073, 16325, 13085, 9315][c])
  {
  }

  /* The key in this row and column of the keypad of ITU-T Recommendation Q.23 sounds the two frequencies that belong
     to them. */
  lemma KeyPitch(r: nat, c: nat)
    requires r < 4 && c < 4
    ensures var (low, high) := Coefficients(["123A", "456B", "789C", "*0#D"][r][c]);
            Tunes(low, [697, 770, 852, 941][r]) && Tunes(high, [1209, 1336, 1477, 1633][c])
  {
    KeyCoefficients(r, c);
    Tuned697();
    Tuned770();
    Tuned852();
    Tuned941();
    Tuned1209();
    Tuned1336();
    Tuned1477();
    Tuned1633();
    hide Tunes, Coefficients;
  }

  // ---------- Strength ----------

  ghost predicate Between(radius: int, energy: real) {
    (radius as real - 1.0) * (radius as real - 1.0) < energy <= radius as real * radius as real
  }

  lemma RowStrength()
    ensures Between(16205, ToneEnergy(27980, Tone(27980, 31000)))
    ensures Between(17686, ToneEnergy(26956, Tone(26956, 31000)))
    ensures Between(19281, ToneEnergy(25701, Tone(25701, 31000)))
    ensures Between(20924, ToneEnergy(24218, Tone(24218, 31000)))
  {
  }

  lemma ColumnStrength()
    ensures Between(25229, ToneEnergy(19073, Tone(19073, 31000)))
    ensures Between(26894, ToneEnergy(16325, Tone(16325, 31000)))
    ensures Between(28430, ToneEnergy(13085, Tone(13085, 31000)))
    ensures Between(29726, ToneEnergy(9315, Tone(9315, 31000)))
  {
  }

  // What the samples of a sounding key are the means of.
  lemma KeyMeans(key: char, i: nat)
    requires Coefficients(key).0 != 0 && Coefficients(key).1 != 0
    ensures var (low, high) := Coefficients(key);
            KeySample(key, i) == (Iterate(low, Tone(low, 31000), i + 1).y1
                                  + Iterate(high, Tone(high, 31000), i + 1).y1) / 2
  {
    hide Iterate, Coefficients;
  }

  /* The samples of a key are the means of two tones, and how strong these are when they start: the energy of each is
     the square of a number between the one given and the next smaller. */
  lemma KeyStrength(r: nat, c: nat) returns (l: Tone, h: Tone)
    requires r < 4 && c < 4
    ensures var key := ["123A", "456B", "789C", "*0#D"][r][c];
            var (low, high) := Coefficients(key);
            && (forall i: nat :: KeySample(key, i) == (Iterate(low, l, i + 1).y1 + Iterate(high, h, i + 1).y1) / 2)
            && Between([16205, 17686, 19281, 20924][r], ToneEnergy(low, l))
            && Between([25229, 26894, 28430, 29726][c], ToneEnergy(high, h))
            && l.y2 == h.y2 == 31000
  {
    var key := ["123A", "456B", "789C", "*0#D"][r][c];
    var (low, high) := Coefficients(key);
    KeyCoefficients(r, c);
    RowStrength();
    ColumnStrength();
    l, h := Tone(low, 31000), Tone(high, 31000);
    hide Iterate, Between, ToneEnergy, KeySample, Coefficients;
    forall i: nat
      ensures KeySample(key, i) == (Iterate(low, l, i + 1).y1 + Iterate(high, h, i + 1).y1) / 2
    {
      KeyMeans(key, i);
    }
  }

  // The first sample of key 1.
  lemma FirstSample()
    ensures KeySample('1', 0) == 3993
  {
  }

  // ---------- The ideal oscillator ----------

  // Without rounding.
  ghost function IdealY(c: real, t: Tone, n: nat): real {
    if n == 0 then t.y1 as real
    else if n == 1 then 2.0 * c * t.y1 as real - t.y2 as real
    else 2.0 * c * IdealY(c, t, n - 1) - IdealY(c, t, n - 2)
  }

  // How far the rounded tone is from it, and was one sample before.
  ghost function Miss(coeff: int, t: Tone, n: nat): real {
    Iterate(coeff, t, n).y1 as real - IdealY(Fraction(coeff), t, n)
  }

  ghost function MissBefore(coeff: int, t: Tone, n: nat): real {
    if n == 0 then 0.0 else Miss(coeff, t, n - 1)
  }

  // A miss is carried on as a tone is, and each step adds its own rounding.
  lemma MissStep(coeff: int, t: Tone, n: nat) returns (e: real)
    requires 0 < coeff < 32768
    ensures -0.5 <= e <= 0.5
    ensures Miss(coeff, t, n + 1) == 2.0 * Fraction(coeff) * Miss(coeff, t, n) - MissBefore(coeff, t, n) + e
  {
    var c, now := Fraction(coeff), Iterate(coeff, t, n);
    e := RoundingError(coeff, now.y1);
    var y, x := now.y1 as real, IdealY(c, t, n);
    assert Iterate(coeff, t, n + 1).y1 as real == 2.0 * c * y + e - now.y2 as real;
    assert n > 0 ==> now.y2 == Iterate(coeff, t, n - 1).y1;
    hide Iterate, Fraction;
    assert 2.0 * c * (y - x) == 2.0 * c * y - 2.0 * c * x;
  }

  ghost function MissPower(coeff: int, t: Tone, n: nat): real {
    Energy(Fraction(coeff), Miss(coeff, t, n), MissBefore(coeff, t, n))
  }

  lemma NoMiss(coeff: int, t: Tone)
    ensures MissPower(coeff, t, 0) == 0.0
  {
  }

  lemma OneMiss(coeff: int, t: Tone, n: nat, r: real)
    requires 0 < coeff < 32768 && r >= 0.0 && MissPower(coeff, t, n) <= r * r
    ensures MissPower(coeff, t, n + 1) <= (r + 0.5) * (r + 0.5)
  {
    hide Miss, Fraction, Energy;
    var e := MissStep(coeff, t, n);
    StepEnergy(coeff, Miss(coeff, t, n), MissBefore(coeff, t, n), e, Miss(coeff, t, n + 1), r);
  }

  lemma {:induction false} MissEnergy(coeff: int, t: Tone, n: nat)
    requires 0 < coeff < 32768
    ensures MissPower(coeff, t, n) <= Radius(0.0, n) * Radius(0.0, n)
  {
    hide MissPower;
    if n == 0 {
      NoMiss(coeff, t);
    } else {
      MissEnergy(coeff, t, n - 1);
      OneMiss(coeff, t, n - 1, Radius(0.0, n - 1));
    }
  }

  // A miss as seen through the sine of the angle, squared.
  ghost function Seen(c: real, miss: real): real { (1.0 - c * c) * (miss * miss) }

  lemma SeenBelow(c: real, y1: real, y2: real)
    ensures Seen(c, y1) <= Energy(c, y1, y2)
  {
    WeightBelowEnergy(c, y1, y2);
  }

  // From any start, after n samples the rounded tone has missed the ideal one by at most n/2, seen so.
  lemma NearIdeal(coeff: int, t: Tone, n: nat)
    requires 0 < coeff < 32768
    ensures Seen(Fraction(coeff), Miss(coeff, t, n)) <= Radius(0.0, n) * Radius(0.0, n)
    ensures Radius(0.0, n) == n as real / 2.0
  {
    hide Seen, Miss, MissBefore, Fraction, Energy, Radius;
    RadiusValue(0.0, n);
    MissEnergy(coeff, t, n);
    SeenBelow(Fraction(coeff), Miss(coeff, t, n), MissBefore(coeff, t, n));
  }
}
