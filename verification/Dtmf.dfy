/** DTMF key tones: the fixed-point oscillator as the C code computes it, in wrapping 32-bit words,
    and what it stores in terms of the rounded integer recurrence. */
module Dtmf {
  import opened Prelude
  import opened Words
  import opened DtmfStability

  const FRAME_SIZE := 1200
  const INITIAL_STATE := 31000

  // ---------- The split multiply ----------

  // A shift to the right of a negative int is taken to be arithmetic, as the supported compilers do.
  function Product(a: Int16, b: Int32): Int32 {
    var temp0 := ToWord16((ToWord16(b) * a + 0x4000) / 0x8000);
    var temp1 := ToWord32(ToInt16(b / 0x1_0000) * a);
    ToInt32(ToWord32(temp1 * 2) + temp0)
  }

  lemma ScaleOrder(x: int, y: int, k: int)
    requires x <= y && k >= 0
    ensures x * k <= y * k
  {
  }

  // The low half's contribution, before it is truncated to 16 bits.
  lemma LowHalf(a: Int16, l: Word16)
    ensures -0x8000_0000 <= l * a <= 0x7fff * 0xffff
    ensures if a >= 0 then l * a >= 0 else l * a <= 0
    ensures var t := (l * a + 0x4000) / 0x8000;
            (l * a + 0x4000 >= 0 ==> 0 <= t < 0x1_0000) && (l * a + 0x4000 < 0 ==> -0x1_0000 <= t < 0)
  {
    ScaleOrder(-0x8000, a, l);
    ScaleOrder(a, 0x7fff, l);
    if a >= 0 {
      ScaleOrder(0, a, l);
    } else {
      ScaleOrder(a, 0, l);
    }
    assert a * l == l * a;
  }

  // The rounded product splits into the doubled high product and the rounded low one.
  lemma SplitRounded(a: Int16, b: Int32)
    ensures Rounded(a, b) == 2 * (b / 0x1_0000 * a) + (ToWord16(b) * a + 0x4000) / 0x8000
  {
    var h, l := b / 0x1_0000, ToWord16(b);
    assert b == h * 0x1_0000 + l;
    assert a * b == (h * a) * 0x1_0000 + l * a;
    assert (l * a + 0x4000 + 0x8000 * (2 * (h * a))) / 0x8000 == (l * a + 0x4000) / 0x8000 + 2 * (h * a);
  }

  lemma HighProduct(a: Int16, h: Int16)
    ensures a >= 0 ==> -0x3fff_8000 <= h * a <= 0x3fff_0001
    ensures a < 0 ==> -0x3fff_8000 <= h * a <= 0x4000_0000
    ensures a < 0 ==> (h * a == 0x4000_0000 <==> a == -0x8000 && h == -0x8000)
  {
    if a >= 0 {
      ScaleOrder(-0x8000, h, a);
      ScaleOrder(h, 0x7fff, a);
    } else {
      var x: int := -(a as int);
      assert h * a == -(h * x);
      ScaleOrder(h, 0x7fff, x);
      if h == -0x8000 {
      } else {
        ScaleOrder(-0x7fff, h, x);
      }
    }
  }

  // The C expression in terms of the two partial products.
  lemma ProductParts(a: Int16, b: Int32)
    ensures Product(a, b) == ToInt32(2 * (b / 0x1_0000 * a) + ToWord16((ToWord16(b) * a + 0x4000) / 0x8000))
  {
    var h := b / 0x1_0000;
    assert -0x8000 <= h < 0x8000;
    assert ToInt16(h) == h;
    DoubledWord(h * a, ToWord16((ToWord16(b) * a + 0x4000) / 0x8000));
  }

  lemma DoubledWord(p: int, q: int)
    ensures ToInt32(ToWord32(ToWord32(p) * 2) + q) == ToInt32(2 * p + q)
  {
    var turns, doubled := p / 0x1_0000_0000, ToWord32(p) * 2;
    WordShift(2 * p, doubled, 2 * turns);
    WordShift(doubled + q, ToWord32(doubled) + q, doubled / 0x1_0000_0000);
    WordShift(2 * p + q, doubled + q, 2 * turns);
  }

  // Words that differ by a multiple of 2^32 are read alike.
  lemma WordShift(x: int, y: int, turns: int)
    requires x == y + 0x1_0000_0000 * turns
    ensures ToWord32(x) == ToWord32(y) && ToInt32(x) == ToInt32(y)
  {
  }

  lemma SignedValue(y: Int32)
    ensures ToInt32(ToWord32(y)) == y
  {
  }

  // Exactly when the split multiply is the rounded product: for every factor the oscillator passes.
  lemma ProductExact(a: Int16, b: Int32)
    ensures Product(a, b) == Rounded(a, b)
            <==> ToWord16(b) * a + 0x4000 >= 0 && !(a == -0x8000 && b == -0x8000_0000)
    ensures a >= 0 ==> Product(a, b) == Rounded(a, b)
  {
    var h: Int16, l := b / 0x1_0000, ToWord16(b);
    SplitRounded(a, b);
    LowHalf(a, l);
    HighProduct(a, h);
    ProductParts(a, b);
    var high, low := h * a, (l * a + 0x4000) / 0x8000;
    SumOfHalves(high, low);
    ExactCondition(a, h, l, high, low, l * a);
  }

  // The halves add up without wrapping unless both factors are the least of their type.
  lemma ExactCondition(a: Int16, h: Int16, l: Word16, high: int, low: int, p: int)
    requires a >= 0 ==> 0 <= p <= 0x7fff * 0xffff && high <= 0x3fff_0001
    requires a < 0 ==> p <= 0 && high <= 0x4000_0000 && (high == 0x4000_0000 <==> a == -0x8000 && h == -0x8000)
    requires low == (p + 0x4000) / 0x8000
    requires a == -0x8000 ==> p == -0x8000 * l
    ensures low >= 0 && 2 * high + low < 0x8000_0000
            <==> p + 0x4000 >= 0 && !(a == -0x8000 && h == -0x8000 && l == 0)
  {
  }

  lemma SumOfHalves(high: int, low: int)
    requires -0x4000_0000 < high <= 0x4000_0000 && -0x1_0000 <= low < 0x1_0000
    ensures ToInt32(2 * high + ToWord16(low)) == 2 * high + low
            <==> low >= 0 && 2 * high + low < 0x8000_0000
  {
  }

  // ---------- The oscillator on words ----------

  datatype WordTone = WordTone(y1: Word32, y2: Word32)

  function WordsOf(t: Tone): WordTone { WordTone(ToWord32(t.y1), ToWord32(t.y2)) }

  function AdvanceWord(coeff: Int16, w: WordTone): WordTone {
    WordTone(ToWord32(Product(coeff, ToInt32(ToWord32(2 * w.y1))) - w.y2), w.y1)
  }

  function IterateWord(coeff: Int16, w: WordTone, n: nat): WordTone {
    if n == 0 then w else AdvanceWord(coeff, IterateWord(coeff, w, n - 1))
  }

  // The sample stored for two new tone values; the shift is on an unsigned word.
  function Mix(subject: int, l: Word32, h: Word32): Int16 {
    var sum := ToWord32(l + h);
    ToInt16(if subject != 0 then sum / 2 else sum)
  }

  // Sample i of the words that start at l and h.
  function MixAt(subject: int, low: Int16, high: Int16, l: WordTone, h: WordTone, i: nat): Int16 {
    Mix(subject, IterateWord(low, l, i + 1).y1, IterateWord(high, h, i + 1).y1)
  }

  lemma DoubledState(y: int)
    requires -0x4000_0000 <= y < 0x4000_0000
    ensures ToInt32(ToWord32(2 * ToWord32(y))) == 2 * y
  {
    WordShift(2 * y, 2 * ToWord32(y), 2 * (y / 0x1_0000_0000));
    SignedValue(2 * y);
  }

  lemma Difference(p: int, y: int)
    ensures ToWord32(p - ToWord32(y)) == ToWord32(p - y)
  {
    WordShift(p - y, p - ToWord32(y), -(y / 0x1_0000_0000));
  }

  // While a doubled state fits in 32 bits, a wrapping step is a step of the integer recurrence.
  lemma AdvanceRefines(coeff: Int16, t: Tone)
    requires 0 <= coeff && -0x4000_0000 <= t.y1 < 0x4000_0000
    ensures AdvanceWord(coeff, WordsOf(t)) == WordsOf(Advance(coeff, t))
  {
    DoubledState(t.y1);
    ProductExact(coeff, 2 * t.y1);
    Difference(Rounded(coeff, 2 * t.y1), t.y2);
  }

  lemma {:induction false} IterateRefines(coeff: Int16, t: Tone, n: nat)
    requires 0 <= coeff
    requires forall k: nat | k < n :: -0x4000_0000 <= Iterate(coeff, t, k).y1 < 0x4000_0000
    ensures IterateWord(coeff, WordsOf(t), n) == WordsOf(Iterate(coeff, t, n))
  {
    hide AdvanceWord, Advance;
    if n > 0 {
      IterateRefines(coeff, t, n - 1);
      AdvanceRefines(coeff, Iterate(coeff, t, n - 1));
    }
  }

  // Stability of the code itself: from any start, as long as the radius stays clear of 2^30,
  // the wrapping oscillator computes the integer recurrence and its values keep the amplitude bound.
  lemma WrappingIsStable(coeff: Int16, t: Tone, r: real, n: nat)
    requires 0 < coeff && r >= 0.0
    requires ToneEnergy(coeff, t) <= r * r
    requires Radius(r, n) * Radius(r, n) < Weighed(coeff, 0x4000_0000)
    ensures IterateWord(coeff, WordsOf(t), n) == WordsOf(Iterate(coeff, t, n))
    ensures Weighed(coeff, ToInt32(IterateWord(coeff, WordsOf(t), n).y1)) <= Radius(r, n) * Radius(r, n)
  {
    forall k: nat | k <= n ensures -0x4000_0000 < Iterate(coeff, t, k).y1 < 0x4000_0000 {
      WithinLimit(coeff, t, r, n, 0x4000_0000, k);
    }
    IterateRefines(coeff, t, n);
    AmplitudeBound(coeff, t, r, n);
    SignedValue(Iterate(coeff, t, n).y1);
  }

  lemma HalfWord(s: int)
    requires -0x1_0000 <= s < 0xffff
    ensures ToInt16(ToWord32(s) / 2) == s / 2
  {
  }

  // With both tones in 16-bit range the unsigned shift stores the floor of their mean.
  lemma MixIsMean(subject: int, y: Int16, z: Int16)
    requires subject != 0
    ensures Mix(subject, ToWord32(y), ToWord32(z)) == (y + z) / 2
  {
    var s: int := y + z;
    WordShift(s, ToWord32(y) + ToWord32(z), y / 0x1_0000_0000 + z / 0x1_0000_0000);
    HalfWord(s);
  }

  // The 16-bit counter of the loop below reaches the count exactly if that has 16 bits; else the loop never ends.
  lemma LoopEndsExactly(count: Word32)
    ensures (exists n: nat :: ToWord16(n) >= count) <==> count < 0x1_0000
  {
    if count < 0x1_0000 {
      assert ToWord16(count) >= count;
    }
  }

  // Fills the frame that starts at `off`; the new states are returned instead of written back.
  method Oscillator(low: Int16, high: Int16, buffer: array<Int16>, off: nat, count: Word16,
                    low1: Int32, high1: Int32, low2: Int32, high2: Int32)
    returns (lowAfter: WordTone, highAfter: WordTone)
    requires off + count <= buffer.Length
    modifies buffer
    ensures lowAfter == IterateWord(low, WordsOf(Tone(low1, low2)), count)
    ensures highAfter == IterateWord(high, WordsOf(Tone(high1, high2)), count)
    ensures forall j :: off <= j < off + count ==>
              buffer[j] == MixAt(low * high, low, high, WordsOf(Tone(low1, low2)), WordsOf(Tone(high1, high2)), j - off)
    ensures forall j :: 0 <= j < buffer.Length && !(off <= j < off + count) ==> buffer[j] == old(buffer[j])
  {
    hide Product, ToWord32, ToInt32, ToInt16;
    ghost var l, h := WordsOf(Tone(low1, low2)), WordsOf(Tone(high1, high2));
    var temp10: Word32, temp20: Word32 := ToWord32(low1), ToWord32(low2);
    var temp11: Word32, temp21: Word32 := ToWord32(high1), ToWord32(high2);
    var subject := low * high;
    var ii: Word16 := 0;
    while ii < count
      invariant ii <= count
      invariant WordTone(temp10, temp20) == IterateWord(low, l, ii)
      invariant WordTone(temp11, temp21) == IterateWord(high, h, ii)
      invariant forall j :: off <= j < off + ii ==> buffer[j] == MixAt(subject, low, high, l, h, j - off)
      invariant forall j :: 0 <= j < buffer.Length && !(off <= j < off + ii) ==> buffer[j] == old(buffer[j])
    {
      var temp0: Word32 := ToWord32(Product(low, ToInt32(ToWord32(2 * temp10))) - temp20);
      var temp1: Word32 := ToWord32(Product(high, ToInt32(ToWord32(2 * temp11))) - temp21);
      temp20, temp21 := temp10, temp11;
      temp10, temp11 := temp0, temp1;
      temp0 := ToWord32(temp0 + temp1);
      if subject != 0 {
        temp0 := temp0 / 2;
      }
      buffer[off + ii] := ToInt16(temp0);
      ii := ii + 1;
    }
    lowAfter, highAfter := WordTone(temp10, temp20), WordTone(temp11, temp21);
  }

  // ---------- The keypad ----------

  const ROWS: seq<Int16> := [27980, 26956, 25701, 24218]     // 697, 770, 852, 941 Hz
  const COLUMNS: seq<Int16> := [19073, 16325, 13085, 9315]   // 1209, 1336, 1477, 1633 Hz

  // Rows and columns of the keypad of ITU-T Recommendation Q.23.
  const KEYPAD := ["123A", "456B", "789C", "*0#D"]

  function Coefficients(key: char): (Int16, Int16) {
    if key == '0' then (ROWS[3], COLUMNS[1])
    else if key == '1' then (ROWS[0], COLUMNS[0])
    else if key == '2' then (ROWS[0], COLUMNS[1])
    else if key == '3' then (ROWS[0], COLUMNS[2])
    else if key == '4' then (ROWS[1], COLUMNS[0])
    else if key == '5' then (ROWS[1], COLUMNS[1])
    else if key == '6' then (ROWS[1], COLUMNS[2])
    else if key == '7' then (ROWS[2], COLUMNS[0])
    else if key == '8' then (ROWS[2], COLUMNS[1])
    else if key == '9' then (ROWS[2], COLUMNS[2])
    else if key == '*' then (ROWS[3], COLUMNS[0])
    else if key == '#' then (ROWS[3], COLUMNS[2])
    else if key == 'A' then (ROWS[0], COLUMNS[3])
    else if key == 'B' then (ROWS[1], COLUMNS[3])
    else if key == 'C' then (ROWS[2], COLUMNS[3])
    else if key == 'D' then (ROWS[3], COLUMNS[3])
    else (0, 0)
  }

  // A tone starts from its own coefficient and the fixed initial state; silence starts from zero.
  function Start(coeff: Int16): Tone {
    if coeff == 0 then Tone(0, 0) else Tone(coeff, INITIAL_STATE)
  }

  predicate IsTone(coeff: int) { coeff in ROWS || coeff in COLUMNS }

  // Every key sounds the tones of its row and column, and nothing else makes a sound.
  lemma KeypadLayout(key: char)
    ensures (exists r, c :: 0 <= r < 4 && 0 <= c < 4 && KEYPAD[r][c] == key
                            && Coefficients(key) == (ROWS[r], COLUMNS[c]))
            <==> Coefficients(key) != (0, 0)
    ensures Coefficients(key) != (0, 0) <==> exists r, c :: 0 <= r < 4 && 0 <= c < 4 && KEYPAD[r][c] == key
    ensures Coefficients(key) != (0, 0) ==> IsTone(Coefficients(key).0) && IsTone(Coefficients(key).1)
  {
    if key in "123A" {
      var c :| 0 <= c < 4 && "123A"[c] == key;
      assert KEYPAD[0][c] == key && Coefficients(key) == (ROWS[0], COLUMNS[c]);
    } else if key in "456B" {
      var c :| 0 <= c < 4 && "456B"[c] == key;
      assert KEYPAD[1][c] == key && Coefficients(key) == (ROWS[1], COLUMNS[c]);
    } else if key in "789C" {
      var c :| 0 <= c < 4 && "789C"[c] == key;
      assert KEYPAD[2][c] == key && Coefficients(key) == (ROWS[2], COLUMNS[c]);
    } else if key in "*0#D" {
      var c :| 0 <= c < 4 && "*0#D"[c] == key;
      assert KEYPAD[3][c] == key && Coefficients(key) == (ROWS[3], COLUMNS[c]);
    } else {
      forall r, c | 0 <= r < 4 && 0 <= c < 4 ensures KEYPAD[r][c] != key {
        assert KEYPAD[r][c] in KEYPAD[r];
      }
    }
  }

  // An integer radius for the start of a tone, small enough for a whole frame.
  function StartRadius(coeff: int): int {
    if coeff == 27980 then 16205
    else if coeff == 26956 then 17686
    else if coeff == 25701 then 19281
    else if coeff == 24218 then 20924
    else if coeff == 19073 then 25229
    else if coeff == 16325 then 26894
    else if coeff == 13085 then 28430
    else 29726
  }

  lemma StartEnergy(coeff: int)
    requires IsTone(coeff)
    ensures var r := StartRadius(coeff) as real;
            0 < coeff < 32768 && r > 0.0
            && ToneEnergy(coeff, Tone(coeff, INITIAL_STATE)) <= r * r
            && (r + 600.0) * (r + 600.0) < Weighed(coeff, 32768)
  {
  }

  // Every tone of every key stays below 2^15 in magnitude for the whole frame.
  lemma ToneInRange(coeff: int, n: nat)
    requires IsTone(coeff) && n <= FRAME_SIZE
    ensures -32768 < Iterate(coeff, Tone(coeff, INITIAL_STATE), n).y1 < 32768
  {
    StartEnergy(coeff);
    RadiusValue(StartRadius(coeff) as real, FRAME_SIZE);
    WithinLimit(coeff, Tone(coeff, INITIAL_STATE), StartRadius(coeff) as real, FRAME_SIZE, 32768, n);
  }

  lemma SilentStep()
    ensures AdvanceWord(0, WordTone(0, 0)) == WordTone(0, 0)
    ensures WordsOf(Tone(0, 0)) == WordTone(0, 0) && Mix(0, 0, 0) == 0
  {
  }

  lemma {:induction false} SilenceStays(n: nat)
    ensures IterateWord(0, WordTone(0, 0), n) == WordTone(0, 0)
  {
    hide AdvanceWord;
    if n > 0 {
      SilenceStays(n - 1);
      SilentStep();
    }
  }

  // Sample i of a key, without words: the mean of the two integer tones, or silence.
  function KeySample(key: char, i: nat): int {
    var (low, high) := Coefficients(key);
    if low == 0 then 0
    else (Iterate(low, Start(low), i + 1).y1 + Iterate(high, Start(high), i + 1).y1) / 2
  }

  // The words of a key's oscillator carry the integer tones, so the stored sample is their mean.
  lemma KeySampleStored(key: char, i: nat)
    requires i < FRAME_SIZE
    ensures var (low, high) := Coefficients(key);
            MixAt(low * high, low, high, WordsOf(Start(low)), WordsOf(Start(high)), i) == KeySample(key, i)
    ensures -32768 <= KeySample(key, i) < 32768
  {
    hide AdvanceWord, Mix, ToWord32, Rounded;
    var (low, high) := Coefficients(key);
    KeypadLayout(key);
    if low == 0 {
      SilenceStays(i + 1);
      SilentStep();
    } else {
      forall k: nat | k <= i + 1
        ensures -32768 < Iterate(low, Start(low), k).y1 < 32768
        ensures -32768 < Iterate(high, Start(high), k).y1 < 32768
      {
        ToneInRange(low, k);
        ToneInRange(high, k);
      }
      IterateRefines(low, Start(low), i + 1);
      IterateRefines(high, Start(high), i + 1);
      MixIsMean(low * high, Iterate(low, Start(low), i + 1).y1, Iterate(high, Start(high), i + 1).y1);
    }
  }

  method Generating(key: char, buffer: array<Int16>, off: nat)
    requires off + FRAME_SIZE <= buffer.Length
    modifies buffer
    ensures forall j :: off <= j < off + FRAME_SIZE ==> buffer[j] == KeySample(key, j - off)
    ensures forall j :: 0 <= j < buffer.Length && !(off <= j < off + FRAME_SIZE) ==> buffer[j] == old(buffer[j])
  {
    hide KeySample, MixAt, AdvanceWord;
    var (low, high) := Coefficients(key);
    var l, h := Start(low), Start(high);
    var _, _ := Oscillator(low, high, buffer, off, FRAME_SIZE, l.y1, h.y1, l.y2, h.y2);
    forall j | off <= j < off + FRAME_SIZE ensures buffer[j] == KeySample(key, j - off) {
      KeySampleStored(key, j - off);
    }
  }

  // ---------- The public functions ----------

  // A C string is given by its characters before the terminator, a null pointer by None.
  method Generate(numbers: Option<string>, buffer: array?<Int16>) returns (ret: int)
    requires numbers.Some? ==> '\0' !in numbers.value && FRAME_SIZE * |numbers.value| < 0x8000_0000
    requires numbers.Some? && buffer != null ==> FRAME_SIZE * |numbers.value| <= buffer.Length
    modifies if buffer == null then {} else {buffer}
    ensures ret == (if numbers.None? || buffer == null || numbers.value == "" then -EINVAL else 0)
    ensures ret == 0 ==>
              forall j :: 0 <= j < FRAME_SIZE * |numbers.value| ==>
                buffer[j] == KeySample(numbers.value[j / FRAME_SIZE], j % FRAME_SIZE)
    ensures ret == 0 ==>
              forall j :: FRAME_SIZE * |numbers.value| <= j < buffer.Length ==> buffer[j] == old(buffer[j])
    ensures ret < 0 && buffer != null ==> buffer[..] == old(buffer[..])
  {
    hide KeySample;
    if numbers.None? || buffer == null || numbers.value == "" {
      return -EINVAL;
    }
    var keys := numbers.value;
    var count := |keys|;
    for frame := 0 to count
      invariant forall j :: 0 <= j < FRAME_SIZE * frame ==>
                  buffer[j] == KeySample(keys[j / FRAME_SIZE], j % FRAME_SIZE)
      invariant forall j :: FRAME_SIZE * frame <= j < buffer.Length ==> buffer[j] == old(buffer[j])
    {
      Generating(keys[frame], buffer, frame * FRAME_SIZE);
    }
    ret := 0;
  }

  function BufferSize(numbers: Option<string>): Int32 {
    if numbers.None? || numbers.value == "" then -EINVAL
    else ToInt32(FRAME_SIZE * 2 * |numbers.value|)
  }

  // The size in bytes is what Generate fills, exactly while an int can hold it.
  lemma BufferSizeFits(numbers: string)
    requires numbers != ""
    ensures BufferSize(Some(numbers)) == 2 * (FRAME_SIZE * |numbers|) == 2400 * |numbers|
            <==> 2400 * |numbers| < 0x8000_0000
  {
  }
}
