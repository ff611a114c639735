/** Bytes and little-endian numbers, as a chunk of memory holds them. */
module Bytes {

  type Byte = b: int | 0 <= b < 256

  // 256 to the power k.
  function Span(k: nat): (m: int)
    ensures m >= 1
  {
    if k == 0 then 1 else 256 * Span(k - 1)
  }

  // The low k bytes of a number, least significant first.
  function Le(n: int, k: nat): (s: seq<Byte>)
    ensures |s| == k
    decreases k
  {
    if k == 0 then [] else [n % 256] + Le(n / 256, k - 1)
  }

  function FromLe(s: seq<Byte>): (n: nat)
    ensures n < Span(|s|)
  {
    if s == [] then 0 else s[0] + 256 * FromLe(s[1..])
  }

  // The signed reading of k bytes.
  function SignedLe(s: seq<Byte>): int {
    if 2 * FromLe(s) < Span(|s|) then FromLe(s) else FromLe(s) - Span(|s|)
  }

  lemma Multiple(m: int, d: int)
    requires m > 0
    ensures d >= 1 ==> m * d >= m
    ensures d <= -1 ==> m * d <= -m
  {
  }

  lemma RemainderUnique(n: int, m: int, q: int, r: int)
    requires m > 0 && n == m * q + r && 0 <= r < m
    ensures n % m == r
  {
    var d := n / m - q;
    assert m * d == r - n % m by { assert m * (n / m) - m * q == m * d; }
    Multiple(m, d);
  }

  // The low byte of a number, and the rest.
  lemma SplitByte(n: int, m: int)
    requires m >= 1
    ensures n % (256 * m) == n % 256 + 256 * ((n / 256) % m)
  {
    var high := n / 256;
    var q, r := high / m, high % m;
    assert high == m * q + r;
    assert n == 256 * high + n % 256;
    assert n == (256 * m) * q + (256 * r + n % 256) by { assert 256 * (m * q) == (256 * m) * q; }
    RemainderUnique(n, 256 * m, q, 256 * r + n % 256);
  }

  lemma {:induction false} LeRoundTrip(n: int, k: nat)
    ensures FromLe(Le(n, k)) == n % Span(k)
    decreases k
  {
    if k > 0 {
      LeRoundTrip(n / 256, k - 1);
      SplitByte(n, Span(k - 1));
      assert Le(n, k)[1..] == Le(n / 256, k - 1);
    }
  }

  lemma LeExact(n: nat, k: nat)
    requires n < Span(k)
    ensures FromLe(Le(n, k)) == n
  {
    LeRoundTrip(n, k);
    RemainderUnique(n, Span(k), 0, n);
  }

  // A number in the signed range of k bytes reads back as itself.
  lemma SignedRoundTrip(n: int, k: nat)
    requires -Span(k) <= 2 * n < Span(k)
    ensures SignedLe(Le(n, k)) == n
  {
    LeRoundTrip(n, k);
    RemainderUnique(n, Span(k), if n >= 0 then 0 else -1, if n >= 0 then n else n + Span(k));
  }

  lemma ByteOnTop(b: Byte, n: nat)
    ensures (b + 256 * n) % 256 == b && (b + 256 * n) / 256 == n
  {
  }

  lemma {:induction false} FromLeInverse(s: seq<Byte>)
    ensures Le(FromLe(s), |s|) == s
  {
    if s != [] {
      FromLeInverse(s[1..]);
      ByteOnTop(s[0], FromLe(s[1..]));
      assert s == [s[0]] + s[1..];
      hide FromLe, Span;
    }
  }

  lemma SpanValues()
    ensures Span(1) == 0x100 && Span(2) == 0x1_0000 && Span(4) == 0x1_0000_0000 && Span(8) == 0x1_0000_0000_0000_0000
  {
    assert Span(3) == 0x100_0000;
    assert Span(5) == 0x100_0000_0000;
    assert Span(6) == 0x1_0000_0000_0000;
    assert Span(7) == 0x100_0000_0000_0000;
  }
}
