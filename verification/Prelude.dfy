/** Small types and constants the modules share. */
module Prelude {

  datatype Option<+T> = None | Some(value: T)

  // errno values
  const EPERM := 1
  const ENOENT := 2
  const EAGAIN := 11
  const EINVAL := 22
  const ENOSPC := 28
  const EPIPE := 32
  const ENOSYS := 38
  const ENODATA := 61
  const ECANCELED := 125

  // All but one element.
  function Without<T>(xs: seq<T>, k: nat): (ys: seq<T>)
    requires k < |xs|
    ensures |ys| == |xs| - 1
    ensures forall i :: 0 <= i < |ys| ==> ys[i] == xs[if i < k then i else i + 1]
  {
    xs[..k] + xs[k + 1..]
  }

  // Appending two sequences in turn is appending their concatenation.
  lemma AppendTwice<T>(a: seq<T>, b: seq<T>, c: seq<T>)
    ensures a + b + c == a + (b + c)
  {
  }

  lemma CutInTwo<T>(a: seq<T>, b: seq<T>, n: nat)
    requires n <= |b|
    ensures a + b[..n] + b[n..] == a + b
  {
    assert b == b[..n] + b[n..];
    AppendTwice(a, b[..n], b[n..]);
  }

  lemma TakeTwice<T>(s: seq<T>, n: nat, m: nat)
    requires m <= n <= |s|
    ensures s[..n][..m] == s[..m]
  {
  }

  // The last element of a concatenation, and what is before it.
  lemma ButLast<T>(a: seq<T>, b: seq<T>)
    requires b != []
    ensures var s, n := a + b, |a| + |b| - 1;
            s[..n] == a + b[..|b| - 1] && s[n] == b[|b| - 1] && s != []
  {
  }

  lemma Halves<T>(s: seq<T>, n: nat)
    requires n <= |s|
    ensures s == s[..n] + s[n..]
  {
  }

  lemma PrefixRest<T>(a: seq<T>, b: seq<T>)
    requires a <= b
    ensures b == a + b[|a|..] && b[..|a|] == a
  {
  }

  // Taking an inserted element out again gives the old sequence back.
  lemma SpliceOut<T>(xs: seq<T>, v: T, k: nat)
    requires k <= |xs|
    ensures var ys := xs[..k] + [v] + xs[k..];
            ys[k] == v && ys[..k] + ys[k + 1..] == xs && forall i :: 0 <= i < k ==> ys[i] == xs[i]
  {
    var ys := xs[..k] + [v] + xs[k..];
    assert ys[..k] == xs[..k] && ys[k + 1..] == xs[k..];
  }

  // If every number below m occurs in s, then s has at least m elements.
  lemma {:induction false} Covering(s: seq<int>, m: nat)
    requires forall k: nat :: k < m ==> k in s
    ensures |s| >= m
  {
    if m > 0 {
      var last: nat := m - 1;
      assert last in s;
      var i :| 0 <= i < |s| && s[i] == last;
      var rest := s[..i] + s[i + 1..];
      forall k: nat | k < last ensures k in rest {
        assert k in s;
        var j :| 0 <= j < |s| && s[j] == k;
        assert k == rest[if j < i then j else j - 1];
      }
      Covering(rest, last);
    }
  }

  lemma ThreeParts<T>(a: seq<T>, b: seq<T>, c: seq<T>)
    ensures var s := a + b + c;
            s[..|a|] == a && s[|a|..|a| + |b|] == b && s[|a| + |b|..] == c
  {
  }

  lemma ThreeCuts<T>(s: seq<T>, a: nat, b: nat, n: nat)
    requires a <= b <= n <= |s|
    ensures s[..n] == s[..a] + s[a..b] + s[b..n]
  {
  }
}
