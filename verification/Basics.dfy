/** What several components use: optional values, machine widths, bytes, white space, parts of sequences. */
module Basics {
  datatype Option<+T> = None | Some(value: T)

  const TWO31 := 0x8000_0000
  const TWO32 := 0x1_0000_0000
  const TWO64 := 0x1_0000_0000_0000_0000

  type Byte = x: int | 0 <= x < 256

  /** Unsigned 64-bit arithmetic. */
  function U64(x: int): nat {
    x % TWO64
  }

  /** The same 64 bits read as a signed number. */
  function S64(x: nat): int {
    if x < TWO64 / 2 then x else x - TWO64
  }

  predicate IsSpace(c: char) {
    c == ' ' || ('\t' <= c <= '\r')
  }

  /** `t` stands at position `p` of `s`. */
  ghost predicate At<T>(s: seq<T>, p: nat, t: seq<T>) {
    p + |t| <= |s| && s[p..p + |t|] == t
  }

  lemma AtSplit<T>(s: seq<T>, p: nat, a: seq<T>, b: seq<T>)
    ensures At(s, p, a + b) <==> At(s, p, a) && At(s, p + |a|, b)
  {
    if At(s, p, a + b) {
      assert s[p..p + |a|] == s[p..p + |a + b|][..|a|];
      assert s[p + |a|..p + |a| + |b|] == s[p..p + |a + b|][|a|..];
    }
    if At(s, p, a) && At(s, p + |a|, b) {
      assert s[p..p + |a + b|] == s[p..p + |a|] + s[p + |a|..p + |a| + |b|];
    }
  }

  /** Sequences that agree from some place on agree from any later place on. */
  lemma SameTail<T>(a: seq<T>, b: seq<T>, m: nat, n: nat)
    requires m <= n <= |a| && m <= |b| && b[m..] == a[m..]
    ensures n <= |b| && b[n..] == a[n..]
  {
    assert |a[m..]| == |b[m..]|;
    assert a[n..] == a[m..][n - m..] && b[n..] == b[m..][n - m..];
  }

  /** Quotient and remainder are unique. */
  lemma QuotientIs(x: int, q: int, r: int, n: int)
    requires 0 <= r < n && x == q * n + r
    ensures x / n == q && x % n == r
  {
    var d, r' := x / n - q, x % n;
    assert d * n == r - r' by {
      assert x == x / n * n + r';
      assert d * n == x / n * n - q * n;
    }
    if d >= 1 {
      Larger(d, n);
    } else if d <= -1 {
      Larger(-d, n);
    }
  }

  lemma Larger(d: int, n: int)
    requires d >= 1 && n >= 0
    ensures d * n >= n
  {
    assert d * n == (d - 1) * n + n;
  }
}
