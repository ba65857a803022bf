/**
 The filters on groups: at least five records, and for computation a small spread of counts.
 */
module Stability {
  import opened Hooks
  import opened Clustering

  const LLONG_MAX := 0x7fff_ffff_ffff_ffff

  predicate Adequate(group: seq<Data>) {
    |group| >= 5
  }

  /** The least and the greatest count, from the values the loop starts with. */
  function MinIns(g: seq<Data>): int {
    if g == [] then LLONG_MAX
    else
      var rest := MinIns(g[..|g| - 1]);
      if Ins(g[|g| - 1]) < rest then Ins(g[|g| - 1]) else rest
  }

  function MaxIns(g: seq<Data>): int {
    if g == [] then 0
    else
      var rest := MaxIns(g[..|g| - 1]);
      if Ins(g[|g| - 1]) > rest then Ins(g[|g| - 1]) else rest
  }

  /** The spread relative to the mean of both ends is below 0.04. Division by zero gives no number below it. */
  predicate Narrow(lo: int, hi: int) {
    lo + hi != 0 && (hi - lo) as real / ((hi + lo) as real / 2.0) < 0.04
  }

  predicate Stable(g: seq<Data>) {
    Narrow(MinIns(g), MaxIns(g))
  }

  /** Among positive counts the two are the least and the greatest that occur. */
  lemma {:induction false} EndsReached(g: seq<Data>) returns (lo: Data, hi: Data)
    requires g != [] && forall d <- g :: 0 < Ins(d) <= LLONG_MAX
    ensures lo in g && MinIns(g) == Ins(lo) && hi in g && MaxIns(g) == Ins(hi)
    ensures forall d <- g :: MinIns(g) <= Ins(d) <= MaxIns(g)
  {
    var n := |g| - 1;
    assert g == g[..n] + [g[n]];
    lo, hi := g[n], g[n];
    if n == 0 {
      assert g[..0] == [] && g[0] in g;
    } else {
      var a, b := EndsReached(g[..n]);
      assert a in g && b in g && g[n] in g;
      if Ins(a) <= Ins(g[n]) {
        lo := a;
      }
      if Ins(g[n]) <= Ins(b) {
        hi := b;
      }
    }
  }

  lemma NarrowIff(lo: int, hi: int)
    requires 0 < lo <= hi
    ensures Narrow(lo, hi) <==> 49 * hi < 51 * lo
  {
    var x, y := (hi - lo) as real, (hi + lo) as real / 2.0;
    DivideLess(x, y, 0.04);
    assert x < 0.04 * y <==> 50.0 * x < (hi + lo) as real;
    assert 50.0 * x == (50 * (hi - lo)) as real;
  }

  lemma DivideLess(x: real, y: real, c: real)
    requires y > 0.0
    ensures x / y < c <==> x < c * y
  {
    var q := x / y;
    assert q * y == x;
    assert c * y - q * y == (c - q) * y;
  }

  /** Counts are stable exactly if no two of them are as far apart as 49 to 51. */
  lemma {:induction false} StableIff(g: seq<Data>)
    requires g != [] && forall d <- g :: |d.papi| > 0 && 0 < d.papi[0] <= 0x7fff_ffff_ffff_ffff
    ensures Stable(g) <==> forall a, b :: a in g && b in g ==> 49 * b.papi[0] < 51 * a.papi[0]
  {
    var a, b := EndsReached(g);
    var lo, hi := MinIns(g), MaxIns(g);
    NarrowIff(lo, hi);
    hide Narrow, MinIns, MaxIns;
    assert 49 * hi < 51 * lo ==> forall c, d :: c in g && d in g ==> 49 * Ins(d) < 51 * Ins(c);
    if forall c, d :: c in g && d in g ==> 49 * d.papi[0] < 51 * c.papi[0] {
      assert 49 * b.papi[0] < 51 * a.papi[0];
    }
  }

  method PathStable(g: seq<Data>) returns (stable: bool)
    ensures stable == Stable(g)
  {
    var lo, hi := LLONG_MAX, 0;
    for i := 0 to |g|
      invariant lo == MinIns(g[..i]) && hi == MaxIns(g[..i])
    {
      assert g[..i + 1][..i] == g[..i];
      if Ins(g[i]) < lo {
        lo := Ins(g[i]);
      }
      if Ins(g[i]) > hi {
        hi := Ins(g[i]);
      }
    }
    assert g[..|g|] == g;
    if hi + lo == 0 {
      return false;
    }
    return (hi - lo) as real / ((hi + lo) as real / 2.0) < 0.04;
  }

  lemma {:induction false} Bounds(g: seq<Data>, x: real, y: real)
    requires forall i :: 0 <= i < |g| ==> !Below(g[i], x) && Below(g[i], y)
    requires x <= LLONG_MAX as real && 0.0 < y
    ensures x <= MinIns(g) as real && (MaxIns(g) as real) < y
    ensures g != [] ==> 0 <= MaxIns(g) && MinIns(g) <= MaxIns(g)
  {
    if g != [] {
      Bounds(g[..|g| - 1], x, y);
    }
  }

  /** The records of a window are within the fraction `alpha` of its element. */
  lemma {:induction false} WindowBounds(s: seq<Data>, alpha: real, k: nat, i: nat)
    requires Ascending(s) && 0.0 <= alpha <= 1.0 && k < |s| && Ins(s[k]) >= 0
    requires Window(s, alpha, k).l <= i < Window(s, alpha, k).r
    ensures !Below(s[i], Low(s[k], alpha)) && Below(s[i], High(s[k], alpha))
  {
    var l := Window(s, alpha, k).l;
    if l == k {
      ScaleUp(1.0 - alpha, 1.0, Ins(s[k]) as real);
    } else {
      assert !Below(s[l], Low(s[k], alpha));
    }
    assert Ins(s[l]) <= Ins(s[i]) by {
      hide Below, Low, High, Window;
    }
  }

  lemma SmallSpread(lo: real, hi: real, v: real)
    requires 0.98 * v <= lo && hi < 1.02 * v && 0.0 < v && 0.0 < hi + lo
    ensures (hi - lo) / ((hi + lo) / 2.0) < 0.04
  {
    var h := (hi + lo) / 2.0;
    assert hi - lo < 0.04 * h;
    assert (hi - lo) / h * h == hi - lo;
    if (hi - lo) / h >= 0.04 {
      ScaleUp(0.04, (hi - lo) / h, h);
    }
  }

  /** The stability test never rejects a group built around a centre with the radius 0.02 the code uses. */
  lemma {:induction false} CenterGroupsAreStable(s: seq<Data>, k: nat)
    requires Ascending(s) && k < |s| && Ins(s[k]) <= LLONG_MAX
    requires Window(s, 0.02, k).l < Window(s, 0.02, k).r
    ensures Stable(s[Window(s, 0.02, k).l..Window(s, 0.02, k).r])
  {
    var w, v := Window(s, 0.02, k), Ins(s[k]) as real;
    if Ins(s[k]) < 0 {
      WindowOfNegative(s, 0.02, k);
      assert false;
    }
    var g := s[w.l..w.r];
    forall i | 0 <= i < |g| ensures !Below(g[i], Low(s[k], 0.02)) && Below(g[i], High(s[k], 0.02)) {
      hide Low, High, Below, Ascending, Window;
      assert g[i] == s[w.l + i];
      WindowBounds(s, 0.02, k, w.l + i);
    }
    assert 0.0 < v by {
      assert !Below(g[0], Low(s[k], 0.02)) && Below(g[0], High(s[k], 0.02));
    }
    hide Window, Ascending, Below;
    Bounds(g, Low(s[k], 0.02), High(s[k], 0.02));
    SmallSpread(MinIns(g) as real, MaxIns(g) as real, v);
  }

  /** Every final centre of a run of the clustering is such a window. */
  lemma {:induction false} EveryCenterGroupIsStable(s: seq<Data>, i: nat)
    requires Ascending(s) && forall j :: 0 <= j < |s| ==> Ins(s[j]) <= LLONG_MAX
    requires var cs := Centers(s, 0.02, |s|); Fit(cs, |s|) && i < |cs| && CenterGroups(s, cs)[i] != []
    ensures Stable(CenterGroups(s, Centers(s, 0.02, |s|))[i])
  {
    hide Window, Stable;
    var cs := Centers(s, 0.02, |s|);
    CentersAreWindows(s, 0.02, |s|);
    var k: nat :| k < |s| && cs[i] == Window(s, 0.02, k);
    CenterGroupsAreStable(s, k);
  }
}
