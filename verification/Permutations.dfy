/** Rearrangements: what two sequences with the same elements have in common. */
module Permutations {
  ghost predicate Distinct<T>(s: seq<T>) {
    forall i, j :: 0 <= i < j < |s| ==> s[i] != s[j]
  }

  lemma {:induction false} OnceIfDistinct<T>(s: seq<T>, x: T)
    requires Distinct(s)
    ensures multiset(s)[x] <= 1
  {
    if s != [] {
      var n := |s| - 1;
      assert s == s[..n] + [s[n]];
      OnceIfDistinct(s[..n], x);
      if s[n] == x {
        assert x !in s[..n];
      }
    }
  }

  lemma TwoPlaces<T>(s: seq<T>, i: nat, j: nat)
    requires i < j < |s| && s[i] == s[j]
    ensures multiset(s)[s[i]] >= 2
  {
    assert s == s[..i] + [s[i]] + s[i + 1..j] + [s[j]] + s[j + 1..];
  }

  lemma RemoveOne<T>(all: seq<T>, d: T) returns (i: nat)
    requires d in all
    ensures i < |all| && all[i] == d
    ensures multiset(all) == multiset(all[..i] + all[i + 1..]) + multiset{d}
  {
    i :| 0 <= i < |all| && all[i] == d;
    assert all == all[..i] + [d] + all[i + 1..];
  }

  lemma Without<T>(s: seq<T>, i: nat)
    requires i < |s|
    ensures multiset(s) == multiset(s[..i] + s[i + 1..]) + multiset{s[i]}
  {
    assert s == s[..i] + [s[i]] + s[i + 1..];
  }

  lemma Cancel<T>(a: multiset<T>, b: multiset<T>, d: T)
    requires a + multiset{d} <= b + multiset{d}
    ensures a <= b
  {
    forall x ensures a[x] <= b[x] {
      assert (a + multiset{d})[x] <= (b + multiset{d})[x];
    }
  }

  lemma TakeEqual<T>(a: seq<T>, b: seq<T>, x: nat, i: nat)
    requires multiset(a) == multiset(b) && x < |a| && i < |b| && a[x] == b[i]
    ensures multiset(a[..x] + a[x + 1..]) == multiset(b[..i] + b[i + 1..])
  {
    var ra, rb := a[..x] + a[x + 1..], b[..i] + b[i + 1..];
    Without(a, x);
    Without(b, i);
    Cancel(multiset(rb), multiset(ra), b[i]);
    Cancel(multiset(ra), multiset(rb), b[i]);
  }

  lemma PermutedPair<T>(a: seq<T>, b: seq<T>, i: nat, j: nat) returns (x: nat, y: nat)
    requires multiset(a) == multiset(b) && i < j < |b|
    ensures x < |a| && y < |a| && x != y && a[x] == b[i] && a[y] == b[j]
  {
    assert b[i] in multiset(b);
    x := RemoveOne(a, b[i]);
    var ra, rb := a[..x] + a[x + 1..], b[..i] + b[i + 1..];
    assert b == b[..i] + [b[i]] + b[i + 1..];
    assert multiset(b) == multiset(rb) + multiset{b[i]};
    Cancel(multiset(rb), multiset(ra), b[i]);
    assert rb[j - 1] == b[j] && b[j] in multiset(rb);
    assert b[j] in multiset(ra);
    y :| 0 <= y < |ra| && ra[y] == b[j];
    if y >= x {
      y := y + 1;
    }
  }

  /** Three places of one sequence hold what three places of a rearrangement hold. */
  lemma PermutedTriple<T>(a: seq<T>, b: seq<T>, i: nat, m: nat, k: nat) returns (x: nat, y: nat, z: nat)
    requires multiset(a) == multiset(b) && i < |b| && m < |b| && k < |b| && i != m && m != k && i != k
    ensures x < |a| && y < |a| && z < |a| && x != y && y != z && x != z && a[x] == b[i] && a[y] == b[m] && a[z] == b[k]
  {
    assert b[i] in multiset(b);
    x :| 0 <= x < |a| && a[x] == b[i];
    TakeEqual(a, b, x, i);
    var ra, rb := a[..x] + a[x + 1..], b[..i] + b[i + 1..];
    var m', k' := if m < i then m else m - 1, if k < i then k else k - 1;
    assert rb[m'] == b[m] && rb[k'] == b[k];
    var y', z';
    if m' < k' {
      y', z' := PermutedPair(ra, rb, m', k');
    } else {
      z', y' := PermutedPair(ra, rb, k', m');
    }
    y, z := if y' < x then y' else y' + 1, if z' < x then z' else z' + 1;
    assert a[y] == ra[y'] && a[z] == ra[z'];
  }

  lemma PermutedDistinct<T>(a: seq<T>, b: seq<T>)
    requires Distinct(a) && multiset(a) == multiset(b)
    ensures Distinct(b)
  {
    forall i, j | 0 <= i < j < |b| ensures b[i] != b[j] {
      var x, y := PermutedPair(a, b, i, j);
      assert x < y ==> a[x] != a[y];
      assert y < x ==> a[y] != a[x];
    }
  }
}
