/**
 Which records of an edge or vertex are measured, and on which edges one of them is measured twice.

 A group is measured when it passes its filter. The groups of computation share records only when a negative
 count has others near it, and a record they share is measured twice only if two of the groups that hold it pass.
 */
module MeasuredOnce {
  import opened Hooks
  import opened Clustering
  import opened Stability
  import opened Paths
  import opened Permutations

  /** The records a path's intervals measure: all, or all but the last window. */
  function Used(path: seq<Data>, smooth: bool): seq<Data> {
    path[..Emitted(path, smooth)]
  }

  /** Computation groups must be adequate and stable, communication groups adequate. */
  predicate Passes(group: seq<Data>, comm: bool) {
    Adequate(group) && (comm || Stable(group))
  }

  function CountPassing(groups: seq<seq<Data>>, comm: bool): nat {
    if groups == [] then 0
    else CountPassing(groups[..|groups| - 1], comm) + if Passes(groups[|groups| - 1], comm) then 1 else 0
  }

  /** The records that are measured: those used of each group that passes. */
  function UsedOf(groups: seq<seq<Data>>, comm: bool): seq<Data> {
    if groups == [] then []
    else
      var g := groups[|groups| - 1];
      UsedOf(groups[..|groups| - 1], comm) + if Passes(g, comm) then Used(g, comm) else []
  }

  // ---------- Groups that share records

  ghost predicate Share<T(!new)>(a: seq<T>, b: seq<T>) {
    exists x :: x in a && x in b
  }

  /** No two computation groups that pass have a record in common. */
  ghost predicate PassingApart(groups: seq<seq<Data>>) {
    forall i, j :: 0 <= i < j < |groups| && Passes(groups[i], false) && Passes(groups[j], false) ==>
      !Share(groups[i], groups[j])
  }

  lemma InBoth<T>(a: seq<T>, b: seq<T>, x: T)
    requires x in a && x in b
    ensures !Distinct(a + b)
  {
    var i :| 0 <= i < |a| && a[i] == x;
    var j :| 0 <= j < |b| && b[j] == x;
    assert (a + b)[i] == (a + b)[|a| + j];
  }

  lemma DistinctJoin<T(!new)>(a: seq<T>, b: seq<T>)
    ensures Distinct(a + b) <==> Distinct(a) && Distinct(b) && !Share(a, b)
  {
    var c := a + b;
    if Distinct(c) {
      forall i, j | 0 <= i < j < |a| ensures a[i] != a[j] {
        assert c[i] == a[i] && c[j] == a[j];
      }
      forall i, j | 0 <= i < j < |b| ensures b[i] != b[j] {
        assert c[|a| + i] == b[i] && c[|a| + j] == b[j];
      }
      forall x | x in a ensures x !in b {
        if x in b {
          InBoth(a, b, x);
          assert false;
        }
      }
    }
    if Distinct(a) && Distinct(b) && !Share(a, b) {
      forall i, j | 0 <= i < j < |c| ensures c[i] != c[j] {
        if i < |a| <= j {
          assert c[i] in a && c[j] in b;
        }
      }
    }
  }

  /** A record is measured if it is in a group that passes. */
  lemma {:induction false} InUsed(groups: seq<seq<Data>>, x: Data)
    ensures x in UsedOf(groups, false) <==> exists i :: 0 <= i < |groups| && Passes(groups[i], false) && x in groups[i]
  {
    hide Passes;
    if groups != [] {
      var init, g := groups[..|groups| - 1], groups[|groups| - 1];
      InUsed(init, x);
      assert Used(g, false) == g;
      if i :| 0 <= i < |groups| && Passes(groups[i], false) && x in groups[i] && i < |init| {
        assert init[i] == groups[i];
      }
      if i :| 0 <= i < |init| && Passes(init[i], false) && x in init[i] {
        assert init[i] == groups[i];
      }
    }
  }

  /** What is measured repeats no record exactly if the groups that pass share none. */
  lemma {:induction false} UsedDistinct(groups: seq<seq<Data>>)
    requires forall g <- groups :: Distinct(g)
    ensures Distinct(UsedOf(groups, false)) <==> PassingApart(groups)
  {
    hide Passes, Distinct, Share;
    if groups == [] {
      NothingDistinct<Data>();
    } else {
      var n := |groups| - 1;
      var init, g := groups[..n], groups[n];
      UsedDistinct(init);
      ApartLast(groups);
      assert Used(g, false) == g;
      if Passes(g, false) {
        DistinctJoin(UsedOf(init, false), g);
        SharesWithUsed(init, g);
      } else {
        assert UsedOf(init, false) + [] == UsedOf(init, false);
      }
    }
  }

  lemma NothingDistinct<T>()
    ensures Distinct<T>([])
  {
  }

  lemma ApartLast(groups: seq<seq<Data>>)
    requires groups != []
    ensures var n := |groups| - 1;
            PassingApart(groups) <==> PassingApart(groups[..n]) && (Passes(groups[n], false) ==>
              forall i :: 0 <= i < n && Passes(groups[i], false) ==> !Share(groups[i], groups[n]))
  {
    hide Passes, Share;
    var n := |groups| - 1;
    assert forall i :: 0 <= i < n ==> groups[..n][i] == groups[i];
  }

  lemma SharesWithUsed(init: seq<seq<Data>>, g: seq<Data>)
    ensures Share(UsedOf(init, false), g) <==>
            exists i :: 0 <= i < |init| && Passes(init[i], false) && Share(init[i], g)
  {
    hide Passes, UsedOf;
    if Share(UsedOf(init, false), g) {
      var x :| x in UsedOf(init, false) && x in g;
      InUsed(init, x);
      var i :| 0 <= i < |init| && Passes(init[i], false) && x in init[i];
      assert Share(init[i], g);
    }
    if i :| 0 <= i < |init| && Passes(init[i], false) && Share(init[i], g) {
      var x :| x in init[i] && x in g;
      InUsed(init, x);
    }
  }

  // ---------- The groups as stretches of the sorted records

  lemma {:induction false} SliceDistinct(s: seq<Data>, l: nat, r: nat)
    requires Distinct(s) && l <= |s| && r <= |s|
    ensures Distinct(Slice(s, l, r))
  {
    if l <= r {
      forall i, j | 0 <= i < j < r - l ensures s[l..r][i] != s[l..r][j] {
        assert s[l + i] != s[l + j];
      }
    }
  }

  /** Two stretches have a place in common. */
  predicate Meet(a: int, b: int, c: int, d: int) {
    a < b && c < d && a < d && c < b
  }

  lemma MeetAt(p: int, a: int, b: int, c: int, d: int)
    requires a <= p < b && c <= p < d
    ensures Meet(a, b, c, d)
  {
  }

  lemma PlaceOf(s: seq<Data>, l: nat, r: nat, e: Data) returns (p: nat)
    requires l <= |s| && r <= |s| && e in Slice(s, l, r)
    ensures l <= p < r && s[p] == e
  {
    var i :| 0 <= i < r - l && s[l..r][i] == e;
    p := l + i;
  }

  /** Stretches of distinct records share one exactly if they meet. */
  lemma SlicesShare(s: seq<Data>, a: nat, b: nat, c: nat, d: nat)
    requires Distinct(s) && a <= |s| && b <= |s| && c <= |s| && d <= |s|
    ensures Share(Slice(s, a, b), Slice(s, c, d)) <==> Meet(a, b, c, d)
  {
    var x, y := Slice(s, a, b), Slice(s, c, d);
    if Meet(a, b, c, d) {
      var p := if a < c then c else a;
      assert x[p - a] == s[p] && y[p - c] == s[p];
      assert s[p] in x && s[p] in y;
    }
    if Share(x, y) {
      var e :| e in x && e in y;
      hide Meet;
      var i := PlaceOf(s, a, b, e);
      var j := PlaceOf(s, c, d, e);
      assert i == j;
      MeetAt(i, a, b, c, d);
    }
  }

  /** Both ends of the centres climb, and each lies behind all before it. */
  ghost predicate Climbs(cs: seq<Center>) {
    forall i, j :: 0 <= i < j < |cs| ==> cs[i].l < cs[j].l && cs[i].r < cs[j].l && cs[i].r <= cs[j].r
  }

  /** Two gaps that pass meet when the later begins before the earlier ends. */
  ghost predicate NoneMeet(s: seq<Data>, cs: seq<Center>)
    requires Fit(cs, |s|)
  {
    forall j, k :: 0 <= j < k < |cs| && Passes(GapGroups(s, cs)[j], false) && Passes(GapGroups(s, cs)[k], false) ==>
      cs[j].l <= cs[k - 1].r
  }

  /** The stretch of each group: the centres' come first, then the gaps'. */
  function From(cs: seq<Center>, i: nat): int
    requires i < 2 * |cs|
  {
    if i < |cs| then cs[i].l else if i == |cs| then 0 else cs[i - |cs| - 1].r
  }

  function To(cs: seq<Center>, i: nat): int
    requires i < 2 * |cs|
  {
    if i < |cs| then cs[i].r else cs[i - |cs|].l
  }

  function AllGroups(s: seq<Data>, cs: seq<Center>): seq<seq<Data>>
    requires Fit(cs, |s|)
  {
    CenterGroups(s, cs) + GapGroups(s, cs)
  }

  lemma GroupIs(s: seq<Data>, cs: seq<Center>, i: nat)
    requires Fit(cs, |s|) && i < 2 * |cs|
    ensures |AllGroups(s, cs)| == 2 * |cs|
    ensures 0 <= From(cs, i) <= |s| && 0 <= To(cs, i) <= |s|
    ensures AllGroups(s, cs)[i] == Slice(s, From(cs, i), To(cs, i))
  {
    hide Slice;
  }

  /** Only gaps share places, and only when a later one begins before an earlier one ends. */
  lemma StretchesMeet(cs: seq<Center>, n: nat, i: nat, j: nat)
    requires Fit(cs, n) && Climbs(cs) && i < j < 2 * |cs|
    ensures var a, b, c, d := From(cs, i), To(cs, i), From(cs, j), To(cs, j);
            Meet(a, b, c, d) <==> |cs| <= i && cs[j - |cs| - 1].r < cs[i - |cs|].l
  {
    var a, b, c, d := From(cs, i), To(cs, i), From(cs, j), To(cs, j);
    if |cs| <= i {
      var x, y := i - |cs|, j - |cs|;
      assert cs[x].l < cs[y].l && c == cs[y - 1].r && b == cs[x].l && d == cs[y].l;
      assert a <= c by {
        if x > 0 {
          assert cs[x - 1].r <= cs[y - 1].r;
        }
      }
    } else if j < |cs| {
      assert b < c;
    } else {
      var y := j - |cs|;
      if y > i {
        assert cs[i].r <= cs[y - 1].r;
      } else {
        assert cs[y].l <= cs[i].l;
      }
    }
  }

  lemma GroupsShare(s: seq<Data>, cs: seq<Center>, i: nat, j: nat)
    requires Fit(cs, |s|) && Climbs(cs) && Distinct(s) && i < j < 2 * |cs| == |AllGroups(s, cs)|
    ensures Share(AllGroups(s, cs)[i], AllGroups(s, cs)[j]) <==> |cs| <= i && cs[j - |cs| - 1].r < cs[i - |cs|].l
  {
    hide Fit, Climbs, Distinct, Share, Slice, From, To, AllGroups;
    GroupIs(s, cs, i);
    GroupIs(s, cs, j);
    SlicesShare(s, From(cs, i), To(cs, i), From(cs, j), To(cs, j));
    StretchesMeet(cs, |s|, i, j);
  }

  lemma {:induction false} ApartIffNoneMeet(s: seq<Data>, cs: seq<Center>)
    requires Fit(cs, |s|) && Climbs(cs) && Distinct(s)
    ensures PassingApart(AllGroups(s, cs)) <==> NoneMeet(s, cs)
  {
    hide Fit, Climbs, Passes, Distinct, Share, AllGroups, GapGroups;
    GroupsLength(s, cs);
    var gs, n := AllGroups(s, cs), |cs|;
    if PassingApart(gs) {
      forall j, k | 0 <= j < k < n && Passes(GapGroups(s, cs)[j], false) && Passes(GapGroups(s, cs)[k], false)
        ensures cs[j].l <= cs[k - 1].r
      {
        GroupsShare(s, cs, n + j, n + k);
        assert !Share(gs[n + j], gs[n + k]);
      }
    }
    if NoneMeet(s, cs) {
      forall i, j | 0 <= i < j < |gs| && Passes(gs[i], false) && Passes(gs[j], false) ensures !Share(gs[i], gs[j]) {
        GroupsShare(s, cs, i, j);
        if n <= i {
          assert gs[n + (i - n)] == GapGroups(s, cs)[i - n] && gs[n + (j - n)] == GapGroups(s, cs)[j - n];
        }
      }
    }
  }

  /** No record is measured twice exactly if no two gaps that pass meet. */
  lemma {:induction false} OnceIffNoneMeet(s: seq<Data>, cs: seq<Center>)
    requires Fit(cs, |s|) && Climbs(cs) && Distinct(s)
    ensures Distinct(UsedOf(AllGroups(s, cs), false)) <==> NoneMeet(s, cs)
  {
    hide Fit, Climbs, Passes, Distinct, Slice, From, To, AllGroups, UsedOf, NoneMeet, PassingApart;
    var gs := AllGroups(s, cs);
    GroupsLength(s, cs);
    forall g | g in gs ensures Distinct(g) {
      var i :| 0 <= i < |gs| && gs[i] == g;
      GroupIs(s, cs, i);
      SliceDistinct(s, From(cs, i), To(cs, i));
    }
    UsedDistinct(gs);
    ApartIffNoneMeet(s, cs);
  }

  lemma GroupsLength(s: seq<Data>, cs: seq<Center>)
    requires Fit(cs, |s|)
    ensures |AllGroups(s, cs)| == 2 * |cs| && |GapGroups(s, cs)| == |cs|
    ensures forall i :: 0 <= i < |cs| ==> AllGroups(s, cs)[|cs| + i] == GapGroups(s, cs)[i]
  {
  }

  // ---------- The centres of negative counts

  /** How many counts are negative; in ascending order they come first. */
  function Negatives(s: seq<Data>): nat {
    FirstAtLeast(s, 0.0, |s|)
  }

  lemma NegativesFirst(s: seq<Data>, i: nat)
    requires Ascending(s) && i < |s|
    ensures Negatives(s) <= |s| && (i < Negatives(s) <==> Ins(s[i]) < 0)
  {
    var n := Negatives(s);
    assert i < n ==> Below(s[i], 0.0);
    if n <= i {
      assert !Below(s[n], 0.0) && Ins(s[n]) <= Ins(s[i]);
    }
  }

  /**
   The windows of the negative counts are the first centres, and those of other counts do not end before they
   begin.
   */
  ghost predicate Shaped(s: seq<Data>, alpha: real, n: nat, cs: seq<Center>)
    requires n <= |s|
  {
    var z := Negatives(s);
    && (n <= z ==> |cs| == n) && (n > z ==> |cs| > z)
    && (forall i :: 0 <= i < |cs| && i < z ==> i < |s| && cs[i] == Window(s, alpha, i))
    && (forall i :: z <= i < |cs| ==> z <= cs[i].l <= cs[i].r)
  }

  lemma {:induction false} CentersShaped(s: seq<Data>, alpha: real, n: nat)
    requires Ascending(s) && 0.0 < alpha <= 1.0 && n <= |s|
    ensures Shaped(s, alpha, n, Centers(s, alpha, n))
  {
    hide Window, Ascending, Negatives, Place;
    if n > 0 {
      CentersShaped(s, alpha, n - 1);
      NegativesFirst(s, n - 1);
      var z, cs, w := Negatives(s), Centers(s, alpha, n - 1), Window(s, alpha, n - 1);
      if n - 1 < z {
        WindowOfNegative(s, alpha, n - 1);
      } else {
        WindowOpens(s, alpha, n - 1);
        if z > 0 {
          NegativesFirst(s, z - 1);
          WindowPasses(s, alpha, z - 1, n - 1);
        }
      }
      if 0 < |cs| <= z {
        NegativesFirst(s, |cs| - 1);
        WindowOfNegative(s, alpha, |cs| - 1);
      }
      PlaceShaped(s, alpha, n, cs, w);
    }
  }

  lemma PlaceShaped(s: seq<Data>, alpha: real, n: nat, cs: seq<Center>, w: Center)
    requires 0 < n <= |s| && Shaped(s, alpha, n - 1, cs) && w == Window(s, alpha, n - 1)
    requires 0 < |cs| <= Negatives(s) ==> cs[|cs| - 1].r < |cs|
    requires if n - 1 < Negatives(s) then w.l == n - 1 else Negatives(s) <= w.l <= w.r
    ensures Shaped(s, alpha, n, Place(cs, w))
  {
    hide Window, Negatives;
    var z := Negatives(s);
    if |cs| <= z {
      assert Place(cs, w) == cs + [w];
    }
  }

  lemma {:induction false} ApartFar(cs: seq<Center>, i: nat, j: nat)
    requires Apart(cs) && i < j < |cs|
    ensures cs[i].r <= cs[j].r && cs[i].r < cs[j].l
    decreases j
  {
    assert cs[j - 1].r < cs[j].l && cs[j - 1].r <= cs[j].r;
    if i < j - 1 {
      ApartFar(cs, i, j - 1);
    }
  }

  lemma {:induction false} CentersClimb(s: seq<Data>, alpha: real)
    requires Ascending(s) && 0.0 < alpha <= 1.0
    ensures Climbs(Centers(s, alpha, |s|))
  {
    hide Window, Centers, Ascending, Negatives, Apart;
    var cs, z := Centers(s, alpha, |s|), Negatives(s);
    CentersShaped(s, alpha, |s|);
    CentersApart(s, alpha, |s|);
    forall i, j | 0 <= i < j < |cs| ensures cs[i].l < cs[j].l && cs[i].r < cs[j].l && cs[i].r <= cs[j].r {
      ApartFar(cs, i, j);
      if i < z {
        NegativesFirst(s, i);
        WindowOfNegative(s, alpha, i);
        if j < z {
          NegativesFirst(s, j);
          WindowOfNegative(s, alpha, j);
        }
      }
    }
  }

  lemma NegativesFit(s: seq<Data>)
    ensures Negatives(s) <= |s|
  {
  }

  /** The first centres, as far as they are needed here. */
  ghost predicate Leading(s: seq<Data>, cs: seq<Center>) {
    var z := Negatives(s);
    && z <= |s| && z <= |cs| && (z < |s| ==> z < |cs|) && (z == |s| ==> |cs| == z)
    && (forall m :: 0 <= m < z ==> cs[m].l == m && cs[m].r == Window(s, 0.02, m).r)
    && (forall j, h :: 0 <= j <= h < |cs| && z <= h ==> cs[j].l <= cs[h].r)
  }

  lemma {:induction false} CentersLead(s: seq<Data>)
    requires Ascending(s)
    ensures Leading(s, Centers(s, 0.02, |s|))
  {
    hide Window, Centers, Negatives, Ascending;
    var cs, z := Centers(s, 0.02, |s|), Negatives(s);
    CentersShaped(s, 0.02, |s|);
    CentersClimb(s, 0.02);
    NegativesFit(s);
    forall m | 0 <= m < z ensures cs[m].l == m && cs[m].r == Window(s, 0.02, m).r {
      NegativesFirst(s, m);
      WindowOfNegative(s, 0.02, m);
    }
    forall j, h | 0 <= j <= h < |cs| && z <= h ensures cs[j].l <= cs[h].r {
      assert cs[h].l <= cs[h].r;
    }
  }

  // ---------- Which gaps pass

  function Max(x: int, y: int): int {
    if x < y then y else x
  }

  /** Where the gap behind the negative count at `m` ends: at the next negative count, or at the next centre. */
  function GapEnd(s: seq<Data>, m: nat): (e: int)
    requires m < Negatives(s) <= |s|
    ensures e <= |s|
  {
    var cs := Centers(s, 0.02, |s|);
    CentersFit(s, 0.02, |s|);
    if m + 1 < Negatives(s) || |cs| <= m + 1 then m + 1 else cs[m + 1].l
  }

  /**
   The gap behind the negative count at `m` is measured: there is a centre behind it, it has five records from the
   first in reach of that count on, and its least count outweighs its greatest.
   */
  predicate GapMeasured(s: seq<Data>, m: nat)
    requires m < Negatives(s) <= |s|
  {
    var l, r := Window(s, 0.02, m).r, GapEnd(s, m);
    m + 1 < |s| && l + 5 <= r && Ins(s[l]) + Max(0, Ins(s[r - 1])) < 0
  }

  /** Of two gaps that are measured, the later begins where the earlier has ended, or after. */
  ghost predicate Once(s: seq<Data>) {
    Negatives(s) <= |s| &&
    forall m, n :: 0 <= m < n < Negatives(s) && GapMeasured(s, m) && GapMeasured(s, n) ==> m < Window(s, 0.02, n).r
  }

  lemma {:induction false} EndsOfAscending(g: seq<Data>)
    requires Ascending(g) && g != [] && Ins(g[0]) < 0
    ensures MinIns(g) == Ins(g[0]) && MaxIns(g) == Max(0, Ins(g[|g| - 1]))
  {
    var n := |g| - 1;
    if n > 0 {
      EndsOfAscending(g[..n]);
      assert Ins(g[0]) <= Ins(g[n]) && Ins(g[n - 1]) <= Ins(g[n]);
    }
  }

  lemma QuotientLarge(x: real, y: real)
    requires 0.0 < y <= x
    ensures x / y >= 1.0
  {
    assert x / y * y == x;
  }

  lemma QuotientNegative(x: real, y: real)
    requires y < 0.0 < x
    ensures x / y < 0.0
  {
    assert x / y * y == x;
  }

  lemma NarrowNegative(lo: int, hi: int)
    requires lo < 0 <= hi
    ensures Narrow(lo, hi) <==> lo + hi < 0
  {
    var x, y := (hi - lo) as real, (hi + lo) as real / 2.0;
    if lo + hi > 0 {
      QuotientLarge(x, y);
    } else if lo + hi < 0 {
      QuotientNegative(x, y);
    }
  }

  lemma StableNegative(g: seq<Data>)
    requires Ascending(g) && g != [] && Ins(g[0]) < 0
    ensures Stable(g) <==> Ins(g[0]) + Max(0, Ins(g[|g| - 1])) < 0
  {
    hide Narrow;
    EndsOfAscending(g);
    NarrowNegative(MinIns(g), MaxIns(g));
  }

  /** The gap behind a negative count, as a stretch. */
  lemma {:induction false} GapBehind(s: seq<Data>, cs: seq<Center>, m: nat)
    requires Ascending(s) && cs == Centers(s, 0.02, |s|) && Fit(cs, |s|) && m < Negatives(s) <= |s| && m + 1 < |cs|
    ensures |GapGroups(s, cs)| == |cs| && m + 1 < |s| && Ins(s[m]) < 0
    ensures var l, r := Window(s, 0.02, m).r, GapEnd(s, m);
            l <= m < r == cs[m + 1].l && GapGroups(s, cs)[m + 1] == s[l..r]
  {
    hide Window, Centers, Negatives, Ascending, Shaped, Leading, Climbs, Fit, GapGroups, GapEnd, Below, High;
    CentersLead(s);
    CentersClimb(s, 0.02);
    NegativesFirst(s, m);
    WindowOfNegative(s, 0.02, m);
    GapEndIs(s, cs, m);
    GapSlice(s, cs, m + 1);
  }

  lemma GapSlice(s: seq<Data>, cs: seq<Center>, k: nat)
    requires Fit(cs, |s|) && 0 < k < |cs|
    ensures 0 <= cs[k - 1].r <= |s| && 0 <= cs[k].l <= |s|
    ensures |GapGroups(s, cs)| == |cs| && GapGroups(s, cs)[k] == Slice(s, cs[k - 1].r, cs[k].l)
  {
    hide Slice;
  }

  lemma GapEndIs(s: seq<Data>, cs: seq<Center>, m: nat)
    requires cs == Centers(s, 0.02, |s|) && Leading(s, cs) && Climbs(cs) && m < Negatives(s) <= |s| && m + 1 < |cs|
    ensures GapEnd(s, m) == cs[m + 1].l > cs[m].l == m && cs[m].r == Window(s, 0.02, m).r && m + 1 < |s|
  {
    hide Window, Centers, Negatives;
    assert cs[m].l < cs[m + 1].l;
  }

  lemma StretchAscends(s: seq<Data>, l: nat, r: nat)
    requires Ascending(s) && l <= r <= |s|
    ensures Ascending(s[l..r])
  {
    hide Ins;
    assert forall i :: 0 <= i < r - l ==> s[l..r][i] == s[l + i];
  }

  lemma {:induction false} GapPasses(s: seq<Data>, cs: seq<Center>, m: nat)
    requires Ascending(s) && cs == Centers(s, 0.02, |s|) && Fit(cs, |s|) && m < Negatives(s) <= |s| && m + 1 < |cs|
    ensures |GapGroups(s, cs)| == |cs| && (Passes(GapGroups(s, cs)[m + 1], false) <==> GapMeasured(s, m))
  {
    hide Window, Centers, Negatives, Stable, GapGroups, Fit, GapEnd;
    GapBehind(s, cs, m);
    var l, r := Window(s, 0.02, m).r, GapEnd(s, m);
    var g := s[l..r];
    assert Ins(s[l]) <= Ins(s[m]);
    StretchAscends(s, l, r);
    hide Ascending;
    assert g[0] == s[l] && g[|g| - 1] == s[r - 1];
    StableNegative(g);
  }

  lemma {:induction false} OnceIfNoneMeet(s: seq<Data>, cs: seq<Center>)
    requires Ascending(s) && cs == Centers(s, 0.02, |s|) && Fit(cs, |s|) && Leading(s, cs) && NoneMeet(s, cs)
    ensures Once(s)
  {
    hide Window, Centers, Negatives, Passes, GapMeasured, GapGroups, Ascending, Fit;
    GapsLength(s, cs);
    forall m, n | 0 <= m < n < Negatives(s) && GapMeasured(s, m) && GapMeasured(s, n) ensures m < Window(s, 0.02, n).r {
      MeasuredHasNext(s, n);
      GapPasses(s, cs, m);
      GapPasses(s, cs, n);
      assert cs[m + 1].l <= cs[n + 1 - 1].r;
      assert m + 1 < Negatives(s) && cs[m + 1].l == m + 1 && cs[n].r == Window(s, 0.02, n).r;
    }
  }

  lemma {:induction false} NoneMeetIfOnce(s: seq<Data>, cs: seq<Center>)
    requires Ascending(s) && cs == Centers(s, 0.02, |s|) && Fit(cs, |s|) && Leading(s, cs) && Once(s)
    ensures NoneMeet(s, cs)
  {
    hide Window, Centers, Negatives, Passes, GapMeasured, GapGroups, Ascending, Fit;
    GapsLength(s, cs);
    forall j, k | 0 <= j < k < |cs| && Passes(GapGroups(s, cs)[j], false) && Passes(GapGroups(s, cs)[k], false)
      ensures cs[j].l <= cs[k - 1].r
    {
      if 0 < j < k <= Negatives(s) {
        GapPasses(s, cs, j - 1);
        GapPasses(s, cs, k - 1);
        assert j - 1 < Window(s, 0.02, k - 1).r;
        assert cs[j].l == j && cs[k - 1].r == Window(s, 0.02, k - 1).r;
      } else if j == 0 < Negatives(s) {
        assert cs[0].l == 0;
        GapsFit(cs, |s|, k - 1);
      }
    }
  }

  lemma GapsFit(cs: seq<Center>, n: nat, k: nat)
    requires Fit(cs, n) && k < |cs|
    ensures 0 <= cs[k].r
  {
  }

  lemma {:induction false} NoneMeetIffOnce(s: seq<Data>)
    requires Ascending(s)
    ensures var cs := Centers(s, 0.02, |s|); Fit(cs, |s|) && (NoneMeet(s, cs) <==> Once(s))
  {
    hide Ascending, Centers, NoneMeet, Once, Leading, Fit;
    var cs := Centers(s, 0.02, |s|);
    CentersFit(s, 0.02, |s|);
    CentersLead(s);
    if NoneMeet(s, cs) {
      OnceIfNoneMeet(s, cs);
    }
    if Once(s) {
      NoneMeetIfOnce(s, cs);
    }
  }

  /** Of distinct records none is measured twice if and only if no two gaps that are measured meet. */
  lemma {:induction false} MeasuredOnceIff(s: seq<Data>, groups: seq<seq<Data>>)
    requires Distinct(s) && ClassifiedFrom(s, s, 0.02, groups)
    ensures Distinct(UsedOf(groups, false)) <==> Once(s)
  {
    hide Centers, NoneMeet, Once, Climbs, Distinct, UsedOf;
    NoneMeetIffOnce(s);
    CentersClimb(s, 0.02);
    OnceIffNoneMeet(s, Centers(s, 0.02, |s|));
  }

  lemma GapsLength(s: seq<Data>, cs: seq<Center>)
    requires Fit(cs, |s|)
    ensures |GapGroups(s, cs)| == |cs|
  {
  }

  lemma MeasuredHasNext(s: seq<Data>, m: nat)
    requires m < Negatives(s) <= |s| && GapMeasured(s, m)
    ensures m + 1 < |s|
  {
  }

  lemma ShortGap(s: seq<Data>, m: nat)
    requires Ascending(s) && m < 4 && m + 1 < Negatives(s) <= |s|
    ensures !GapMeasured(s, m)
  {
    hide Centers, Negatives;
    NegativesFirst(s, m);
    WindowOfNegative(s, 0.02, m);
  }

  /** With at most five negative counts no two gaps that are measured meet. */
  lemma FewNegatives(s: seq<Data>)
    requires Ascending(s) && Negatives(s) <= 5
    ensures Once(s)
  {
    hide Window, GapMeasured, Negatives;
    NegativesFit(s);
    forall m | 0 <= m && m + 1 < Negatives(s) ensures !GapMeasured(s, m) {
      ShortGap(s, m);
    }
  }

  /** Nor do they when no record is held twice. */
  lemma {:induction false} SparseIsOnce(s: seq<Data>)
    requires Ascending(s) && Sparse(s, 0.02)
    ensures Once(s)
  {
    hide Window, Centers, Negatives, Below, High;
    NegativesFit(s);
    forall m, n | 0 <= m < n < Negatives(s) && GapMeasured(s, m) && GapMeasured(s, n) ensures m < Window(s, 0.02, n).r {
      MeasuredHasNext(s, n);
      NegativesFirst(s, n);
      forall i | 0 <= i < n ensures Below(s[i], High(s[n], 0.02)) {
        assert Ins(s[i]) <= Ins(s[n]) <= Ins(s[n + 1]);
      }
      WindowOfNegative(s, 0.02, n);
    }
  }

  // ---------- Once, whatever the order of the records

  /** The condition, for records in any order: it holds of them sorted. */
  ghost predicate MeasuresOnce(records: seq<Data>) {
    exists s :: Sorts(s, records) && Once(s)
  }

  ghost predicate Sorts(s: seq<Data>, records: seq<Data>) {
    Ascending(s) && multiset(s) == multiset(records)
  }

  /** The same counts in the same places. */
  ghost predicate SameCountsAll(a: seq<Data>, b: seq<Data>) {
    |a| == |b| && forall i :: 0 <= i < |a| ==> Ins(a[i]) == Ins(b[i])
  }

  function NumBelow(s: seq<Data>, x: real): nat {
    if s == [] then 0 else NumBelow(s[..|s| - 1], x) + One(s[|s| - 1], x)
  }

  function One(d: Data, x: real): nat {
    if Below(d, x) then 1 else 0
  }

  lemma {:induction false} NumJoin(a: seq<Data>, b: seq<Data>, x: real)
    ensures NumBelow(a + b, x) == NumBelow(a, x) + NumBelow(b, x)
  {
    hide One;
    if b == [] {
      assert a + b == a;
    } else {
      var n := |b| - 1;
      assert (a + b)[..|a + b| - 1] == a + b[..n] && (a + b)[|a + b| - 1] == b[n];
      NumJoin(a, b[..n], x);
    }
  }

  lemma NumWithout(s: seq<Data>, i: nat, x: real)
    requires i < |s|
    ensures NumBelow(s, x) == NumBelow(s[..i] + s[i + 1..], x) + One(s[i], x)
  {
    NumJoin(s[..i], s[i + 1..], x);
    NumJoin(s[..i], [s[i]], x);
    NumJoin(s[..i] + [s[i]], s[i + 1..], x);
    assert [s[i]][..0] == [];
    assert NumBelow([s[i]], x) == One(s[i], x);
    hide NumBelow, One;
    assert s == s[..i] + [s[i]] + s[i + 1..];
  }

  lemma {:induction false} NumPermuted(a: seq<Data>, b: seq<Data>, x: real)
    requires multiset(a) == multiset(b)
    ensures NumBelow(a, x) == NumBelow(b, x)
    decreases |a|
  {
    if a == [] {
      assert |multiset(b)| == 0;
    } else {
      var n := |a| - 1;
      hide NumBelow, One;
      assert a[n] in multiset(a) && a[n] in multiset(b);
      var i :| 0 <= i < |b| && b[i] == a[n];
      TakeEqual(b, a, i, n);
      NumWithout(a, n, x);
      NumWithout(b, i, x);
      NumPermuted(a[..n] + a[n + 1..], b[..i] + b[i + 1..], x);
    }
  }

  lemma {:induction false} FirstIsNum(s: seq<Data>, x: real, n: nat)
    requires Ascending(s) && n <= |s|
    ensures FirstAtLeast(s, x, n) == NumBelow(s[..n], x)
  {
    hide Below;
    if n > 0 {
      FirstIsNum(s, x, n - 1);
      assert s[..n][..n - 1] == s[..n - 1];
      var i := FirstAtLeast(s, x, n - 1);
      if i < n - 1 {
        StaysAbove(s[i], s[n - 1], x);
      }
    }
  }

  lemma StaysAbove(a: Data, b: Data, x: real)
    requires Ins(a) <= Ins(b) && !Below(a, x)
    ensures !Below(b, x)
  {
  }

  /** Sorting the same records gives the same counts in the same places. */
  lemma {:induction false} SortedSame(a: seq<Data>, b: seq<Data>)
    requires Ascending(a) && Ascending(b) && multiset(a) == multiset(b)
    ensures SameCountsAll(a, b)
  {
    assert |multiset(a)| == |multiset(b)|;
    forall i | 0 <= i < |a| ensures Ins(a[i]) == Ins(b[i]) {
      NotBelowAt(a, b, i);
      NotBelowAt(b, a, i);
    }
  }

  lemma {:induction false} NotBelowAt(a: seq<Data>, b: seq<Data>, i: nat)
    requires Ascending(a) && Ascending(b) && multiset(a) == multiset(b) && i < |a| == |b|
    ensures Ins(b[i]) <= Ins(a[i])
  {
    var x := Ins(b[i]) as real;
    FirstIsNum(a, x, |a|);
    FirstIsNum(b, x, |b|);
    NumPermuted(a, b, x);
    assert a[..|a|] == a && b[..|b|] == b && !Below(b[i], x);
    var f := FirstAtLeast(a, x, |a|);
    assert f <= i && !Below(a[f], x) && Ins(a[f]) <= Ins(a[i]);
  }

  lemma {:induction false} SameFirst(a: seq<Data>, b: seq<Data>, x: real, n: nat)
    requires SameCountsAll(a, b) && n <= |a|
    ensures FirstAtLeast(a, x, n) == FirstAtLeast(b, x, n)
  {
    if n > 0 {
      SameFirst(a, b, x, n - 1);
      assert Ins(a[n - 1]) == Ins(b[n - 1]);
    }
  }

  lemma SameWindow(a: seq<Data>, b: seq<Data>, alpha: real, m: nat)
    requires SameCountsAll(a, b) && m < |a|
    ensures Window(a, alpha, m) == Window(b, alpha, m)
  {
    assert Ins(a[m]) == Ins(b[m]);
    SameFirst(a, b, Low(a[m], alpha), m);
    SameFirst(a, b, High(a[m], alpha), |a|);
  }

  lemma {:induction false} SameCenters(a: seq<Data>, b: seq<Data>, alpha: real, m: nat)
    requires SameCountsAll(a, b) && m <= |a|
    ensures Centers(a, alpha, m) == Centers(b, alpha, m)
  {
    hide Window, Place, SameCountsAll;
    if m > 0 {
      SameCenters(a, b, alpha, m - 1);
      SameWindow(a, b, alpha, m - 1);
    }
  }

  lemma SameGap(a: seq<Data>, b: seq<Data>, m: nat)
    requires SameCountsAll(a, b) && m < Negatives(a) == Negatives(b) <= |a|
    ensures GapMeasured(a, m) == GapMeasured(b, m)
  {
    hide Window, Centers, Negatives;
    SameWindow(a, b, 0.02, m);
    SameCenters(a, b, 0.02, |a|);
    CentersFit(a, 0.02, |a|);
  }

  lemma {:induction false} SameOnce(a: seq<Data>, b: seq<Data>)
    requires SameCountsAll(a, b) && Once(a)
    ensures Once(b)
  {
    hide GapMeasured, Window;
    SameFirst(a, b, 0.0, |a|);
    assert Negatives(a) == Negatives(b) && |a| == |b|;
    hide SameCountsAll, Negatives;
    forall m, n | 0 <= m < n < Negatives(b) && GapMeasured(b, m) && GapMeasured(b, n) ensures m < Window(b, 0.02, n).r {
      SameGap(a, b, m);
      SameGap(a, b, n);
      SameWindow(a, b, 0.02, n);
    }
  }

  /** How the records are sorted does not matter. */
  lemma {:induction false} OnceAnyhow(s: seq<Data>, records: seq<Data>)
    requires Sorts(s, records)
    ensures MeasuresOnce(records) <==> Once(s)
  {
    hide Once, Ascending, SameCountsAll;
    if MeasuresOnce(records) {
      var t :| Sorts(t, records) && Once(t);
      SortedSame(t, s);
      SameOnce(t, s);
    }
  }
}
