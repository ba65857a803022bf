/**
 Grouping the records of one edge or vertex: computation by its instruction count, communication by
 its target and size. Doubles are exact reals.
 */
module Clustering {
  import opened Hooks
  import opened Permutations
  import opened Sorting

  /** A window of indices, `r` excluded. */
  datatype Center = Center(l: int, r: int)

  function Ins(d: Data): int {
    if d.papi == [] then 0 else d.papi[0]
  }

  ghost predicate Ascending(s: seq<Data>) {
    forall i, j :: 0 <= i < j < |s| ==> Ins(s[i]) <= Ins(s[j])
  }

  method SortByIns(paths: seq<Data>) returns (s: seq<Data>)
    ensures Ascending(s) && multiset(s) == multiset(paths)
  {
    var key := (d: Data) => Ins(d) as real;
    s := SortBy(paths, key);
    assert forall i, j :: 0 <= i < j < |s| ==> key(s[i]) <= key(s[j]);
  }

  function Product(x: real, y: real): real {
    x * y
  }

  lemma ProductUp(x: real, y: real, f: real)
    requires x <= y && f >= 0.0
    ensures Product(x, f) <= Product(y, f) && Product(f, x) <= Product(f, y)
  {
    ScaleUp(x, y, f);
  }

  /** How few and how many instructions still belong with record `d`. */
  function Low(d: Data, alpha: real): real {
    Product(Ins(d) as real, 1.0 - alpha)
  }

  function High(d: Data, alpha: real): real {
    Product(Ins(d) as real, 1.0 + alpha)
  }

  predicate Below(d: Data, x: real) {
    (Ins(d) as real) < x
  }

  lemma LowMoves(a: Data, b: Data, alpha: real)
    requires Ins(a) <= Ins(b) && 0.0 <= alpha <= 1.0
    ensures Low(a, alpha) <= Low(b, alpha)
  {
    hide Product;
    var x, y := Ins(a) as real, Ins(b) as real;
    assert x <= y;
    ProductUp(x, y, 1.0 - alpha);
  }

  lemma HighMoves(a: Data, b: Data, alpha: real)
    requires Ins(a) <= Ins(b) && 0.0 <= alpha <= 1.0
    ensures High(a, alpha) <= High(b, alpha)
  {
    hide Product;
    var x, y := Ins(a) as real, Ins(b) as real;
    assert x <= y;
    ProductUp(x, y, 1.0 + alpha);
  }

  lemma LowBelowHigh(a: Data, alpha: real)
    requires Ins(a) >= 0 && 0.0 <= alpha <= 1.0
    ensures Low(a, alpha) <= High(a, alpha)
  {
    hide Product;
    ProductUp(1.0 - alpha, 1.0 + alpha, Ins(a) as real);
  }

  lemma ScaleUp(x: real, y: real, f: real)
    requires x <= y && f >= 0.0
    ensures x * f <= y * f && f * x <= f * y
  {
  }

  lemma BelowMore(d: Data, x: real, y: real)
    requires Below(d, x) && x <= y
    ensures Below(d, y)
  {
  }

  /** The first index below `bound` whose count is at least `x`, or `bound`. */
  function FirstAtLeast(s: seq<Data>, x: real, bound: nat): (i: nat)
    requires bound <= |s|
    ensures i <= bound
    ensures forall k :: 0 <= k < i ==> Below(s[k], x)
    ensures i < bound ==> !Below(s[i], x)
  {
    if bound == 0 then 0
    else
      var i := FirstAtLeast(s, x, bound - 1);
      if i < bound - 1 || !Below(s[bound - 1], x) then i else bound
  }

  /** The window of element `m`: counts within the fraction `alpha` of its own. */
  function Window(s: seq<Data>, alpha: real, m: nat): (w: Center)
    requires m < |s|
    ensures 0 <= w.l <= m && 0 <= w.r <= |s|
  {
    Center(FirstAtLeast(s, Low(s[m], alpha), m), FirstAtLeast(s, High(s[m], alpha), |s|))
  }

  /** A window that starts right of the last centre is a new centre; one that is wider replaces it. */
  function Place(cs: seq<Center>, c: Center): seq<Center> {
    if cs == [] || cs[|cs| - 1].r < c.l then cs + [c]
    else if cs[|cs| - 1].r - cs[|cs| - 1].l < c.r - c.l then cs[..|cs| - 1] + [c]
    else cs
  }

  /** The centres after the first `m` elements. */
  function Centers(s: seq<Data>, alpha: real, m: nat): seq<Center>
    requires m <= |s|
  {
    if m == 0 then [] else Place(Centers(s, alpha, m - 1), Window(s, alpha, m - 1))
  }

  function Slice(s: seq<Data>, l: nat, r: nat): seq<Data>
    requires l <= |s| && r <= |s|
  {
    if l <= r then s[l..r] else []
  }

  /** Centres are windows on `s`. */
  ghost predicate Fit(cs: seq<Center>, n: nat) {
    forall i :: 0 <= i < |cs| ==> 0 <= cs[i].l <= n && 0 <= cs[i].r <= n
  }

  function CenterGroups(s: seq<Data>, cs: seq<Center>): seq<seq<Data>>
    requires Fit(cs, |s|)
  {
    seq(|cs|, i requires 0 <= i < |cs| => Slice(s, cs[i].l, cs[i].r))
  }

  /** What lies before the first centre and between neighbours. */
  function GapGroups(s: seq<Data>, cs: seq<Center>): seq<seq<Data>>
    requires Fit(cs, |s|)
  {
    seq(|cs|, i requires 0 <= i < |cs| => Slice(s, if i == 0 then 0 else cs[i - 1].r, cs[i].l))
  }

  method PushRange(s: seq<Data>, l: nat, r: nat) returns (group: seq<Data>)
    requires l <= |s| && r <= |s|
    ensures group == Slice(s, l, r)
  {
    group := [];
    var i := l;
    while i < r
      invariant l <= i && (i <= r || i == l)
      invariant group == Slice(s, l, i)
    {
      group := group + [s[i]];
      i := i + 1;
    }
  }

  lemma PlaceFits(cs: seq<Center>, c: Center, n: nat)
    requires Fit(cs, n) && 0 <= c.l <= n && 0 <= c.r <= n
    ensures Fit(Place(cs, c), n) && Place(cs, c) != []
  {
  }

  lemma {:induction false} CentersFit(s: seq<Data>, alpha: real, m: nat)
    requires m <= |s|
    ensures Fit(Centers(s, alpha, m), |s|)
    ensures m > 0 ==> Centers(s, alpha, m) != []
  {
    hide Window;
    if m > 0 {
      CentersFit(s, alpha, m - 1);
      PlaceFits(Centers(s, alpha, m - 1), Window(s, alpha, m - 1), |s|);
    }
  }

  /** A pointer that has skipped only smaller counts and stopped is where a fresh search stops. */
  lemma {:induction false} StopsAtFirst(s: seq<Data>, x: real, bound: nat, i: nat)
    requires i <= bound <= |s|
    requires forall k :: 0 <= k < i ==> Below(s[k], x)
    requires i < bound ==> !Below(s[i], x)
    ensures FirstAtLeast(s, x, bound) == i
  {
    hide Below;
  }

  /** `r` and `l` never go back, and still hold the fresh search's answer for the element before. */
  ghost predicate Behind(s: seq<Data>, alpha: real, m: nat, l: nat, r: nat)
    requires m <= |s|
  {
    && l <= m && r <= |s|
    && (m > 0 ==> l == Window(s, alpha, m - 1).l && r == Window(s, alpha, m - 1).r)
    && (m == 0 ==> l == 0 && r == 0)
  }

  /** What has been skipped for one element may be skipped for the next. */
  lemma {:induction false} Skipped(s: seq<Data>, alpha: real, m: nat, l: nat, r: nat)
    requires Ascending(s) && 0.0 <= alpha <= 1.0 && m < |s| && Behind(s, alpha, m, l, r)
    ensures forall k :: 0 <= k < l ==> Below(s[k], Low(s[m], alpha))
    ensures forall k :: 0 <= k < r ==> Below(s[k], High(s[m], alpha))
  {
    if m > 0 {
      LowMoves(s[m - 1], s[m], alpha);
      HighMoves(s[m - 1], s[m], alpha);
      hide Below, Low, High, Ascending;
      forall k | 0 <= k < l ensures Below(s[k], Low(s[m], alpha)) {
        BelowMore(s[k], Low(s[m - 1], alpha), Low(s[m], alpha));
      }
      forall k | 0 <= k < r ensures Below(s[k], High(s[m], alpha)) {
        BelowMore(s[k], High(s[m - 1], alpha), High(s[m], alpha));
      }
    }
  }

  /** Moving one pointer, from where it was, up to `bound`. */
  method Advance(s: seq<Data>, x: real, bound: nat, from: nat) returns (i: nat)
    requires from <= bound <= |s|
    requires forall k :: 0 <= k < from ==> Below(s[k], x)
    ensures i == FirstAtLeast(s, x, bound)
  {
    i := from;
    while i < bound && (Ins(s[i]) as real) < x
      invariant i <= bound
      invariant forall k :: 0 <= k < i ==> Below(s[k], x)
    {
      i := i + 1;
    }
    StopsAtFirst(s, x, bound, i);
  }

  /** The double loop: its pointers only move right, yet each window is the one a fresh search finds. */
  method FindCenters(s: seq<Data>, alpha: real) returns (centers: seq<Center>)
    requires Ascending(s) && 0.0 <= alpha <= 1.0
    ensures centers == Centers(s, alpha, |s|)
    ensures exists ks :: Chosen(s, alpha, |s|, centers, ks)
  {
    hide Low, High, Below, Ascending, Place, Chosen;
    ghost var ks := CentersChosen(s, alpha, |s|);
    centers := [];
    var l: int, r: int := 0, 0;
    for m := 0 to |s|
      invariant 0 <= l && 0 <= r
      invariant Behind(s, alpha, m, l, r)
      invariant centers == Centers(s, alpha, m)
    {
      Skipped(s, alpha, m, l, r);
      r := Advance(s, High(s[m], alpha), |s|, r);
      l := Advance(s, Low(s[m], alpha), m, l);
      centers := AddCenter(centers, l, r);
    }
  }

  method AddCenter(centers: seq<Center>, l: int, r: int) returns (cs: seq<Center>)
    ensures cs == Place(centers, Center(l, r))
  {
    cs := centers;
    if cs == [] || cs[|cs| - 1].r < l {
      cs := cs + [Center(l, r)];
    } else if cs[|cs| - 1].r - cs[|cs| - 1].l < r - l {
      cs := cs[..|cs| - 1];
      cs := cs + [Center(l, r)];
    }
  }

  method PushCenters(s: seq<Data>, centers: seq<Center>) returns (ret: seq<seq<Data>>)
    requires Fit(centers, |s|)
    ensures ret == CenterGroups(s, centers)
  {
    ret := [];
    for i := 0 to |centers|
      invariant ret == CenterGroups(s, centers)[..i]
    {
      var group := PushRange(s, centers[i].l, centers[i].r);
      ret := ret + [group];
    }
  }

  method PushGaps(s: seq<Data>, centers: seq<Center>) returns (ret: seq<seq<Data>>)
    requires Fit(centers, |s|) && centers != []
    ensures ret == GapGroups(s, centers)
  {
    var group := PushRange(s, 0, centers[0].l);
    ret := [group];
    for i := 0 to |centers| - 1
      invariant ret == GapGroups(s, centers)[..i + 1]
    {
      group := PushRange(s, centers[i].r, centers[i + 1].l);
      ret := ret + [group];
    }
  }

  /**
   A sorted rearrangement and the groups the centres of its windows make of it: first the centres', then the
   gaps'.
   */
  ghost predicate ClassifiedFrom(s: seq<Data>, paths: seq<Data>, alpha: real, groups: seq<seq<Data>>) {
    var cs := Centers(s, alpha, |s|);
    && Ascending(s) && multiset(s) == multiset(paths)
    && Fit(cs, |s|) && groups == CenterGroups(s, cs) + GapGroups(s, cs)
  }

  /** All the groups. A graph has no edge without records. */
  method CalcClassify(paths: seq<Data>, alpha: real) returns (ret: seq<seq<Data>>)
    requires paths != [] && 0.0 <= alpha <= 1.0
    ensures exists s :: ClassifiedFrom(s, paths, alpha, ret)
  {
    var s := SortByIns(paths);
    assert |s| == |multiset(s)| == |multiset(paths)| == |paths|;
    hide Ascending, Centers;
    var centers := FindCenters(s, alpha);
    CentersFit(s, alpha, |s|);
    var inner := PushCenters(s, centers);
    var gaps := PushGaps(s, centers);
    ret := inner + gaps;
    assert ClassifiedFrom(s, paths, alpha, ret);
  }

  // ---------- What the centres are

  /** Windows move right with the counts. */
  lemma {:induction false} WindowMoves(s: seq<Data>, alpha: real, m: nat, k: nat)
    requires Ascending(s) && 0.0 <= alpha <= 1.0 && m <= k < |s|
    ensures Window(s, alpha, m).l <= Window(s, alpha, k).l && Window(s, alpha, m).r <= Window(s, alpha, k).r
  {
    LowMoves(s[m], s[k], alpha);
    HighMoves(s[m], s[k], alpha);
    hide Low, High, Below, Ascending;
    FirstMoves(s, Low(s[m], alpha), Low(s[k], alpha), m, k);
    FirstMoves(s, High(s[m], alpha), High(s[k], alpha), |s|, |s|);
  }

  lemma {:induction false} FirstMoves(s: seq<Data>, x: real, y: real, b: nat, c: nat)
    requires x <= y && b <= c <= |s|
    ensures FirstAtLeast(s, x, b) <= FirstAtLeast(s, y, c)
  {
    hide Below;
    var i := FirstAtLeast(s, y, c);
    if i < b {
      assert !Below(s[i], x) by {
        if Below(s[i], x) {
          BelowMore(s[i], x, y);
        }
      }
    }
  }

  /** A window of a count that is not negative does not end before it begins. */
  lemma WindowOpens(s: seq<Data>, alpha: real, m: nat)
    requires 0.0 <= alpha <= 1.0 && m < |s| && Ins(s[m]) >= 0
    ensures Window(s, alpha, m).l <= Window(s, alpha, m).r
  {
    LowBelowHigh(s[m], alpha);
    hide Low, High, Below;
    FirstMoves(s, Low(s[m], alpha), High(s[m], alpha), m, |s|);
  }

  /** For a negative count both bounds are on the wrong side of it. */
  lemma NegativeBounds(d: Data, alpha: real)
    requires Ins(d) < 0 && 0.0 < alpha <= 1.0
    ensures Below(d, Low(d, alpha)) && !Below(d, High(d, alpha))
  {
    var v := Ins(d) as real;
    assert v * alpha < 0.0;
  }

  /** The window of a negative count begins at its element, and ends there only if all before it are out of reach. */
  lemma {:induction false} WindowOfNegative(s: seq<Data>, alpha: real, m: nat)
    requires Ascending(s) && 0.0 < alpha <= 1.0 && m < |s| && Ins(s[m]) < 0
    ensures Window(s, alpha, m).l == m && Window(s, alpha, m).r <= m
    ensures Window(s, alpha, m).r == m <==> forall i :: 0 <= i < m ==> Below(s[i], High(s[m], alpha))
  {
    NegativeBounds(s[m], alpha);
    forall k | 0 <= k < m ensures Below(s[k], Low(s[m], alpha)) {
      assert Ins(s[k]) <= Ins(s[m]);
    }
    hide Low, High, Below, Ascending;
    StopsAtFirst(s, Low(s[m], alpha), m, m);
  }

  lemma LowOfCount(d: Data, alpha: real)
    requires Ins(d) >= 0 && alpha <= 1.0
    ensures Low(d, alpha) >= 0.0
  {
    ScaleUp(0.0, Ins(d) as real, 1.0 - alpha);
  }

  /** The window of a later element begins to the right of every negative count before it. */
  lemma {:induction false} WindowPasses(s: seq<Data>, alpha: real, m: nat, k: nat)
    requires Ascending(s) && 0.0 < alpha <= 1.0 && m < k < |s| && Ins(s[m]) < 0
    ensures m < Window(s, alpha, k).l
  {
    if Ins(s[k]) < 0 {
      WindowOfNegative(s, alpha, k);
    } else {
      LowOfCount(s[k], alpha);
      forall i | 0 <= i <= m ensures Below(s[i], Low(s[k], alpha)) {
        assert Ins(s[i]) <= Ins(s[m]);
      }
      hide Low, High, Below, Ascending;
    }
  }

  /** Ordered: each centre ends strictly before the next begins, and before it ends. */
  ghost predicate Apart(cs: seq<Center>) {
    forall i :: 0 <= i < |cs| - 1 ==> cs[i].r < cs[i + 1].l && cs[i].r <= cs[i + 1].r
  }

  /** No centre ends before it begins. */
  ghost predicate Forward(cs: seq<Center>) {
    forall i :: 0 <= i < |cs| ==> cs[i].l <= cs[i].r
  }

  /** Every centre is the window of an element seen so far. */
  ghost predicate Windows(s: seq<Data>, alpha: real, m: nat, cs: seq<Center>)
    requires m <= |s|
  {
    forall i :: 0 <= i < |cs| ==> exists k: nat :: k < m && cs[i] == Window(s, alpha, k)
  }

  lemma {:induction false} CentersAreWindows(s: seq<Data>, alpha: real, m: nat)
    requires m <= |s|
    ensures Windows(s, alpha, m, Centers(s, alpha, m))
  {
    hide Window;
    if m > 0 {
      CentersAreWindows(s, alpha, m - 1);
      var before, now := Centers(s, alpha, m - 1), Centers(s, alpha, m);
      forall i | 0 <= i < |now| ensures exists k: nat :: k < m && now[i] == Window(s, alpha, k) {
        if now[i] != Window(s, alpha, m - 1) {
          assert now[i] == before[i];
        }
      }
    }
  }

  lemma PlaceApart(cs: seq<Center>, c: Center)
    requires Apart(cs) && (cs != [] ==> cs[|cs| - 1].l <= c.l && cs[|cs| - 1].r <= c.r)
    ensures Apart(Place(cs, c))
  {
    var now, n := Place(cs, c), |cs| - 1;
    forall i | 0 <= i < |now| - 1 ensures now[i].r < now[i + 1].l && now[i].r <= now[i + 1].r {
      assert now[i] == cs[i];
      if i < n {
        assert cs[i].r < cs[i + 1].l && cs[i].r <= cs[i + 1].r;
      }
    }
  }

  /** Pushing and replacing keep the centres ordered and apart. */
  lemma {:induction false} CentersApart(s: seq<Data>, alpha: real, m: nat)
    requires Ascending(s) && 0.0 <= alpha <= 1.0 && m <= |s|
    ensures Apart(Centers(s, alpha, m))
  {
    hide Window, Ascending, Place, Apart;
    if m == 0 {
      NoneApart();
    } else {
      CentersApart(s, alpha, m - 1);
      CentersAreWindows(s, alpha, m - 1);
      var cs := Centers(s, alpha, m - 1);
      if cs != [] {
        var k: nat :| k < m - 1 && cs[|cs| - 1] == Window(s, alpha, k);
        WindowMoves(s, alpha, k, m - 1);
      }
      PlaceApart(cs, Window(s, alpha, m - 1));
    }
  }

  lemma NoneApart()
    ensures Apart([])
  {
  }

  /** What a window holds, in numbers: counts below (1 + alpha) times that of its element, and not below (1 - alpha). */
  lemma {:induction false} WindowHolds(s: seq<Data>, alpha: real, m: nat, i: nat)
    requires forall j :: 0 <= j < |s| ==> |s[j].papi| > 0
    requires forall j, k :: 0 <= j < k < |s| ==> s[j].papi[0] <= s[k].papi[0]
    requires 0.0 <= alpha <= 1.0 && m < |s| && i < |s|
    ensures i < Window(s, alpha, m).r <==> (s[i].papi[0] as real) < s[m].papi[0] as real * (1.0 + alpha)
    ensures i < Window(s, alpha, m).l <==> i < m && (s[i].papi[0] as real) < s[m].papi[0] as real * (1.0 - alpha)
  {
    assert Ascending(s);
    hide Ascending;
    assert High(s[m], alpha) == s[m].papi[0] as real * (1.0 + alpha);
    assert Low(s[m], alpha) == s[m].papi[0] as real * (1.0 - alpha);
    hide High, Low;
    FirstIs(s, High(s[m], alpha), |s|, i);
    if i < m {
      FirstIs(s, Low(s[m], alpha), m, i);
    }
  }

  lemma {:induction false} FirstIs(s: seq<Data>, x: real, bound: nat, i: nat)
    requires Ascending(s) && i < bound <= |s|
    ensures i < FirstAtLeast(s, x, bound) <==> Below(s[i], x)
  {
    var f := FirstAtLeast(s, x, bound);
    if f <= i {
      assert !Below(s[f], x) && Ins(s[f]) <= Ins(s[i]);
    }
  }

  // ---------- Which windows become centres

  /** How many records the window of element `m` holds. */
  function Wide(s: seq<Data>, alpha: real, m: nat): int
    requires m < |s|
  {
    Window(s, alpha, m).r - Window(s, alpha, m).l
  }

  /** Element `m` is behind `prev`, the element of the centre before, and begins right of that centre. */
  predicate RightOf(s: seq<Data>, alpha: real, prev: int, m: nat)
    requires m < |s| && -1 <= prev < |s|
  {
    prev == -1 || (prev < m && Window(s, alpha, prev).r < Window(s, alpha, m).l)
  }

  /**
   Element `k` is picked behind `prev`: its window is strictly wider than those of the elements before it that
   begin right of the centre before, and no narrower than that of any later one that begins at or before its end.
   */
  ghost predicate Picked(s: seq<Data>, alpha: real, n: nat, prev: int, k: nat)
    requires n <= |s| && -1 <= prev < |s|
  {
    && k < n && RightOf(s, alpha, prev, k)
    && (forall m :: 0 <= m < k && RightOf(s, alpha, prev, m) ==> Wide(s, alpha, m) < Wide(s, alpha, k))
    && (forall m :: k < m < n && Window(s, alpha, m).l <= Window(s, alpha, k).r ==>
          Wide(s, alpha, m) <= Wide(s, alpha, k))
  }

  function Prev(ks: seq<nat>, i: nat): int
    requires i <= |ks|
  {
    if i == 0 then -1 else ks[i - 1]
  }

  ghost predicate PickedAt(s: seq<Data>, alpha: real, n: nat, ks: seq<nat>, i: nat)
    requires n <= |s| && i < |ks|
  {
    Prev(ks, i) < n && ks[i] < n && Picked(s, alpha, n, Prev(ks, i), ks[i])
  }

  ghost predicate AllPicked(s: seq<Data>, alpha: real, n: nat, ks: seq<nat>)
    requires n <= |s|
  {
    forall i :: 0 <= i < |ks| ==> PickedAt(s, alpha, n, ks, i)
  }

  /** Behind the last of them no element begins right of it. */
  ghost predicate AllReached(s: seq<Data>, alpha: real, n: nat, ks: seq<nat>)
    requires n <= |s|
  {
    if ks == [] then n == 0
    else
      var last := ks[|ks| - 1];
      last < n && forall m :: last < m < n ==> Window(s, alpha, m).l <= Window(s, alpha, last).r
  }

  ghost predicate WindowsOf(s: seq<Data>, alpha: real, cs: seq<Center>, ks: seq<nat>) {
    |cs| == |ks| && forall i :: 0 <= i < |ks| ==> ks[i] < |s| && cs[i] == Window(s, alpha, ks[i])
  }

  /** The centres are the windows of picked elements, and no element is left over. */
  ghost predicate Chosen(s: seq<Data>, alpha: real, n: nat, cs: seq<Center>, ks: seq<nat>)
    requires n <= |s|
  {
    WindowsOf(s, alpha, cs, ks) && AllPicked(s, alpha, n, ks) && AllReached(s, alpha, n, ks)
  }

  lemma PickedStays(s: seq<Data>, alpha: real, n: nat, prev: int, k: nat)
    requires n < |s| && -1 <= prev < |s| && Picked(s, alpha, n, prev, k)
    requires Window(s, alpha, k).r < Window(s, alpha, n).l || Wide(s, alpha, n) <= Wide(s, alpha, k)
    ensures Picked(s, alpha, n + 1, prev, k)
  {
    hide Window, Wide;
  }

  /** A later element begins right of every centre but the last. */
  lemma BeginsRight(s: seq<Data>, alpha: real, n: nat, ks: seq<nat>, i: nat)
    requires Ascending(s) && 0.0 <= alpha <= 1.0 && n < |s| && AllPicked(s, alpha, n, ks) && i < |ks| - 1
    ensures ks[i] < n && Window(s, alpha, ks[i]).r < Window(s, alpha, n).l
  {
    hide Window, Ascending, Wide;
    assert PickedAt(s, alpha, n, ks, i + 1);
    WindowMoves(s, alpha, ks[i + 1], n);
  }

  /** Element `n` takes nothing from any centre but the last. */
  lemma EarlierStay(s: seq<Data>, alpha: real, n: nat, ks: seq<nat>, i: nat)
    requires Ascending(s) && 0.0 <= alpha <= 1.0 && n < |s| && AllPicked(s, alpha, n, ks) && i < |ks| - 1
    ensures PickedAt(s, alpha, n + 1, ks, i)
  {
    hide Window, Ascending, Wide, Picked;
    BeginsRight(s, alpha, n, ks, i);
    assert PickedAt(s, alpha, n, ks, i);
    PickedStays(s, alpha, n, Prev(ks, i), ks[i]);
  }

  lemma LastStays(s: seq<Data>, alpha: real, n: nat, ks: seq<nat>)
    requires n < |s| && AllPicked(s, alpha, n, ks) && ks != []
    requires var last := ks[|ks| - 1];
      last < |s| && (Window(s, alpha, last).r < Window(s, alpha, n).l || Wide(s, alpha, n) <= Wide(s, alpha, last))
    ensures PickedAt(s, alpha, n + 1, ks, |ks| - 1)
  {
    hide Window, Wide, Picked;
    var z := |ks| - 1;
    assert PickedAt(s, alpha, n, ks, z);
    PickedStays(s, alpha, n, Prev(ks, z), ks[z]);
  }

  /** The first element that begins right of a centre is picked when it comes. */
  lemma NewPicked(s: seq<Data>, alpha: real, n: nat, prev: int)
    requires n < |s| && -1 <= prev < n && RightOf(s, alpha, prev, n) && (prev == -1 ==> n == 0)
    requires forall m :: prev < m < n && prev >= 0 ==> Window(s, alpha, m).l <= Window(s, alpha, prev).r
    ensures Picked(s, alpha, n + 1, prev, n)
  {
    hide Window, Wide;
  }

  lemma PicksPush(s: seq<Data>, alpha: real, n: nat, ks: seq<nat>)
    requires Ascending(s) && 0.0 <= alpha <= 1.0 && n < |s| && AllPicked(s, alpha, n, ks) && AllReached(s, alpha, n, ks)
    requires ks != [] ==> Window(s, alpha, ks[|ks| - 1]).r < Window(s, alpha, n).l
    ensures AllPicked(s, alpha, n + 1, ks + [n]) && AllReached(s, alpha, n + 1, ks + [n])
  {
    hide Window, Ascending, Wide, Picked;
    var ks', z := ks + [n], |ks|;
    var more := n + 1;
    forall i | 0 <= i < |ks'| ensures PickedAt(s, alpha, more, ks', i) {
      if i < z - 1 {
        EarlierStay(s, alpha, n, ks, i);
      } else if i < z {
        LastStays(s, alpha, n, ks);
      } else {
        NewPicked(s, alpha, n, Prev(ks', z));
      }
    }
  }

  lemma PicksKeep(s: seq<Data>, alpha: real, n: nat, ks: seq<nat>)
    requires Ascending(s) && 0.0 <= alpha <= 1.0 && n < |s| && AllPicked(s, alpha, n, ks) && AllReached(s, alpha, n, ks)
    requires ks != [] && Window(s, alpha, n).l <= Window(s, alpha, ks[|ks| - 1]).r
    requires Wide(s, alpha, n) <= Wide(s, alpha, ks[|ks| - 1])
    ensures AllPicked(s, alpha, n + 1, ks) && AllReached(s, alpha, n + 1, ks)
  {
    hide Window, Ascending, Wide, Picked;
    var more := n + 1;
    forall i | 0 <= i < |ks| ensures PickedAt(s, alpha, more, ks, i) {
      if i < |ks| - 1 {
        EarlierStay(s, alpha, n, ks, i);
      } else {
        LastStays(s, alpha, n, ks);
      }
    }
  }

  /** A wider window that begins at or before the end of the last takes its place. */
  lemma WiderPicked(s: seq<Data>, alpha: real, n: nat, prev: int, k: nat)
    requires n < |s| && -1 <= prev < |s| && Picked(s, alpha, n, prev, k) && RightOf(s, alpha, prev, n)
    requires Wide(s, alpha, k) < Wide(s, alpha, n)
    requires forall m :: k < m < n ==> Window(s, alpha, m).l <= Window(s, alpha, k).r
    ensures Picked(s, alpha, n + 1, prev, n)
  {
    hide Window, Wide;
  }

  lemma LastWider(s: seq<Data>, alpha: real, n: nat, ks: seq<nat>)
    requires Ascending(s) && 0.0 <= alpha <= 1.0 && n < |s| && AllPicked(s, alpha, n, ks) && AllReached(s, alpha, n, ks)
    requires ks != [] && Wide(s, alpha, ks[|ks| - 1]) < Wide(s, alpha, n)
    ensures var prev := Prev(ks, |ks| - 1); prev < n && Picked(s, alpha, n + 1, prev, n)
  {
    hide Window, Ascending, Wide, Picked;
    var z := |ks| - 1;
    assert PickedAt(s, alpha, n, ks, z);
    if z > 0 {
      BeginsRight(s, alpha, n, ks, z - 1);
    }
    WiderPicked(s, alpha, n, Prev(ks, z), ks[z]);
  }

  lemma PicksReplace(s: seq<Data>, alpha: real, n: nat, ks: seq<nat>)
    requires Ascending(s) && 0.0 <= alpha <= 1.0 && n < |s| && AllPicked(s, alpha, n, ks) && AllReached(s, alpha, n, ks)
    requires ks != [] && Wide(s, alpha, ks[|ks| - 1]) < Wide(s, alpha, n)
    ensures var ks' := ks[..|ks| - 1] + [n]; AllPicked(s, alpha, n + 1, ks') && AllReached(s, alpha, n + 1, ks')
  {
    hide Window, Ascending, Wide, Picked;
    var z := |ks| - 1;
    var ks' := ks[..z] + [n];
    LastWider(s, alpha, n, ks);
    var more := n + 1;
    forall i | 0 <= i < |ks'| ensures PickedAt(s, alpha, more, ks', i) {
      assert Prev(ks', i) == Prev(ks, i);
      if i < z {
        EarlierStay(s, alpha, n, ks, i);
      }
    }
  }

  /** The final centres are chosen so, whatever was pushed and replaced on the way. */
  lemma {:induction false} CentersChosen(s: seq<Data>, alpha: real, n: nat) returns (ks: seq<nat>)
    requires Ascending(s) && 0.0 <= alpha <= 1.0 && n <= |s|
    ensures Chosen(s, alpha, n, Centers(s, alpha, n), ks)
  {
    hide Window, Ascending, AllPicked, AllReached, WindowsOf;
    if n == 0 {
      ks := [];
      NonePicked(s, alpha);
    } else {
      ks := CentersChosen(s, alpha, n - 1);
      var cs, w := Centers(s, alpha, n - 1), Window(s, alpha, n - 1);
      LastWindow(s, alpha, cs, ks);
      WindowsPlaced(s, alpha, cs, ks, n - 1);
      if cs == [] || cs[|cs| - 1].r < w.l {
        PicksPush(s, alpha, n - 1, ks);
        ks := ks + [n - 1];
      } else if cs[|cs| - 1].r - cs[|cs| - 1].l < w.r - w.l {
        PicksReplace(s, alpha, n - 1, ks);
        ks := ks[..|ks| - 1] + [n - 1];
      } else {
        PicksKeep(s, alpha, n - 1, ks);
      }
    }
  }

  lemma LastWindow(s: seq<Data>, alpha: real, cs: seq<Center>, ks: seq<nat>)
    requires WindowsOf(s, alpha, cs, ks)
    ensures |cs| == |ks|
    ensures ks != [] ==> var last := ks[|ks| - 1]; last < |s| && cs[|cs| - 1] == Window(s, alpha, last)
  {
  }

  lemma WindowsPlaced(s: seq<Data>, alpha: real, cs: seq<Center>, ks: seq<nat>, k: nat)
    requires WindowsOf(s, alpha, cs, ks) && k < |s|
    ensures WindowsOf(s, alpha, cs + [Window(s, alpha, k)], ks + [k])
    ensures ks != [] ==> WindowsOf(s, alpha, cs[..|cs| - 1] + [Window(s, alpha, k)], ks[..|ks| - 1] + [k])
  {
    hide Window;
  }

  lemma NonePicked(s: seq<Data>, alpha: real)
    ensures WindowsOf(s, alpha, [], []) && AllPicked(s, alpha, 0, []) && AllReached(s, alpha, 0, [])
  {
  }

  ghost predicate Dominates(c: Center, w: Center) {
    c.r >= w.l && c.r - c.l >= w.r - w.l
  }

  lemma PlaceNew(cs: seq<Center>, c: Center)
    requires c.l <= c.r
    ensures exists e <- Place(cs, c) :: Dominates(e, c)
  {
    var now := Place(cs, c);
    assert Dominates(now[|now| - 1], c) && now[|now| - 1] in now;
  }

  lemma PlaceKeeps(cs: seq<Center>, c: Center, d: Center, w: Center)
    requires d in cs && Dominates(d, w) && cs[|cs| - 1].r <= c.r
    ensures exists e <- Place(cs, c) :: Dominates(e, w)
  {
    var now, n := Place(cs, c), |cs| - 1;
    var i :| 0 <= i < |cs| && cs[i] == d;
    var e := if i < |now| && now[i] == d then d else c;
    assert e in now && Dominates(e, w);
  }

  /** Whatever happens to it later, an element's window stays reached by a centre at least as wide. */
  lemma {:induction false} SomeCenterDominates(s: seq<Data>, alpha: real, n: nat, m: nat)
    requires Ascending(s) && 0.0 <= alpha <= 1.0 && m < n <= |s|
    requires Window(s, alpha, m).l <= Window(s, alpha, m).r
    ensures exists c <- Centers(s, alpha, n) :: Dominates(c, Window(s, alpha, m))
  {
    hide Window, Place, Dominates, Ascending;
    var cs, w := Centers(s, alpha, n - 1), Window(s, alpha, n - 1);
    if m == n - 1 {
      PlaceNew(cs, w);
    } else {
      SomeCenterDominates(s, alpha, n - 1, m);
      var d :| d in cs && Dominates(d, Window(s, alpha, m));
      CentersAreWindows(s, alpha, n - 1);
      var k: nat :| k < n - 1 && cs[|cs| - 1] == Window(s, alpha, k);
      WindowMoves(s, alpha, k, n - 1);
      PlaceKeeps(cs, w, d, Window(s, alpha, m));
    }
  }

  // ---------- The groups partition a prefix

  function Flat<T>(groups: seq<seq<T>>): seq<T> {
    if groups == [] then [] else Flat(groups[..|groups| - 1]) + groups[|groups| - 1]
  }

  lemma FlatLast<T>(groups: seq<seq<T>>)
    requires groups != []
    ensures multiset(Flat(groups)) == multiset(Flat(groups[..|groups| - 1])) + multiset(groups[|groups| - 1])
  {
  }

  lemma {:induction false} FlatAppend<T>(a: seq<seq<T>>, b: seq<seq<T>>)
    ensures Flat(a + b) == Flat(a) + Flat(b)
  {
    if b == [] {
      assert a + b == a;
    } else {
      var n, g := |b| - 1, b[|b| - 1];
      assert (a + b)[..|a + b| - 1] == a + b[..n] && (a + b)[|a + b| - 1] == g;
      FlatAppend(a, b[..n]);
      assert Flat(a + b) == Flat(a + b[..n]) + g;
      assert Flat(a) + Flat(b[..n]) + g == Flat(a) + (Flat(b[..n]) + g);
    }
  }

  lemma GroupsStep(s: seq<Data>, cs: seq<Center>)
    requires Fit(cs, |s|) && cs != []
    ensures Fit(cs[..|cs| - 1], |s|)
    ensures CenterGroups(s, cs)[..|cs| - 1] == CenterGroups(s, cs[..|cs| - 1])
    ensures GapGroups(s, cs)[..|cs| - 1] == GapGroups(s, cs[..|cs| - 1])
  {
  }

  /** Where the last centre ends. */
  function Reach(cs: seq<Center>): int {
    if cs == [] then 0 else cs[|cs| - 1].r
  }

  lemma PrefixPieces(s: seq<Data>, a: int, b: int, c: int)
    requires 0 <= a <= b <= c <= |s|
    ensures multiset(s[..c]) == multiset(s[..a]) + multiset(s[a..b]) + multiset(s[b..c])
  {
    assert s[..c] == s[..a] + s[a..b] + s[b..c];
  }

  function Pieces(s: seq<Data>, cs: seq<Center>): multiset<Data>
    requires Fit(cs, |s|)
  {
    multiset(Flat(CenterGroups(s, cs))) + multiset(Flat(GapGroups(s, cs)))
  }

  lemma Shuffle<T>(a: multiset<T>, b: multiset<T>, x: multiset<T>, y: multiset<T>)
    ensures (a + x) + (b + y) == a + b + y + x
  {
  }

  lemma LastGroups(s: seq<Data>, cs: seq<Center>)
    requires Fit(cs, |s|) && cs != []
    ensures var init, c := cs[..|cs| - 1], cs[|cs| - 1];
            && Fit(init, |s|) && 0 <= Reach(init) <= |s| && 0 <= c.l <= |s| && 0 <= c.r <= |s|
            && |CenterGroups(s, cs)| == |cs| && CenterGroups(s, cs)[|cs| - 1] == Slice(s, c.l, c.r)
            && |GapGroups(s, cs)| == |cs| && GapGroups(s, cs)[|cs| - 1] == Slice(s, Reach(init), c.l)
  {
    hide Slice;
  }

  /** What the last centre adds: the gap before it, and its group. */
  lemma PiecesStep(s: seq<Data>, cs: seq<Center>)
    requires Fit(cs, |s|) && cs != []
    ensures var init, c := cs[..|cs| - 1], cs[|cs| - 1];
            && Fit(init, |s|) && 0 <= Reach(init) <= |s| && 0 <= c.l <= |s| && 0 <= c.r <= |s|
            && Pieces(s, cs) == Pieces(s, init) + multiset(Slice(s, Reach(init), c.l)) + multiset(Slice(s, c.l, c.r))
  {
    hide Slice, Flat, CenterGroups, GapGroups, Fit, Reach;
    var init, c := cs[..|cs| - 1], cs[|cs| - 1];
    LastGroups(s, cs);
    GroupsStep(s, cs);
    FlatLast(CenterGroups(s, cs));
    FlatLast(GapGroups(s, cs));
    Shuffle(multiset(Flat(CenterGroups(s, init))), multiset(Flat(GapGroups(s, init))),
            multiset(Slice(s, c.l, c.r)), multiset(Slice(s, Reach(init), c.l)));
  }

  /** The records that the gap before a centre has and the gap behind it has again. */
  function Repeated(s: seq<Data>, cs: seq<Center>): multiset<Data>
    requires Fit(cs, |s|)
  {
    if cs == [] then multiset{}
    else Repeated(s, cs[..|cs| - 1]) + multiset(Slice(s, cs[|cs| - 1].r, cs[|cs| - 1].l))
  }

  lemma ApartBounds(cs: seq<Center>, n: nat)
    requires Apart(cs) && Fit(cs, n) && cs != []
    ensures Apart(cs[..|cs| - 1]) && Fit(cs[..|cs| - 1], n)
    ensures 0 <= Reach(cs[..|cs| - 1]) <= cs[|cs| - 1].l <= n && Reach(cs[..|cs| - 1]) <= cs[|cs| - 1].r <= n
  {
    var m := |cs| - 2;
    if m >= 0 {
      assert cs[m].r < cs[m + 1].l && cs[m].r <= cs[m + 1].r;
    }
  }

  /** From the end of one centre over the next. */
  lemma OverCenter(s: seq<Data>, a: int, c: Center)
    requires 0 <= a <= c.l <= |s| && a <= c.r <= |s|
    ensures multiset(s[..a]) + multiset(Slice(s, a, c.l)) + multiset(Slice(s, c.l, c.r))
         == multiset(s[..c.r]) + multiset(Slice(s, c.r, c.l))
  {
    if c.l <= c.r {
      PrefixPieces(s, a, c.l, c.r);
    } else {
      assert s[a..c.l] == s[a..c.r] + s[c.r..c.l];
      assert s[..c.r] == s[..a] + s[a..c.r];
    }
  }

  lemma Regroup<T>(p: multiset<T>, q: multiset<T>, x: multiset<T>, y: multiset<T>, r: multiset<T>, z: multiset<T>)
    requires p + x + y == r + z
    ensures (p + q) + x + y == r + (q + z)
  {
    assert (p + q) + x + y == (p + x + y) + q;
  }

  /** Together the groups are the sorted records up to the end of the last centre, and what is repeated. */
  lemma {:induction false} GroupsAndRepeats(s: seq<Data>, cs: seq<Center>)
    requires Fit(cs, |s|) && Apart(cs)
    ensures 0 <= Reach(cs) <= |s| && Pieces(s, cs) == multiset(s[..Reach(cs)]) + Repeated(s, cs)
  {
    if cs == [] {
      assert CenterGroups(s, cs) == [] && GapGroups(s, cs) == [];
      assert s[..0] == [];
    } else {
      var init, c := cs[..|cs| - 1], cs[|cs| - 1];
      PiecesStep(s, cs);
      ApartBounds(cs, |s|);
      hide Pieces, Apart, Fit, Slice;
      GroupsAndRepeats(s, init);
      OverCenter(s, Reach(init), c);
      Regroup(multiset(s[..Reach(init)]), Repeated(s, init), multiset(Slice(s, Reach(init), c.l)),
              multiset(Slice(s, c.l, c.r)), multiset(s[..c.r]), multiset(Slice(s, c.r, c.l)));
    }
  }

  lemma {:induction false} NothingRepeated(s: seq<Data>, cs: seq<Center>)
    requires Fit(cs, |s|)
    ensures Repeated(s, cs) == multiset{} <==> Forward(cs)
  {
    if cs != [] {
      var init, c := cs[..|cs| - 1], cs[|cs| - 1];
      NothingRepeated(s, init);
      assert Forward(cs) <==> Forward(init) && c.l <= c.r;
      if c.l > c.r {
        assert s[c.r] in Slice(s, c.r, c.l);
      }
    }
  }

  /** They are exactly those records, each once, if and only if no centre ends before it begins. */
  lemma GroupsPartition(s: seq<Data>, cs: seq<Center>)
    requires Fit(cs, |s|) && Apart(cs)
    ensures 0 <= Reach(cs) <= |s|
    ensures Pieces(s, cs) == multiset(s[..Reach(cs)]) <==> Forward(cs)
  {
    hide Pieces, Apart, Fit, Forward;
    GroupsAndRepeats(s, cs);
    NothingRepeated(s, cs);
    var p, x := multiset(s[..Reach(cs)]), Repeated(s, cs);
    if p + x == p {
      assert |x| == |p + x| - |p| == 0;
    }
  }

  // ---------- Which counts are repeated

  /** No negative count has another, at or below it, within the fraction `alpha` of it. */
  ghost predicate Spread(s: seq<Data>, alpha: real) {
    forall i, m :: 0 <= i < |s| && 0 <= m < |s| && i != m && Ins(s[m]) < 0 && Ins(s[i]) <= Ins(s[m]) ==>
      Below(s[i], High(s[m], alpha))
  }

  lemma PlaceTakes(cs: seq<Center>, c: Center)
    requires cs == [] || cs[|cs| - 1].r < c.l
    ensures Place(cs, c) == cs + [c] && c in Place(cs, c)
  {
    assert (cs + [c])[|cs|] == c;
  }

  lemma PlaceLeaves(cs: seq<Center>, c: Center, w: Center)
    requires w in cs && w.r < c.l
    ensures w in Place(cs, c)
  {
    var i :| 0 <= i < |cs| && cs[i] == w;
    assert Place(cs, c)[i] == w;
  }

  /** The window of a negative count is a centre, and is never replaced. */
  lemma {:induction false} NegativeIsCenter(s: seq<Data>, alpha: real, n: nat, m: nat)
    requires Ascending(s) && 0.0 < alpha <= 1.0 && m < n <= |s| && Ins(s[m]) < 0
    ensures Window(s, alpha, m) in Centers(s, alpha, n)
  {
    hide Window, Place, Below, High;
    var cs, c := Centers(s, alpha, n - 1), Window(s, alpha, n - 1);
    WindowOfNegative(s, alpha, m);
    if m == n - 1 {
      if cs != [] {
        CentersAreWindows(s, alpha, n - 1);
        var k: nat :| k < n - 1 && cs[|cs| - 1] == Window(s, alpha, k);
        assert Ins(s[k]) <= Ins(s[m]);
        WindowOfNegative(s, alpha, k);
      }
      PlaceTakes(cs, c);
    } else {
      NegativeIsCenter(s, alpha, n - 1, m);
      WindowPasses(s, alpha, m, n - 1);
      PlaceLeaves(cs, c, Window(s, alpha, m));
    }
  }

  lemma {:induction false} ForwardIffSpread(s: seq<Data>, alpha: real)
    requires Ascending(s) && 0.0 < alpha <= 1.0
    ensures Forward(Centers(s, alpha, |s|)) <==> Spread(s, alpha)
  {
    hide Window, Centers, Ascending, Below, High;
    if Forward(Centers(s, alpha, |s|)) {
      forall i, m | 0 <= i < m < |s| && Ins(s[m]) < 0 ensures Below(s[i], High(s[m], alpha)) {
        NegativeIsCenter(s, alpha, |s|, m);
        WindowOfNegative(s, alpha, m);
      }
      SpreadFromOrder(s, alpha);
    }
    if Spread(s, alpha) {
      SpreadIsForward(s, alpha);
    }
  }

  lemma SpreadFromOrder(s: seq<Data>, alpha: real)
    requires Ascending(s) && forall i, m :: 0 <= i < m < |s| && Ins(s[m]) < 0 ==> Below(s[i], High(s[m], alpha))
    ensures Spread(s, alpha)
  {
    forall i, m | 0 <= i < |s| && 0 <= m < |s| && i != m && Ins(s[m]) < 0 && Ins(s[i]) <= Ins(s[m])
      ensures Below(s[i], High(s[m], alpha))
    {
      if m < i {
        assert Ins(s[m]) <= Ins(s[i]);
        assert Below(s[m], High(s[i], alpha));
      }
    }
  }

  lemma SpreadIsForward(s: seq<Data>, alpha: real)
    requires Ascending(s) && 0.0 < alpha <= 1.0 && Spread(s, alpha)
    ensures Forward(Centers(s, alpha, |s|))
  {
    hide Window, Centers, Below, High;
    CentersAreWindows(s, alpha, |s|);
    var cs := Centers(s, alpha, |s|);
    forall i | 0 <= i < |cs| ensures cs[i].l <= cs[i].r {
      var k: nat :| k < |s| && cs[i] == Window(s, alpha, k);
      if Ins(s[k]) < 0 {
        forall j | 0 <= j < k ensures Below(s[j], High(s[k], alpha)) {
          assert Ins(s[j]) <= Ins(s[k]);
        }
        WindowOfNegative(s, alpha, k);
      } else {
        WindowOpens(s, alpha, k);
      }
    }
  }

  /**
   The groups of the code are exactly a sorted prefix when, and only when, no two negative counts are within the
   radius.
   */
  lemma {:induction false} ClassifyIsPrefix(s: seq<Data>, alpha: real)
    requires Ascending(s) && 0.0 < alpha <= 1.0 && s != []
    ensures var cs := Centers(s, alpha, |s|);
            && Fit(cs, |s|) && cs != [] && 0 <= Reach(cs) <= |s|
            && (Pieces(s, cs) == multiset(s[..Reach(cs)]) <==> Spread(s, alpha))
  {
    hide Centers, Spread, Forward, Apart, Pieces;
    CentersFit(s, alpha, |s|);
    CentersApart(s, alpha, |s|);
    GroupsPartition(s, Centers(s, alpha, |s|));
    ForwardIffSpread(s, alpha);
  }

  // ---------- Which counts make the groups hold a record twice

  /** Of three records in order of their counts, a negative one in the middle has the first out of its reach. */
  ghost predicate Sparse(s: seq<Data>, alpha: real) {
    forall i, m, k :: 0 <= i < |s| && 0 <= m < |s| && 0 <= k < |s| && i != m && m != k && i != k ==>
      Ins(s[i]) <= Ins(s[m]) <= Ins(s[k]) && Ins(s[m]) < 0 ==> Below(s[i], High(s[m], alpha))
  }

  /** If only the last centre ends before it begins, the groups still hold no record twice. */
  lemma OnceIfInitForward(s: seq<Data>, cs: seq<Center>)
    requires Fit(cs, |s|) && Apart(cs) && cs != [] && Forward(cs[..|cs| - 1])
    ensures Pieces(s, cs) <= multiset(s)
  {
    var init, c := cs[..|cs| - 1], cs[|cs| - 1];
    hide Pieces, Forward;
    ApartBounds(cs, |s|);
    PiecesStep(s, cs);
    GroupsPartition(s, init);
    hide Apart, Fit;
    OverCenter(s, Reach(init), c);
    PrefixIsPart(s, c);
  }

  lemma PrefixIsPart(s: seq<Data>, c: Center)
    requires 0 <= c.l <= |s| && 0 <= c.r <= |s|
    ensures multiset(s[..c.r]) + multiset(Slice(s, c.r, c.l)) <= multiset(s)
  {
    var n := if c.r <= c.l then c.l else c.r;
    assert s == s[..n] + s[n..];
    if c.r <= c.l {
      assert s[..c.l] == s[..c.r] + s[c.r..c.l];
    }
  }

  /** If another centre does, the gaps on both its sides hold the record where it ends. */
  lemma {:induction false} TwiceIfNot(s: seq<Data>, cs: seq<Center>, j: nat)
    requires Fit(cs, |s|) && Apart(cs) && j < |cs| - 1 && cs[j].r < cs[j].l
    ensures Pieces(s, cs)[s[cs[j].r]] >= 2
  {
    hide Pieces, Slice;
    var init, c := cs[..|cs| - 1], cs[|cs| - 1];
    ApartBounds(cs, |s|);
    PiecesStep(s, cs);
    if j < |cs| - 2 {
      TwiceIfNot(s, init, j);
    } else {
      assert cs[j].r < c.l && Reach(init) == cs[j].r && init[..j] == cs[..j];
      ApartBounds(init, |s|);
      PiecesStep(s, init);
      hide Apart, Fit, Reach;
      InSlice(s, cs[j].r, c.l, cs[j].r);
      InSlice(s, Reach(init[..j]), cs[j].l, cs[j].r);
    }
  }

  lemma InSlice(s: seq<Data>, l: nat, r: nat, i: nat)
    requires l <= i < r <= |s|
    ensures multiset(Slice(s, l, r))[s[i]] >= 1
  {
    assert s[l..r][i - l] == s[i];
    assert s[i] in s[l..r];
  }

  lemma PlaceInit(cs: seq<Center>, c: Center)
    ensures forall e <- Place(cs, c)[..|Place(cs, c)| - 1] :: e in cs
    ensures cs != [] ==> cs[..|cs| - 1] <= Place(cs, c)[..|Place(cs, c)| - 1]
    ensures cs != [] && cs[|cs| - 1].r < c.l ==> Place(cs, c)[..|Place(cs, c)| - 1] == cs
  {
  }

  /** The window of a negative count that is not the greatest is a centre with another behind it. */
  lemma {:induction false} NegativeIsNotLast(s: seq<Data>, alpha: real, n: nat, m: nat)
    requires Ascending(s) && 0.0 < alpha <= 1.0 && m + 1 < n <= |s| && Ins(s[m]) < 0
    ensures var cs := Centers(s, alpha, n); cs != [] && Window(s, alpha, m) in cs[..|cs| - 1]
  {
    hide Window, Place, Below, High;
    var cs, c := Centers(s, alpha, n - 1), Window(s, alpha, n - 1);
    CentersFit(s, alpha, n - 1);
    CentersFit(s, alpha, n);
    PlaceInit(cs, c);
    WindowOfNegative(s, alpha, m);
    if m + 1 == n - 1 {
      NegativeIsCenter(s, alpha, n - 1, m);
      LastIsNewest(s, alpha, m);
      WindowPasses(s, alpha, m, n - 1);
    } else {
      NegativeIsNotLast(s, alpha, n - 1, m);
    }
  }

  /** Right after a negative count its window is the last centre. */
  lemma LastIsNewest(s: seq<Data>, alpha: real, m: nat)
    requires Ascending(s) && 0.0 < alpha <= 1.0 && m < |s| && Ins(s[m]) < 0
    ensures var cs := Centers(s, alpha, m + 1); cs != [] && cs[|cs| - 1] == Window(s, alpha, m)
  {
    hide Window, Below, High, Place;
    var cs := Centers(s, alpha, m);
    WindowOfNegative(s, alpha, m);
    CentersAreWindows(s, alpha, m);
    if cs != [] {
      var k: nat :| k < m && cs[|cs| - 1] == Window(s, alpha, k);
      assert Ins(s[k]) <= Ins(s[m]);
      WindowOfNegative(s, alpha, k);
    }
    PlaceTakes(cs, Window(s, alpha, m));
  }

  lemma {:induction false} InitForwardIffSparse(s: seq<Data>, alpha: real)
    requires Ascending(s) && 0.0 < alpha <= 1.0 && s != []
    ensures var cs := Centers(s, alpha, |s|); cs != [] && (Forward(cs[..|cs| - 1]) <==> Sparse(s, alpha))
  {
    hide Window, Place, Ascending, Below, High, Forward, Sparse;
    CentersFit(s, alpha, |s|);
    var cs := Centers(s, alpha, |s|);
    var init := cs[..|cs| - 1];
    if Forward(init) {
      forall i, m | 0 <= i < m < |s| - 1 && Ins(s[m]) < 0 ensures Below(s[i], High(s[m], alpha)) {
        NegativeIsNotLast(s, alpha, |s|, m);
        ForwardAt(init, Window(s, alpha, m));
        WindowOfNegative(s, alpha, m);
      }
      SparseFromOrder(s, alpha);
    }
    if Sparse(s, alpha) {
      SparseIsForward(s, alpha);
    }
  }

  lemma ForwardAt(cs: seq<Center>, c: Center)
    requires Forward(cs) && c in cs
    ensures c.l <= c.r
  {
  }

  lemma SparseFromOrder(s: seq<Data>, alpha: real)
    requires Ascending(s) && forall i, m :: 0 <= i < m < |s| - 1 && Ins(s[m]) < 0 ==> Below(s[i], High(s[m], alpha))
    ensures Sparse(s, alpha)
  {
    hide Below;
    forall i, m, k | 0 <= i < |s| && 0 <= m < |s| && 0 <= k < |s| && i != m && m != k && i != k
        && Ins(s[i]) <= Ins(s[m]) <= Ins(s[k]) && Ins(s[m]) < 0
      ensures Below(s[i], High(s[m], alpha))
    {
      var a, b := SortedPair(s, i, m, k);
      assert Below(s[a], High(s[b], alpha));
      SameCounts(s[a], s[i], s[b], s[m], alpha);
    }
  }

  /** The first two of three places in order, whose counts are those of the first two in order of counts. */
  lemma SortedPair(s: seq<Data>, i: nat, m: nat, k: nat) returns (a: nat, b: nat)
    requires Ascending(s) && i < |s| && m < |s| && k < |s| && i != m && m != k && i != k
    requires Ins(s[i]) <= Ins(s[m]) <= Ins(s[k])
    ensures a < b < |s| - 1 && Ins(s[a]) == Ins(s[i]) && Ins(s[b]) == Ins(s[m])
  {
    a := if i < m && i < k then i else if m < k then m else k;
    b := if (i < m) != (i < k) then i else if (m < i) != (m < k) then m else k;
    hide Ins;
  }

  lemma SameCounts(a: Data, i: Data, b: Data, m: Data, alpha: real)
    requires Ins(a) == Ins(i) && Ins(b) == Ins(m) && Below(a, High(b, alpha))
    ensures Below(i, High(m, alpha))
  {
  }

  lemma {:induction false} SparseIsForward(s: seq<Data>, alpha: real)
    requires Ascending(s) && 0.0 < alpha <= 1.0 && s != [] && Sparse(s, alpha)
    ensures var cs := Centers(s, alpha, |s|); cs != [] && Forward(cs[..|cs| - 1])
  {
    hide Window, Place, Below, High;
    var n := |s| - 1;
    CentersFit(s, alpha, |s|);
    CentersAreWindows(s, alpha, n);
    PlaceInit(Centers(s, alpha, n), Window(s, alpha, n));
    var before, cs := Centers(s, alpha, n), Centers(s, alpha, |s|);
    forall i | 0 <= i < |cs| - 1 ensures cs[i].l <= cs[i].r {
      assert cs[..|cs| - 1][i] == cs[i] && cs[i] in cs[..|cs| - 1];
      assert cs == Place(before, Window(s, alpha, n)) && cs[i] in before;
      var j :| 0 <= j < |before| && before[j] == cs[i];
      var k: nat :| k < n && before[j] == Window(s, alpha, k);
      if Ins(s[k]) < 0 {
        forall h | 0 <= h < k ensures Below(s[h], High(s[k], alpha)) {
          assert Ins(s[h]) <= Ins(s[k]) <= Ins(s[n]);
        }
        WindowOfNegative(s, alpha, k);
      } else {
        WindowOpens(s, alpha, k);
      }
    }
  }

  /** The groups hold no record twice if the counts are sparse, and for distinct records only then. */
  lemma {:induction false} ClassifyIsDisjoint(s: seq<Data>, alpha: real)
    requires Ascending(s) && 0.0 < alpha <= 1.0 && s != []
    ensures var cs := Centers(s, alpha, |s|);
            && Fit(cs, |s|)
            && (Sparse(s, alpha) ==> Pieces(s, cs) <= multiset(s))
            && (Distinct(s) && Pieces(s, cs) <= multiset(s) ==> Sparse(s, alpha))
  {
    hide Centers, Sparse, Forward, Apart, Pieces, Distinct, Ascending;
    var cs := Centers(s, alpha, |s|);
    CentersFit(s, alpha, |s|);
    CentersApart(s, alpha, |s|);
    InitForwardIffSparse(s, alpha);
    if Sparse(s, alpha) {
      OnceIfInitForward(s, cs);
    } else {
      var j := FirstBackward(cs[..|cs| - 1]);
      TwiceIfNot(s, cs, j);
      if Distinct(s) {
        OnceIfDistinct(s, s[cs[j].r]);
      }
    }
  }

  lemma FirstBackward(cs: seq<Center>) returns (j: nat)
    requires !Forward(cs)
    ensures j < |cs| && cs[j].r < cs[j].l
  {
    j := 0;
    while cs[j].l <= cs[j].r
      invariant j < |cs| && forall i :: 0 <= i < j ==> cs[i].l <= cs[i].r
      decreases |cs| - j
    {
      j := j + 1;
    }
  }

  function Sample(ins: int): Data {
    Data([ins], 1, 1, 0, 0, 0, 0)
  }

  const NEGATIVE := [Sample(-102), Sample(-101), Sample(-100)]

  lemma {:induction false} NegativeWindow(m: nat)
    requires m < 3
    ensures Window(NEGATIVE, 0.02, m) == Center(m, 0)
  {
    StopsAtFirst(NEGATIVE, Low(NEGATIVE[m], 0.02), m, m);
    StopsAtFirst(NEGATIVE, High(NEGATIVE[m], 0.02), 3, 0);
  }

  lemma {:induction false} NegativeCenters()
    ensures Centers(NEGATIVE, 0.02, 3) == [Center(0, 0), Center(1, 0), Center(2, 0)]
  {
    hide Window;
    NegativeWindow(0);
    NegativeWindow(1);
    NegativeWindow(2);
    assert Centers(NEGATIVE, 0.02, 1) == [Center(0, 0)];
    assert Centers(NEGATIVE, 0.02, 2) == [Center(0, 0), Center(1, 0)];
  }

  /** Three negative counts within the radius: no centre holds a record, and gaps repeat what is before them. */
  lemma {:induction false} NegativeCountsRepeat()
    ensures var cs := Centers(NEGATIVE, 0.02, 3);
            && Ascending(NEGATIVE) && Fit(cs, 3)
            && Flat(CenterGroups(NEGATIVE, cs)) == []
            && Flat(GapGroups(NEGATIVE, cs)) == [NEGATIVE[0], NEGATIVE[0], NEGATIVE[1]]
  {
    hide Window, Centers, Flat;
    NegativeCenters();
    var s, cs := NEGATIVE, [Center(0, 0), Center(1, 0), Center(2, 0)];
    var gaps := GapGroups(s, cs);
    assert gaps[0] == [] && gaps[1] == s[0..1] == [s[0]] && gaps[2] == s[0..2] == [s[0], s[1]];
    assert CenterGroups(s, cs) == [[], [], []] && gaps == [[], [s[0]], [s[0], s[1]]];
    FlatThree<Data>([], [], []);
    FlatThree([], [s[0]], [s[0], s[1]]);
  }

  lemma FlatThree<T>(a: seq<T>, b: seq<T>, c: seq<T>)
    ensures Flat([a, b, c]) == a + b + c
  {
    assert [a, b, c][..2] == [a, b] && [a, b][..1] == [a] && [a][..0] == [];
    assert Flat([a]) == [] + a == a;
  }
}
