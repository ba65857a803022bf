/**
 Merging intervals into time bins: an incremental sweep against the overlap-weighted mean it stands for.
 Doubles are exact reals.
 */
module Sweep {
  import opened Paths
  import opened Sorting

  const EPS := 0.0000000001

  /** What a bin holds that no interval covers. */
  const UNCOVERED := -0.005

  // ---------- The definition

  function Min(x: real, y: real): real {
    if x < y then x else y
  }

  function Max(x: real, y: real): real {
    if x < y then y else x
  }

  /** How much of [a, b) the interval covers. */
  function Overlap(iv: Interval, a: real, b: real): real {
    Max(0.0, Min(iv.r, b) - Max(iv.l, a))
  }

  /** Weight of an interval: its performance, or 1 to count time alone. */
  function Weight(iv: Interval, byPerf: bool): real {
    if byPerf then iv.perf else 1.0
  }

  function Scale(x: real, step: real): real {
    x * step
  }

  /** Weighted time of one interval in [a, b). */
  function Share(iv: Interval, byPerf: bool, a: real, b: real): real {
    Scale(Weight(iv, byPerf), Overlap(iv, a, b))
  }

  /** Weighted time in [a, b) of the first `n` intervals. */
  function Covered(s: seq<Interval>, byPerf: bool, a: real, b: real, n: nat): real
    requires n <= |s|
  {
    if n == 0 then 0.0
    else Covered(s, byPerf, a, b, n - 1) + Share(s[n - 1], byPerf, a, b)
  }

  function Abs(x: real): real {
    if x < 0.0 then -x else x
  }

  /** Mean performance given the weighted and the plain covered time. */
  function Mean(weighted: real, time: real): real {
    if Abs(time) >= EPS then weighted / time else UNCOVERED
  }

  /** What the bin [a, b) should hold. */
  function Bin(s: seq<Interval>, a: real, b: real): real {
    Mean(Covered(s, true, a, b, |s|), Covered(s, false, a, b, |s|))
  }

  /** How many bins of width `step` start in [i, r). */
  function Count(i: real, r: real, step: real): nat
    requires step > 0.0
  {
    if i >= r then 0 else ((r - i) / step).Floor + 1
  }

  lemma DivideBack(t: real, x: real, step: real)
    requires step > 0.0 && t == x * step
    ensures t / step == x
  {
  }

  lemma Nonnegative(q: real, step: real)
    requires step > 0.0 && q * step > 0.0
    ensures q >= 0.0
  {
  }

  lemma CountStep(i: real, r: real, step: real)
    requires step > 0.0 && i < r
    ensures Count(i + step, r, step) < Count(i, r, step)
  {
    var q := (r - i) / step;
    assert q * step == r - i;
    assert q >= 0.0 by {
      Nonnegative(q, step);
    }
    var t := r - (i + step);
    assert (q - 1.0) * step == t;
    DivideBack(t, q - 1.0, step);
    assert (q - 1.0).Floor == q.Floor - 1;
  }

  function Bins(s: seq<Interval>, i: real, r: real, step: real): seq<real>
    requires step > 0.0
    decreases Count(i, r, step)
  {
    if i >= r then []
    else
      CountStep(i, r, step);
      [Bin(s, i, i + step)] + Bins(s, i + step, r, step)
  }

  // ---------- The sweep

  /** Weighted distance of an interval's ends from the start of a bin. */
  function AtLeft(iv: Interval, byPerf: bool, i: real): real {
    Weight(iv, byPerf) * (iv.l - i)
  }

  function AtRight(iv: Interval, byPerf: bool, i: real): real {
    Weight(iv, byPerf) * (iv.r - i)
  }

  /** The two iterators, the sums that carry over, and the partial sums of one bin. */
  datatype Cursor = Cursor(rit: nat, lit: nat, sum: real, cnt: int, psum: real, pcnt: real)

  /** Takes in the intervals that begin in the bin. */
  function Enter(s: seq<Interval>, i: real, step: real, c: Cursor): (c': Cursor)
    ensures c'.lit == c.lit && c.rit <= c'.rit && (c.rit <= |s| ==> c'.rit <= |s|)
    decreases |s| - c.rit
  {
    if c.rit < |s| && s[c.rit].l <= i + step then
      var iv := s[c.rit];
      Enter(s, i, step, Cursor(c.rit + 1, c.lit, c.sum + iv.perf, c.cnt + 1,
                               c.psum - AtLeft(iv, true, i), c.pcnt - AtLeft(iv, false, i)))
    else c
  }

  /** Lets go the intervals that end in the bin, in the order of their left ends. */
  function Leave(s: seq<Interval>, i: real, step: real, c: Cursor): (c': Cursor)
    ensures c'.rit == c.rit && c.lit <= c'.lit && (c.lit <= |s| ==> c'.lit <= |s|)
    decreases |s| - c.lit
  {
    if c.lit < |s| && s[c.lit].r < i + step then
      var iv := s[c.lit];
      Leave(s, i, step, Cursor(c.rit, c.lit + 1, c.sum - iv.perf, c.cnt - 1,
                               c.psum + AtRight(iv, true, i), c.pcnt + AtRight(iv, false, i)))
    else c
  }

  function Turn(s: seq<Interval>, i: real, step: real, c: Cursor): Cursor {
    Leave(s, i, step, Enter(s, i, step, c.(psum := 0.0, pcnt := 0.0)))
  }

  function Value(c: Cursor, step: real): real {
    Mean(Scale(c.sum, step) + c.psum, Scale(c.cnt as real, step) + c.pcnt)
  }

  function Swept(s: seq<Interval>, i: real, r: real, step: real, c: Cursor): seq<real>
    requires step > 0.0
    decreases Count(i, r, step)
  {
    if i >= r then []
    else
      CountStep(i, r, step);
      var c' := Turn(s, i, step, c);
      [Value(c', step)] + Swept(s, i + step, r, step, c')
  }

  const START_CURSOR := Cursor(0, 0, 0.0, 0, 0.0, 0.0)

  ghost predicate ByLeft(s: seq<Interval>) {
    forall i, j :: 0 <= i < j < |s| ==> s[i].l <= s[j].l
  }

  method SortByLeft(intervals: seq<Interval>) returns (s: seq<Interval>)
    ensures ByLeft(s) && multiset(s) == multiset(intervals)
  {
    var key := (iv: Interval) => iv.l;
    s := SortBy(intervals, key);
    assert forall i, j :: 0 <= i < j < |s| ==> key(s[i]) <= key(s[j]);
  }

  /** The products of the code. */
  lemma AtEnds(iv: Interval, i: real)
    ensures AtLeft(iv, true, i) == iv.perf * (iv.l - i) && AtLeft(iv, false, i) == iv.l - i
    ensures AtRight(iv, true, i) == iv.perf * (iv.r - i) && AtRight(iv, false, i) == iv.r - i
  {
  }

  lemma EnterStep(s: seq<Interval>, i: real, step: real, c: Cursor)
    ensures Enter(s, i, step, c) ==
            if c.rit < |s| && s[c.rit].l <= i + step then
              var iv := s[c.rit];
              Enter(s, i, step, Cursor(c.rit + 1, c.lit, c.sum + iv.perf, c.cnt + 1,
                                       c.psum - AtLeft(iv, true, i), c.pcnt - AtLeft(iv, false, i)))
            else c
  {
    hide AtLeft;
  }

  lemma LeaveStep(s: seq<Interval>, i: real, step: real, c: Cursor)
    ensures Leave(s, i, step, c) ==
            if c.lit < |s| && s[c.lit].r < i + step then
              var iv := s[c.lit];
              Leave(s, i, step, Cursor(c.rit, c.lit + 1, c.sum - iv.perf, c.cnt - 1,
                                       c.psum + AtRight(iv, true, i), c.pcnt + AtRight(iv, false, i)))
            else c
  {
    hide AtRight;
  }

  method EnterLoop(s: seq<Interval>, i: real, step: real, c: Cursor) returns (c': Cursor)
    ensures c' == Enter(s, i, step, c)
  {
    hide AtLeft, AtRight, Enter;
    var rit, cnt, sum, psum, pcnt := c.rit, c.cnt, c.sum, c.psum, c.pcnt;
    while rit < |s| && s[rit].l <= i + step
      invariant Enter(s, i, step, Cursor(rit, c.lit, sum, cnt, psum, pcnt)) == Enter(s, i, step, c)
      decreases |s| - rit
    {
      var iv := s[rit];
      AtEnds(iv, i);
      EnterStep(s, i, step, Cursor(rit, c.lit, sum, cnt, psum, pcnt));
      cnt, sum := cnt + 1, sum + iv.perf;
      psum := psum - iv.perf * (iv.l - i);
      pcnt := pcnt - (iv.l - i);
      rit := rit + 1;
    }
    c' := Cursor(rit, c.lit, sum, cnt, psum, pcnt);
    EnterStep(s, i, step, c');
  }

  method LeaveLoop(s: seq<Interval>, i: real, step: real, c: Cursor) returns (c': Cursor)
    ensures c' == Leave(s, i, step, c)
  {
    hide AtLeft, AtRight, Leave;
    var lit, cnt, sum, psum, pcnt := c.lit, c.cnt, c.sum, c.psum, c.pcnt;
    while lit < |s| && s[lit].r < i + step
      invariant Leave(s, i, step, Cursor(c.rit, lit, sum, cnt, psum, pcnt)) == Leave(s, i, step, c)
      decreases |s| - lit
    {
      var iv := s[lit];
      AtEnds(iv, i);
      LeaveStep(s, i, step, Cursor(c.rit, lit, sum, cnt, psum, pcnt));
      cnt, sum := cnt - 1, sum - iv.perf;
      psum := psum + iv.perf * (iv.r - i);
      pcnt := pcnt + (iv.r - i);
      lit := lit + 1;
    }
    c' := Cursor(c.rit, lit, sum, cnt, psum, pcnt);
    LeaveStep(s, i, step, c');
  }

  method MeanOf(c: Cursor, step: real) returns (value: real)
    ensures value == Value(c, step)
  {
    if Abs(c.cnt as real * step + c.pcnt) >= EPS {
      value := (c.sum * step + c.psum) / (c.cnt as real * step + c.pcnt);
    } else {
      value := UNCOVERED;
    }
  }

  lemma SweptStep(s: seq<Interval>, i: real, r: real, step: real, c: Cursor, ret: seq<real>)
    requires step > 0.0 && i < r
    ensures var c' := Turn(s, i, step, c);
            ret + Swept(s, i, r, step, c) == ret + [Value(c', step)] + Swept(s, i + step, r, step, c')
  {
    hide Turn, Value, Count;
  }

  /** The sweep over the intervals in some order by left ends. */
  ghost predicate SweptFrom(s: seq<Interval>, intervals: seq<Interval>, l: int, r: int, step: real, bins: seq<real>)
    requires step > 0.0
  {
    ByLeft(s) && multiset(s) == multiset(intervals) && bins == Swept(s, l as real, r as real, step, START_CURSOR)
  }

  /**
   The code; the order by right ends that it asks for is never computed, and the order by left ends serves
   instead.
   */
  method MergeIntervalWeightedMean(intervals: seq<Interval>, l: int, r: int, step: real)
    returns (ret: seq<real>)
    requires step > 0.0
    ensures exists s :: SweptFrom(s, intervals, l, r, step, ret)
  {
    hide Enter, Leave, Count, ByLeft;
    var s := SortByLeft(intervals);
    ret := [];
    var c := START_CURSOR;
    var i := l as real;
    ghost var goal := Swept(s, i, r as real, step, c);
    assert ret + goal == goal;
    hide Value;
    while i < r as real
      invariant goal == ret + Swept(s, i, r as real, step, c)
      decreases Count(i, r as real, step)
    {
      ghost var turn := Turn(s, i, step, c);
      SweptStep(s, i, r as real, step, c, ret);
      c := c.(psum := 0.0, pcnt := 0.0);
      c := EnterLoop(s, i, step, c);
      c := LeaveLoop(s, i, step, c);
      assert c == turn;
      hide Turn;
      var value := MeanOf(c, step);
      CountStep(i, r as real, step);
      ret := ret + [value];
      i := i + step;
    }
    assert ret + [] == ret;
    assert SweptFrom(s, intervals, l, r, step, ret);
  }

  // ---------- The sweep computes the definition

  /** In order of left ends; no interval is backwards or begins before the first bin. */
  ghost predicate Ready(s: seq<Interval>, from: real) {
    ByLeft(s) && forall i :: 0 <= i < |s| ==> from <= s[i].l <= s[i].r
  }

  /** The intervals that end before `b` come before all that do not. */
  ghost predicate Aligned(s: seq<Interval>, b: real) {
    forall j, k :: 0 <= j < k < |s| && s[k].r < b ==> s[j].r < b
  }

  /** The same at the end of every bin. */
  ghost predicate AlignedFrom(s: seq<Interval>, i: real, r: real, step: real)
    requires step > 0.0
    decreases Count(i, r, step)
  {
    i < r ==> Aligned(s, i + step) && (CountStep(i, r, step); AlignedFrom(s, i + step, r, step))
  }

  /** Sums of weights, of weighted offsets of left ends, and of right ends, from `a` to below `b`. */
  function Weights(s: seq<Interval>, byPerf: bool, a: nat, b: nat): real
    requires b <= |s|
  {
    if b <= a then 0.0 else Weights(s, byPerf, a, b - 1) + Weight(s[b - 1], byPerf)
  }

  function Lefts(s: seq<Interval>, byPerf: bool, i: real, a: nat, b: nat): real
    requires b <= |s|
  {
    if b <= a then 0.0 else Lefts(s, byPerf, i, a, b - 1) + AtLeft(s[b - 1], byPerf, i)
  }

  function Rights(s: seq<Interval>, byPerf: bool, i: real, a: nat, b: nat): real
    requires b <= |s|
  {
    if b <= a then 0.0 else Rights(s, byPerf, i, a, b - 1) + AtRight(s[b - 1], byPerf, i)
  }

  lemma {:induction false} WeightsFront(s: seq<Interval>, byPerf: bool, i: real, a: nat, b: nat)
    requires a < b <= |s|
    ensures Weights(s, byPerf, a, b) == Weight(s[a], byPerf) + Weights(s, byPerf, a + 1, b)
    ensures Lefts(s, byPerf, i, a, b) == AtLeft(s[a], byPerf, i) + Lefts(s, byPerf, i, a + 1, b)
    ensures Rights(s, byPerf, i, a, b) == AtRight(s[a], byPerf, i) + Rights(s, byPerf, i, a + 1, b)
    decreases b
  {
    if a < b - 1 {
      WeightsFront(s, byPerf, i, a, b - 1);
    }
  }

  /** The sum that carries over and the partial sum, of performances or of counts. */
  function Carry(c: Cursor, byPerf: bool): real {
    if byPerf then c.sum else c.cnt as real
  }

  function Partial(c: Cursor, byPerf: bool): real {
    if byPerf then c.psum else c.pcnt
  }

  /** What entering adds, and where it stops. */
  lemma {:induction false} EnterSums(s: seq<Interval>, byPerf: bool, i: real, step: real, c: Cursor)
    requires c.rit <= |s|
    ensures var c' := Enter(s, i, step, c);
            && Carry(c', byPerf) == Carry(c, byPerf) + Weights(s, byPerf, c.rit, c'.rit)
            && Partial(c', byPerf) == Partial(c, byPerf) - Lefts(s, byPerf, i, c.rit, c'.rit)
            && (c'.rit < |s| ==> i + step < s[c'.rit].l)
            && (forall k :: c.rit <= k < c'.rit ==> s[k].l <= i + step)
    decreases |s| - c.rit
  {
    hide AtLeft, AtRight, Rights;
    if c.rit < |s| && s[c.rit].l <= i + step {
      var iv := s[c.rit];
      var c1 := Cursor(c.rit + 1, c.lit, c.sum + iv.perf, c.cnt + 1, c.psum - AtLeft(iv, true, i),
          c.pcnt - AtLeft(iv, false, i));
      EnterSums(s, byPerf, i, step, c1);
      WeightsFront(s, byPerf, i, c.rit, Enter(s, i, step, c1).rit);
    }
  }

  lemma {:induction false} LeaveSums(s: seq<Interval>, byPerf: bool, i: real, step: real, c: Cursor)
    requires c.lit <= |s|
    ensures var c' := Leave(s, i, step, c);
            && Carry(c', byPerf) == Carry(c, byPerf) - Weights(s, byPerf, c.lit, c'.lit)
            && Partial(c', byPerf) == Partial(c, byPerf) + Rights(s, byPerf, i, c.lit, c'.lit)
            && (c'.lit < |s| ==> i + step <= s[c'.lit].r)
            && (forall k :: c.lit <= k < c'.lit ==> s[k].r < i + step)
    decreases |s| - c.lit
  {
    hide AtLeft, AtRight, Lefts;
    if c.lit < |s| && s[c.lit].r < i + step {
      var iv := s[c.lit];
      var c1 := Cursor(c.rit, c.lit + 1, c.sum - iv.perf, c.cnt - 1, c.psum + AtRight(iv, true, i),
          c.pcnt + AtRight(iv, false, i));
      LeaveSums(s, byPerf, i, step, c1);
      WeightsFront(s, byPerf, i, c.lit, Leave(s, i, step, c1).lit);
    }
  }

  /** Before the bin at `i`: what has ended, what is under way and what is to come. */
  ghost predicate Placed(s: seq<Interval>, i: real, lit: nat, rit: nat) {
    && lit <= rit <= |s|
    && (forall k :: 0 <= k < lit ==> s[k].r < i)
    && (forall k :: lit <= k < |s| ==> i <= s[k].r)
    && (forall k :: 0 <= k < rit ==> s[k].l <= i)
    && (forall k :: rit <= k < |s| ==> i <= s[k].l)
  }

  /** Weighted contributions of one interval to the bin's sums. */
  function Part(iv: Interval, byPerf: bool, i: real, step: real, stays: bool, comes: bool, goes: bool): real {
    (if stays then Weight(iv, byPerf) * step else 0.0)
    - (if comes then AtLeft(iv, byPerf, i) else 0.0)
    + (if goes then AtRight(iv, byPerf, i) else 0.0)
  }

  lemma Distribute(w: real, a: real, b: real, c: real)
    ensures w * (a - b + c) == w * a - w * b + w * c
  {
  }

  /** The time from the end of an interval to that of the bin, if it ended in the bin and was not let go. */
  function Over(iv: Interval, byPerf: bool, b: real, stays: bool): real {
    if stays && iv.r < b then Weight(iv, byPerf) * (b - iv.r) else 0.0
  }

  /** One interval's part in the bin's sums is its weighted overlap with the bin, and what is over. */
  lemma OnePart(iv: Interval, byPerf: bool, i: real, step: real, stays: bool, comes: bool, goes: bool)
    requires step > 0.0 && iv.l <= iv.r
    requires comes ==> i <= iv.l <= i + step
    requires goes ==> i <= iv.r < i + step
    requires stays ==> i <= iv.r && iv.l <= i + step
    requires !stays && !goes ==> !comes && (iv.r < i || i + step < iv.l)
    requires (stays || goes) && !comes ==> iv.l <= i
    requires !(stays && goes)
    ensures Part(iv, byPerf, i, step, stays, comes, goes) ==
            Share(iv, byPerf, i, i + step) + Over(iv, byPerf, i + step, stays)
  {
    var w := Weight(iv, byPerf);
    hide Weight;
    var a := if stays then step else 0.0;
    var b := if comes then iv.l - i else 0.0;
    var c := if goes then iv.r - i else 0.0;
    var d := if stays && iv.r < i + step then i + step - iv.r else 0.0;
    assert Overlap(iv, i, i + step) == a - b + c - d;
    hide Overlap;
    Distribute(w, a, b, c);
    Distribute(w, a - b + c, d, 0.0);
  }

  function Clamp(x: nat, n: nat): nat {
    if x < n then x else n
  }

  /** The bin's sums over the first `n` intervals, when the iterators move from `lit`, `rit` to `lit2`, `rit2`. */
  function BinSum(s: seq<Interval>, byPerf: bool, i: real, step: real, lit: nat, rit: nat, lit2: nat, rit2: nat,
      n: nat): real
    requires n <= |s|
  {
    Scale(Weights(s, byPerf, Clamp(lit2, n), Clamp(rit2, n)), step)
    - Lefts(s, byPerf, i, Clamp(rit, n), Clamp(rit2, n))
    + Rights(s, byPerf, i, Clamp(lit, n), Clamp(lit2, n))
  }

  lemma {:induction false} BinSumStep(s: seq<Interval>, byPerf: bool, i: real, step: real,
                                      lit: nat, rit: nat, lit2: nat, rit2: nat, n: nat)
    requires n < |s| && lit <= lit2 && rit <= rit2
    ensures BinSum(s, byPerf, i, step, lit, rit, lit2, rit2, n + 1) ==
            BinSum(s, byPerf, i, step, lit, rit, lit2, rit2, n)
            + Part(s[n], byPerf, i, step, lit2 <= n < rit2, rit <= n < rit2, lit <= n < lit2)
  {
    var stays, comes, goes := lit2 <= n < rit2, rit <= n < rit2, lit <= n < lit2;
    var x := if stays then Weight(s[n], byPerf) else 0.0;
    var y := if comes then AtLeft(s[n], byPerf, i) else 0.0;
    var z := if goes then AtRight(s[n], byPerf, i) else 0.0;
    assert Part(s[n], byPerf, i, step, stays, comes, goes) == Scale(x, step) - y + z;
    hide AtLeft, AtRight, Weight, Part, Scale;
    SumsStep(s, byPerf, i, lit2, rit2, n);
    SumsStep(s, byPerf, i, rit, rit2, n);
    SumsStep(s, byPerf, i, lit, lit2, n);
    ScaleAdd(Weights(s, byPerf, Clamp(lit2, n), Clamp(rit2, n)), x, step);
    hide Weights, Lefts, Rights, Clamp;
  }

  lemma ScaleAdd(x: real, y: real, step: real)
    ensures Scale(x + y, step) == Scale(x, step) + Scale(y, step)
  {
  }

  /** One more interval in the three sums over a range, if it is in the range. */
  lemma SumsStep(s: seq<Interval>, byPerf: bool, i: real, a: nat, b: nat, n: nat)
    requires n < |s|
    ensures var a', b', a0, b0 := Clamp(a, n + 1), Clamp(b, n + 1), Clamp(a, n), Clamp(b, n);
            && Weights(s, byPerf, a', b') ==
                Weights(s, byPerf, a0, b0) + (if a <= n < b then Weight(s[n], byPerf) else 0.0)
            && Lefts(s, byPerf, i, a', b') ==
               Lefts(s, byPerf, i, a0, b0) + (if a <= n < b then AtLeft(s[n], byPerf, i) else 0.0)
            && Rights(s, byPerf, i, a', b') ==
               Rights(s, byPerf, i, a0, b0) + (if a <= n < b then AtRight(s[n], byPerf, i) else 0.0)
  {
    hide Weight, AtLeft, AtRight;
  }

  /** The iterators after a bin that ends at `b`: the first to leave has stopped at an interval that goes on. */
  ghost predicate Moved(s: seq<Interval>, b: real, lit2: nat, rit2: nat) {
    && lit2 <= rit2 <= |s|
    && (forall k :: 0 <= k < lit2 ==> s[k].r < b)
    && (lit2 < |s| ==> b <= s[lit2].r)
    && (forall k :: 0 <= k < rit2 ==> s[k].l <= b)
    && (forall k :: rit2 <= k < |s| ==> b < s[k].l)
  }

  /** The time over of all intervals that were not let go. */
  function Excess(s: seq<Interval>, byPerf: bool, b: real, lit2: nat, n: nat): real
    requires n <= |s|
  {
    if n == 0 then 0.0 else Excess(s, byPerf, b, lit2, n - 1) + Over(s[n - 1], byPerf, b, lit2 <= n - 1)
  }

  lemma PartAt(s: seq<Interval>, byPerf: bool, i: real, step: real, lit: nat, rit: nat, lit2: nat, rit2: nat, k: nat)
    requires step > 0.0 && k < |s| && lit <= lit2 && rit <= rit2
    requires s[k].l <= s[k].r && Placed(s, i, lit, rit) && Moved(s, i + step, lit2, rit2)
    ensures Part(s[k], byPerf, i, step, lit2 <= k < rit2, rit <= k < rit2, lit <= k < lit2) ==
            Share(s[k], byPerf, i, i + step) + Over(s[k], byPerf, i + step, lit2 <= k)
  {
    hide AtLeft, AtRight, Share, Part;
    OnePart(s[k], byPerf, i, step, lit2 <= k < rit2, rit <= k < rit2, lit <= k < lit2);
    assert Over(s[k], byPerf, i + step, lit2 <= k < rit2) == Over(s[k], byPerf, i + step, lit2 <= k);
  }

  lemma {:induction false} BinSumIsCovered(s: seq<Interval>, byPerf: bool, i: real, step: real,
                                           lit: nat, rit: nat, lit2: nat, rit2: nat, n: nat)
    requires step > 0.0 && n <= |s| && lit <= lit2 && rit <= rit2
    requires forall k :: 0 <= k < |s| ==> s[k].l <= s[k].r
    requires Placed(s, i, lit, rit) && Moved(s, i + step, lit2, rit2)
    ensures BinSum(s, byPerf, i, step, lit, rit, lit2, rit2, n) ==
            Covered(s, byPerf, i, i + step, n) + Excess(s, byPerf, i + step, lit2, n)
  {
    hide AtLeft, AtRight, Share, Part, BinSum;
    if n == 0 {
      BinSumZero(s, byPerf, i, step, lit, rit, lit2, rit2);
    } else {
      var k := n - 1;
      BinSumIsCovered(s, byPerf, i, step, lit, rit, lit2, rit2, k);
      BinSumStep(s, byPerf, i, step, lit, rit, lit2, rit2, k);
      PartAt(s, byPerf, i, step, lit, rit, lit2, rit2, k);
      hide Placed, Moved, Over;
    }
  }

  /** Nothing is over exactly when the ends are aligned; with plain time something is. */
  lemma {:induction false} ExcessIff(s: seq<Interval>, byPerf: bool, b: real, lit2: nat, rit2: nat, n: nat)
    requires Moved(s, b, lit2, rit2) && n <= |s|
    ensures (forall k :: lit2 <= k < n ==> b <= s[k].r) ==> Excess(s, byPerf, b, lit2, n) == 0.0
    ensures Excess(s, false, b, lit2, n) >= 0.0
    ensures Excess(s, false, b, lit2, n) == 0.0 ==> forall k :: lit2 <= k < n ==> b <= s[k].r
  {
    if n > 0 {
      ExcessIff(s, byPerf, b, lit2, rit2, n - 1);
    }
  }

  lemma AlignedIff(s: seq<Interval>, b: real, lit2: nat, rit2: nat)
    requires Moved(s, b, lit2, rit2)
    ensures Aligned(s, b) <==> forall k :: lit2 <= k < |s| ==> b <= s[k].r
  {
    if Aligned(s, b) {
      forall k | lit2 <= k < |s| ensures b <= s[k].r {
        assert !(s[lit2].r < b);
      }
    }
  }

  lemma BinSumZero(s: seq<Interval>, byPerf: bool, i: real, step: real, lit: nat, rit: nat, lit2: nat, rit2: nat)
    ensures BinSum(s, byPerf, i, step, lit, rit, lit2, rit2, 0) == 0.0
  {
  }

  lemma WholeBinSum(s: seq<Interval>, byPerf: bool, i: real, step: real, lit: nat, rit: nat, lit2: nat, rit2: nat)
    requires lit <= |s| && rit <= |s| && lit2 <= |s| && rit2 <= |s|
    ensures BinSum(s, byPerf, i, step, lit, rit, lit2, rit2, |s|) ==
            Scale(Weights(s, byPerf, lit2, rit2), step) - Lefts(s, byPerf, i, rit, rit2) +
                Rights(s, byPerf, i, lit, lit2)
  {
    hide Weights, Lefts, Rights;
    assert Clamp(lit, |s|) == lit && Clamp(rit, |s|) == rit && Clamp(lit2, |s|) == lit2 && Clamp(rit2, |s|) == rit2;
  }

  /** What the cursor holds at the start of the bin at `i`: the weights of the intervals under way. */
  ghost predicate Carried(s: seq<Interval>, i: real, c: Cursor) {
    && Placed(s, i, c.lit, c.rit)
    && Carry(c, true) == Weights(s, true, c.lit, c.rit) && Carry(c, false) == Weights(s, false, c.lit, c.rit)
  }

  lemma {:induction false} WeightsSplit(s: seq<Interval>, byPerf: bool, a: nat, m: nat, b: nat)
    requires a <= m <= b <= |s|
    ensures Weights(s, byPerf, a, b) == Weights(s, byPerf, a, m) + Weights(s, byPerf, m, b)
  {
    hide Weight;
    if m < b {
      WeightsSplit(s, byPerf, a, m, b - 1);
    }
  }

  lemma {:induction false} TurnMoves(s: seq<Interval>, from: real, i: real, step: real, c: Cursor)
    requires Ready(s, from) && step > 0.0 && Placed(s, i, c.lit, c.rit)
    ensures var c' := Turn(s, i, step, c); c.lit <= c'.lit && c.rit <= c'.rit && Moved(s, i + step, c'.lit, c'.rit)
  {
    var c0 := c.(psum := 0.0, pcnt := 0.0);
    EnterSums(s, true, i, step, c0);
    LeaveSums(s, true, i, step, Enter(s, i, step, c0));
    hide Enter, Leave, Weights, Lefts, Rights, Carry, Partial;
  }

  /** What a turn does to either sum: the time covered in its bin, and what is over. */
  lemma {:induction false} TurnSums(s: seq<Interval>, byPerf: bool, from: real, i: real, step: real, c: Cursor)
    requires Ready(s, from) && step > 0.0 && Placed(s, i, c.lit, c.rit)
    requires Carry(c, byPerf) == Weights(s, byPerf, c.lit, c.rit)
    ensures var c' := Turn(s, i, step, c);
            && Moved(s, i + step, c'.lit, c'.rit)
            && Carry(c', byPerf) == Weights(s, byPerf, c'.lit, c'.rit)
            && Scale(Carry(c', byPerf), step) + Partial(c', byPerf) ==
               Covered(s, byPerf, i, i + step, |s|) + Excess(s, byPerf, i + step, c'.lit, |s|)
  {
    TurnMoves(s, from, i, step, c);
    var c0 := c.(psum := 0.0, pcnt := 0.0);
    assert Carry(c0, byPerf) == Carry(c, byPerf) && Partial(c0, byPerf) == 0.0;
    EnterSums(s, byPerf, i, step, c0);
    var c1 := Enter(s, i, step, c0);
    LeaveSums(s, byPerf, i, step, c1);
    var c2 := Leave(s, i, step, c1);
    hide Enter, Leave, Weights, Lefts, Rights, Covered, Excess, Carry, Partial, Scale;
    assert c2 == Turn(s, i, step, c);
    assert c.lit <= c.rit <= c2.rit <= |s| && c.lit <= c2.lit <= c2.rit;
    BinSumIsCovered(s, byPerf, i, step, c.lit, c.rit, c2.lit, c2.rit, |s|);
    hide Turn, Ready, Placed, Moved, BinSum;
    WholeBinSum(s, byPerf, i, step, c.lit, c.rit, c2.lit, c2.rit);
    WeightsSplit(s, byPerf, c.lit, c.rit, c2.rit);
    WeightsSplit(s, byPerf, c.lit, c2.lit, c2.rit);
    assert Carry(c2, byPerf) == Weights(s, byPerf, c2.lit, c2.rit);
  }

  /** The time the sweep divides by in a bin. */
  function Time(c: Cursor, step: real): real {
    Scale(c.cnt as real, step) + c.pcnt
  }

  /** The sweep counts the time covered exactly if the ends are aligned at the end of the bin, and more otherwise. */
  lemma {:induction false} TurnTime(s: seq<Interval>, from: real, i: real, step: real, c: Cursor)
    requires Ready(s, from) && step > 0.0 && Carried(s, i, c)
    ensures var t := Time(Turn(s, i, step, c), step);
            && t >= Covered(s, false, i, i + step, |s|)
            && (t == Covered(s, false, i, i + step, |s|) <==> Aligned(s, i + step))
  {
    hide Turn, Weights, Covered, Ready, Scale, Aligned, Excess, Placed;
    var c' := Turn(s, i, step, c);
    TurnSums(s, false, from, i, step, c);
    hide Moved;
    ExcessIff(s, false, i + step, c'.lit, c'.rit, |s|);
    AlignedIff(s, i + step, c'.lit, c'.rit);
  }

  lemma MovedIsPlaced(s: seq<Interval>, b: real, lit: nat, rit: nat)
    requires Moved(s, b, lit, rit) && Aligned(s, b)
    ensures Placed(s, b, lit, rit)
  {
    AlignedIff(s, b, lit, rit);
  }

  /**
   After a turn over aligned ends the cursor is ready for the next bin, and its sums are the covered times of
   this one.
   */
  lemma {:induction false} TurnCarries(s: seq<Interval>, from: real, i: real, step: real, c: Cursor)
    requires Ready(s, from) && step > 0.0 && Carried(s, i, c) && Aligned(s, i + step)
    ensures Carried(s, i + step, Turn(s, i, step, c)) && Value(Turn(s, i, step, c), step) == Bin(s, i, i + step)
  {
    hide Turn, Weights, Covered, Ready, Mean, Scale, Aligned, Excess, Placed, Moved;
    var c' := Turn(s, i, step, c);
    TurnSums(s, true, from, i, step, c);
    TurnSums(s, false, from, i, step, c);
    AlignedIff(s, i + step, c'.lit, c'.rit);
    ExcessIff(s, true, i + step, c'.lit, c'.rit, |s|);
    ExcessIff(s, false, i + step, c'.lit, c'.rit, |s|);
    MovedIsPlaced(s, i + step, c'.lit, c'.rit);
  }

  /** Whenever the ends are aligned at the end of every bin, the sweep gives every bin its weighted mean. */
  lemma {:induction false} SweepIsMean(s: seq<Interval>, from: real, i: real, r: real, step: real, c: Cursor)
    requires Ready(s, from) && step > 0.0 && Carried(s, i, c) && AlignedFrom(s, i, r, step)
    ensures Swept(s, i, r, step, c) == Bins(s, i, r, step)
    decreases Count(i, r, step)
  {
    hide Turn, Covered, Carried, Ready, Aligned;
    if i < r {
      CountStep(i, r, step);
      hide Count;
      TurnCarries(s, from, i, step, c);
      SweepIsMean(s, from, i + step, r, step, Turn(s, i, step, c));
    }
  }

  /** The same, from the first bin on. */
  lemma {:induction false} SweepFromStart(s: seq<Interval>, l: real, r: real, step: real)
    requires Ready(s, l) && step > 0.0 && AlignedFrom(s, l, r, step)
    ensures Swept(s, l, r, step, START_CURSOR) == Bins(s, l, r, step)
  {
    hide AlignedFrom;
    SweepIsMean(s, l, l, r, step, START_CURSOR);
  }

  /** The times the sweep divides by, and the times that are covered. */
  function SweptTimes(s: seq<Interval>, i: real, r: real, step: real, c: Cursor): seq<real>
    requires step > 0.0
    decreases Count(i, r, step)
  {
    if i >= r then []
    else
      CountStep(i, r, step);
      var c' := Turn(s, i, step, c);
      [Time(c', step)] + SweptTimes(s, i + step, r, step, c')
  }

  function CoveredTimes(s: seq<Interval>, i: real, r: real, step: real): seq<real>
    requires step > 0.0
    decreases Count(i, r, step)
  {
    if i >= r then []
    else
      CountStep(i, r, step);
      [Covered(s, false, i, i + step, |s|)] + CoveredTimes(s, i + step, r, step)
  }

  /** The sweep counts the covered time of every bin if and only if the ends are aligned at the end of every bin. */
  lemma {:induction false} SweepTimeIff(s: seq<Interval>, from: real, i: real, r: real, step: real, c: Cursor)
    requires Ready(s, from) && step > 0.0 && Carried(s, i, c)
    ensures SweptTimes(s, i, r, step, c) == CoveredTimes(s, i, r, step) <==> AlignedFrom(s, i, r, step)
    decreases Count(i, r, step)
  {
    hide Turn, Covered, Carried, Ready, Aligned, Time;
    if i < r {
      CountStep(i, r, step);
      hide Count;
      TurnTime(s, from, i, step, c);
      var c' := Turn(s, i, step, c);
      var x, y := SweptTimes(s, i, r, step, c), CoveredTimes(s, i, r, step);
      assert x[0] == Time(c', step) && y[0] == Covered(s, false, i, i + step, |s|);
      if Aligned(s, i + step) {
        TurnCarries(s, from, i, step, c);
        SweepTimeIff(s, from, i + step, r, step, c');
        assert x[1..] == SweptTimes(s, i + step, r, step, c') && y[1..] == CoveredTimes(s, i + step, r, step);
        assert x == [x[0]] + x[1..] && y == [y[0]] + y[1..];
      }
    }
  }

  /** Intervals that do not overlap and are not empty come in one order, whatever the sort made of them. */
  ghost predicate Disjoint(s: seq<Interval>) {
    && (forall i :: 0 <= i < |s| ==> s[i].l < s[i].r)
    && (forall i, j :: 0 <= i < |s| && 0 <= j < |s| && i != j ==> s[i].r <= s[j].l || s[j].r <= s[i].l)
  }

  /** The same, but intervals may also be repeated. */
  ghost predicate Separate(s: seq<Interval>) {
    && (forall i :: 0 <= i < |s| ==> s[i].l < s[i].r)
    && (forall i, j :: 0 <= i < |s| && 0 <= j < |s| && i != j ==>
          s[i].r <= s[j].l || s[j].r <= s[i].l || (s[i].l == s[j].l && s[i].r == s[j].r))
  }

  lemma {:induction false} SeparateAligned(s: seq<Interval>, i: real, r: real, step: real)
    requires Separate(s) && ByLeft(s) && step > 0.0
    ensures AlignedFrom(s, i, r, step)
    decreases Count(i, r, step)
  {
    if i < r {
      forall j, k | 0 <= j < k < |s| && s[k].r < i + step ensures s[j].r < i + step {
        assert s[j].l <= s[k].l;
      }
      assert Aligned(s, i + step);
      CountStep(i, r, step);
      hide Separate, ByLeft, Count, Aligned;
      SeparateAligned(s, i + step, r, step);
    }
  }

  // ---------- Bins in numbers

  /** The part of second `b` that an interval takes. */
  function InSecond(iv: Interval, b: int): real {
    var l, r := if iv.l > b as real then iv.l else b as real, if iv.r < (b + 1) as real then iv.r else (b + 1) as real;
    if l < r then r - l else 0.0
  }

  /** How long the intervals take in second `b`, and how long weighted by their performance. */
  function TimeIn(s: seq<Interval>, b: int): real {
    if s == [] then 0.0 else TimeIn(s[..|s| - 1], b) + InSecond(s[|s| - 1], b)
  }

  function WorkIn(s: seq<Interval>, b: int): real {
    if s == [] then 0.0 else WorkIn(s[..|s| - 1], b) + s[|s| - 1].perf * InSecond(s[|s| - 1], b)
  }

  lemma ShareIn(iv: Interval, b: int)
    ensures Share(iv, false, b as real, b as real + 1.0) == InSecond(iv, b)
    ensures Share(iv, true, b as real, b as real + 1.0) == iv.perf * InSecond(iv, b)
  {
    assert Overlap(iv, b as real, b as real + 1.0) == InSecond(iv, b);
    hide Overlap, InSecond;
  }

  lemma {:induction false} CoveredIn(s: seq<Interval>, b: int, n: nat)
    requires n <= |s|
    ensures Covered(s, false, b as real, b as real + 1.0, n) == TimeIn(s[..n], b)
    ensures Covered(s, true, b as real, b as real + 1.0, n) == WorkIn(s[..n], b)
  {
    hide Share, InSecond;
    if n > 0 {
      CoveredIn(s, b, n - 1);
      assert s[..n][..n - 1] == s[..n - 1] && s[..n][n - 1] == s[n - 1];
      ShareIn(s[n - 1], b);
    }
  }

  /** There is one bin for each second; it holds the mean of the time taken in it, or -0.005 if next to none is. */
  lemma {:induction false} BinsHold(s: seq<Interval>, l: int, r: int, b: int)
    requires l <= b < r
    ensures var bins := Bins(s, l as real, r as real, 1.0);
            && |bins| == r - l
            && (TimeIn(s, b) >= 0.0000000001 ==> bins[b - l] == WorkIn(s, b) / TimeIn(s, b))
            && (0.0 <= TimeIn(s, b) < 0.0000000001 ==> bins[b - l] == -0.005)
    decreases r - l
  {
    CountStep(l as real, r as real, 1.0);
    assert l as real + 1.0 == (l + 1) as real;
    assert Bins(s, l as real, r as real, 1.0) ==
           [Bin(s, l as real, l as real + 1.0)] + Bins(s, (l + 1) as real, r as real, 1.0);
    if l == b {
      CoveredIn(s, b, |s|);
      assert s[..|s|] == s;
    }
    BinsLength(s, l + 1, r);
    if l < b {
      BinsHold(s, l + 1, r, b);
    }
  }

  lemma {:induction false} BinsLength(s: seq<Interval>, l: int, r: int)
    ensures |Bins(s, l as real, r as real, 1.0)| == if l < r then r - l else 0
    decreases r - l
  {
    if l < r {
      CountStep(l as real, r as real, 1.0);
      assert l as real + 1.0 == (l + 1) as real;
      BinsLength(s, l + 1, r);
    }
  }

  // ---------- Bounds

  lemma ScaleFraction(p: real, x: real)
    requires 0.0 <= p <= 1.0 && 0.0 <= x
    ensures 0.0 <= Scale(p, x) <= Scale(1.0, x)
  {
  }

  lemma OverlapBounds(iv: Interval, a: real, b: real)
    requires 0.0 <= iv.perf <= 1.0
    ensures 0.0 <= Share(iv, true, a, b) <= Share(iv, false, a, b)
  {
    hide Scale;
    assert Overlap(iv, a, b) >= 0.0;
    ScaleFraction(iv.perf, Overlap(iv, a, b));
  }

  lemma {:induction false} CoveredBounds(s: seq<Interval>, a: real, b: real, n: nat)
    requires n <= |s| && forall i :: 0 <= i < |s| ==> 0.0 <= s[i].perf <= 1.0
    ensures 0.0 <= Covered(s, true, a, b, n) <= Covered(s, false, a, b, n)
  {
    hide Share;
    if n > 0 {
      CoveredBounds(s, a, b, n - 1);
      OverlapBounds(s[n - 1], a, b);
    }
  }

  /** Means of performances between 0 and 1 are between 0 and 1. */
  lemma {:induction false} BinBounds(s: seq<Interval>, a: real, b: real)
    requires forall i :: 0 <= i < |s| ==> 0.0 <= s[i].perf <= 1.0
    ensures Bin(s, a, b) == UNCOVERED || 0.0 <= Bin(s, a, b) <= 1.0
  {
    CoveredBounds(s, a, b, |s|);
    var x, y := Covered(s, true, a, b, |s|), Covered(s, false, a, b, |s|);
    hide Covered;
    if Abs(y) >= EPS {
      var q := x / y;
      assert q * y == x;
    }
  }

  /** A value of a timeline: a fraction of the best performance, or the mark of a bin without data. */
  predicate IsFraction(v: real) {
    v == UNCOVERED || 0.0 <= v <= 1.0
  }

  lemma {:induction false} BinsAreFractions(s: seq<Interval>, i: real, r: real, step: real)
    requires step > 0.0 && forall i :: 0 <= i < |s| ==> 0.0 <= s[i].perf <= 1.0
    ensures forall v <- Bins(s, i, r, step) :: IsFraction(v)
    decreases Count(i, r, step)
  {
    hide Bin;
    if i < r {
      CountStep(i, r, step);
      BinBounds(s, i, i + step);
      BinsAreFractions(s, i + step, r, step);
    }
  }

  lemma SecondBin(s: seq<Interval>, i: real, r: real, step: real, c: Cursor)
    requires step > 0.0 && i + step < r
    ensures |Swept(s, i, r, step, c)| > 1 && |Bins(s, i, r, step)| > 1
    ensures Swept(s, i, r, step, c)[1] == Value(Turn(s, i + step, step, Turn(s, i, step, c)), step)
    ensures Bins(s, i, r, step)[1] == Bin(s, i + step, i + step + step)
  {
    hide Turn, Value, Bin, Count;
  }

  const INSIDE := [Interval(0.0, 3.0, 1.0), Interval(0.5, 1.0, 0.5)]

  lemma InsideSwept()
    ensures Value(Turn(INSIDE, 1.0, 1.0, Turn(INSIDE, 0.0, 1.0, START_CURSOR)), 1.0) == 0.75
  {
    var c1 := Turn(INSIDE, 0.0, 1.0, START_CURSOR);
    assert c1 == Cursor(2, 0, 1.5, 2, -0.25, -0.5);
    var c2 := Turn(INSIDE, 1.0, 1.0, c1);
    assert c2 == Cursor(2, 0, 1.5, 2, 0.0, 0.0);
  }

  lemma ScaleUnits(x: real)
    ensures Scale(x, 1.0) == x && Scale(x, 0.0) == 0.0
  {
  }

  lemma InsideCovered(byPerf: bool)
    ensures Covered(INSIDE, byPerf, 1.0, 2.0, 2) == 1.0
  {
    var a, b := INSIDE[0], INSIDE[1];
    assert Overlap(a, 1.0, 2.0) == 1.0 && Overlap(b, 1.0, 2.0) == 0.0 && Weight(a, byPerf) == 1.0;
    assert Share(a, byPerf, 1.0, 2.0) == Scale(1.0, 1.0) && Share(b, byPerf, 1.0, 2.0) == Scale(Weight(b, byPerf), 0.0);
    hide Overlap, Scale, Share, Weight;
    ScaleUnits(1.0);
    ScaleUnits(Weight(b, byPerf));
    assert Covered(INSIDE, byPerf, 1.0, 2.0, 1) == 1.0;
  }

  lemma InsideBin()
    ensures Bin(INSIDE, 1.0, 2.0) == 1.0
  {
    hide Covered;
    InsideCovered(true);
    InsideCovered(false);
  }

  /** Why ends must be aligned: an interval inside another keeps counting after it has ended. */
  lemma {:induction false} NestedIntervalsMislead()
    ensures Ready(INSIDE, 0.0) && !Aligned(INSIDE, 2.0)
    ensures Swept(INSIDE, 0.0, 3.0, 1.0, START_CURSOR) != Bins(INSIDE, 0.0, 3.0, 1.0)
  {
    hide Turn, Value, Bin;
    SecondBin(INSIDE, 0.0, 3.0, 1.0, START_CURSOR);
    InsideSwept();
    InsideBin();
    assert INSIDE[1].r < 2.0 && !(INSIDE[0].r < 2.0);
  }
}
