/**
 Relative performance of one group: each record's time against the fastest, on the time axis of the run.
 */
module Paths {
  import opened Basics
  import opened Hooks
  import opened HookRuns

  datatype Interval = Interval(l: real, r: real, perf: real)

  /** The length of the smoothing window. */
  const WINDOW := 16

  /** The total time of `n` records from `i` on. */
  function Total(path: seq<Data>, i: nat, n: nat): int
    requires i + n <= |path|
  {
    if n == 0 then 0 else Total(path, i, n - 1) + path[i + n - 1].elapsed
  }

  /** Records that took time, all of them less than the clock holds. */
  ghost predicate Timed(path: seq<Data>, start: int) {
    && (forall i :: 0 <= i < |path| ==> 0 < path[i].elapsed && start <= Begin(path[i]) && path[i].timestamp < TWO64)
    && start >= 0 && Total(path, 0, |path|) < TWO64
  }

  /** Clock ticks as seconds. */
  function Seconds(ticks: int, freq: real): real
    requires freq > 0.0
  {
    ticks as real / freq
  }

  /** Where a record lies on the time axis, in seconds from the start. */
  function LeftEnd(d: Data, start: int, freq: real): real
    requires freq > 0.0
  {
    Seconds(d.timestamp - d.elapsed - start, freq)
  }

  function RightEnd(d: Data, start: int, freq: real): real
    requires freq > 0.0
  {
    Seconds(d.timestamp - start, freq)
  }

  /** `m` is the least of `times`. */
  ghost predicate IsLeast(m: int, times: seq<int>) {
    m in times && forall i :: 0 <= i < |times| ==> m <= times[i]
  }

  /** The times that are compared: of single records, or of windows of them. */
  function Times(path: seq<Data>, smooth: bool): seq<int> {
    if smooth && |path| > WINDOW then
        seq(|path| - WINDOW + 1, i requires 0 <= i < |path| - WINDOW + 1 => Total(path, i, WINDOW))
    else seq(|path|, i requires 0 <= i < |path| => path[i].elapsed)
  }

  /** How many intervals come out. */
  function Emitted(path: seq<Data>, smooth: bool): nat {
    if smooth && |path| > WINDOW then |path| - WINDOW else |path|
  }

  /** The interval of record `d`, whose time `t` is compared with the least time `m`. */
  ghost predicate Measures(iv: Interval, d: Data, t: int, m: int, start: int, freq: real)
    requires freq > 0.0
  {
    && iv.l == LeftEnd(d, start, freq) && iv.r == RightEnd(d, start, freq)
    && 0 < m <= t && iv.perf == m as real / t as real && 0.0 < iv.perf <= 1.0
  }

  /** The intervals of a path. */
  ghost predicate Performance(ret: seq<Interval>, path: seq<Data>, smooth: bool, start: int, freq: real)
    requires freq > 0.0
  {
    && |ret| == Emitted(path, smooth)
    && (path != [] ==>
          exists m :: IsLeast(m, Times(path, smooth)) && Measured(ret, path, Times(path, smooth), m, start, freq))
  }

  ghost predicate Measured(ret: seq<Interval>, path: seq<Data>, times: seq<int>, m: int, start: int, freq: real)
    requires freq > 0.0
  {
    && |ret| <= |path| && |ret| <= |times|
    && forall i :: 0 <= i < |ret| ==> Measures(ret[i], path[i], times[i], m, start, freq)
  }

  lemma {:induction false} TotalSplit(path: seq<Data>, i: nat, n: nat, k: nat)
    requires k <= n && i + n <= |path|
    ensures Total(path, i, n) == Total(path, i, k) + Total(path, i + k, n - k)
  {
    if k < n {
      TotalSplit(path, i, n - 1, k);
    }
  }

  lemma {:induction false} TotalPositive(path: seq<Data>, i: nat, n: nat)
    requires i + n <= |path| && forall k :: 0 <= k < |path| ==> 0 < path[k].elapsed
    ensures n <= Total(path, i, n)
  {
    if n > 0 {
      TotalPositive(path, i, n - 1);
    }
  }

  /** Any run of records fits the clock. */
  lemma {:induction false} TotalFits(path: seq<Data>, start: int, i: nat, n: nat)
    requires Timed(path, start) && i + n <= |path|
    ensures n <= Total(path, i, n) < TWO64
  {
    TotalPositive(path, i, n);
    TotalSplit(path, 0, |path|, i);
    TotalSplit(path, i, |path| - i, n);
    TotalPositive(path, 0, i);
    TotalPositive(path, i + n, |path| - i - n);
  }

  /** Moving the window by one. */
  lemma {:induction false} WindowStep(path: seq<Data>, i: nat, n: nat)
    requires 0 < n && i + n < |path|
    ensures Total(path, i + 1, n) == Total(path, i, n) + path[i + n].elapsed - path[i].elapsed
  {
    TotalSplit(path, i, n + 1, 1);
    assert Total(path, i, 1) == Total(path, i, 0) + path[i].elapsed;
  }

  method FirstWindow(path: seq<Data>, ghost start: int) returns (sum: int)
    requires Timed(path, start) && |path| > WINDOW
    ensures sum == Total(path, 0, WINDOW)
  {
    hide Timed;
    sum := 0;
    for i := 0 to WINDOW
      invariant sum == Total(path, 0, i)
    {
      TotalFits(path, start, 0, i + 1);
      sum := U64(sum + path[i].elapsed);
    }
  }

  /** The running sum wraps at 64 bits on the way, and still is the window's total. */
  method Smooth(path: seq<Data>, ghost start: int) returns (smoothed: seq<int>)
    requires Timed(path, start) && |path| > WINDOW
    ensures smoothed == Times(path, true)
  {
    hide Total, Timed;
    var sum := FirstWindow(path, start);
    smoothed := [sum];
    for i := WINDOW to |path|
      invariant smoothed == Times(path, true)[..i - WINDOW + 1]
      invariant sum == Total(path, i - WINDOW, WINDOW)
    {
      WindowStep(path, i - WINDOW, WINDOW);
      TotalFits(path, start, i - WINDOW + 1, WINDOW);
      sum := WrappingMove(sum, path[i].elapsed, path[i - WINDOW].elapsed);
      smoothed := smoothed + [sum];
    }
  }

  /** Adding an unsigned difference that may itself wrap. */
  function WrappingMove(sum: int, new_: int, old_: int): (r: int)
    ensures 0 <= sum + new_ - old_ < TWO64 ==> r == sum + new_ - old_
  {
    U64(sum + U64(new_ - old_))
  }

  method Least(times: seq<int>) returns (m: int)
    requires times != [] && forall i :: 0 <= i < |times| ==> times[i] < TWO64
    ensures IsLeast(m, times)
  {
    m := TWO64 - 1;
    for i := 0 to |times|
      invariant i > 0 ==> m in times
      invariant m < TWO64 && forall k :: 0 <= k < i ==> m <= times[k]
    {
      assert times[i] in times;
      if times[i] < m || i == 0 {
        m := times[i];
      }
    }
  }

  lemma OneInterval(d: Data, t: int, m: int, start: int, freq: real)
    requires freq > 0.0 && 0 < m <= t && 0 <= start <= Begin(d) < d.timestamp < TWO64
    ensures var l, r := U64(d.timestamp - d.elapsed - start) as real / freq, U64(d.timestamp - start) as real / freq;
            Measures(Interval(l, r, m as real / t as real), d, t, m, start, freq)
  {
    assert U64(d.timestamp - d.elapsed - start) == d.timestamp - d.elapsed - start;
    assert U64(d.timestamp - start) == d.timestamp - start;
    hide U64;
  }

  lemma {:induction false} TimesFit(path: seq<Data>, smooth: bool, start: int)
    requires Timed(path, start)
    ensures forall i :: 0 <= i < |Times(path, smooth)| ==> 0 < Times(path, smooth)[i] < TWO64
  {
    forall i | 0 <= i < |Times(path, smooth)| ensures 0 < Times(path, smooth)[i] < TWO64 {
      if smooth && |path| > WINDOW {
        TotalFits(path, start, i, WINDOW);
      } else {
        TotalFits(path, start, i, 1);
        assert Total(path, i, 1) == Total(path, i, 0) + path[i].elapsed;
      }
    }
  }

  /** The emission loop. */
  method Intervals(path: seq<Data>, times: seq<int>, n: nat, m: int, start: int, freq: real)
      returns (ret: seq<Interval>)
    requires freq > 0.0 && Timed(path, start) && n <= |path| && n <= |times|
    requires forall i :: 0 <= i < |times| ==> 0 < m <= times[i]
    ensures |ret| == n && Measured(ret, path, times, m, start, freq)
  {
    hide Total, Measures;
    ret := [];
    for i := 0 to n
      invariant |ret| == i && Measured(ret, path, times, m, start, freq)
    {
      var value := path[i];
      OneInterval(value, times[i], m, start, freq);
      ret := ret + [Interval(U64(value.timestamp - value.elapsed - start) as real / freq,
                             U64(value.timestamp - start) as real / freq,
                             m as real / times[i] as real)];
    }
  }

  method CalcPath(path: seq<Data>, smooth: bool, start: int, freq: real) returns (ret: seq<Interval>)
    requires freq > 0.0 && Timed(path, start)
    ensures Performance(ret, path, smooth, start, freq)
  {
    hide Total, Timed;
    ret := [];
    if path == [] {
      return;
    }
    var times;
    if |path| > WINDOW && smooth {
      times := Smooth(path, start);
    } else {
      times := seq(|path|, i requires 0 <= i < |path| => path[i].elapsed);
    }
    assert times == Times(path, smooth);
    TimesFit(path, smooth, start);
    var m := Least(times);
    ret := Intervals(path, times, if |path| > WINDOW && smooth then |path| - WINDOW else |path|, m, start, freq);
  }
}
