/**
 The report of a run: from the recorded graphs to covered times and to performance over time.

 Edges are visited in any order; the sums are exact, so the order does not matter.
 */
module Report {
  import opened Basics
  import opened Hooks
  import opened HookRuns
  import opened Clustering
  import opened Stability
  import opened CommGroups
  import opened MeasuredOnce
  import opened Paths
  import opened Permutations
  import Sweep

  // ---------- Records and the time they take

  function DataOfLog(log: seq<Entry>): seq<Data> {
    seq(|log|, i requires 0 <= i < |log| => log[i].data)
  }

  function SumTime(recs: seq<Data>): int {
    if recs == [] then 0 else SumTime(recs[..|recs| - 1]) + recs[|recs| - 1].elapsed
  }

  /** A log made under a clock that does not wrap, between the start and `now`. */
  ghost predicate Sound(log: seq<Entry>, start: int, now: int) {
    InOrder(log, start, now) && 0 <= start <= now < TWO64
  }

  lemma {:induction false} SumRemove(recs: seq<Data>, i: nat)
    requires i < |recs|
    ensures SumTime(recs) == SumTime(recs[..i] + recs[i + 1..]) + recs[i].elapsed
    decreases |recs|
  {
    var n := |recs| - 1;
    var rest := recs[..i] + recs[i + 1..];
    if i < n {
      SumRemove(recs[..n], i);
      assert rest[..n - 1] == recs[..n][..i] + recs[..n][i + 1..];
    } else {
      assert rest == recs[..n];
    }
  }

  /** Part of the records takes at most the time of all. */
  lemma {:induction false} SumOfPart(part: seq<Data>, all: seq<Data>)
    requires multiset(part) <= multiset(all)
    requires forall i :: 0 <= i < |all| ==> all[i].elapsed >= 0
    ensures 0 <= SumTime(part) <= SumTime(all)
    decreases |part|
  {
    if part == [] {
      SumNonNegative(all);
    } else {
      var n, d := |part| - 1, part[|part| - 1];
      assert part == part[..n] + [d];
      assert d in multiset(part);
      var i := RemoveOne(all, d);
      SumRemove(all, i);
      Cancel(multiset(part[..n]), multiset(all[..i] + all[i + 1..]), d);
      SumOfPart(part[..n], all[..i] + all[i + 1..]);
    }
  }

  lemma {:induction false} SumNonNegative(recs: seq<Data>)
    requires forall i :: 0 <= i < |recs| ==> recs[i].elapsed >= 0
    ensures 0 <= SumTime(recs)
  {
    if recs != [] {
      SumNonNegative(recs[..|recs| - 1]);
    }
  }

  lemma {:induction false} SumOfLog(log: seq<Entry>)
    ensures SumTime(DataOfLog(log)) == SumElapsed(log)
  {
    if log != [] {
      assert DataOfLog(log)[..|log| - 1] == DataOfLog(log[..|log| - 1]);
      SumOfLog(log[..|log| - 1]);
    }
  }

  lemma {:induction false} TotalIsSum(path: seq<Data>, n: nat)
    requires n <= |path|
    ensures Total(path, 0, n) == SumTime(path[..n])
  {
    if n > 0 {
      TotalIsSum(path, n - 1);
      assert path[..n][..n - 1] == path[..n - 1];
    }
  }

  /** Any part of a sound log can be measured. */
  lemma {:induction false} PartIsTimed(path: seq<Data>, log: seq<Entry>, start: int, now: int)
    requires Sound(log, start, now) && multiset(path) <= multiset(DataOfLog(log))
    ensures Timed(path, start) && SumTime(path) <= now - start
  {
    var all := DataOfLog(log);
    forall i | 0 <= i < |path|
      ensures 0 < path[i].elapsed && start <= Begin(path[i]) && path[i].timestamp < TWO64
    {
      assert path[i] in multiset(path) && path[i] in multiset(all);
      var k :| 0 <= k < |all| && all[k] == path[i];
    }
    SumOfPart(path, all);
    SumOfLog(log);
    SumInOrder(log, start, now);
    TotalIsSum(path, |path|);
    assert path[..|path|] == path;
  }

  // ---------- Intervals and the records they measure

  /** Each interval is the span of the record at its place. */
  ghost predicate Accounts(ivs: seq<Interval>, recs: seq<Data>, start: int, freq: real)
    requires freq > 0.0
  {
    && |ivs| == |recs|
    && forall i :: 0 <= i < |ivs| ==>
         && ivs[i].l == LeftEnd(recs[i], start, freq) && ivs[i].r == RightEnd(recs[i], start, freq)
         && 0.0 < ivs[i].perf <= 1.0
  }

  lemma PerformanceAccounts(ivs: seq<Interval>, path: seq<Data>, smooth: bool, start: int, freq: real)
    requires freq > 0.0 && Performance(ivs, path, smooth, start, freq)
    ensures Accounts(ivs, Used(path, smooth), start, freq)
    ensures multiset(Used(path, smooth)) <= multiset(path)
  {
    var u := Used(path, smooth);
    assert path == u + path[|u|..];
    if path != [] {
      var times := Times(path, smooth);
      var m :| IsLeast(m, times) && Measured(ivs, path, times, m, start, freq);
      hide IsLeast, Times, LeftEnd, RightEnd, Emitted;
      forall i | 0 <= i < |ivs|
        ensures ivs[i].l == LeftEnd(u[i], start, freq) && ivs[i].r == RightEnd(u[i], start, freq) &&
            0.0 < ivs[i].perf <= 1.0
      {
        assert Measures(ivs[i], path[i], times[i], m, start, freq) && u[i] == path[i];
      }
    }
  }

  /** The time that is compared for record `k`: its own, or that of sixteen from it on. */
  function Compared(path: seq<Data>, smooth: bool, k: nat): int
    requires if smooth && |path| > 16 then k + 16 <= |path| else k < |path|
  {
    if smooth && |path| > 16 then SumTime(path[k..k + 16]) else path[k].elapsed
  }

  lemma {:induction false} TotalIs(path: seq<Data>, i: nat, n: nat)
    requires i + n <= |path|
    ensures Total(path, i, n) == SumTime(path[i..i + n])
  {
    if n > 0 {
      TotalIs(path, i, n - 1);
      assert path[i..i + n][..n - 1] == path[i..i + n - 1];
    }
  }

  lemma TimesAre(path: seq<Data>, smooth: bool, k: nat)
    requires k < |Times(path, smooth)|
    ensures |Times(path, smooth)| == if smooth && |path| > 16 then |path| - 15 else |path|
    ensures Times(path, smooth)[k] == Compared(path, smooth, k)
  {
    if smooth && |path| > 16 {
      TotalIs(path, k, 16);
    }
  }

  /** The intervals of a group in numbers: spans on the time axis of the run, and the best time over the time taken. */
  lemma {:induction false} IntervalIs(ret: seq<Interval>, path: seq<Data>, smooth: bool, start: int, freq: real, i: nat)
      returns (best: nat)
    requires freq > 0.0 && Performance(ret, path, smooth, start, freq) && i < |ret|
    ensures |ret| == if smooth && |path| > 16 then |path| - 16 else |path|
    ensures ret[i].l == (path[i].timestamp - path[i].elapsed - start) as real / freq
    ensures ret[i].r == (path[i].timestamp - start) as real / freq
    ensures best < |ret| + (if smooth && |path| > 16 then 1 else 0) && Compared(path, smooth, i) > 0
    ensures ret[i].perf == Compared(path, smooth, best) as real / Compared(path, smooth, i) as real
    ensures forall k :: 0 <= k < |ret| ==> Compared(path, smooth, best) <= Compared(path, smooth, k)
  {
    var times := Times(path, smooth);
    var m :| IsLeast(m, times) && Measured(ret, path, times, m, start, freq);
    assert Measures(ret[i], path[i], times[i], m, start, freq);
    best :| 0 <= best < |times| && times[best] == m;
    hide Times, Compared, Performance;
    TimesAre(path, smooth, i);
    TimesAre(path, smooth, best);
    forall k | 0 <= k < |ret| ensures Compared(path, smooth, best) <= Compared(path, smooth, k) {
      TimesAre(path, smooth, k);
    }
  }

  lemma SpanLength(d: Data, start: int, freq: real)
    requires freq > 0.0
    ensures RightEnd(d, start, freq) - LeftEnd(d, start, freq) == Seconds(d.elapsed, freq)
  {
    var a, b := (d.timestamp - start) as real, (d.timestamp - d.elapsed - start) as real;
    assert a - b == d.elapsed as real;
    assert a / freq - b / freq == (a - b) / freq;
  }

  lemma AddSeconds(a: int, b: int, freq: real)
    requires freq > 0.0
    ensures Seconds(a, freq) + Seconds(b, freq) == Seconds(a + b, freq)
  {
    assert (a + b) as real == a as real + b as real;
  }

  method AddCovered(covered: real, ivs: seq<Interval>, ghost recs: seq<Data>, ghost start: int, ghost freq: real)
      returns (c: real)
    requires freq > 0.0 && Accounts(ivs, recs, start, freq)
    ensures c == covered + Seconds(SumTime(recs), freq)
  {
    c := covered;
    for i := 0 to |ivs|
      invariant c == covered + Seconds(SumTime(recs[..i]), freq)
    {
      assert recs[..i + 1][..i] == recs[..i];
      SpanLength(recs[i], start, freq);
      AddSeconds(SumTime(recs[..i]), recs[i].elapsed, freq);
      c := c + (ivs[i].r - ivs[i].l);
    }
    assert recs[..|ivs|] == recs;
  }

  lemma AccountsAppend(a: seq<Interval>, ra: seq<Data>, b: seq<Interval>, rb: seq<Data>, start: int, freq: real)
    requires freq > 0.0 && Accounts(a, ra, start, freq) && Accounts(b, rb, start, freq)
    ensures Accounts(a + b, ra + rb, start, freq)
  {
  }

  lemma {:induction false} SumAppend(a: seq<Data>, b: seq<Data>)
    ensures SumTime(a + b) == SumTime(a) + SumTime(b)
  {
    if b == [] {
      assert a + b == a;
    } else {
      assert (a + b)[..|a + b| - 1] == a + b[..|b| - 1];
      SumAppend(a, b[..|b| - 1]);
    }
  }

  /** What has been measured so far: the time covered, and the intervals. */
  datatype Tally = Tally(covered: real, ivs: seq<Interval>)

  /** `now` is `was` with the spans of `recs` added. */
  ghost predicate Adds(was: Tally, now: Tally, recs: seq<Data>, start: int, freq: real)
    requires freq > 0.0
  {
    && now.covered == was.covered + Seconds(SumTime(recs), freq)
    && was.ivs <= now.ivs && Accounts(now.ivs[|was.ivs|..], recs, start, freq)
  }

  lemma AddsNothing(t: Tally, start: int, freq: real)
    requires freq > 0.0
    ensures Adds(t, t, [], start, freq)
  {
  }

  lemma AddsBoth(a: Tally, b: Tally, c: Tally, ra: seq<Data>, rb: seq<Data>, start: int, freq: real)
    requires freq > 0.0 && Adds(a, b, ra, start, freq) && Adds(b, c, rb, start, freq)
    ensures Adds(a, c, ra + rb, start, freq)
  {
    SumAppend(ra, rb);
    AddSeconds(SumTime(ra), SumTime(rb), freq);
    AccountsAppend(b.ivs[|a.ivs|..], ra, c.ivs[|b.ivs|..], rb, start, freq);
    assert c.ivs[|a.ivs|..] == b.ivs[|a.ivs|..] + c.ivs[|b.ivs|..];
  }

  /** One group that passes its filter. */
  method AddGroup(t: Tally, group: seq<Data>, smooth: bool, start: int, freq: real)
      returns (t': Tally, ghost recs: seq<Data>)
    requires freq > 0.0 && Timed(group, start)
    ensures recs == Used(group, smooth) && multiset(recs) <= multiset(group)
    ensures Adds(t, t', recs, start, freq) && Performance(t'.ivs[|t.ivs|..], group, smooth, start, freq)
  {
    var ivs := CalcPath(group, smooth, start, freq);
    recs := Used(group, smooth);
    PerformanceAccounts(ivs, group, smooth, start, freq);
    var covered := AddCovered(t.covered, ivs, recs, start, freq);
    t' := Tally(covered, t.ivs + ivs);
    assert t'.ivs[|t.ivs|..] == ivs;
  }

  /** `ivs` are the intervals of the groups that pass, group after group. */
  ghost predicate IntervalsOf(ivs: seq<Interval>, groups: seq<seq<Data>>, comm: bool, start: int, freq: real)
    requires freq > 0.0
    decreases |groups|
  {
    if groups == [] then ivs == []
    else
      var init, g := groups[..|groups| - 1], groups[|groups| - 1];
      if !Passes(g, comm) then IntervalsOf(ivs, init, comm, start, freq)
      else
        var n := |ivs| - Emitted(g, comm);
        n >= 0 && Performance(ivs[n..], g, comm, start, freq) && IntervalsOf(ivs[..n], init, comm, start, freq)
  }

  lemma IntervalsOfNext(ivs: seq<Interval>, groups: seq<seq<Data>>, more: seq<Interval>, g: seq<Data>, comm: bool,
      start: int, freq: real)
    requires freq > 0.0 && IntervalsOf(ivs, groups, comm, start, freq)
    requires if Passes(g, comm) then Performance(more, g, comm, start, freq) else more == []
    ensures IntervalsOf(ivs + more, groups + [g], comm, start, freq)
  {
    assert (groups + [g])[..|groups|] == groups;
    if Passes(g, comm) {
      assert (ivs + more)[|ivs|..] == more && (ivs + more)[..|ivs|] == ivs;
    } else {
      assert ivs + more == ivs;
    }
  }

  lemma {:induction false} IntervalsOfBoth(a: seq<Interval>, ga: seq<seq<Data>>, b: seq<Interval>, gb: seq<seq<Data>>,
                                           comm: bool, start: int, freq: real)
    requires freq > 0.0 && IntervalsOf(a, ga, comm, start, freq) && IntervalsOf(b, gb, comm, start, freq)
    ensures IntervalsOf(a + b, ga + gb, comm, start, freq)
    decreases |gb|
  {
    hide Performance, Passes;
    if gb == [] {
      assert a + b == a && ga + gb == ga;
    } else {
      var init, g := gb[..|gb| - 1], gb[|gb| - 1];
      var n := if Passes(g, comm) then |b| - Emitted(g, comm) else |b|;
      assert b[..|b|] == b;
      IntervalsOfBoth(a, ga, b[..n], init, comm, start, freq);
      IntervalsOfNext(a + b[..n], ga + init, b[n..], g, comm, start, freq);
      assert a + b[..n] + b[n..] == a + b && ga + init + [g] == ga + gb;
    }
  }

  lemma {:induction false} UsedOfBoth(ga: seq<seq<Data>>, gb: seq<seq<Data>>, comm: bool)
    ensures UsedOf(ga + gb, comm) == UsedOf(ga, comm) + UsedOf(gb, comm)
    decreases |gb|
  {
    hide Passes, Used;
    if gb == [] {
      assert ga + gb == ga;
    } else {
      assert (ga + gb)[..|ga + gb| - 1] == ga + gb[..|gb| - 1];
      UsedOfBoth(ga, gb[..|gb| - 1], comm);
    }
  }

  method GroupPasses(group: seq<Data>, comm: bool) returns (ok: bool)
    ensures ok == Passes(group, comm)
  {
    ok := Adequate(group);
    if ok && !comm {
      ok := PathStable(group);
    }
  }

  /** A tally with the groups' intervals and time added. */
  ghost predicate AddsGroups(was: Tally, now: Tally, groups: seq<seq<Data>>, comm: bool, start: int, freq: real)
    requires freq > 0.0
  {
    && Adds(was, now, UsedOf(groups, comm), start, freq)
    && IntervalsOf(now.ivs[|was.ivs|..], groups, comm, start, freq)
  }

  lemma AddsFailing(t: Tally, a: Tally, groups: seq<seq<Data>>, g: seq<Data>, comm: bool, start: int, freq: real)
    requires freq > 0.0 && AddsGroups(t, a, groups, comm, start, freq) && !Passes(g, comm)
    ensures AddsGroups(t, a, groups + [g], comm, start, freq)
  {
    hide Performance, Adds, Passes, Used;
    assert (groups + [g])[..|groups|] == groups;
    assert UsedOf(groups, comm) + [] == UsedOf(groups, comm);
  }

  lemma AddsPassing(t: Tally, a: Tally, b: Tally, groups: seq<seq<Data>>, g: seq<Data>, comm: bool, start: int,
      freq: real)
    requires freq > 0.0 && AddsGroups(t, a, groups, comm, start, freq) && Passes(g, comm)
    requires Adds(a, b, Used(g, comm), start, freq) && Performance(b.ivs[|a.ivs|..], g, comm, start, freq)
    ensures AddsGroups(t, b, groups + [g], comm, start, freq)
  {
    hide Performance, IntervalsOf, Passes, Used;
    IntervalsOfNext(a.ivs[|t.ivs|..], groups, b.ivs[|a.ivs|..], g, comm, start, freq);
    AddsBoth(t, a, b, UsedOf(groups, comm), Used(g, comm), start, freq);
    assert (groups + [g])[..|groups|] == groups;
    assert UsedOf(groups + [g], comm) == UsedOf(groups, comm) + Used(g, comm);
    hide Adds, UsedOf;
    assert a.ivs[|t.ivs|..] + b.ivs[|a.ivs|..] == b.ivs[|t.ivs|..];
  }

  lemma AddsGroupsBoth(t: Tally, a: Tally, b: Tally, ga: seq<seq<Data>>, gb: seq<seq<Data>>, comm: bool, start: int,
      freq: real)
    requires freq > 0.0 && AddsGroups(t, a, ga, comm, start, freq) && AddsGroups(a, b, gb, comm, start, freq)
    ensures AddsGroups(t, b, ga + gb, comm, start, freq)
  {
    hide IntervalsOf, UsedOf;
    AddsBoth(t, a, b, UsedOf(ga, comm), UsedOf(gb, comm), start, freq);
    UsedOfBoth(ga, gb, comm);
    IntervalsOfBoth(a.ivs[|t.ivs|..], ga, b.ivs[|a.ivs|..], gb, comm, start, freq);
    assert a.ivs[|t.ivs|..] + b.ivs[|a.ivs|..] == b.ivs[|t.ivs|..];
  }

  lemma AddsNoGroups(t: Tally, comm: bool, start: int, freq: real)
    requires freq > 0.0
    ensures AddsGroups(t, t, [], comm, start, freq)
  {
    AddsNothing(t, start, freq);
  }

  /** Each group is part of the records. */
  ghost predicate PartsOf(groups: seq<seq<Data>>, records: seq<Data>) {
    forall i :: 0 <= i < |groups| ==> multiset(groups[i]) <= multiset(records)
  }

  /** The groups of one edge or vertex; computation is filtered by stability, communication is smoothed. */
  method AddGroups(t: Tally, groups: seq<seq<Data>>, comm: bool, start: int, freq: real, ghost log: seq<Entry>,
      ghost now: int)
    returns (t': Tally, stable: nat)
    requires freq > 0.0 && Sound(log, start, now) && PartsOf(groups, DataOfLog(log))
    ensures AddsGroups(t, t', groups, comm, start, freq) && stable == CountPassing(groups, comm)
  {
    hide Sound, Adds, AddsGroups, Performance, Passes, DataOfLog;
    t', stable := t, 0;
    AddsNoGroups(t, comm, start, freq);
    for i := 0 to |groups|
      invariant AddsGroups(t, t', groups[..i], comm, start, freq) && stable == CountPassing(groups[..i], comm)
    {
      assert groups[..i + 1] == groups[..i] + [groups[i]];
      ghost var before := t';
      var ok := GroupPasses(groups[i], comm);
      if ok {
        stable := stable + 1;
        PartIsTimed(groups[i], log, start, now);
        ghost var added;
        t', added := AddGroup(t', groups[i], comm, start, freq);
        AddsPassing(t, before, t', groups[..i], groups[i], comm, start, freq);
      } else {
        AddsFailing(t, t', groups[..i], groups[i], comm, start, freq);
      }
    }
    assert groups[..|groups|] == groups;
  }

  lemma {:induction false} PartOfFlat(groups: seq<seq<Data>>, i: nat)
    requires i < |groups|
    ensures multiset(groups[i]) <= multiset(Flat(groups))
  {
    assert groups[..i + 1][..i] == groups[..i];
    FlatLast(groups[..i + 1]);
    FlatPrefix(groups, i + 1);
  }

  /** What is measured of groups is part of their records. */
  lemma {:induction false} UsedIsPart(groups: seq<seq<Data>>, comm: bool)
    ensures multiset(UsedOf(groups, comm)) <= multiset(Flat(groups))
  {
    if groups != [] {
      var init, g := groups[..|groups| - 1], groups[|groups| - 1];
      UsedIsPart(init, comm);
      FlatLast(groups);
      assert g == Used(g, comm) + g[|Used(g, comm)|..];
      hide Flat, Passes, Used;
    }
  }

  lemma {:induction false} FlatPrefix(groups: seq<seq<Data>>, n: nat)
    requires n <= |groups|
    ensures multiset(Flat(groups[..n])) <= multiset(Flat(groups))
    decreases |groups|
  {
    if n < |groups| {
      var init := groups[..|groups| - 1];
      FlatPrefix(init, n);
      assert init[..n] == groups[..n];
      FlatLast(groups);
    } else {
      assert groups[..n] == groups;
    }
  }

  // ---------- One graph

  /** The records of a log that lie on the given edges of one graph. */
  function OnKeys(log: seq<Entry>, w: Which, ks: set<Key>): multiset<Data> {
    if log == [] then multiset{}
    else
      var e := log[|log| - 1];
      OnKeys(log[..|log| - 1], w, ks) + OnKey(e, w, ks)
  }

  function OnKey(e: Entry, w: Which, ks: set<Key>): multiset<Data> {
    if e.which == w && e.key in ks then multiset{e.data} else multiset{}
  }

  lemma KeysLast(log: seq<Entry>, w: Which, ks: set<Key>)
    requires log != []
    ensures OnKeys(log, w, ks) == OnKeys(log[..|log| - 1], w, ks) + OnKey(log[|log| - 1], w, ks)
  {
  }

  lemma SelectLast(log: seq<Entry>, w: Which, k: Key)
    requires log != []
    ensures multiset(Select(log, w, k)) ==
            multiset(Select(log[..|log| - 1], w, k)) + OnKey(log[|log| - 1], w, {k})
  {
  }

  lemma {:induction false} OnOneMoreKey(log: seq<Entry>, w: Which, ks: set<Key>, k: Key)
    requires k !in ks
    ensures OnKeys(log, w, ks + {k}) == OnKeys(log, w, ks) + multiset(Select(log, w, k))
  {
    if log != [] {
      var init, e := log[..|log| - 1], log[|log| - 1];
      OnOneMoreKey(init, w, ks, k);
      SelectLast(log, w, k);
      KeysLast(log, w, ks);
      KeysLast(log, w, ks + {k});
      assert OnKey(e, w, ks + {k}) == OnKey(e, w, ks) + OnKey(e, w, {k});
      hide OnKeys, OnKey, Select;
    }
  }

  lemma {:induction false} OnNoKeys(log: seq<Entry>, w: Which)
    ensures OnKeys(log, w, {}) == multiset{}
  {
    if log != [] {
      OnNoKeys(log[..|log| - 1], w);
    }
  }

  /** Every record lies in one graph. */
  lemma {:induction false} OnAllKeys(log: seq<Entry>, kc: set<Key>, km: set<Key>, ki: set<Key>)
    ensures OnKeys(log, Calc, kc) + OnKeys(log, Comm, km) + OnKeys(log, Io, ki) <= multiset(DataOfLog(log))
  {
    if log != [] {
      hide OnKeys, OnKey, DataOfLog;
      var init, e := log[..|log| - 1], log[|log| - 1];
      OnAllKeys(init, kc, km, ki);
      KeysLast(log, Calc, kc);
      KeysLast(log, Comm, km);
      KeysLast(log, Io, ki);
      OneGraph(e, kc, km, ki);
      DataLast(log);
      JoinParts(OnKeys(init, Calc, kc), OnKeys(init, Comm, km), OnKeys(init, Io, ki),
                OnKey(e, Calc, kc), OnKey(e, Comm, km), OnKey(e, Io, ki), multiset(DataOfLog(init)), e.data);
    }
  }

  lemma OneGraph(e: Entry, kc: set<Key>, km: set<Key>, ki: set<Key>)
    ensures OnKey(e, Calc, kc) + OnKey(e, Comm, km) + OnKey(e, Io, ki) <= multiset{e.data}
  {
  }

  lemma DataLast(log: seq<Entry>)
    requires log != []
    ensures multiset(DataOfLog(log)) == multiset(DataOfLog(log[..|log| - 1])) + multiset{log[|log| - 1].data}
  {
    assert DataOfLog(log) == DataOfLog(log[..|log| - 1]) + [log[|log| - 1].data];
  }

  lemma JoinParts<T>(a: multiset<T>, b: multiset<T>, c: multiset<T>, x: multiset<T>, y: multiset<T>, z: multiset<T>,
      all: multiset<T>, d: T)
    requires a + b + c <= all && x + y + z <= multiset{d}
    ensures (a + x) + (b + y) + (c + z) <= all + multiset{d}
  {
    assert (a + x) + (b + y) + (c + z) == (a + b + c) + (x + y + z);
  }

  lemma {:induction false} SelectIsOnKeys(log: seq<Entry>, w: Which, k: Key)
    ensures multiset(Select(log, w, k)) <= multiset(DataOfLog(log))
  {
    OnNoKeys(log, w);
    OnOneMoreKey(log, w, {}, k);
    assert {} + {k} == {k};
    OnNoKeys(log, Calc);
    OnNoKeys(log, Comm);
    OnNoKeys(log, Io);
    OnAllKeys(log, if w == Calc then {k} else {}, if w == Comm then {k} else {}, if w == Io then {k} else {});
  }

  /** Whether counts are sparse does not depend on their order. */
  lemma PermutedSparse(a: seq<Data>, b: seq<Data>, alpha: real)
    requires Sparse(a, alpha) && multiset(a) == multiset(b)
    ensures Sparse(b, alpha)
  {
    hide High, Below;
    forall i, m, k | 0 <= i < |b| && 0 <= m < |b| && 0 <= k < |b| && i != m && m != k && i != k
        && Ins(b[i]) <= Ins(b[m]) <= Ins(b[k]) && Ins(b[m]) < 0
      ensures Below(b[i], High(b[m], alpha))
    {
      var x, y, z := PermutedTriple(a, b, i, m, k);
    }
  }

  /** The groups the code makes of the records of one edge or vertex. */
  ghost predicate Grouping(records: seq<Data>, comm: bool, groups: seq<seq<Data>>) {
    if comm then exists ks :: PartedBy(ks, records, groups) else exists s :: ClassifiedFrom(s, records, 0.02, groups)
  }

  /** The groups of computation hold no record twice if the counts are sparse, and for distinct records only then. */
  lemma ClassifiedOnce(s: seq<Data>, records: seq<Data>, groups: seq<seq<Data>>)
    requires records != [] && ClassifiedFrom(s, records, 0.02, groups)
    ensures Sparse(records, 0.02) ==> multiset(Flat(groups)) <= multiset(records)
    ensures Distinct(records) && multiset(Flat(groups)) <= multiset(records) ==> Sparse(records, 0.02)
  {
    hide Centers, Ascending, Flat, CenterGroups, GapGroups, Sparse, Distinct;
    assert s != [] by { assert |multiset(s)| == |multiset(records)|; }
    var cs := Centers(s, 0.02, |s|);
    ClassifyIsDisjoint(s, 0.02);
    FlatAppend(CenterGroups(s, cs), GapGroups(s, cs));
    if Sparse(records, 0.02) {
      PermutedSparse(records, s, 0.02);
    }
    if Sparse(s, 0.02) {
      PermutedSparse(s, records, 0.02);
    }
    if Distinct(records) {
      PermutedDistinct(records, s);
    }
  }

  /** Each group the code makes is part of the records. */
  lemma {:induction false} GroupsArePart(records: seq<Data>, comm: bool, groups: seq<seq<Data>>)
    requires Grouping(records, comm, groups)
    ensures PartsOf(groups, records)
    ensures comm ==> multiset(Flat(groups)) <= multiset(records)
  {
    if comm {
      hide Flat;
      var ks :| PartedBy(ks, records, groups);
      CommPartition(records, ks);
      forall i | 0 <= i < |groups| ensures multiset(groups[i]) <= multiset(records) {
        PartOfFlat(groups, i);
      }
    } else {
      hide Centers, Ascending;
      var s :| ClassifiedFrom(s, records, 0.02, groups);
      var cs := Centers(s, 0.02, |s|);
      forall i | 0 <= i < |groups| ensures multiset(groups[i]) <= multiset(records) {
        GroupIs(s, cs, i);
        SlicePart(s, From(cs, i), To(cs, i));
      }
    }
  }

  lemma SlicePart(s: seq<Data>, l: nat, r: nat)
    requires l <= |s| && r <= |s|
    ensures multiset(Slice(s, l, r)) <= multiset(s)
  {
    if l <= r {
      assert s == s[..l] + s[l..r] + s[r..];
    }
  }

  /** The groups of one edge or vertex, which hold no record twice if the counts are sparse. */
  method Classify(records: seq<Data>, comm: bool) returns (groups: seq<seq<Data>>)
    requires records != []
    ensures Grouping(records, comm, groups) && PartsOf(groups, records)
    ensures comm || Sparse(records, 0.02) ==> multiset(Flat(groups)) <= multiset(records)
  {
    hide Sparse, Flat, PartsOf;
    if comm {
      groups := CommClassify(records);
    } else {
      groups := CalcClassify(records, 0.02);
      ghost var s :| ClassifiedFrom(s, records, 0.02, groups);
      ClassifiedOnce(s, records, groups);
    }
    GroupsArePart(records, comm, groups);
  }

  // ---------- No record measured twice

  /** Records of which all are in the log. */
  ghost predicate Within(recs: seq<Data>, all: multiset<Data>) {
    forall d <- recs :: d in all
  }

  /** Of distinct records a selection is part exactly if it repeats none. */
  lemma PartIffDistinct(recs: seq<Data>, all: multiset<Data>)
    requires Within(recs, all) && forall d :: all[d] <= 1
    ensures multiset(recs) <= all <==> Distinct(recs)
  {
    if Distinct(recs) {
      forall d ensures multiset(recs)[d] <= all[d] {
        OnceIfDistinct(recs, d);
        if d in multiset(recs) {
          assert d in recs;
        }
      }
    }
    if i, j :| 0 <= i < j < |recs| && recs[i] == recs[j] {
      TwoPlaces(recs, i, j);
      assert multiset(recs)[recs[i]] > all[recs[i]];
    }
  }

  lemma {:induction false} UsedWithin(groups: seq<seq<Data>>, records: seq<Data>, comm: bool)
    requires PartsOf(groups, records)
    ensures Within(UsedOf(groups, comm), multiset(records))
  {
    if groups != [] {
      var init, g := groups[..|groups| - 1], groups[|groups| - 1];
      UsedWithin(init, records, comm);
      hide Passes;
      forall d | d in Used(g, comm) ensures d in multiset(records) {
        assert d in g && d in multiset(g);
      }
    }
  }

  /** The records of an edge are distinct. */
  lemma {:induction false} SelectOnce(log: seq<Entry>, start: int, now: int, w: Which, k: Key)
    requires InOrder(log, start, now)
    ensures Distinct(Select(log, w, k)) && forall d :: multiset(Select(log, w, k))[d] <= 1
  {
    hide InOrder, Select, DataOfLog;
    var records := Select(log, w, k);
    SelectIsOnKeys(log, w, k);
    forall d ensures multiset(records)[d] <= 1 {
      LogOnce(log, start, now, d);
    }
    PartIffDistinct(records, multiset(records));
  }

  /** Measuring an edge repeats a record only if it is an edge of computation with counts that do not measure once. */
  lemma {:induction false} EdgeDistinct(log: seq<Entry>, start: int, now: int, w: Which, k: Key, comm: bool,
      groups: seq<seq<Data>>)
    requires InOrder(log, start, now) && Grouping(Select(log, w, k), comm, groups)
    ensures Within(UsedOf(groups, comm), multiset(Select(log, w, k)))
    ensures Distinct(UsedOf(groups, comm)) <==> comm || MeasuresOnce(Select(log, w, k))
  {
    hide InOrder, Select, Distinct, Once, UsedOf, Centers, Within, PartsOf;
    var records := Select(log, w, k);
    SelectOnce(log, start, now, w, k);
    GroupsArePart(records, comm, groups);
    UsedWithin(groups, records, comm);
    if comm {
      UsedIsPart(groups, comm);
      PartIffDistinct(UsedOf(groups, comm), multiset(records));
    } else {
      var s :| ClassifiedFrom(s, records, 0.02, groups);
      PermutedDistinct(records, s);
      MeasuredOnceIff(s, groups);
      OnceAnyhow(s, records);
    }
  }

  /** The code measures no record of an edge of a run twice if and only if its counts measure once. */
  lemma EdgeMeasuredOnce(log: seq<Entry>, start: int, now: int, k: Key, groups: seq<seq<Data>>)
    requires InOrder(log, start, now) && Grouping(Select(log, Calc, k), false, groups)
    ensures multiset(UsedOf(groups, false)) <= multiset(Select(log, Calc, k)) <==> MeasuresOnce(Select(log, Calc, k))
  {
    hide InOrder, Select, Distinct, MeasuresOnce, UsedOf, Grouping;
    EdgeDistinct(log, start, now, Calc, k, false, groups);
    SelectOnce(log, start, now, Calc, k);
    PartIffDistinct(UsedOf(groups, false), multiset(Select(log, Calc, k)));
  }

  /** The counts on the given edges measure once. */
  ghost predicate OnceOn(graph: Graph, ks: set<Key>) {
    forall k <- ks :: k in graph ==> MeasuresOnce(graph[k])
  }

  // ---------- All edges of a graph

  /** All the groups of a graph, edge by edge in the order of `order`. */
  ghost predicate GroupsOfGraph(graph: Graph, comm: bool, order: seq<Key>, pieces: seq<seq<seq<Data>>>) {
    && |order| == |pieces|
    && (forall i, j :: 0 <= i < j < |order| ==> order[i] != order[j])
    && (forall i :: 0 <= i < |order| ==> order[i] in graph && Grouping(graph[order[i]], comm, pieces[i]))
  }

  lemma GroupsNext(graph: Graph, comm: bool, order: seq<Key>, pieces: seq<seq<seq<Data>>>, k: Key,
      groups: seq<seq<Data>>)
    requires GroupsOfGraph(graph, comm, order, pieces) && k !in order && k in graph && Grouping(graph[k], comm, groups)
    ensures GroupsOfGraph(graph, comm, order + [k], pieces + [groups])
    ensures Flat(pieces + [groups]) == Flat(pieces) + groups
  {
    hide Grouping;
    assert (pieces + [groups])[..|pieces|] == pieces;
  }

  /**
   The edges in `done` have been read, in the order and into the groups given, and `t` holds what they add to
   `was`. What is measured repeats no record exactly if every edge read measures once.
   */
  ghost predicate HaveRead(graph: Graph, comm: bool, was: Tally, t: Tally, log: seq<Entry>, w: Which, done: set<Key>,
                           order: seq<Key>, pieces: seq<seq<seq<Data>>>, start: int, freq: real)
    requires freq > 0.0
  {
    && GroupsOfGraph(graph, comm, order, pieces) && (forall k :: k in order <==> k in done)
    && AddsGroups(was, t, Flat(pieces), comm, start, freq)
    && Within(UsedOf(Flat(pieces), comm), OnKeys(log, w, done))
    && (Distinct(UsedOf(Flat(pieces), comm)) <==> comm || OnceOn(graph, done))
  }

  lemma HaveReadNothing(graph: Graph, comm: bool, was: Tally, log: seq<Entry>, w: Which, start: int, freq: real)
    requires freq > 0.0
    ensures HaveRead(graph, comm, was, was, log, w, {}, [], [], start, freq)
  {
    hide AddsGroups, OnKeys;
    AddsNoGroups(was, comm, start, freq);
  }

  /** Records of one more edge are different from those of the edges before. */
  lemma {:induction false} EdgesApart(log: seq<Entry>, start: int, now: int, w: Which, done: set<Key>, k: Key,
      a: seq<Data>, b: seq<Data>)
    requires InOrder(log, start, now) && k !in done
    requires Within(a, OnKeys(log, w, done)) && Within(b, multiset(Select(log, w, k)))
    ensures !Share(a, b) && Within(a + b, OnKeys(log, w, done + {k}))
  {
    hide InOrder, OnKeys, Select;
    OnOneMoreKey(log, w, done, k);
    OnKeysIsPart(log, w, done + {k});
    forall d | d in a ensures d !in b {
      LogOnce(log, start, now, d);
      assert d in OnKeys(log, w, done);
      assert OnKeys(log, w, done + {k})[d] <= multiset(DataOfLog(log))[d];
    }
  }

  lemma OnceOnMore(graph: Graph, ks: set<Key>, k: Key)
    requires k in graph
    ensures OnceOn(graph, ks + {k}) <==> OnceOn(graph, ks) && MeasuresOnce(graph[k])
  {
    hide MeasuresOnce;
  }

  lemma HaveReadMore(graph: Graph, comm: bool, was: Tally, a: Tally, b: Tally, log: seq<Entry>, w: Which,
      done: set<Key>, order: seq<Key>, pieces: seq<seq<seq<Data>>>, k: Key, groups: seq<seq<Data>>, start: int,
      now: int, freq: real)
    requires freq > 0.0 && HaveRead(graph, comm, was, a, log, w, done, order, pieces, start, freq)
    requires InOrder(log, start, now)
    requires k in graph && k !in done && graph[k] == Select(log, w, k) && Grouping(graph[k], comm, groups)
    requires AddsGroups(a, b, groups, comm, start, freq)
    ensures HaveRead(graph, comm, was, b, log, w, done + {k}, order + [k], pieces + [groups], start, freq)
  {
    hide Adds, AddsGroups, OnKeys, Select, UsedOf, Flat, GroupsOfGraph, Grouping, InOrder, Distinct, Share, Within,
        MeasuresOnce, OnceOn;
    AddsGroupsBoth(was, a, b, Flat(pieces), groups, comm, start, freq);
    UsedOfBoth(Flat(pieces), groups, comm);
    GroupsNext(graph, comm, order, pieces, k, groups);
    EdgeDistinct(log, start, now, w, k, comm, groups);
    EdgesApart(log, start, now, w, done, k, UsedOf(Flat(pieces), comm), UsedOf(groups, comm));
    DistinctJoin(UsedOf(Flat(pieces), comm), UsedOf(groups, comm));
    OnceOnMore(graph, done, k);
  }

  /** No edge or vertex yields more intervals than it has records. */
  lemma FewerIntervals(was: Tally, now: Tally, groups: seq<seq<Data>>, records: seq<Data>, comm: bool, start: int,
      freq: real)
    requires freq > 0.0 && AddsGroups(was, now, groups, comm, start, freq)
    requires multiset(UsedOf(groups, comm)) <= multiset(records)
    ensures |now.ivs| - |was.ivs| <= |records|
  {
    hide UsedOf, IntervalsOf;
    var recs := UsedOf(groups, comm);
    var rest := multiset(records) - multiset(recs);
    assert multiset(records) == multiset(recs) + rest;
    assert |records| == |multiset(records)| == |multiset(recs)| + |rest|;
  }

  /** How many groups of each edge were measured, as the code notes it: edge by edge in one map. */
  function CountsOf(order: seq<Key>, pieces: seq<seq<seq<Data>>>, comm: bool): map<Key, int>
    requires |order| == |pieces|
  {
    if order == [] then map[]
    else
      var n := |order| - 1;
      CountsOf(order[..n], pieces[..n], comm)[order[n] := CountPassing(pieces[n], comm)]
  }

  /** Of edges visited once each, every one has its own number of groups. */
  lemma {:induction false} CountsAt(order: seq<Key>, pieces: seq<seq<seq<Data>>>, comm: bool, i: nat)
    requires |order| == |pieces| && i < |order| && Distinct(order)
    ensures order[i] in CountsOf(order, pieces, comm)
    ensures CountsOf(order, pieces, comm)[order[i]] == CountPassing(pieces[i], comm)
  {
    var n := |order| - 1;
    if i < n {
      CountsAt(order[..n], pieces[..n], comm, i);
      assert order[i] != order[n];
    }
  }

  lemma CountsNext(was: map<Key, int>, order: seq<Key>, pieces: seq<seq<seq<Data>>>, k: Key, groups: seq<seq<Data>>,
      comm: bool)
    requires |order| == |pieces|
    ensures was + CountsOf(order + [k], pieces + [groups], comm) ==
            (was + CountsOf(order, pieces, comm))[k := CountPassing(groups, comm)]
  {
    hide CountPassing;
    assert (order + [k])[..|order|] == order && (pieces + [groups])[..|pieces|] == pieces;
  }

  /** The time covered and the intervals of one graph, and how many groups of each edge were used. */
  method ProcessGraph(graph: Graph, comm: bool, covered: real, counts: map<Key, int>, start: int, freq: real,
                      ghost log: seq<Entry>, ghost w: Which, ghost now: int)
    returns (t: Tally, counts': map<Key, int>, ghost order: seq<Key>, ghost pieces: seq<seq<seq<Data>>>)
    requires freq > 0.0 && Sound(log, start, now)
    requires graph.Keys == KeysOf(log, w) && forall k <- graph :: graph[k] == Select(log, w, k)
    ensures HaveRead(graph, comm, Tally(covered, []), t, log, w, graph.Keys, order, pieces, start, freq)
    ensures |order| == |pieces| && counts' == counts + CountsOf(order, pieces, comm)
  {
    hide InOrder, AddsGroups, OnKeys, Select, KeysOf, Flat, GroupsOfGraph, CountPassing, CountsOf, Grouping, Sparse,
        PartsOf, UsedOf, MeasuresOnce;
    t, counts', order, pieces := Tally(covered, []), counts, [], [];
    HaveReadNothing(graph, comm, t, log, w, start, freq);
    CountsNothing(counts, comm);
    ghost var done: set<Key> := {};
    var todo := graph.Keys;
    while todo != {}
      invariant done + todo == graph.Keys && done !! todo && |order| == |pieces|
      invariant counts' == counts + CountsOf(order, pieces, comm)
      invariant HaveRead(graph, comm, Tally(covered, []), t, log, w, done, order, pieces, start, freq)
      decreases todo
    {
      hide HaveRead;
      var k :| k in todo;
      var records := graph[k];
      SelectSome(log, w, k);
      var groups := Classify(records, comm);
      var before := t;
      var stable;
      EdgePartsOf(log, w, k, groups);
      t, stable := AddGroups(t, groups, comm, start, freq, log, now);
      counts' := counts'[k := stable];
      if comm {
        UsedIsPart(groups, comm);
        FewerIntervals(before, t, groups, records, comm, start, freq);
        var newlen := |t.ivs| - |before.ivs|;
        assert |records| >= newlen;
      }
      HaveReadMore(graph, comm, Tally(covered, []), before, t, log, w, done, order, pieces, k, groups, start, now,
          freq);
      CountsNext(counts, order, pieces, k, groups, comm);
      order, pieces := order + [k], pieces + [groups];
      done, todo := done + {k}, todo - {k};
    }
    assert done == graph.Keys;
  }

  lemma CountsNothing(was: map<Key, int>, comm: bool)
    ensures was + CountsOf([], [], comm) == was
  {
  }

  lemma EdgePartsOf(log: seq<Entry>, w: Which, k: Key, groups: seq<seq<Data>>)
    requires PartsOf(groups, Select(log, w, k))
    ensures PartsOf(groups, DataOfLog(log))
  {
    hide Select, DataOfLog;
    SelectIsOnKeys(log, w, k);
  }

  lemma {:induction false} SelectSome(log: seq<Entry>, w: Which, k: Key)
    requires k in KeysOf(log, w)
    ensures Select(log, w, k) != []
  {
    var init, e := log[..|log| - 1], log[|log| - 1];
    if !(e.which == w && e.key == k) {
      assert k in KeysOf(init, w) by {
        var x :| x in log && x.which == w && x.key == k;
        assert x in init;
      }
      SelectSome(init, w, k);
    }
  }

  // ---------- Performance over time

  lemma LaterDiffers(log: seq<Entry>, start: int, now: int, i: nat, j: nat)
    requires InOrder(log, start, now) && i < j < |log|
    ensures log[i].data != log[j].data
  {
  }

  /** No two entries of a sound log are of the same time. */
  lemma {:induction false} LogOnce(log: seq<Entry>, start: int, now: int, d: Data)
    requires InOrder(log, start, now)
    ensures multiset(DataOfLog(log))[d] <= 1
  {
    if log != [] {
      var n := |log| - 1;
      var init := DataOfLog(log[..n]);
      assert DataOfLog(log) == init + [log[n].data];
      LogOnce(log[..n], start, now, d);
      forall i | 0 <= i < n ensures init[i] != log[n].data {
        LaterDiffers(log, start, now, i, n);
      }
    }
  }

  /** Different records of a sound log have spans that do not meet. */
  lemma {:induction false} RecsApart(recs: seq<Data>, log: seq<Entry>, start: int, now: int, i: nat, j: nat)
    requires InOrder(log, start, now) && Within(recs, multiset(DataOfLog(log)))
    requires i < |recs| && j < |recs| && recs[i] != recs[j]
    ensures recs[i].timestamp <= Begin(recs[j]) || recs[j].timestamp <= Begin(recs[i])
  {
    var all := DataOfLog(log);
    assert recs[i] in multiset(all) && recs[j] in multiset(all);
    var a :| 0 <= a < |all| && all[a] == recs[i];
    var b :| 0 <= b < |all| && all[b] == recs[j];
    assert log[a].data == recs[i] && log[b].data == recs[j];
  }

  lemma RecInLog(recs: seq<Data>, log: seq<Entry>, start: int, now: int, i: nat)
    requires InOrder(log, start, now) && Within(recs, multiset(DataOfLog(log))) && i < |recs|
    ensures start <= Begin(recs[i]) < recs[i].timestamp <= now
  {
    var all := DataOfLog(log);
    assert recs[i] in multiset(all);
    var a :| 0 <= a < |all| && all[a] == recs[i];
    assert log[a].data == recs[i];
  }

  lemma DivideMoves(x: int, y: int, freq: real)
    requires freq > 0.0 && x <= y
    ensures Seconds(x, freq) <= Seconds(y, freq)
    ensures x < y ==> Seconds(x, freq) < Seconds(y, freq)
  {
    var a, b := x as real / freq, y as real / freq;
    assert a * freq == x as real && b * freq == y as real;
    if a > b {
      ScaleUp(b, a, freq);
    }
  }

  /**
   On an edge of a sound log no record occurs twice, so the groups of computation hold none twice exactly if the
   counts are sparse.
   */
  lemma EdgeHeldOnce(log: seq<Entry>, start: int, now: int, k: Key, groups: seq<seq<Data>>)
    requires InOrder(log, start, now) && k in KeysOf(log, Calc) && Grouping(Select(log, Calc, k), false, groups)
    ensures multiset(Flat(groups)) <= multiset(Select(log, Calc, k)) <==> Sparse(Select(log, Calc, k), 0.02)
  {
    hide InOrder, Sparse, Flat, Select, ClassifiedFrom;
    var records := Select(log, Calc, k);
    SelectSome(log, Calc, k);
    SelectOnce(log, start, now, Calc, k);
    var s :| ClassifiedFrom(s, records, 0.02, groups);
    ClassifiedOnce(s, records, groups);
  }

  /** The intervals of one graph repeat or do not overlap, and none overlaps exactly if no record is measured twice. */
  lemma {:induction false} IntervalsDisjoint(ivs: seq<Interval>, recs: seq<Data>, log: seq<Entry>, start: int,
      now: int, freq: real)
    requires freq > 0.0 && Accounts(ivs, recs, start, freq)
    requires InOrder(log, start, now) && Within(recs, multiset(DataOfLog(log)))
    ensures Sweep.Separate(ivs) && (Sweep.Disjoint(ivs) <==> Distinct(recs))
    ensures forall i :: 0 <= i < |ivs| ==> 0.0 <= ivs[i].l && 0.0 <= ivs[i].perf <= 1.0
  {
    hide InOrder, Within;
    forall i | 0 <= i < |ivs| ensures 0.0 <= ivs[i].l < ivs[i].r {
      RecInLog(recs, log, start, now, i);
      DivideMoves(0, Begin(recs[i]) - start, freq);
      DivideMoves(Begin(recs[i]) - start, recs[i].timestamp - start, freq);
    }
    forall i, j | 0 <= i < |ivs| && 0 <= j < |ivs| && recs[i] != recs[j]
      ensures ivs[i].r <= ivs[j].l || ivs[j].r <= ivs[i].l
    {
      RecsApart(recs, log, start, now, i, j);
      if recs[i].timestamp <= Begin(recs[j]) {
        DivideMoves(recs[i].timestamp - start, Begin(recs[j]) - start, freq);
      } else {
        DivideMoves(recs[j].timestamp - start, Begin(recs[i]) - start, freq);
      }
    }
    hide LeftEnd, RightEnd;
    SeparateIffDistinct(ivs, recs, start, freq);
  }

  lemma SeparateIffDistinct(ivs: seq<Interval>, recs: seq<Data>, start: int, freq: real)
    requires freq > 0.0 && Accounts(ivs, recs, start, freq) && forall i :: 0 <= i < |ivs| ==> ivs[i].l < ivs[i].r
    requires forall i, j :: 0 <= i < |ivs| && 0 <= j < |ivs| && recs[i] != recs[j] ==>
      ivs[i].r <= ivs[j].l || ivs[j].r <= ivs[i].l
    ensures Sweep.Separate(ivs) && (Sweep.Disjoint(ivs) <==> Distinct(recs))
  {
    hide LeftEnd, RightEnd;
    if Sweep.Disjoint(ivs) {
      forall i, j | 0 <= i < j < |recs| ensures recs[i] != recs[j] {
        assert ivs[i].r <= ivs[j].l || ivs[j].r <= ivs[i].l;
      }
    }
  }

  /** Sorting keeps intervals disjoint, and separate. */
  lemma {:induction false} PermutedDisjoint(a: seq<Interval>, b: seq<Interval>)
    requires multiset(a) == multiset(b)
    ensures Sweep.Disjoint(a) ==> Sweep.Disjoint(b)
    ensures Sweep.Separate(a) ==> Sweep.Separate(b)
  {
    forall i | 0 <= i < |b| && (Sweep.Disjoint(a) || Sweep.Separate(a)) ensures b[i].l < b[i].r {
      assert b[i] in multiset(a);
    }
    forall i, j | 0 <= i < j < |b| && Sweep.Disjoint(a) ensures b[i].r <= b[j].l || b[j].r <= b[i].l {
      var x, y := PermutedPair(a, b, i, j);
    }
    forall i, j | 0 <= i < j < |b| && Sweep.Separate(a)
      ensures b[i].r <= b[j].l || b[j].r <= b[i].l || (b[i].l == b[j].l && b[i].r == b[j].r)
    {
      var x, y := PermutedPair(a, b, i, j);
    }
  }

  /** Performance in bins of one second: the weighted mean of what was measured, each value a fraction of the best. */
  method Timeline(ivs: seq<Interval>, time_r: int, ghost recs: seq<Data>, ghost log: seq<Entry>, ghost start: int,
      ghost now: int, ghost freq: real)
    returns (perf: seq<real>, ghost s: seq<Interval>)
    requires freq > 0.0 && Accounts(ivs, recs, start, freq)
    requires Sound(log, start, now) && Within(recs, multiset(DataOfLog(log)))
    ensures multiset(s) == multiset(ivs) && Sweep.ByLeft(s) && Sweep.Separate(s)
    ensures Sweep.Disjoint(s) <==> Distinct(recs)
    ensures perf == Sweep.Bins(s, 0.0, time_r as real, 1.0) && forall v <- perf :: Sweep.IsFraction(v)
  {
    hide InOrder, Accounts, Within;
    perf := Sweep.MergeIntervalWeightedMean(ivs, 0, time_r, 1.0);
    s :| Sweep.SweptFrom(s, ivs, 0, time_r, 1.0, perf);
    IntervalsDisjoint(ivs, recs, log, start, now, freq);
    PermutedDisjoint(ivs, s);
    PermutedDisjoint(s, ivs);
    forall i | 0 <= i < |s| ensures 0.0 <= s[i].l && 0.0 <= s[i].perf <= 1.0 {
      assert s[i] in multiset(ivs);
    }
    Sweep.SeparateAligned(s, 0.0, time_r as real, 1.0);
    Sweep.SweepFromStart(s, 0.0, time_r as real, 1.0);
    Sweep.BinsAreFractions(s, 0.0, time_r as real, 1.0);
  }

  // ---------- The whole report

  datatype Summary = Summary(totalTime: real, calcTime: real, commTime: real, edges: nat, vertices: nat,
                             counts: map<Key, int>)

  /** Parts of three graphs are part of the log. */
  lemma PartsOfLog(log: seq<Entry>, kc: set<Key>, km: set<Key>, ki: set<Key>, rc: seq<Data>, rm: seq<Data>,
      ri: seq<Data>)
    requires multiset(rc) <= OnKeys(log, Calc, kc) && multiset(rm) <= OnKeys(log, Comm, km) &&
        multiset(ri) <= OnKeys(log, Io, ki)
    ensures multiset(rc + rm + ri) <= multiset(DataOfLog(log))
    ensures multiset(rc) <= multiset(DataOfLog(log)) && multiset(rm) <= multiset(DataOfLog(log)) &&
        multiset(ri) <= multiset(DataOfLog(log))
  {
    hide OnKeys;
    OnAllKeys(log, kc, km, ki);
  }

  lemma SecondsFit(x: int, y: int, z: int, t: int, freq: real)
    requires freq > 0.0 && x + y + z <= t
    ensures Seconds(x, freq) + (Seconds(y, freq) + Seconds(z, freq)) <= Seconds(t, freq)
  {
    hide Seconds;
    AddSeconds(y, z, freq);
    AddSeconds(x, y + z, freq);
    DivideMoves(x + (y + z), t, freq);
  }

  lemma CoveredFits(rc: seq<Data>, rm: seq<Data>, ri: seq<Data>, log: seq<Entry>, start: int, now: int)
    requires Sound(log, start, now) && multiset(rc + rm + ri) <= multiset(DataOfLog(log))
    ensures SumTime(rc) + SumTime(rm) + SumTime(ri) <= now - start
  {
    hide Sound, SumTime, Timed, DataOfLog;
    PartIsTimed(rc + rm + ri, log, start, now);
    SumAppend(rc + rm, ri);
    SumAppend(rc, rm);
  }

  lemma AddsAll(covered: real, t: Tally, groups: seq<seq<Data>>, comm: bool, start: int, freq: real)
    requires freq > 0.0 && AddsGroups(Tally(covered, []), t, groups, comm, start, freq)
    ensures t.covered == covered + Seconds(SumTime(UsedOf(groups, comm)), freq)
    ensures Accounts(t.ivs, UsedOf(groups, comm), start, freq) && IntervalsOf(t.ivs, groups, comm, start, freq)
  {
    hide IntervalsOf;
    assert t.ivs[0..] == t.ivs;
  }

  lemma ReportFits(log: seq<Entry>, kc: set<Key>, km: set<Key>, ki: set<Key>, rc: seq<Data>, rm: seq<Data>,
      ri: seq<Data>, start: int, now: int, freq: real)
    requires freq > 0.0 && Sound(log, start, now)
    requires multiset(rc) <= OnKeys(log, Calc, kc) && multiset(rm) <= OnKeys(log, Comm, km) &&
        multiset(ri) <= OnKeys(log, Io, ki)
    ensures Seconds(SumTime(rc), freq) + (Seconds(SumTime(rm), freq) + Seconds(SumTime(ri), freq)) <=
        Seconds(now - start, freq)
  {
    hide Sound, OnKeys, SumTime, Seconds, DataOfLog;
    PartsOfLog(log, kc, km, ki, rc, rm, ri);
    CoveredFits(rc, rm, ri, log, start, now);
    SecondsFit(SumTime(rc), SumTime(rm), SumTime(ri), now - start, freq);
  }

  /**
   How a graph was read: the order of its edges, the groups of each, the intervals of all, and the sorted
   intervals.
   */
  datatype Reading = Reading(order: seq<Key>, pieces: seq<seq<seq<Data>>>, ivs: seq<Interval>, sorted: seq<Interval>)

  /** The records a reading measures. */
  ghost function MeasuredBy(rd: Reading, comm: bool): seq<Data> {
    UsedOf(Flat(rd.pieces), comm)
  }

  /**
   `perf` is the timeline of a graph: its edges, each once, give their groups; the groups that pass give
   their intervals, any two of which have the same span or do not overlap; and each bin of a second holds the
   weighted mean of those.
   */
  ghost predicate IsTimeline(perf: seq<real>, graph: Graph, comm: bool, rd: Reading, time_r: int, start: int,
      freq: real)
    requires freq > 0.0
  {
    && GroupsOfGraph(graph, comm, rd.order, rd.pieces) && (forall k <- graph :: k in rd.order)
    && IntervalsOf(rd.ivs, Flat(rd.pieces), comm, start, freq)
    && multiset(rd.sorted) == multiset(rd.ivs) && Sweep.ByLeft(rd.sorted) && Sweep.Separate(rd.sorted)
    && perf == Sweep.Bins(rd.sorted, 0.0, time_r as real, 1.0)
    && forall v <- perf :: Sweep.IsFraction(v)
  }

  /** The timeline of one graph, adding the time it covers. */
  method PerformanceProcess(graph: Graph, comm: bool, covered: real, counts: map<Key, int>, time_r: int, start: int,
                            freq: real, ghost log: seq<Entry>, ghost w: Which, ghost now: int)
    returns (perf: seq<real>, covered': real, counts': map<Key, int>, ghost rd: Reading)
    requires freq > 0.0 && Sound(log, start, now)
    requires graph.Keys == KeysOf(log, w) && forall k <- graph :: graph[k] == Select(log, w, k)
    ensures covered' == covered + Seconds(SumTime(MeasuredBy(rd, comm)), freq)
    ensures multiset(MeasuredBy(rd, comm)) <= OnKeys(log, w, graph.Keys) <==> comm || OnceOn(graph, graph.Keys)
    ensures Sweep.Disjoint(rd.sorted) <==> comm || OnceOn(graph, graph.Keys)
    ensures IsTimeline(perf, graph, comm, rd, time_r, start, freq)
    ensures |rd.order| == |rd.pieces| && counts' == counts + CountsOf(rd.order, rd.pieces, comm)
  {
    hide InOrder, Accounts, AddsGroups, Select, KeysOf, OnKeys, GroupsOfGraph, IntervalsOf, UsedOf, Flat, Seconds,
        SumTime, CountsOf, Distinct, Within, DataOfLog, OnceOn;
    var t, cs, order, pieces := ProcessGraph(graph, comm, covered, counts, start, freq, log, w, now);
    counts', covered' := cs, t.covered;
    AddsAll(covered, t, Flat(pieces), comm, start, freq);
    MeasuredInLog(UsedOf(Flat(pieces), comm), log, start, now, w, graph.Keys);
    ghost var s;
    perf, s := Timeline(t.ivs, time_r, UsedOf(Flat(pieces), comm), log, start, now, freq);
    rd := Reading(order, pieces, t.ivs, s);
  }

  lemma MeasuredInLog(recs: seq<Data>, log: seq<Entry>, start: int, now: int, w: Which, ks: set<Key>)
    requires InOrder(log, start, now) && Within(recs, OnKeys(log, w, ks))
    ensures Within(recs, multiset(DataOfLog(log)))
    ensures multiset(recs) <= OnKeys(log, w, ks) <==> Distinct(recs)
  {
    hide InOrder, OnKeys, DataOfLog;
    OnKeysIsPart(log, w, ks);
    forall d ensures OnKeys(log, w, ks)[d] <= 1 {
      LogOnce(log, start, now, d);
      assert OnKeys(log, w, ks)[d] <= multiset(DataOfLog(log))[d];
    }
    PartIffDistinct(recs, OnKeys(log, w, ks));
  }

  lemma SortedGraphs(book: Book, log: seq<Entry>)
    requires Sorted(book, log)
    ensures book.graphCalc.Keys == KeysOf(log, Calc) &&
        forall k <- book.graphCalc :: book.graphCalc[k] == Select(log, Calc, k)
    ensures book.graphComm.Keys == KeysOf(log, Comm) &&
        forall k <- book.graphComm :: book.graphComm[k] == Select(log, Comm, k)
    ensures book.graphIo.Keys == KeysOf(log, Io) && forall k <- book.graphIo :: book.graphIo[k] == Select(log, Io, k)
  {
  }

  lemma OnKeysIsPart(log: seq<Entry>, w: Which, ks: set<Key>)
    ensures OnKeys(log, w, ks) <= multiset(DataOfLog(log))
  {
    OnNoKeys(log, Calc);
    OnNoKeys(log, Comm);
    OnNoKeys(log, Io);
    OnAllKeys(log, if w == Calc then ks else {}, if w == Comm then ks else {}, if w == Io then ks else {});
  }

  lemma TotalTime(log: seq<Entry>, start: int, now: int, freq: real)
    requires freq > 0.0 && Sound(log, start, now)
    ensures U64(now - start) as real / freq == Seconds(now - start, freq)
  {
  }

  /** Communication alone, and all if the counts of computation measure once, takes no more than the run. */
  lemma BooksFit(log: seq<Entry>, kc: set<Key>, km: set<Key>, ki: set<Key>, rc: seq<Data>, rm: seq<Data>,
      ri: seq<Data>, start: int, now: int, freq: real)
    requires freq > 0.0 && Sound(log, start, now)
    requires multiset(rm) <= OnKeys(log, Comm, km) && multiset(ri) <= OnKeys(log, Io, ki)
    ensures Seconds(SumTime(rm), freq) + Seconds(SumTime(ri), freq) <= Seconds(now - start, freq)
    ensures multiset(rc) <= OnKeys(log, Calc, kc) ==>
      Seconds(SumTime(rc), freq) + (Seconds(SumTime(rm), freq) + Seconds(SumTime(ri), freq)) <=
        Seconds(now - start, freq)
  {
    hide Sound, OnKeys, SumTime;
    ReportFits(log, kc, km, ki, [], rm, ri, start, now, freq);
    NoTime(freq);
    hide Seconds;
    if multiset(rc) <= OnKeys(log, Calc, kc) {
      ReportFits(log, kc, km, ki, rc, rm, ri, start, now, freq);
    }
  }

  lemma NoTime(freq: real)
    requires freq > 0.0
    ensures Seconds(SumTime([]), freq) == 0.0
  {
  }

  /**
   What a report says of a book: the times are those of the records measured, the group counts those of the three
   graphs in one map, and no two intervals of a graph overlap, of computation exactly if every edge measures once.
   */
  ghost predicate Reported(sum: Summary, book: Book, start: int, now: int, freq: real, rc: Reading, rm: Reading,
                           ri: Reading)
    requires freq > 0.0
  {
    && sum.totalTime == Seconds(now - start, freq)
    && sum.calcTime == Seconds(SumTime(MeasuredBy(rc, false)), freq)
    && sum.commTime == Seconds(SumTime(MeasuredBy(rm, true)), freq) + Seconds(SumTime(MeasuredBy(ri, true)), freq)
    && sum.edges == |book.graphCalc| && sum.vertices == |book.graphComm| + |book.graphIo|
    && |rc.order| == |rc.pieces| && |rm.order| == |rm.pieces| && |ri.order| == |ri.pieces|
    && sum.counts == CountsOf(rc.order, rc.pieces, false) + CountsOf(rm.order, rm.pieces, true) +
         CountsOf(ri.order, ri.pieces, true)
    && Sweep.Disjoint(rm.sorted) && Sweep.Disjoint(ri.sorted)
    && (Sweep.Disjoint(rc.sorted) <==> OnceOn(book.graphCalc, book.graphCalc.Keys))
  }

  lemma ReportIs(sum: Summary, book: Book, start: int, now: int, freq: real, rc: Reading, rm: Reading, ri: Reading)
    requires freq > 0.0 && sum.totalTime == Seconds(now - start, freq)
    requires sum.calcTime == Seconds(SumTime(MeasuredBy(rc, false)), freq)
    requires sum.commTime == Seconds(SumTime(MeasuredBy(rm, true)), freq) + Seconds(SumTime(MeasuredBy(ri, true)), freq)
    requires sum.edges == |book.graphCalc| && sum.vertices == |book.graphComm| + |book.graphIo|
    requires |rc.order| == |rc.pieces| && |rm.order| == |rm.pieces| && |ri.order| == |ri.pieces|
    requires sum.counts == CountsOf(rc.order, rc.pieces, false) + CountsOf(rm.order, rm.pieces, true) +
        CountsOf(ri.order, ri.pieces, true)
    requires Sweep.Disjoint(rm.sorted) && Sweep.Disjoint(ri.sorted)
    requires Sweep.Disjoint(rc.sorted) <==> OnceOn(book.graphCalc, book.graphCalc.Keys)
    ensures Reported(sum, book, start, now, freq, rc, rm, ri)
  {
  }

  /**
   The report of a book of records: each timeline is a weighted mean; communication covers no more than the time
   of the run, nor does it together with computation if no record of computation is measured twice, which is so
   exactly if every edge measures once.
   */
  method GeneratePerformanceGraph(book: Book, start: int, now: int, freq: real, ghost log: seq<Entry>)
    returns (sum: Summary, calcPerf: seq<real>, commPerf: seq<real>, ioPerf: seq<real>,
             ghost rc: Reading, ghost rm: Reading, ghost ri: Reading)
    requires freq > 0.0 && Sorted(book, log) && Sound(log, start, now)
    ensures Reported(sum, book, start, now, freq, rc, rm, ri)
    ensures sum.commTime <= sum.totalTime == Seconds(now - start, freq)
    ensures OnceOn(book.graphCalc, book.graphCalc.Keys) ==> sum.calcTime + sum.commTime <= sum.totalTime
    ensures IsTimeline(calcPerf, book.graphCalc, false, rc, sum.totalTime.Floor, start, freq)
    ensures IsTimeline(commPerf, book.graphComm, true, rm, sum.totalTime.Floor, start, freq)
    ensures IsTimeline(ioPerf, book.graphIo, true, ri, sum.totalTime.Floor, start, freq)
  {
    hide *;
    SortedGraphs(book, log);
    var total := U64(now - start) as real / freq;
    TotalTime(log, start, now, freq);
    var calcTime, commTime;
    var counts: map<Key, int> := map[];
    calcPerf, calcTime, counts, rc := PerformanceProcess(book.graphCalc, false, 0.0, counts, total.Floor, start, freq,
        log, Calc, now);
    commPerf, commTime, counts, rm := PerformanceProcess(book.graphComm, true, 0.0, counts, total.Floor, start, freq,
        log, Comm, now);
    ioPerf, commTime, counts, ri := PerformanceProcess(book.graphIo, true, commTime, counts, total.Floor, start, freq,
        log, Io, now);
    var xc, xm, xi := MeasuredBy(rc, false), MeasuredBy(rm, true), MeasuredBy(ri, true);
    BooksFit(log, book.graphCalc.Keys, book.graphComm.Keys, book.graphIo.Keys, xc, xm, xi, start, now, freq);
    sum := Summary(total, calcTime, commTime, |book.graphCalc|, |book.graphComm| + |book.graphIo|, counts);
    FromNothing(CountsOf(rc.order, rc.pieces, false));
    ReportIs(sum, book, start, now, freq, rc, rm, ri);
  }

  lemma FromNothing(m: map<Key, int>)
    ensures map[] + m == m
  {
  }

  /**
   Every offline run that starts with the hook after MPI_Init, under an increasing clock, can be reported at its
   end.
   */
  lemma {:induction false} RunIsReportable(g: Grain, hs: seq<Hook>, now: int)
    requires hs != [] && StartsRecording(hs[0]) && Ticking(g, FRESH, hs[0].start, hs)
    requires Now(g, FRESH, hs[0].start, hs) <= now < TWO64
    ensures var st := Run(g, FRESH, hs);
            Sorted(st.book, Log(g, FRESH, hs)) && Sound(Log(g, FRESH, hs), st.base.start, now)
  {
    hide Sorted, Run, Log, Update, Ticking, Now;
    GraphsHoldTheLog(g, hs);
    IntervalsInOrder(g, hs);
  }

  /** The report of a whole run. */
  method ReportRun(st: State, now: int, freq: real, ghost g: Grain, ghost hs: seq<Hook>)
    returns (sum: Summary, calcPerf: seq<real>, commPerf: seq<real>, ioPerf: seq<real>)
    requires freq > 0.0 && hs != [] && StartsRecording(hs[0]) && Ticking(g, FRESH, hs[0].start, hs)
    requires Now(g, FRESH, hs[0].start, hs) <= now < TWO64
    requires st == Run(g, FRESH, hs)
    ensures sum.commTime <= sum.totalTime == Seconds(now - st.base.start, freq)
    ensures OnceOn(st.book.graphCalc, st.book.graphCalc.Keys) ==> sum.calcTime + sum.commTime <= sum.totalTime
    ensures exists rc, rm, ri ::
      && Reported(sum, st.book, st.base.start, now, freq, rc, rm, ri)
      && IsTimeline(calcPerf, st.book.graphCalc, false, rc, sum.totalTime.Floor, st.base.start, freq)
      && IsTimeline(commPerf, st.book.graphComm, true, rm, sum.totalTime.Floor, st.base.start, freq)
      && IsTimeline(ioPerf, st.book.graphIo, true, ri, sum.totalTime.Floor, st.base.start, freq)
  {
    hide Run, Log, Ticking, Now, OnceOn, StartsRecording, Sorted, Sound, IsTimeline, Reported, Seconds;
    RunIsReportable(g, hs, now);
    ghost var rc, rm, ri;
    sum, calcPerf, commPerf, ioPerf, rc, rm, ri :=
      GeneratePerformanceGraph(st.book, st.base.start, now, freq, Log(g, FRESH, hs));
  }
}
