/**
 A run whose report covers more computation than the run is long: eight calls at one site, before each of which the
 instruction counter has gone back by 100.
 */
module Overcount {
  import opened Basics
  import opened Hooks
  import opened HookRuns
  import opened Clustering
  import opened Stability
  import opened CommGroups
  import opened Paths
  import opened Permutations
  import opened MeasuredOnce
  import opened Report

  const SITE := 7
  const CALLS := 8

  const FIRST := Hook(true, 0, 0, 0, 0, SITE, true, 0, 1, 2, 3, [100], [100], [])

  /** The time after `i` calls. */
  function Time(i: nat): int {
    3 + 15 * i
  }

  function Before(i: nat): Hook {
    Hook(false, 1, 0, 0, 0, SITE, true, 0, Time(i) + 10, Time(i) + 11, Time(i) + 12, [0], [0], [])
  }

  function After(i: nat): Hook {
    Hook(true, 1, 0, 0, 0, SITE, true, 0, Time(i) + 13, Time(i) + 14, Time(i) + 15, [0], [100], [])
  }

  /** The hooks of the calls from `i` on. */
  function Calls(i: nat): seq<Hook>
    requires i <= CALLS
    decreases CALLS - i
  {
    if i == CALLS then [] else [Before(i), After(i)] + Calls(i + 1)
  }

  function Whole(): seq<Hook> {
    [FIRST] + Calls(0)
  }

  function Between(i: nat): Data {
    Data([-100], 10, Time(i) + 10, 1, 0, 0, 0)
  }

  function During(i: nat): Data {
    Data([0], 1, Time(i) + 13, 1, 0, 0, 0)
  }

  function Computed(i: nat): Entry {
    Entry(Calc, (SITE, SITE), Between(i))
  }

  function Called(i: nat): Entry {
    Entry(Comm, (SITE, SITE), During(i))
  }

  /** The recorder when `i` calls have been made. */
  function Idle(i: nat, b: Book): State {
    State(true, false, false, 0, SITE, Base(0, Time(i), [100]), b)
  }

  function Busy(i: nat, b: Book): State {
    State(true, false, true, 0, SITE, Base(0, Time(i) + 12, [0]), b)
  }

  lemma Enters(i: nat, b: Book)
    requires i < CALLS
    ensures Emit(CallSite, Idle(i, b), Before(i)) == Some(Computed(i)) && Outermost(Idle(i, b), Before(i))
    ensures Update(CallSite, Idle(i, b), Before(i)) == Busy(i, Inserted(b, Computed(i)))
  {
    hide Inserted;
    assert DataOf(Idle(i, b).base, Before(i)) == Between(i);
  }

  lemma Leaves(i: nat, b: Book)
    requires i < CALLS
    ensures Emit(CallSite, Busy(i, b), After(i)) == Some(Called(i)) && Outermost(Busy(i, b), After(i))
    ensures Update(CallSite, Busy(i, b), After(i)) == Idle(i + 1, Inserted(b, Called(i)))
  {
    hide Inserted;
    assert DataOf(Busy(i, b).base, After(i)) == During(i);
  }

  /** What one call adds to a log. */
  function Pair(i: nat): seq<Entry> {
    [Computed(i), Called(i)]
  }

  function Entries(i: nat): seq<Entry>
    requires i <= CALLS
    decreases CALLS - i
  {
    if i == CALLS then [] else Pair(i) + Entries(i + 1)
  }

  lemma OneCall(i: nat, b: Book, hs: seq<Hook>)
    requires i < CALLS
    ensures var st, hs', st' := Idle(i, b), [Before(i), After(i)] + hs,
                Idle(i + 1, Inserted(Inserted(b, Computed(i)), Called(i)));
            && Log(CallSite, st, hs') == Pair(i) + Log(CallSite, st', hs)
            && (Ticking(CallSite, st', Time(i + 1), hs) ==> Ticking(CallSite, st, Time(i), hs'))
            && Now(CallSite, st, Time(i), hs') == Now(CallSite, st', Time(i + 1), hs)
  {
    var hs' := [Before(i), After(i)] + hs;
    Enters(i, b);
    Leaves(i, Inserted(b, Computed(i)));
    hide Emit, Update, Outermost, Inserted;
    assert hs'[1..] == [After(i)] + hs && hs'[1..][1..] == hs;
    var busy := Busy(i, Inserted(b, Computed(i)));
    var idle := Idle(i + 1, Inserted(Inserted(b, Computed(i)), Called(i)));
    assert Log(CallSite, busy, hs'[1..]) == [Called(i)] + Log(CallSite, idle, hs);
    assert Log(CallSite, Idle(i, b), hs') == [Computed(i)] + Log(CallSite, busy, hs'[1..]);
  }

  lemma NoMore(st: State, prev: int)
    ensures Log(CallSite, st, []) == [] && Ticking(CallSite, st, prev, []) && Now(CallSite, st, prev, []) == prev
  {
  }

  lemma {:induction false} AllCalls(i: nat, b: Book)
    requires i <= CALLS
    ensures Log(CallSite, Idle(i, b), Calls(i)) == Entries(i)
    ensures Ticking(CallSite, Idle(i, b), Time(i), Calls(i))
    ensures Now(CallSite, Idle(i, b), Time(i), Calls(i)) == Time(CALLS)
    decreases CALLS - i
  {
    hide Inserted, Log, Ticking, Now, Idle, Time, Before, After;
    if i == CALLS {
      NoMore(Idle(i, b), Time(i));
    } else {
      OneCall(i, b, Calls(i + 1));
      AllCalls(i + 1, Inserted(Inserted(b, Computed(i)), Called(i)));
    }
  }

  lemma FirstHook()
    ensures StartsRecording(FIRST) && Outermost(FRESH, FIRST) && Emit(CallSite, FRESH, FIRST) == None
    ensures Update(CallSite, FRESH, FIRST) == Idle(0, EMPTY_BOOK)
  {
  }

  /** The run is one that recording starts on, under an increasing clock, and takes 123 ticks. */
  lemma {:induction false} RunIsRegular()
    ensures Whole() != [] && Whole()[0] == FIRST && StartsRecording(FIRST)
    ensures Ticking(CallSite, FRESH, FIRST.start, Whole()) && Now(CallSite, FRESH, FIRST.start, Whole()) == 123
    ensures Log(CallSite, FRESH, Whole()) == Entries(0)
  {
    FirstHook();
    hide Emit, Update, Outermost, StartsRecording;
    AllCalls(0, EMPTY_BOOK);
    hide Calls;
    assert Whole()[1..] == Calls(0);
  }

  lemma {:induction false} SelectJoin(a: seq<Entry>, b: seq<Entry>, w: Which, k: Key)
    ensures Select(a + b, w, k) == Select(a, w, k) + Select(b, w, k)
  {
    if b == [] {
      assert a + b == a;
    } else {
      var n := |b| - 1;
      assert (a + b)[..|a + b| - 1] == a + b[..n] && (a + b)[|a + b| - 1] == b[n];
      SelectJoin(a, b[..n], w, k);
    }
  }

  /** Every record: 100 fewer instructions than before, in ten ticks. */
  ghost predicate Alike(recs: seq<Data>) {
    forall d <- recs :: Ins(d) == -100 && d.elapsed == 10
  }

  lemma PairRecords(i: nat)
    ensures Select(Pair(i), Calc, (SITE, SITE)) == [Between(i)] && Alike([Between(i)])
    ensures forall e <- Pair(i) :: e.key == (SITE, SITE)
  {
    var k, first := (SITE, SITE), [Computed(i)];
    assert Pair(i)[..1] == first && first[..0] == [];
    assert Select([], Calc, k) == [] && Select(first, Calc, k) == [] + [Between(i)];
  }

  lemma {:induction false} ComputationRecords(i: nat)
    requires i <= CALLS
    ensures var recs := Select(Entries(i), Calc, (SITE, SITE)); |recs| == CALLS - i && Alike(recs)
    ensures forall e <- Entries(i) :: e.key == (SITE, SITE)
    decreases CALLS - i
  {
    if i < CALLS {
      ComputationRecords(i + 1);
      SelectJoin(Pair(i), Entries(i + 1), Calc, (SITE, SITE));
      PairRecords(i);
      hide Pair, Select, Between, Alike;
      AlikeJoin([Between(i)], Select(Entries(i + 1), Calc, (SITE, SITE)));
    }
  }

  // ---------- What is measured

  lemma {:induction false} AlikeTime(recs: seq<Data>)
    requires Alike(recs)
    ensures SumTime(recs) == 10 * |recs|
  {
    if recs != [] {
      AlikeTime(recs[..|recs| - 1]);
    }
  }

  lemma AlikePasses(g: seq<Data>)
    requires Alike(g)
    ensures Passes(g, false) <==> |g| >= 5
  {
    if g != [] {
      assert forall i :: 0 <= i < |g| ==> g[i] in g;
      StableNegative(g);
    }
  }

  /** How many records the gaps that pass hold, of those before the first `n` counts. */
  function Passed(n: nat): nat {
    if n == 0 then 0 else Passed(n - 1) + if n - 1 >= 5 then n - 1 else 0
  }

  lemma {:induction false} GapsUsed(gaps: seq<seq<Data>>)
    requires forall i :: 0 <= i < |gaps| ==> |gaps[i]| == i && Alike(gaps[i])
    ensures Alike(UsedOf(gaps, false)) && |UsedOf(gaps, false)| == Passed(|gaps|)
  {
    hide Passes, Alike;
    if gaps == [] {
      assert Alike([]) by { AlikeNone(); }
    } else {
      var n := |gaps| - 1;
      var init, g := gaps[..n], gaps[n];
      GapsUsed(init);
      AlikePasses(g);
      assert Used(g, false) == g;
      AlikeJoin(UsedOf(init, false), g);
      assert UsedOf(init, false) + [] == UsedOf(init, false);
    }
  }

  lemma AlikeNone()
    ensures Alike([])
  {
  }

  lemma AlikeJoin(a: seq<Data>, b: seq<Data>)
    requires Alike(a) && Alike(b)
    ensures Alike(a + b)
  {
  }

  lemma {:induction false} NothingUsed(groups: seq<seq<Data>>)
    requires forall i :: 0 <= i < |groups| ==> groups[i] == []
    ensures UsedOf(groups, false) == []
  {
    if groups != [] {
      NothingUsed(groups[..|groups| - 1]);
    }
  }

  lemma AlikeAscends(s: seq<Data>)
    requires Alike(s)
    ensures Ascending(s) && forall i :: 0 <= i < |s| ==> Ins(s[i]) == -100
  {
    forall i | 0 <= i < |s| ensures Ins(s[i]) == -100 {
      assert s[i] in s;
    }
  }

  lemma AlikeWindow(s: seq<Data>, m: nat)
    requires Alike(s) && m < |s|
    ensures Window(s, 0.02, m) == Center(m, 0)
  {
    AlikeAscends(s);
    WindowOfNegative(s, 0.02, m);
    assert High(s[m], 0.02) == -102.0 && !Below(s[0], -102.0);
    FirstIsNum(s, -102.0, |s|);
  }

  lemma {:induction false} AlikeCenters(s: seq<Data>)
    requires Alike(s)
    ensures var cs := Centers(s, 0.02, |s|); |cs| == |s| && forall i :: 0 <= i < |s| ==> cs[i] == Center(i, 0)
  {
    hide Window, Centers;
    AlikeAscends(s);
    CentersShaped(s, 0.02, |s|);
    NegativesFit(s);
    if Negatives(s) < |s| {
      NegativesFirst(s, Negatives(s));
    }
    forall i | 0 <= i < |s| ensures Window(s, 0.02, i) == Center(i, 0) {
      AlikeWindow(s, i);
    }
  }

  /** Of eight such records eighteen are measured. */
  lemma {:induction false} MeasuredTime(records: seq<Data>, groups: seq<seq<Data>>)
    requires Alike(records) && |records| == CALLS && Grouping(records, false, groups)
    ensures SumTime(UsedOf(groups, false)) == 180
  {
    hide Centers, UsedOf, SumTime;
    var s :| ClassifiedFrom(s, records, 0.02, groups);
    var cs := Centers(s, 0.02, |s|);
    assert |s| == |multiset(s)| == |multiset(records)| == CALLS;
    assert Alike(s) by {
      forall d | d in s ensures d in records {
        assert d in multiset(s);
      }
    }
    AlikeCenters(s);
    NothingUsed(CenterGroups(s, cs));
    forall i | 0 <= i < CALLS ensures Alike(GapGroups(s, cs)[i]) && |GapGroups(s, cs)[i]| == i {
      assert GapGroups(s, cs)[i] == s[..i];
    }
    GapsUsed(GapGroups(s, cs));
    assert Passed(CALLS) == 18;
    UsedOfBoth(CenterGroups(s, cs), GapGroups(s, cs), false);
    AlikeTime(UsedOf(groups, false));
  }

  // ---------- The report

  /** There is one edge of computation, with eight such records. */
  lemma OneEdge()
    ensures var graph, log := Run(CallSite, FRESH, Whole()).book.graphCalc, Entries(0);
            && graph.Keys == {(SITE, SITE)} && graph[(SITE, SITE)] == Select(log, Calc, (SITE, SITE))
            && |graph[(SITE, SITE)]| == CALLS && Alike(graph[(SITE, SITE)]) && exists to :: InOrder(log, 0, to)
  {
    hide Whole, Run, Entries, Log, Ticking, Now, Alike, Select;
    RunIsRegular();
    GraphsHoldTheLog(CallSite, Whole());
    IntervalsInOrder(CallSite, Whole());
    ComputationRecords(0);
    SortedGraphs(Run(CallSite, FRESH, Whole()).book, Entries(0));
    if (SITE, SITE) !in KeysOf(Entries(0), Calc) {
      SelectNone(Entries(0), Calc, (SITE, SITE));
    }
  }

  /** What is measured takes more time than the records of the edge, so it is no part of them. */
  lemma {:induction false} EdgeRepeats(log: seq<Entry>, to: int, recs: seq<Data>, groups: seq<seq<Data>>)
    requires InOrder(log, 0, to) && recs == Select(log, Calc, (SITE, SITE))
    requires |recs| == CALLS && Alike(recs) && Grouping(recs, false, groups)
    ensures !MeasuresOnce(recs)
  {
    hide InOrder, Select, Grouping, MeasuresOnce, UsedOf, SumTime;
    MeasuredTime(recs, groups);
    AlikeTime(recs);
    EdgeMeasuredOnce(log, 0, to, (SITE, SITE), groups);
    forall i | 0 <= i < |recs| ensures recs[i].elapsed >= 0 {
      assert recs[i] in recs;
    }
    if multiset(UsedOf(groups, false)) <= multiset(recs) {
      SumOfPart(UsedOf(groups, false), recs);
    }
  }

  /**
   However the run is read, the report counts 180 ticks of computation in a run of 123, and its one edge does not
   measure once.
   */
  lemma {:induction false} ReportExceedsRun(graph: Graph, rd: Reading, freq: real)
    requires freq > 0.0 && graph == Run(CallSite, FRESH, Whole()).book.graphCalc
    requires GroupsOfGraph(graph, false, rd.order, rd.pieces) && forall k <- graph :: k in rd.order
    ensures Whole() != [] && Whole()[0] == FIRST && StartsRecording(FIRST)
    ensures Ticking(CallSite, FRESH, FIRST.start, Whole()) && Now(CallSite, FRESH, FIRST.start, Whole()) == 123
    ensures Seconds(SumTime(MeasuredBy(rd, false)), freq) == Seconds(180, freq) > Seconds(123, freq)
    ensures !OnceOn(graph, graph.Keys)
  {
    hide Whole, Run, Alike, Log, Now, Ticking, UsedOf, SumTime, Grouping, MeasuresOnce, InOrder, Select, Entries;
    OneEdge();
    RunIsRegular();
    OneGroup(graph, rd);
    MeasuredTime(graph[(SITE, SITE)], rd.pieces[0]);
    var to :| InOrder(Entries(0), 0, to);
    EdgeRepeats(Entries(0), to, graph[(SITE, SITE)], rd.pieces[0]);
    assert (SITE, SITE) in graph.Keys && !MeasuresOnce(graph[(SITE, SITE)]);
    DivideMoves(123, 180, freq);
  }

  lemma OnlyOne(order: seq<Key>, k: Key)
    requires Distinct(order) && k in order && forall i :: 0 <= i < |order| ==> order[i] == k
    ensures |order| == 1
  {
    hide Distinct;
    OnceIfDistinct(order, k);
    if |order| > 1 {
      TwoPlaces(order, 0, 1);
    }
  }

  lemma OneGroup(graph: Graph, rd: Reading)
    requires graph.Keys == {(SITE, SITE)}
    requires GroupsOfGraph(graph, false, rd.order, rd.pieces) && forall k <- graph :: k in rd.order
    ensures |rd.pieces| == 1 && Grouping(graph[(SITE, SITE)], false, rd.pieces[0]) && Flat(rd.pieces) == rd.pieces[0]
  {
    hide Grouping;
    assert (SITE, SITE) in rd.order;
    OnlyOne(rd.order, (SITE, SITE));
    assert rd.pieces[..0] == [];
  }
}
