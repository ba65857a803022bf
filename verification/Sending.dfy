/** What is sent to the server is what a run has recorded: its edges of computation in the order of their keys. */
module Sending {
  import opened Basics
  import opened Hooks
  import opened HookRuns
  import opened Wire

  /** What a hook reads fits the types of the fields it is stored in. */
  predicate HookFits(h: Hook) {
    && |h.pmcs| + |h.rusage| == EVENTS
    && (forall i :: 0 <= i < |h.rusage| ==> -TWO64 <= 2 * h.rusage[i] < TWO64)
    && 0 <= h.tsc < TWO64 && 0 <= h.comm < TWO64
    && -TWO32 <= 2 * h.func < TWO32 && -TWO32 <= 2 * h.count < TWO32 && -TWO32 <= 2 * h.target < TWO32
  }

  predicate KeyBefore(a: Key, b: Key) {
    a.0 < b.0 || (a.0 == b.0 && a.1 < b.1)
  }

  /** The edges are those of the graph, in the order of their keys. */
  ghost predicate Lists(edges: seq<Edge>, graph: Graph) {
    && (forall i, j :: 0 <= i < j < |edges| ==> KeyBefore(edges[i].key, edges[j].key))
    && (forall i :: 0 <= i < |edges| ==> edges[i].key in graph && edges[i].values == graph[edges[i].key])
    && (forall k <- graph :: exists i :: 0 <= i < |edges| && edges[i].key == k)
  }

  lemma Powers()
    ensures Pow(8) == TWO64 && Pow(4) == TWO32
  {
    assert Pow(2) == 256 * Pow(1) && Pow(1) == 256 * Pow(0);
    assert Pow(4) == 256 * Pow(3) && Pow(3) == 256 * Pow(2);
    assert Pow(6) == 256 * Pow(5) && Pow(5) == 256 * Pow(4);
    assert Pow(8) == 256 * Pow(7) && Pow(7) == 256 * Pow(6);
  }

  lemma SignedFits(x: int)
    ensures -TWO64 <= 2 * S64(U64(x)) < TWO64
  {
  }

  /** The record of a hook fits its types, whatever it is measured from. */
  lemma RecordFits(base: Base, h: Hook)
    requires HookFits(h)
    ensures InRange(DataOf(base, h))
  {
    hide Pow, S64;
    Powers();
    var d := DataOf(base, h);
    forall i | 0 <= i < EVENTS ensures -Pow(8) <= 2 * d.papi[i] < Pow(8) {
      if i < |h.pmcs| {
        SignedFits(h.pmcs[i] as int - (if i < |base.pmcs| then base.pmcs[i] else 0));
      }
    }
  }

  /** Every entry of a run's log has a record that fits its types. */
  lemma {:induction false} LogFits(g: Grain, st: State, hs: seq<Hook>, i: nat)
    requires i < |Log(g, st, hs)| && 0 <= st.lastCall < TWO64 && forall h <- hs :: HookFits(h)
    ensures InRange(Log(g, st, hs)[i].data)
    decreases |hs|
  {
    hide InRange, Update, CallAddr, DataOf, HookFits;
    var e := Emit(g, st, hs[0]);
    AddressFits(g, st, hs[0]);
    RecordFits(st.base, hs[0]);
    EntryData(g, st.lastCall, hs[0], DataOf(st.base, hs[0]));
    hide EntryOf;
    if e == None {
      LogFits(g, Update(g, st, hs[0]), hs[1..], i);
    } else if i > 0 {
      LogFits(g, Update(g, st, hs[0]), hs[1..], i - 1);
    }
  }

  lemma {:induction false} SelectedFrom(log: seq<Entry>, w: Which, k: Key, j: nat) returns (i: nat)
    requires j < |Select(log, w, k)|
    ensures i < |log| && log[i].data == Select(log, w, k)[j]
  {
    var n := |log| - 1;
    if j < |Select(log[..n], w, k)| {
      i := SelectedFrom(log[..n], w, k, j);
    } else {
      i := n;
    }
  }

  lemma KeyFromLog(log: seq<Entry>, w: Which, k: Key) returns (i: nat)
    requires k in KeysOf(log, w)
    ensures i < |log| && log[i].key == k
  {
    var e :| e in log && e.which == w && e.key == k;
    i :| 0 <= i < |log| && log[i] == e;
  }

  /** The edges of any run whose hooks read values that fit their types can be sent. */
  lemma {:induction false} RunIsSendable(g: Grain, hs: seq<Hook>, edges: seq<Edge>)
    requires (forall h <- hs :: HookFits(h)) && Lists(edges, Run(g, FRESH, hs).book.graphCalc)
    ensures AllInRange(edges)
  {
    hide InRange, HookFits, Log, Run, Select, KeysOf, Pow;
    GraphsHoldTheLog(g, hs);
    var log := Log(g, FRESH, hs);
    Powers();
    forall n | 0 <= n < |edges| ensures EdgeInRange(edges[n]) {
      var k, vs := edges[n].key, edges[n].values;
      assert vs == Select(log, Calc, k);
      var i := KeyFromLog(log, Calc, k);
      KeysAreAddresses(g, FRESH, hs, i);
      forall j | 0 <= j < |vs| ensures InRange(vs[j]) {
        var x := SelectedFrom(log, Calc, k, j);
        LogFits(g, FRESH, hs, x);
      }
    }
  }
}
