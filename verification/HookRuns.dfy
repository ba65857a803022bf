/**
 Whole runs of the recorder: where records go, when their time intervals lie, and what nesting does.
 */
module HookRuns {
  import opened Basics
  import opened Hooks

  function Run(g: Grain, st: State, hs: seq<Hook>): State
    decreases |hs|
  {
    if hs == [] then st else Run(g, Update(g, st, hs[0]), hs[1..])
  }

  /** The records of a run, in the order in which they are made. */
  function Log(g: Grain, st: State, hs: seq<Hook>): seq<Entry>
    decreases |hs|
  {
    if hs == [] then []
    else
      var e := Emit(g, st, hs[0]);
      (if e == None then [] else [e.value]) + Log(g, Update(g, st, hs[0]), hs[1..])
  }

  lemma {:induction false} RunAppend(g: Grain, st: State, a: seq<Hook>, b: seq<Hook>)
    ensures Run(g, st, a + b) == Run(g, Run(g, st, a), b)
    decreases |a|
  {
    hide Update;
    if a == [] {
      assert a + b == b;
    } else {
      assert (a + b)[1..] == a[1..] + b;
      RunAppend(g, Update(g, st, a[0]), a[1..], b);
    }
  }

  lemma RunOne(g: Grain, st: State, h: Hook)
    ensures Run(g, st, [h]) == Update(g, st, h)
  {
  }

  // ---------- Conservation: the graphs are the log, sorted by edge

  /** The data of the log that belongs to one edge of one graph, in order. */
  function Select(log: seq<Entry>, w: Which, k: Key): seq<Data> {
    if log == [] then []
    else
      var rest := Select(log[..|log| - 1], w, k);
      var e := log[|log| - 1];
      if e.which == w && e.key == k then rest + [e.data] else rest
  }

  /** One graph has exactly the edges its records name, each with its records in order. */
  ghost predicate Holds(b: Book, log: seq<Entry>, w: Which) {
    && GraphOf(b, w).Keys == KeysOf(log, w)
    && forall k <- GraphOf(b, w) :: GraphOf(b, w)[k] == Select(log, w, k)
  }

  ghost predicate Sorted(b: Book, log: seq<Entry>) {
    Holds(b, log, Calc) && Holds(b, log, Comm) && Holds(b, log, Io)
  }

  function KeysOf(log: seq<Entry>, w: Which): set<Key> {
    set e <- log | e.which == w :: e.key
  }

  lemma KeysAppend(log: seq<Entry>, e: Entry, w: Which)
    ensures KeysOf(log + [e], w) == KeysOf(log, w) + if e.which == w then {e.key} else {}
  {
    var log' := log + [e];
    assert forall x :: x in log' <==> x in log || x == e;
  }

  lemma InsertHolds(b: Book, log: seq<Entry>, e: Entry, w: Which)
    requires Holds(b, log, w)
    ensures Holds(Inserted(b, e), log + [e], w)
  {
    hide KeysOf, Inserted, GraphOf, Select;
    var g, g', log' := GraphOf(b, w), GraphOf(Inserted(b, e), w), log + [e];
    InsertedGraph(b, e, w);
    KeysAppend(log, e, w);
    if e.key !in g {
      SelectNone(log, w, e.key);
    }
    forall k | k in g' ensures g'[k] == Select(log', w, k) {
      SelectAppend(log, e, w, k);
    }
  }

  lemma InsertedGraph(b: Book, e: Entry, w: Which)
    ensures GraphOf(Inserted(b, e), w) ==
            if e.which == w then Append(GraphOf(b, w), e.key, e.data) else GraphOf(b, w)
  {
    hide Register, Append;
  }

  lemma SelectAppend(log: seq<Entry>, e: Entry, w: Which, k: Key)
    ensures Select(log + [e], w, k) == Select(log, w, k) + if e.which == w && e.key == k then [e.data] else []
  {
    assert (log + [e])[..|log|] == log;
  }

  lemma {:induction false} SelectNone(log: seq<Entry>, w: Which, k: Key)
    requires k !in KeysOf(log, w)
    ensures Select(log, w, k) == []
  {
    if log != [] {
      var init, e := log[..|log| - 1], log[|log| - 1];
      assert e in log && forall x <- init :: x in log;
      SelectNone(init, w, k);
    }
  }

  lemma UpdateBook(g: Grain, st: State, h: Hook)
    ensures Update(g, st, h).book == InsertIf(st.book, Emit(g, st, h))
  {
    hide U64, DiffPmcs, EntryOf, CallAddr, Inserted;
  }

  lemma {:induction false} RunSorted(g: Grain, st: State, hs: seq<Hook>, log: seq<Entry>)
    requires Sorted(st.book, log)
    ensures Sorted(Run(g, st, hs).book, log + Log(g, st, hs))
    decreases |hs|
  {
    hide Update, Emit, Sorted, Run, Log;
    if hs == [] {
      RunNone(g, st, hs);
      assert log + [] == log;
    } else {
      RunFirst(g, st, hs);
      var e, st1 := Emit(g, st, hs[0]), Update(g, st, hs[0]);
      UpdateBook(g, st, hs[0]);
      InsertSorted(st.book, log, e);
      var one := if e == None then [] else [e.value];
      RunSorted(g, st1, hs[1..], log + one);
      assert log + (one + Log(g, st1, hs[1..])) == log + one + Log(g, st1, hs[1..]);
    }
  }

  lemma RunNone(g: Grain, st: State, hs: seq<Hook>)
    requires hs == []
    ensures Run(g, st, hs) == st && Log(g, st, hs) == []
  {
  }

  lemma RunFirst(g: Grain, st: State, hs: seq<Hook>)
    requires hs != []
    ensures Run(g, st, hs) == Run(g, Update(g, st, hs[0]), hs[1..])
    ensures var e := Emit(g, st, hs[0]);
            Log(g, st, hs) == (if e == None then [] else [e.value]) + Log(g, Update(g, st, hs[0]), hs[1..])
  {
    hide Update, Emit;
  }

  lemma InsertSorted(b: Book, log: seq<Entry>, e: Option<Entry>)
    requires Sorted(b, log)
    ensures Sorted(InsertIf(b, e), log + if e == None then [] else [e.value])
  {
    hide Holds, Inserted;
    if e == None {
      assert log + [] == log;
    } else {
      InsertHolds(b, log, e.value, Calc);
      InsertHolds(b, log, e.value, Comm);
      InsertHolds(b, log, e.value, Io);
    }
  }

  /** Nothing is lost, invented or reordered: after any run the graphs hold exactly its log. */
  lemma {:induction false} GraphsHoldTheLog(g: Grain, hs: seq<Hook>)
    ensures Sorted(Run(g, FRESH, hs).book, Log(g, FRESH, hs))
  {
    FreshSorted();
    hide Run, Log, Sorted, FRESH;
    RunSorted(g, FRESH, hs, []);
    assert [] + Log(g, FRESH, hs) == Log(g, FRESH, hs);
  }

  lemma FreshSorted()
    ensures Sorted(FRESH.book, [])
  {
  }

  // ---------- Vertices

  /** What the printer of function counts asserts: a vertex of communication is a self loop, or follows no call. */
  lemma {:induction false} CommKeys(g: Grain, st: State, hs: seq<Hook>, i: nat)
    requires i < |Log(g, st, hs)| && Log(g, st, hs)[i].which != Calc
    ensures var k := Log(g, st, hs)[i].key; k.0 == 0 || k.0 == k.1
    decreases |hs|
  {
    var e := Emit(g, st, hs[0]);
    if e == None {
      CommKeys(g, Update(g, st, hs[0]), hs[1..], i);
    } else if i > 0 {
      CommKeys(g, Update(g, st, hs[0]), hs[1..], i - 1);
    }
  }

  /** Every key recorded is a pair of 64-bit addresses. */
  lemma {:induction false} KeysAreAddresses(g: Grain, st: State, hs: seq<Hook>, i: nat)
    requires i < |Log(g, st, hs)| && 0 <= st.lastCall < TWO64
    ensures var k := Log(g, st, hs)[i].key; 0 <= k.0 < TWO64 && 0 <= k.1 < TWO64
    decreases |hs|
  {
    if hs == [] {
      RunNone(g, st, hs);
    }
    hide Update, Emit, Log, TWO64;
    RunFirst(g, st, hs);
    var e := Emit(g, st, hs[0]);
    AddressFits(g, st, hs[0]);
    if e == None {
      KeysAreAddresses(g, Update(g, st, hs[0]), hs[1..], i);
    } else if i > 0 {
      KeysAreAddresses(g, Update(g, st, hs[0]), hs[1..], i - 1);
    }
  }

  lemma AddressFits(g: Grain, st: State, h: Hook)
    requires 0 <= st.lastCall < TWO64
    ensures 0 <= Update(g, st, h).lastCall < TWO64
    ensures var e := Emit(g, st, h); e != None ==> 0 <= e.value.key.0 < TWO64 && 0 <= e.value.key.1 < TWO64
  {
    assert 0 <= CallAddr(g, st.lastCall, h) < TWO64;
    hide CallAddr, DataOf, InsertIf;
  }

  // ---------- Time

  function Begin(d: Data): int {
    d.timestamp - d.elapsed
  }

  /** Readings come in strictly increasing time, and before the clock wraps; `prev` is the last one. */
  ghost predicate Ticking(g: Grain, st: State, prev: int, hs: seq<Hook>)
    decreases |hs|
  {
    hs == [] ||
    var h := hs[0];
    && prev < h.tsc < TWO64
    && (Outermost(st, h) ==> h.tsc < h.tsc1 < h.tsc2 < TWO64)
    && Ticking(g, Update(g, st, h), if Outermost(st, h) then h.tsc2 else h.tsc, hs[1..])
  }

  /** Intervals of the log lie one after the other between two times; none is empty. */
  ghost predicate InOrder(log: seq<Entry>, from: int, to: int) {
    && (forall i :: 0 <= i < |log| ==>
        from <= Begin(log[i].data) && log[i].data.elapsed > 0 && log[i].data.timestamp <= to)
    && (forall i, j :: 0 <= i < j < |log| ==> log[i].data.timestamp < Begin(log[j].data))
  }

  /** The time of the last reading of a run. */
  function Now(g: Grain, st: State, prev: int, hs: seq<Hook>): int
    decreases |hs|
  {
    if hs == [] then prev
    else Now(g, Update(g, st, hs[0]), if Outermost(st, hs[0]) then hs[0].tsc2 else hs[0].tsc, hs[1..])
  }

  lemma EntryData(g: Grain, last: int, h: Hook, d: Data)
    ensures EntryOf(g, last, h, d).Some? ==> EntryOf(g, last, h, d).value.data == d
  {
  }

  lemma {:induction false} EmitInTime(g: Grain, st: State, h: Hook)
    requires st.inited && !st.finished && 0 <= st.base.time < h.tsc < TWO64
    ensures var e := Emit(g, st, h); e.Some? ==> Begin(e.value.data) == st.base.time && e.value.data.timestamp == h.tsc
    ensures var s' := Update(g, st, h);
            && s'.inited && !s'.finished && s'.base.start == st.base.start
            && s'.base.time == if Outermost(st, h) then h.tsc2 else h.tsc
  {
    hide EntryOf, CallAddr, DiffPmcs;
    EntryData(g, st.lastCall, h, DataOf(st.base, h));
  }

  /** A first record, then a log that starts after it. */
  lemma ConsInOrder(e: Option<Entry>, log: seq<Entry>, from: int, mid: int, to: int)
    requires InOrder(log, mid, to) && from < mid <= to
    requires e.Some? ==> Begin(e.value.data) == from && from < e.value.data.timestamp <= mid
    requires e.Some? && log != [] ==> e.value.data.timestamp < Begin(log[0].data)
    ensures InOrder((if e == None then [] else [e.value]) + log, from, to)
  {
    if e.Some? && log != [] {
      assert forall j :: 0 < j < |log| ==> log[0].data.timestamp < Begin(log[j].data);
    }
  }

  lemma {:induction false} RunInOrder(g: Grain, st: State, hs: seq<Hook>)
    requires st.inited && !st.finished && st.base.time >= 0
    requires Ticking(g, st, st.base.time, hs)
    ensures InOrder(Log(g, st, hs), st.base.time, Now(g, st, st.base.time, hs))
    ensures st.base.time <= Now(g, st, st.base.time, hs) && Run(g, st, hs).base.start == st.base.start
    decreases |hs|
  {
    if hs != [] {
      var h := hs[0];
      EmitInTime(g, st, h);
      assert Emit(g, st, h).Some? ==> Outermost(st, h);
      hide Update, Emit, Outermost, InOrder;
      var st' := Update(g, st, h);
      RunInOrder(g, st', hs[1..]);
      FirstAfter(Log(g, st', hs[1..]), st'.base.time, Now(g, st', st'.base.time, hs[1..]));
      ConsInOrder(Emit(g, st, h), Log(g, st', hs[1..]), st.base.time, st'.base.time, Now(g, st, st.base.time, hs));
    }
  }

  lemma FirstAfter(log: seq<Entry>, from: int, to: int)
    requires InOrder(log, from, to)
    ensures log != [] ==> from <= Begin(log[0].data)
  {
  }

  /** The hook after MPI_Init, on which recording starts: it makes no record. */
  predicate StartsRecording(h: Hook) {
    h.post && Filtered(h.func) && h.inited && 0 <= h.start < h.tsc < h.tsc1 < h.tsc2 < TWO64
  }

  lemma MoreRoom(log: seq<Entry>, from: int, earlier: int, to: int)
    requires InOrder(log, from, to) && earlier <= from
    ensures InOrder(log, earlier, to)
  {
  }

  /** All the intervals recorded by a run, over the three graphs, are disjoint, not empty and after its start. */
  lemma {:induction false} IntervalsInOrder(g: Grain, hs: seq<Hook>)
    requires hs != [] && StartsRecording(hs[0]) && Ticking(g, FRESH, hs[0].start, hs)
    ensures Run(g, FRESH, hs).base.start == hs[0].start
    ensures InOrder(Log(g, FRESH, hs), hs[0].start, Now(g, FRESH, hs[0].start, hs))
    ensures hs[0].start <= Now(g, FRESH, hs[0].start, hs)
  {
    var h := hs[0];
    assert Emit(g, FRESH, h) == None;
    var st := Update(g, FRESH, h);
    assert st.base.start == h.start && st.base.time == h.tsc2 && st.inited && !st.finished;
    hide Update, Emit;
    RunInOrder(g, st, hs[1..]);
    MoreRoom(Log(g, st, hs[1..]), st.base.time, h.start, Now(g, st, st.base.time, hs[1..]));
    hide InOrder, Ticking;
    assert Log(g, FRESH, hs) == Log(g, st, hs[1..]);
  }

  function SumElapsed(log: seq<Entry>): int {
    if log == [] then 0 else SumElapsed(log[..|log| - 1]) + log[|log| - 1].data.elapsed
  }

  /** Disjoint intervals take no more time than there is. */
  lemma {:induction false} SumInOrder(log: seq<Entry>, from: int, to: int)
    requires InOrder(log, from, to) && from <= to
    ensures 0 <= SumElapsed(log) <= to - from
  {
    if log != [] {
      var init, last := log[..|log| - 1], log[|log| - 1].data;
      SumInOrder(init, from, Begin(last));
    }
  }

  // ---------- Nesting

  /** Pre hooks less post hooks. */
  function Nesting(hs: seq<Hook>): int {
    if hs == [] then 0 else Nesting(hs[..|hs| - 1]) + if hs[|hs| - 1].post then -1 else 1
  }

  /** The flag says whether a call is under way, and the counter how deep calls nest below it. */
  predicate Tracks(s: State, nesting: int) {
    s.inited && !s.finished && s.inMpi == (nesting > 0) && s.depth == if nesting > 0 then nesting - 1 else 0
  }

  lemma TracksNext(g: Grain, s: State, h: Hook, nesting: int)
    requires Tracks(s, nesting) && nesting >= 0 && (h.post ==> nesting > 0)
    ensures Tracks(Update(g, s, h), nesting + if h.post then -1 else 1)
  {
    hide InsertIf, EntryOf, CallAddr, DataOf;
  }

  /** The flag and the counter are the nesting of the calls under way. */
  lemma {:induction false} DepthIsNesting(g: Grain, st: State, hs: seq<Hook>)
    requires st.inited && !st.finished && !st.inMpi && st.depth == 0
    requires forall n :: 0 <= n <= |hs| ==> Nesting(hs[..n]) >= 0
    ensures Tracks(Run(g, st, hs), Nesting(hs))
    decreases |hs|
  {
    if hs != [] {
      var n := |hs| - 1;
      var init := hs[..n];
      assert forall k :: 0 <= k <= n ==> init[..k] == hs[..k];
      assert hs[..|hs|] == hs;
      DepthIsNesting(g, st, init);
      assert Nesting(init) >= 0 && Nesting(hs) >= 0;
      hide Run, Tracks, Update;
      RunAppend(g, st, init, [hs[n]]);
      assert init + [hs[n]] == hs;
      RunOne(g, Run(g, st, init), hs[n]);
      TracksNext(g, Run(g, st, init), hs[n], Nesting(init));
    }
  }

  /** A call: its pre hook, the calls made inside it, its post hook. */
  datatype Call = Call(pre: Hook, kids: Calls, post: Hook)

  datatype Calls = Nil | Cons(head: Call, tail: Calls)

  predicate WellNested(cs: Calls) {
    cs == Nil || (!cs.head.pre.post && WellNested(cs.head.kids) && cs.head.post.post && WellNested(cs.tail))
  }

  function Flatten(cs: Calls): seq<Hook> {
    if cs == Nil then [] else [cs.head.pre] + Flatten(cs.head.kids) + [cs.head.post] + Flatten(cs.tail)
  }

  /** The outermost calls alone. */
  function Erase(cs: Calls): Calls {
    if cs == Nil then Nil else Cons(Call(cs.head.pre, Nil, cs.head.post), Erase(cs.tail))
  }

  /** All of a state but its clock and its counters. */
  ghost predicate SameButTime(a: State, b: State) {
    a == b.(base := a.base)
  }

  /** Calls inside a call change nothing but the time base. */
  lemma {:induction false} NestedIsInert(g: Grain, st: State, cs: Calls)
    requires st.inited && !st.finished && st.inMpi && st.depth >= 0 && WellNested(cs)
    ensures SameButTime(Run(g, st, Flatten(cs)), st)
    decreases cs
  {
    if cs != Nil {
      var c := cs.head;
      var s1 := Update(g, st, c.pre);
      assert SameButTime(s1, st.(depth := st.depth + 1));
      NestedIsInert(g, s1, c.kids);
      var s2 := Run(g, s1, Flatten(c.kids));
      var s3 := Update(g, s2, c.post);
      assert SameButTime(s3, st);
      hide Update;
      NestedIsInert(g, s3, cs.tail);
      RunCall(g, st, cs);
    }
  }

  lemma {:induction false} RunCall(g: Grain, st: State, cs: Calls)
    requires cs != Nil
    ensures var c := cs.head;
            Run(g, st, Flatten(cs)) ==
            Run(g, Update(g, Run(g, Update(g, st, c.pre), Flatten(c.kids)), c.post), Flatten(cs.tail))
  {
    hide Update;
    var c := cs.head;
    var s1 := Update(g, st, c.pre);
    assert Flatten(cs) == [c.pre] + (Flatten(c.kids) + ([c.post] + Flatten(cs.tail)));
    RunAppend(g, st, [c.pre], Flatten(c.kids) + ([c.post] + Flatten(cs.tail)));
    assert Run(g, st, [c.pre]) == s1;
    RunAppend(g, s1, Flatten(c.kids), [c.post] + Flatten(cs.tail));
    var s2 := Run(g, s1, Flatten(c.kids));
    RunAppend(g, s2, [c.post], Flatten(cs.tail));
    assert Run(g, s2, [c.post]) == Update(g, s2, c.post);
  }

  /** A record without its measurements. */
  function Bare(d: Data): Data {
    d.(papi := [], elapsed := 0, timestamp := 0)
  }

  function BareAll(ds: seq<Data>): seq<Data> {
    seq(|ds|, i requires 0 <= i < |ds| => Bare(ds[i]))
  }

  function BareGraph(gr: Graph): Graph {
    map k <- gr :: BareAll(gr[k])
  }

  function BareBook(b: Book): Book {
    Book(b.reg, BareGraph(b.graphCalc), BareGraph(b.graphComm), BareGraph(b.graphIo))
  }

  /** What a state says about calls, without measurements. */
  function BareState(st: State): State {
    st.(base := Base(0, 0, []), book := BareBook(st.book))
  }

  lemma BareAppend(gr: Graph, k: Key, d: Data)
    ensures BareGraph(Append(gr, k, d)) == Append(BareGraph(gr), k, Bare(d))
  {
    var l, r := BareGraph(Append(gr, k, d)), Append(BareGraph(gr), k, Bare(d));
    assert l.Keys == r.Keys;
    forall x | x in l.Keys ensures l[x] == r[x] {
    }
  }

  lemma BareInserted(b: Book, e: Entry)
    ensures BareBook(Inserted(b, e)) == Inserted(BareBook(b), e.(data := Bare(e.data)))
  {
    assert Bare(e.data).func == e.data.func;
    hide Append, BareGraph, Register, Bare;
    BareAppend(GraphOf(b, e.which), e.key, e.data);
  }

  lemma BareEntry(g: Grain, last: int, h: Hook, d: Data, d': Data)
    requires Bare(d) == Bare(d')
    ensures var e, e' := EntryOf(g, last, h, d), EntryOf(g, last, h, d');
            e.Some? == e'.Some? && (e.Some? ==> e.value.(data := Bare(d)) == e'.value.(data := Bare(d')))
  {
  }

  /** Hooks of the same call make the same record and the same next state, measurements aside. */
  lemma {:induction false} UpdateIgnoresTime(g: Grain, a: State, b: State, h: Hook)
    requires a.inited && b.inited && BareState(a) == BareState(b)
    ensures BareState(Update(g, a, h)) == BareState(Update(g, b, h))
  {
    hide BareGraph, CallAddr, EntryOf, Inserted, DiffPmcs, U64;
    if Active(a, h) && Outermost(a, h) {
      var d, d' := DataOf(a.base, h), DataOf(b.base, h);
      BareEntry(g, a.lastCall, h, d, d');
      EntryData(g, a.lastCall, h, d);
      EntryData(g, a.lastCall, h, d');
      var e, e' := EntryOf(g, a.lastCall, h, d), EntryOf(g, a.lastCall, h, d');
      if e.Some? {
        BareInserted(a.book, e.value);
        BareInserted(b.book, e'.value);
      }
    }
  }

  /**
   Calls made by MPI itself leave no trace: a well-nested run gives the same graphs, edge by edge and
   record by record, as the run of its outermost calls alone, up to the measured counters and times.
   */
  lemma {:induction false} NestedCallsAreErased(g: Grain, a: State, b: State, cs: Calls)
    requires a.inited && !a.finished && !a.inMpi && a.depth == 0 && WellNested(cs)
    requires b.inited && BareState(a) == BareState(b)
    ensures var s := Run(g, a, Flatten(cs));
            && BareState(s) == BareState(Run(g, b, Flatten(Erase(cs))))
            && !s.inMpi && s.depth == 0
    decreases cs
  {
    if cs != Nil {
      var c := cs.head;
      var a1, b1 := Update(g, a, c.pre), Update(g, b, c.pre);
      PreOpens(g, a, c.pre);
      UpdateIgnoresTime(g, a, b, c.pre);
      NestedIsInert(g, a1, c.kids);
      var a2 := Run(g, a1, Flatten(c.kids));
      var a3, b3 := Update(g, a2, c.post), Update(g, b1, c.post);
      PostCloses(g, a2, c.post);
      UpdateIgnoresTime(g, a2, b1, c.post);
      hide Update, BareState;
      NestedCallsAreErased(g, a3, b3, cs.tail);
      RunCall(g, a, cs);
      RunCall(g, b, Erase(cs));
      assert Run(g, b1, Flatten(Nil)) == b1;
    }
  }

  lemma PreOpens(g: Grain, st: State, h: Hook)
    requires st.inited && !st.finished && !st.inMpi && st.depth == 0 && !h.post
    ensures var s := Update(g, st, h); s.inited && !s.finished && s.inMpi && s.depth == 0
  {
    hide EntryOf, DataOf, CallAddr;
  }

  lemma PostCloses(g: Grain, st: State, h: Hook)
    requires st.inited && !st.finished && st.inMpi && st.depth == 0 && h.post
    ensures var s := Update(g, st, h); s.inited && !s.finished && !s.inMpi && s.depth == 0
  {
    hide EntryOf, DataOf, CallAddr;
  }

  /** The same for whole runs: the MPI_Init hook, then any well-nested calls. */
  lemma {:induction false} WholeRunIsErased(g: Grain, h: Hook, cs: Calls)
    requires StartsRecording(h) && WellNested(cs)
    ensures var s := Run(g, FRESH, [h] + Flatten(cs));
            && BareState(s) == BareState(Run(g, FRESH, [h] + Flatten(Erase(cs))))
            && !s.inMpi && s.depth == 0
  {
    var st := Update(g, FRESH, h);
    assert st.inited && !st.finished && !st.inMpi && st.depth == 0;
    hide Update, BareState;
    RunOne(g, FRESH, h);
    RunAppend(g, FRESH, [h], Flatten(cs));
    RunAppend(g, FRESH, [h], Flatten(Erase(cs)));
    NestedCallsAreErased(g, st, st, cs);
  }
}
