/** What is recorded where: records of computation, of communication and of file operations, and no others. */
module Recorded {
  import opened Basics
  import opened Hooks
  import opened HookRuns

  /** Reading and writing files, collectively or not. */
  predicate OnFiles(func: int) {
    func == 117 || func == 118 || func == 137 || func == 138
  }

  /** Functions whose own time is not recorded. */
  predicate Ignored(func: int) {
    func in {0, 4, 23, 61, 68, 208, 271, 317, 318, 319, 359}
  }

  /** The record says what the hook was called with, and when. */
  predicate Says(d: Data, h: Hook) {
    d.timestamp == h.tsc && d.func == h.func && d.count == h.count && d.target == h.target && d.comm == h.comm
  }

  /** Some hook before a call, or after one, made the record. */
  ghost predicate MadeBy(d: Data, hs: seq<Hook>, post: bool) {
    exists h <- hs :: h.post == post && Says(d, h)
  }

  /** An entry of the log in the graph it belongs to. */
  ghost predicate InPlace(e: Entry, hs: seq<Hook>) {
    match e.which
    case Calc => MadeBy(e.data, hs, false)
    case Comm => MadeBy(e.data, hs, true) && !OnFiles(e.data.func)
    case Io => MadeBy(e.data, hs, true) && OnFiles(e.data.func)
  }

  lemma EmitInPlace(g: Grain, st: State, h: Hook)
    ensures var e := Emit(g, st, h); e.Some? ==> InPlace(e.value, [h])
  {
    hide CallAddr, DiffPmcs, Active, Outermost;
    var e := Emit(g, st, h);
    if e.Some? {
      EntryData(g, st.lastCall, h, DataOf(st.base, h));
      assert h in [h] && Says(e.value.data, h);
    }
  }

  lemma MoreHooks(e: Entry, a: seq<Hook>, b: seq<Hook>)
    requires InPlace(e, a) && forall h <- a :: h in b
    ensures InPlace(e, b)
  {
    hide Says, OnFiles;
  }

  lemma {:induction false} LogInPlace(g: Grain, st: State, hs: seq<Hook>, n: nat)
    requires n < |Log(g, st, hs)|
    ensures InPlace(Log(g, st, hs)[n], hs)
    decreases |hs|
  {
    hide Update, Emit, InPlace;
    var e := Emit(g, st, hs[0]);
    EmitInPlace(g, st, hs[0]);
    if e.Some? && n == 0 {
      MoreHooks(e.value, [hs[0]], hs);
    } else {
      var k := if e == None then n else n - 1;
      LogInPlace(g, Update(g, st, hs[0]), hs[1..], k);
      MoreHooks(Log(g, Update(g, st, hs[0]), hs[1..])[k], hs[1..], hs);
    }
  }

  lemma {:induction false} SelectedEntry(log: seq<Entry>, w: Which, k: Key, d: Data) returns (i: nat)
    requires d in Select(log, w, k)
    ensures i < |log| && log[i] == Entry(w, k, d)
  {
    var n := |log| - 1;
    if d in Select(log[..n], w, k) {
      i := SelectedEntry(log[..n], w, k, d);
    } else {
      i := n;
    }
  }

  /**
   After any run the records of computation are made before calls; those of communication and of file operations
   after them, and file operations are those and only those of the four functions.
   */
  lemma {:induction false} GraphKinds(g: Grain, hs: seq<Hook>, k: Key, d: Data)
    ensures var b := Run(g, FRESH, hs).book;
            && (k in b.graphCalc && d in b.graphCalc[k] ==> MadeBy(d, hs, false))
            && (k in b.graphComm && d in b.graphComm[k] ==>
                  MadeBy(d, hs, true) && d.func != 117 && d.func != 118 && d.func != 137 && d.func != 138)
            && (k in b.graphIo && d in b.graphIo[k] ==>
                  MadeBy(d, hs, true) && (d.func == 117 || d.func == 118 || d.func == 137 || d.func == 138))
  {
    hide Log, Run, Select, MadeBy, KeysOf;
    GraphsHoldTheLog(g, hs);
    var b, log := Run(g, FRESH, hs).book, Log(g, FRESH, hs);
    forall w | d in Select(log, w, k) ensures InPlace(Entry(w, k, d), hs) {
      var i := SelectedEntry(log, w, k, d);
      LogInPlace(g, FRESH, hs, i);
    }
    assert InPlace(Entry(Calc, k, d), hs) ==> MadeBy(d, hs, false);
    assert k in GraphOf(b, Calc) ==> GraphOf(b, Calc)[k] == Select(log, Calc, k);
    assert k in GraphOf(b, Comm) ==> GraphOf(b, Comm)[k] == Select(log, Comm, k);
    assert k in GraphOf(b, Io) ==> GraphOf(b, Io)[k] == Select(log, Io, k);
  }

  // ---------- One call

  /** The address of a call: of its site, of its function, or what a Dyninst hook is given. */
  function Place(g: Grain, h: Hook): int {
    var a := if h.func == 999 then -h.target else if g == Function then h.func else h.site;
    a % 0x1_0000_0000_0000_0000
  }

  /** The difference of two 64-bit counters as a signed number. */
  function Change(now: int, before: int): int {
    var x := (now - before) % 0x1_0000_0000_0000_0000;
    if x < 0x8000_0000_0000_0000 then x else x - 0x1_0000_0000_0000_0000
  }

  /** A record measured since `time`, when the counters were `pmcs`. */
  predicate Since(d: Data, h: Hook, time: int, pmcs: seq<int>) {
    && Says(d, h) && d.elapsed == (h.tsc - time) % 0x1_0000_0000_0000_0000
    && |d.papi| == |h.pmcs| + |h.rusage| && d.papi[|h.pmcs|..] == h.rusage
    && forall i :: 0 <= i < |h.pmcs| && i < |pmcs| ==> d.papi[i] == Change(h.pmcs[i], pmcs[i])
  }

  /** One more record on an edge. */
  ghost predicate Gains(was: Graph, now: Graph, k: Key, h: Hook, time: int, pmcs: seq<int>) {
    && now.Keys == was.Keys + {k} && (forall x <- was :: x != k ==> now[x] == was[x])
    && |now[k]| == (if k in was then |was[k]| else 0) + 1
    && (if k in was then was[k] else []) == now[k][..|now[k]| - 1]
    && Since(now[k][|now[k]| - 1], h, time, pmcs)
  }

  predicate Outside(st: State) {
    st.inited && !st.finished && !st.inMpi && st.depth == 0
  }

  lemma SinceData(base: Base, h: Hook)
    ensures Since(DataOf(base, h), h, base.time, base.pmcs)
  {
    var d := DataOf(base, h);
    forall i | 0 <= i < |h.pmcs| && i < |base.pmcs| ensures d.papi[i] == Change(h.pmcs[i], base.pmcs[i]) {
      assert d.papi[i] == DiffPmcs(h.pmcs, base.pmcs)[i];
    }
  }

  lemma AppendGains(was: Graph, k: Key, base: Base, h: Hook)
    ensures Gains(was, Append(was, k, DataOf(base, h)), k, h, base.time, base.pmcs)
  {
    hide Since, DataOf;
    SinceData(base, h);
  }

  lemma PlaceIs(g: Grain, last: int, h: Hook)
    ensures CallAddr(g, last, h) == if h.post && last != 0 then last else Place(g, h)
    ensures Filtered(h.func) == Ignored(h.func) && IsIo(h.func) == OnFiles(h.func)
  {
  }

  /** An outermost hook on a running recorder. */
  lemma OuterHook(g: Grain, st: State, h: Hook)
    requires st.inited && !st.finished && st.depth == 0 && (h.post || !st.inMpi)
    ensures Update(g, st, h) ==
            st.(inMpi := !h.post, lastCall := CallAddr(g, st.lastCall, h), base := Base(st.base.start, h.tsc2, h.pmcs1),
                book := InsertIf(st.book, EntryOf(g, st.lastCall, h, DataOf(st.base, h))))
  {
    hide CallAddr, InsertIf, EntryOf, DataOf;
  }

  lemma InsertGraphs(b: Book, e: Entry)
    ensures var b' := InsertIf(b, Some(e));
            && b'.graphCalc == (if e.which == Calc then Append(b.graphCalc, e.key, e.data) else b.graphCalc)
            && b'.graphComm == (if e.which == Comm then Append(b.graphComm, e.key, e.data) else b.graphComm)
            && b'.graphIo == (if e.which == Io then Append(b.graphIo, e.key, e.data) else b.graphIo)
  {
    hide Append, Register;
  }

  lemma {:induction false} BeforeCall(g: Grain, st: State, h: Hook)
    requires Outside(st) && !h.post
    ensures var s, a := Update(g, st, h), Place(g, h);
            && s.inited && !s.finished && s.inMpi && s.depth == 0 && s.lastCall == a
            && s.base == Base(st.base.start, h.tsc2, h.pmcs1)
            && s.book.graphComm == st.book.graphComm && s.book.graphIo == st.book.graphIo
            && (if st.lastCall == a && Ignored(h.func) then s.book == st.book
                else Gains(st.book.graphCalc, s.book.graphCalc, (st.lastCall, a), h, st.base.time, st.base.pmcs))
  {
    PlaceIs(g, st.lastCall, h);
    OuterHook(g, st, h);
    AppendGains(st.book.graphCalc, (st.lastCall, Place(g, h)), st.base, h);
    var e := EntryOf(g, st.lastCall, h, DataOf(st.base, h));
    if e.Some? {
      InsertGraphs(st.book, e.value);
    }
    hide Update, Append, DataOf, Place, CallAddr, Gains, Filtered, IsIo, Ignored, OnFiles;
  }

  lemma {:induction false} AfterCall(g: Grain, st: State, h: Hook)
    requires st.inited && !st.finished && st.depth == 0 && h.post && st.lastCall != 0
    ensures var s, a := Update(g, st, h), st.lastCall;
            && Outside(s) && s.lastCall == a && s.base == Base(st.base.start, h.tsc2, h.pmcs1)
            && s.book.graphCalc == st.book.graphCalc
            && (if !OnFiles(h.func) then s.book.graphIo == st.book.graphIo
                else Gains(st.book.graphIo, s.book.graphIo, (a, a), h, st.base.time, st.base.pmcs))
            && (if OnFiles(h.func) || Ignored(h.func) then s.book.graphComm == st.book.graphComm
                else Gains(st.book.graphComm, s.book.graphComm, (a, a), h, st.base.time, st.base.pmcs))
  {
    PlaceIs(g, st.lastCall, h);
    AppendGains(st.book.graphIo, (st.lastCall, st.lastCall), st.base, h);
    AppendGains(st.book.graphComm, (st.lastCall, st.lastCall), st.base, h);
    assert OnFiles(h.func) ==> !Ignored(h.func);
    OuterHook(g, st, h);
    var e := EntryOf(g, st.lastCall, h, DataOf(st.base, h));
    if e.Some? {
      InsertGraphs(st.book, e.value);
    }
    hide Update, Append, DataOf, Place, CallAddr, Gains, Filtered, IsIo, Ignored, OnFiles;
  }

  /** The last reading before a call ends: that of its first hook, or of the last call inside it. */
  function LastTime(pre: Hook, kids: Calls): int
    decreases kids
  {
    match kids
    case Nil => pre.tsc2
    case Cons(c, Nil) => c.post.tsc
    case Cons(_, tail) => LastTime(pre, tail)
  }

  function LastPmcs(pre: Hook, kids: Calls): seq<int>
    decreases kids
  {
    match kids
    case Nil => pre.pmcs1
    case Cons(c, Nil) => c.post.pmcs
    case Cons(_, tail) => LastPmcs(pre, tail)
  }

  /** A hook inside a call. */
  lemma InnerHook(g: Grain, st: State, h: Hook)
    requires st.inited && !st.finished && st.inMpi && (h.post ==> st.depth > 0)
    ensures Update(g, st, h) ==
            st.(base := Base(st.base.start, h.tsc, h.pmcs), depth := st.depth + if h.post then -1 else 1)
  {
  }

  /** The reading that calls inside a call leave. */
  lemma {:induction false} InnerReading(g: Grain, st: State, pre: Hook, kids: Calls)
    requires st.inited && !st.finished && st.inMpi && st.depth >= 0 && WellNested(kids) && kids != Nil
    ensures Run(g, st, Flatten(kids)) ==
            st.(base := Base(st.base.start, LastTime(pre, kids), LastPmcs(pre, kids)))
    decreases kids
  {
    var c := kids.head;
    InnerHook(g, st, c.pre);
    var s1 := Update(g, st, c.pre);
    NestedIsInert(g, s1, c.kids);
    var s2 := Run(g, s1, Flatten(c.kids));
    if c.kids != Nil {
      InnerReading(g, s1, c.pre, c.kids);
    }
    InnerHook(g, s2, c.post);
    RunCall(g, st, kids);
    hide Update;
    if kids.tail != Nil {
      InnerReading(g, Update(g, s2, c.post), pre, kids.tail);
    }
  }

  /**
   A call outside any other, with the calls inside it: one record of computation since the reading before, on the
   edge from the call before, unless a function that is ignored is called where the last call was; and one record of
   the call since the last reading in it, unless the function is ignored.
   */
  lemma {:induction false} OneCall(g: Grain, st: State, c: Call)
    requires Outside(st) && WellNested(Cons(c, Nil)) && Place(g, c.pre) != 0
    ensures var s, a := Run(g, st, Flatten(Cons(c, Nil))), Place(g, c.pre);
            var time, pmcs := LastTime(c.pre, c.kids), LastPmcs(c.pre, c.kids);
            && Outside(s) && s.lastCall == a && s.base == Base(st.base.start, c.post.tsc2, c.post.pmcs1)
            && (if st.lastCall == a && Ignored(c.pre.func) then s.book.graphCalc == st.book.graphCalc
                else Gains(st.book.graphCalc, s.book.graphCalc, (st.lastCall, a), c.pre, st.base.time, st.base.pmcs))
            && (if !OnFiles(c.post.func) then s.book.graphIo == st.book.graphIo
                else Gains(st.book.graphIo, s.book.graphIo, (a, a), c.post, time, pmcs))
            && (if OnFiles(c.post.func) || Ignored(c.post.func) then s.book.graphComm == st.book.graphComm
                else Gains(st.book.graphComm, s.book.graphComm, (a, a), c.post, time, pmcs))
  {
    hide Update, Gains, Place, OnFiles, Ignored, Run;
    BeforeCall(g, st, c.pre);
    var s1 := Update(g, st, c.pre);
    RunNone(g, s1, []);
    if c.kids != Nil {
      InnerReading(g, s1, c.pre, c.kids);
    }
    var s2 := Run(g, s1, Flatten(c.kids));
    AfterCall(g, s2, c.post);
    RunCall(g, st, Cons(c, Nil));
    RunNone(g, Update(g, s2, c.post), []);
  }

  // ---------- The beginning and the end

  /** Time counts from the first hook on, which does nothing else if it comes before MPI is initialised. */
  lemma {:induction false} StartIsFirst(g: Grain, hs: seq<Hook>)
    requires hs != []
    ensures Run(g, FRESH, hs).inited && Run(g, FRESH, hs).base.start == hs[0].start
    ensures !hs[0].inited ==> Run(g, FRESH, hs[..1]) == FRESH.(inited := true, base := Base(hs[0].start, 0, []))
  {
    hide Run;
    RunOne(g, FRESH, hs[0]);
    assert hs[..1] == [hs[0]];
    RunFirst(g, FRESH, hs);
    StartStays(g, Update(g, FRESH, hs[0]), hs[1..]);
  }

  lemma {:induction false} StartStays(g: Grain, st: State, hs: seq<Hook>)
    requires st.inited
    ensures Run(g, st, hs).inited && Run(g, st, hs).base.start == st.base.start
    ensures st.finished ==> Run(g, st, hs) == st
    decreases |hs|
  {
    if hs != [] {
      StartKept(g, st, hs[0]);
      hide Update;
      StartStays(g, Update(g, st, hs[0]), hs[1..]);
    }
  }

  lemma StartKept(g: Grain, st: State, h: Hook)
    requires st.inited
    ensures Update(g, st, h).inited && Update(g, st, h).base.start == st.base.start
    ensures st.finished ==> Update(g, st, h) == st
  {
    hide EntryOf, DataOf, CallAddr, InsertIf;
  }

  // ---------- Nothing is lost

  lemma {:induction false} LogAppend(g: Grain, st: State, a: seq<Hook>, b: seq<Hook>)
    ensures Log(g, st, a + b) == Log(g, st, a) + Log(g, Run(g, st, a), b)
    decreases |a|
  {
    hide Update, Emit;
    if a == [] {
      assert a + b == b;
    } else {
      assert (a + b)[1..] == a[1..] + b;
      LogAppend(g, Update(g, st, a[0]), a[1..], b);
    }
  }

  lemma {:induction false} SelectHas(log: seq<Entry>, i: nat)
    requires i < |log|
    ensures log[i].data in Select(log, log[i].which, log[i].key) && log[i].key in KeysOf(log, log[i].which)
  {
    if i < |log| - 1 {
      SelectHas(log[..|log| - 1], i);
    }
    assert log[i] in log;
  }

  /**
   Whatever comes after it: a hook outside any other call, of a function that is not ignored, has its record in the
   graph of its kind at the end of the run.
   */
  lemma {:induction false} RecordKept(g: Grain, before: seq<Hook>, h: Hook, after: seq<Hook>)
    requires var st := Run(g, FRESH, before); (st.inited || h.inited) && !st.finished
    requires var st := Run(g, FRESH, before); if h.post then st.depth <= 0 else !st.inMpi
    requires !Ignored(h.func)
    ensures var b := Run(g, FRESH, before + ([h] + after)).book;
            var graph := if !h.post then b.graphCalc else if OnFiles(h.func) then b.graphIo else b.graphComm;
            exists k, d :: k in graph && d in graph[k] && Says(d, h)
  {
    hide Update, Run, Log, Select, KeysOf;
    var st, hs := Run(g, FRESH, before), before + ([h] + after);
    LogAppend(g, FRESH, before, [h] + after);
    FirstOfLog(g, st, h, after);
    PlaceIs(g, st.lastCall, h);
    var e := Emit(g, st, h);
    assert e.Some? && Says(e.value.data, h) by { EntryData(g, st.lastCall, h, DataOf(st.base, h)); }
    assert e.value.which == if !h.post then Calc else if OnFiles(h.func) then Io else Comm by {
      hide DataOf, CallAddr;
    }
    hide Emit, Says, OnFiles, Ignored;
    var log, n := Log(g, FRESH, hs), |Log(g, FRESH, before)|;
    assert log[n] == e.value;
    SelectHas(log, n);
    GraphsHoldTheLog(g, hs);
    var b := Run(g, FRESH, hs).book;
    assert GraphOf(b, e.value.which)[e.value.key] == Select(log, e.value.which, e.value.key);
  }

  lemma FirstOfLog(g: Grain, st: State, h: Hook, after: seq<Hook>)
    requires Emit(g, st, h).Some?
    ensures Log(g, st, [h] + after) != [] && Log(g, st, [h] + after)[0] == Emit(g, st, h).value
  {
    hide Emit, Update;
  }

  // ---------- Numbers of addresses

  /** Addresses have the numbers from 0 on, each its own, and those with a function are numbered. */
  ghost predicate Numbered(r: Registry) {
    && r.next == |r.ids| && r.funcs.Keys <= r.ids.Keys
    && (forall a <- r.ids :: 0 <= r.ids[a] < r.next)
    && (forall a, b :: a in r.ids && b in r.ids && r.ids[a] == r.ids[b] ==> a == b)
  }

  /** Both addresses of every edge are numbered. */
  ghost predicate KeysNumbered(b: Book) {
    Numbered(b.reg) && forall w, k :: k in GraphOf(b, w) ==> k.0 in b.reg.ids && k.1 in b.reg.ids
  }

  lemma OneMore(m: map<int, int>, a: int, v: int)
    requires a !in m
    ensures m[a := v].Keys == m.Keys + {a} && |m[a := v]| == |m| + 1
  {
    assert m[a := v].Keys == m.Keys + {a};
    assert |m[a := v].Keys| == |m.Keys| + 1;
  }

  /** One address more has the next number. */
  lemma NumberNew(r: Registry, a: int, funcs: map<int, int>)
    requires Numbered(r) && a !in r.ids && funcs.Keys <= r.ids.Keys + {a}
    ensures var r' := Registry(r.ids[a := r.next], r.next + 1, funcs);
            Numbered(r') && r'.ids.Keys == r.ids.Keys + {a}
  {
    OneMore(r.ids, a, r.next);
    var ids := r.ids[a := r.next];
    assert forall x <- ids :: x == a || (x in r.ids && ids[x] == r.ids[x]);
  }

  lemma NumberedFuncs(r: Registry)
    requires Numbered(r)
    ensures r.funcs.Keys <= r.ids.Keys
  {
  }

  lemma CurrentNumbered(r: Registry, current: int, func: int) returns (r1: Registry)
    requires Numbered(r)
    ensures r1 == if current in r.ids then r
                  else Registry(r.ids[current := r.next], r.next + 1, r.funcs[current := func])
    ensures Numbered(r1) && r1.ids.Keys == r.ids.Keys + {current}
  {
    NumberedFuncs(r);
    hide Numbered;
    r1 := r;
    if current !in r.ids {
      var funcs := r.funcs[current := func];
      assert funcs.Keys == r.funcs.Keys + {current};
      NumberNew(r, current, funcs);
      r1 := Registry(r.ids[current := r.next], r.next + 1, funcs);
    }
  }

  lemma LastNumbered(r: Registry, last: int) returns (r2: Registry)
    requires Numbered(r)
    ensures r2 == if last in r.ids then r else r.(ids := r.ids[last := r.next], next := r.next + 1)
    ensures Numbered(r2) && r2.ids.Keys == r.ids.Keys + {last}
  {
    NumberedFuncs(r);
    hide Numbered;
    r2 := r;
    if last !in r.ids {
      NumberNew(r, last, r.funcs);
      r2 := r.(ids := r.ids[last := r.next], next := r.next + 1);
    }
  }

  lemma RegisterNumbers(r: Registry, last: int, current: int, func: int)
    requires Numbered(r)
    ensures var r' := Register(r, last, current, func); Numbered(r') && r'.ids.Keys == r.ids.Keys + {last, current}
  {
    hide Numbered;
    var r1 := CurrentNumbered(r, current, func);
    var r2 := LastNumbered(r1, last);
    assert r2 == Register(r, last, current, func);
    hide Register;
    assert {current} + {last} == {last, current};
  }

  lemma GraphKeys(b: Book, e: Entry, w: Which)
    ensures GraphOf(Inserted(b, e), w).Keys == GraphOf(b, w).Keys + if w == e.which then {e.key} else {}
  {
    InsertedGraph(b, e, w);
    hide Inserted, GraphOf;
  }

  lemma InsertNumbers(b: Book, e: Entry)
    requires KeysNumbered(b)
    ensures KeysNumbered(Inserted(b, e))
  {
    RegisterNumbers(b.reg, e.key.0, e.key.1, e.data.func);
    assert Inserted(b, e).reg == Register(b.reg, e.key.0, e.key.1, e.data.func);
    hide Numbered, Register, Inserted, GraphOf;
    forall w, k | k in GraphOf(Inserted(b, e), w)
      ensures k.0 in Inserted(b, e).reg.ids && k.1 in Inserted(b, e).reg.ids
    {
      GraphKeys(b, e, w);
      assert k in GraphOf(b, w) || k == e.key;
    }
  }

  /** After any run every edge's addresses are numbered, each address with its own number, from 0 on. */
  lemma {:induction false} RunNumbers(g: Grain, st: State, hs: seq<Hook>)
    requires KeysNumbered(st.book)
    ensures KeysNumbered(Run(g, st, hs).book)
    decreases |hs|
  {
    hide KeysNumbered, Update, Emit, Inserted;
    if hs != [] {
      UpdateBook(g, st, hs[0]);
      if Emit(g, st, hs[0]).Some? {
        InsertNumbers(st.book, Emit(g, st, hs[0]).value);
      }
      RunNumbers(g, Update(g, st, hs[0]), hs[1..]);
    }
  }

  /** The first record numbers the address it ends at, with its function, and then the one it comes from. */
  lemma FirstNumbers(e: Entry)
    ensures KeysNumbered(EMPTY_BOOK)
    ensures var r, last, current := Inserted(EMPTY_BOOK, e).reg, e.key.0, e.key.1;
            && r.ids == (if last == current then map[current := 0] else map[current := 0, last := 1])
            && r.funcs == map[current := e.data.func]
  {
  }
}
