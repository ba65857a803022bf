/**
 The recorder: every MPI wrapper calls a hook before and after the real function, and the hook turns
 the time between two hooks into a record on an edge (computation) or a vertex (communication, I/O).

 `Update` is the meaning of one hook on the recorder's globals; class `Recorder` is the code. Clock,
 counters, call sites and MPI_Initialized are part of the hook's input. Addresses are numbers, 0 the
 null pointer.
 */
module Hooks {
  import opened Basics

  const DYNINST := 999
  const FILTER_OUT := {0, 23, 317, 61, 68, 359, 319, 318, 4, 208, 271}
  const IO_FUNCS := {118, 138, 117, 137}

  datatype Grain = CallSite | CallPath | Function

  type Key = (int, int)

  datatype Data = Data(papi: seq<int>, elapsed: int, timestamp: int, func: int, count: int, target: int, comm: int)

  type Graph = map<Key, seq<Data>>

  /** One hook call with everything it reads: `start` at first use, then up to three times and two counter sets. */
  datatype Hook = Hook(post: bool, func: int, count: int, target: int, comm: int, site: int, inited: bool,
                       start: int, tsc: int, tsc1: int, tsc2: int, pmcs: seq<int>, pmcs1: seq<int>, rusage: seq<int>)

  datatype Which = Calc | Comm | Io

  /** A record on its way into a graph. */
  datatype Entry = Entry(which: Which, key: Key, data: Data)

  /** Call sites are numbered as they are first seen, and remember their function. */
  datatype Registry = Registry(ids: map<int, int>, next: int, funcs: map<int, int>)

  /** What has been recorded. */
  datatype Book = Book(reg: Registry, graphCalc: Graph, graphComm: Graph, graphIo: Graph)

  /** When the profiler started, and the readings the next record is measured from. */
  datatype Base = Base(start: int, time: int, pmcs: seq<int>)

  datatype State = State(inited: bool, finished: bool, inMpi: bool, depth: int, lastCall: int, base: Base, book: Book)

  const EMPTY_BOOK := Book(Registry(map[], 0, map[]), map[], map[], map[])

  const FRESH := State(false, false, false, 0, 0, Base(0, 0, []), EMPTY_BOOK)

  predicate Filtered(func: int) {
    func in FILTER_OUT
  }

  predicate IsIo(func: int) {
    func in IO_FUNCS
  }

  function DiffPmcs(now: seq<int>, last: seq<int>): (d: seq<int>)
    ensures |d| == |now|
  {
    seq(|now|, i requires 0 <= i < |now| => S64(U64(now[i] as int - (if i < |last| then last[i] else 0))))
  }

  function DataOf(base: Base, h: Hook): Data {
    Data(DiffPmcs(h.pmcs, base.pmcs) + h.rusage, U64(h.tsc - base.time), h.tsc, h.func, h.count, h.target, h.comm)
  }

  function GraphOf(b: Book, w: Which): Graph {
    match w
    case Calc => b.graphCalc
    case Comm => b.graphComm
    case Io => b.graphIo
  }

  function Append(g: Graph, k: Key, d: Data): Graph {
    g[k := (if k in g then g[k] else []) + [d]]
  }

  /** New addresses get the next numbers: the current address first, with its function, then the last one. */
  function Register(r: Registry, last: int, current: int, func: int): Registry {
    var r1 := if current in r.ids then r
              else Registry(r.ids[current := r.next], r.next + 1, r.funcs[current := func]);
    if last in r1.ids then r1 else r1.(ids := r1.ids[last := r1.next], next := r1.next + 1)
  }

  function Inserted(b: Book, e: Entry): Book {
    var b1 := b.(reg := Register(b.reg, e.key.0, e.key.1, e.data.func));
    match e.which
    case Calc => b1.(graphCalc := Append(b.graphCalc, e.key, e.data))
    case Comm => b1.(graphComm := Append(b.graphComm, e.key, e.data))
    case Io => b1.(graphIo := Append(b.graphIo, e.key, e.data))
  }

  /** The address of the call, a 64-bit pattern: a post hook takes that of the hook before it, if there is one. */
  function CallAddr(g: Grain, lastCall: int, h: Hook): int {
    if h.post && lastCall != 0 then lastCall
    else U64(if h.func == DYNINST then -h.target else if g == Function then h.func else h.site)
  }

  /** The hook goes past the nesting test. */
  predicate Outermost(st: State, h: Hook) {
    !(st.inMpi && !h.post) && !(st.depth > 0 && h.post)
  }

  /** The hook works on an initialised recorder. */
  predicate Active(st: State, h: Hook) {
    (st.inited || h.inited) && !st.finished
  }

  /** Where the record of an outermost hook goes, if anywhere. */
  function EntryOf(g: Grain, lastCall: int, h: Hook, d: Data): Option<Entry> {
    var addr := CallAddr(g, lastCall, h);
    if h.post && Filtered(h.func) then None
    else if !h.post && lastCall == addr && Filtered(h.func) then None
    else Some(Entry(if !h.post then Calc else if IsIo(h.func) then Io else Comm, (lastCall, addr), d))
  }

  /** The record a hook makes, if it makes one. */
  function Emit(g: Grain, st: State, h: Hook): Option<Entry> {
    if Active(st, h) && Outermost(st, h) then EntryOf(g, st.lastCall, h, DataOf(st.base, h)) else None
  }

  function InsertIf(b: Book, e: Option<Entry>): Book {
    if e == None then b else Inserted(b, e.value)
  }

  function Start(st: State, h: Hook): State {
    if st.inited then st else st.(base := st.base.(start := h.start), inited := true)
  }

  /** A hook on a running recorder: a nested one moves the time base, an outermost one makes its record. */
  function Observe(g: Grain, s: State, h: Hook): State {
    var read := Base(s.base.start, h.tsc, h.pmcs);
    if s.inMpi && !h.post then s.(base := read, depth := s.depth + 1)
    else if s.depth > 0 && h.post then s.(base := read, depth := s.depth - 1)
    else
      s.(inMpi := !h.post, lastCall := CallAddr(g, s.lastCall, h), base := Base(s.base.start, h.tsc2, h.pmcs1),
         book := InsertIf(s.book, EntryOf(g, s.lastCall, h, DataOf(s.base, h))))
  }

  /** One hook. */
  function Update(g: Grain, st: State, h: Hook): State {
    if Active(st, h) then Observe(g, Start(st, h), h) else Start(st, h)
  }

  class Recorder {
    const grain: Grain
    var lastCall: int
    var nextId: int
    var ids: map<int, int>
    var funcs: map<int, int>
    var graphCalc: Graph
    var graphComm: Graph
    var graphIo: Graph
    var inited: bool
    var finished: bool
    var inMpi: bool
    var depth: int
    var start: int
    var lastTime: int
    var lastPmcs: seq<int>

    ghost function BookView(): Book
      reads this
    {
      Book(Registry(ids, nextId, funcs), graphCalc, graphComm, graphIo)
    }

    ghost function View(): State
      reads this
    {
      State(inited, finished, inMpi, depth, lastCall, Base(start, lastTime, lastPmcs), BookView())
    }

    constructor (grain: Grain)
      ensures this.grain == grain && View() == FRESH
    {
      this.grain := grain;
      lastCall, nextId, ids, funcs := 0, 0, map[], map[];
      graphCalc, graphComm, graphIo := map[], map[], map[];
      inited, finished, inMpi, depth := false, false, false, 0;
      start, lastTime, lastPmcs := 0, 0, [];
    }

    method PmcGetData(tsc: int, pmcs: seq<int>) returns (papi: seq<int>, elapsed: int)
      modifies this`lastTime, this`lastPmcs
      ensures papi == DiffPmcs(pmcs, old(lastPmcs)) && elapsed == U64(tsc - old(lastTime))
      ensures lastTime == tsc && lastPmcs == pmcs
    {
      papi := [];
      for i := 0 to |pmcs|
        invariant |papi| == i && forall k :: 0 <= k < i ==> papi[k] == DiffPmcs(pmcs, lastPmcs)[k]
        invariant lastPmcs == old(lastPmcs) && lastTime == old(lastTime)
      {
        papi := papi + [S64(U64(pmcs[i] as int - (if i < |lastPmcs| then lastPmcs[i] else 0)))];
      }
      elapsed := U64(tsc - lastTime);
      lastTime, lastPmcs := tsc, pmcs;
    }

    /** Adds a record to a graph, which the caller stores back. */
    method InsertData(graph: Graph, last: int, current: int, data: Data) returns (r: Graph)
      modifies this`ids, this`nextId, this`funcs
      ensures r == Append(graph, (last, current), data)
      ensures Registry(ids, nextId, funcs) == Register(old(Registry(ids, nextId, funcs)), last, current, data.func)
    {
      if current !in ids {
        ids := ids[current := nextId];
        nextId := nextId + 1;
        funcs := funcs[current := data.func];
      }
      if last !in ids {
        ids := ids[last := nextId];
        nextId := nextId + 1;
      }
      var key := (last, current);
      r := graph;
      if key !in r {
        r := r[key := []];
      }
      r := r[key := r[key] + [data]];
    }

    /** What an outermost hook does with its record. */
    method Record(h: Hook, data: Data)
      modifies this`lastCall, this`ids, this`nextId, this`funcs, this`graphCalc, this`graphComm, this`graphIo
      ensures BookView() == InsertIf(old(BookView()), EntryOf(grain, old(lastCall), h, data))
      ensures lastCall == CallAddr(grain, old(lastCall), h)
    {
      hide Append, Register, Filtered, IsIo, U64;
      var addr: int;
      if h.post && lastCall != 0 {
        addr := lastCall;
      } else if h.func == DYNINST {
        addr := U64(-h.target);
      } else {
        addr := U64(if grain == Function then h.func else h.site);
      }
      if !(h.post && Filtered(h.func)) {
        if !h.post {
          if !(lastCall == addr && Filtered(h.func)) {
            graphCalc := InsertData(graphCalc, lastCall, addr, data);
          }
        } else if IsIo(h.func) {
          graphIo := InsertData(graphIo, lastCall, addr, data);
        } else {
          graphComm := InsertData(graphComm, lastCall, addr, data);
        }
      }
      lastCall := addr;
    }

    /** The record of a hook: counters, time and what the hook was called with. */
    method Sample(h: Hook) returns (data: Data)
      modifies this`lastTime, this`lastPmcs
      ensures data == DataOf(old(Base(start, lastTime, lastPmcs)), h)
      ensures lastTime == h.tsc && lastPmcs == h.pmcs
    {
      hide U64, DiffPmcs;
      var papi, elapsed := PmcGetData(h.tsc, h.pmcs);
      data := Data(papi + h.rusage, elapsed, h.tsc, h.func, h.count, h.target, h.comm);
    }

    /** The end of an outermost hook: its record, and the new time base. */
    method Finish(h: Hook, data: Data)
      modifies this
      ensures View() == old(View()).(inMpi := !h.post, lastCall := CallAddr(grain, old(lastCall), h),
                                     base := Base(old(start), h.tsc2, h.pmcs1),
                                     book := InsertIf(old(BookView()), EntryOf(grain, old(lastCall), h, data)))
    {
      hide EntryOf, InsertIf, CallAddr;
      inMpi := !h.post;
      Record(h, data);
      lastTime := h.tsc1;
      lastPmcs := h.pmcs1;
      lastTime := h.tsc2;
    }

    /** From the reading of the counters on. */
    method Measure(h: Hook)
      modifies this
      ensures View() == Observe(grain, old(View()), h)
    {
      hide DataOf, EntryOf, InsertIf, CallAddr;
      var data := Sample(h);
      if inMpi && !h.post {
        depth := depth + 1;
      } else if depth > 0 && h.post {
        depth := depth - 1;
      } else {
        Finish(h, data);
      }
    }

    method PapiUpdate(h: Hook)
      modifies this
      ensures View() == Update(grain, old(View()), h)
    {
      hide Observe;
      if !inited {
        start := h.start;
        inited := true;
        if !h.inited {
          return;
        }
      }
      if finished {
        return;
      }
      Measure(h);
    }
  }
}
