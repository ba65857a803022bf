/**
 The message a client sends to the analysis server: a header, the keys of the computation graph, and
 its records, written into a buffer of fixed size. Structures are laid out as on a 64-bit little-endian
 machine; padding is whatever the buffer held, or zero in copied records.
 */
module Wire {
  import opened Basics
  import opened Hooks

  const MAXBUFSIZ := 2 * 1024 * 1024
  const HEADER := 32
  const KEY := 24
  const VALUE := 152
  const EVENTS := 14

  /** An edge of the graph with its records; the graph is the sequence of its edges in key order. */
  datatype Edge = Edge(key: Key, values: seq<Data>)

  datatype Message = Message(rank: int, begin: nat, end: nat, edges: seq<Edge>)

  // ---------- Integers in bytes

  function Pow(w: nat): (p: int)
    ensures p > 0
  {
    if w == 0 then 1 else 256 * Pow(w - 1)
  }

  /** The low `w` bytes of `x`, least first. */
  function Le(x: int, w: nat): (b: seq<Byte>)
    ensures |b| == w
    decreases w
  {
    if w == 0 then [] else [x % 256] + Le(x / 256, w - 1)
  }

  function FromLe(b: seq<Byte>): nat {
    if b == [] then 0
    else
      var low: int := b[0];
      low + 256 * FromLe(b[1..])
  }

  /** `w` bytes read as a signed number. */
  function Signed(b: seq<Byte>): int {
    var x := FromLe(b);
    if 2 * x < Pow(|b|) then x else x - Pow(|b|)
  }

  lemma {:induction false} FromLeBack(x: nat, w: nat)
    requires x < Pow(w)
    ensures FromLe(Le(x, w)) == x
    decreases w
  {
    if w > 0 {
      FromLeBack(x / 256, w - 1);
      assert Le(x, w)[1..] == Le(x / 256, w - 1);
    }
  }

  /** Adding a multiple of 256^w does not show in `w` bytes. */
  lemma {:induction false} LeWraps(x: int, w: nat)
    ensures Le(x + Pow(w), w) == Le(x, w)
    decreases w
  {
    if w > 0 {
      var p := Pow(w - 1);
      assert (x + 256 * p) % 256 == x % 256;
      assert (x + 256 * p) / 256 == x / 256 + p;
      LeWraps(x / 256, w - 1);
    }
  }

  lemma {:induction false} SignedBack(x: int, w: nat)
    requires -Pow(w) <= 2 * x < Pow(w)
    ensures Signed(Le(x, w)) == x
  {
    if x >= 0 {
      FromLeBack(x, w);
    } else {
      LeWraps(x, w);
      FromLeBack(x + Pow(w), w);
    }
  }

  // ---------- Layout

  function Words(xs: seq<int>): (b: seq<Byte>)
    ensures |b| == 8 * |xs|
  {
    if xs == [] then [] else Words(xs[..|xs| - 1]) + Le(xs[|xs| - 1], 8)
  }

  /** A record as it lies in memory. */
  function Image(d: Data): (b: seq<Byte>)
    ensures |b| == 8 * |d.papi| + 40
  {
    Words(d.papi) + (Le(d.elapsed, 8) + (Le(d.timestamp, 8) + (Le(d.target, 4) + (Le(d.func, 4) +
    (Le(d.count, 4) + (Le(0, 4) + Le(d.comm, 8)))))))
  }

  /** The fields fit their types. */
  predicate InRange(d: Data) {
    && |d.papi| == EVENTS && (forall i :: 0 <= i < EVENTS ==> -Pow(8) <= 2 * d.papi[i] < Pow(8))
    && 0 <= d.elapsed < Pow(8) && 0 <= d.timestamp < Pow(8) && 0 <= d.comm < Pow(8)
    && -Pow(4) <= 2 * d.target < Pow(4) && -Pow(4) <= 2 * d.func < Pow(4) && -Pow(4) <= 2 * d.count < Pow(4)
  }

  predicate AllIn(vs: seq<Data>) {
    forall i :: 0 <= i < |vs| ==> InRange(vs[i])
  }

  predicate EdgeInRange(e: Edge) {
    0 <= e.key.0 < Pow(8) && 0 <= e.key.1 < Pow(8) && AllIn(e.values)
  }

  function WordsAt(s: seq<Byte>, p: nat, n: nat): seq<int>
    requires p + 8 * n <= |s|
  {
    if n == 0 then [] else WordsAt(s, p, n - 1) + [Signed(s[p + 8 * (n - 1)..p + 8 * n])]
  }

  /** The record that lies at `p`. */
  function DataAt(s: seq<Byte>, p: nat): Data
    requires p + VALUE <= |s|
  {
    Data(WordsAt(s, p, EVENTS), FromLe(s[p + 112..p + 120]), FromLe(s[p + 120..p + 128]),
         Signed(s[p + 132..p + 136]), Signed(s[p + 136..p + 140]), Signed(s[p + 128..p + 132]),
             FromLe(s[p + 144..p + 152]))
  }

  lemma {:induction false} WordsBack(s: seq<Byte>, p: nat, xs: seq<int>)
    requires At(s, p, Words(xs)) && forall i :: 0 <= i < |xs| ==> -Pow(8) <= 2 * xs[i] < Pow(8)
    ensures WordsAt(s, p, |xs|) == xs
  {
    hide Pow, Signed, Le;
    if xs != [] {
      var n := |xs| - 1;
      AtSplit(s, p, Words(xs[..n]), Le(xs[n], 8));
      WordsBack(s, p, xs[..n]);
      SignedBack(xs[n], 8);
    }
  }

  lemma {:induction false} DataBack(s: seq<Byte>, p: nat, d: Data)
    requires At(s, p, Image(d)) && InRange(d)
    ensures p + VALUE <= |s| && DataAt(s, p) == d
  {
    hide Pow, Le, FromLe, Signed, Words, WordsAt;
    var t7 := Le(0, 4) + Le(d.comm, 8);
    var t6 := Le(d.count, 4) + t7;
    var t5 := Le(d.func, 4) + t6;
    var t4 := Le(d.target, 4) + t5;
    var t3 := Le(d.timestamp, 8) + t4;
    var t2 := Le(d.elapsed, 8) + t3;
    AtSplit(s, p, Words(d.papi), t2);
    AtSplit(s, p + 112, Le(d.elapsed, 8), t3);
    AtSplit(s, p + 120, Le(d.timestamp, 8), t4);
    AtSplit(s, p + 128, Le(d.target, 4), t5);
    AtSplit(s, p + 132, Le(d.func, 4), t6);
    AtSplit(s, p + 136, Le(d.count, 4), t7);
    AtSplit(s, p + 140, Le(0, 4), Le(d.comm, 8));
    WordsBack(s, p, d.papi);
    FromLeBack(d.elapsed, 8);
    FromLeBack(d.timestamp, 8);
    SignedBack(d.target, 4);
    SignedBack(d.func, 4);
    SignedBack(d.count, 4);
    FromLeBack(d.comm, 8);
  }

  // ---------- The message

  /** All records of the edges, in order. */
  function AllValues(es: seq<Edge>): seq<Data> {
    if es == [] then [] else AllValues(es[..|es| - 1]) + es[|es| - 1].values
  }

  /** The size of the message for these edges. */
  function Size(es: seq<Edge>): nat {
    HEADER + KEY * |es| + VALUE * |AllValues(es)|
  }

  /** How many edges are sent: those before the first that would make the message as large as the buffer. */
  function Sent(es: seq<Edge>, n: nat): (k: nat)
    requires n <= |es|
    ensures n <= k <= |es|
    decreases |es| - n
  {
    if n < |es| && Size(es[..n + 1]) < MAXBUFSIZ then Sent(es, n + 1) else n
  }

  ghost predicate HeaderAt(s: seq<Byte>, rank: int, size: nat, begin: nat, end: nat, n: nat) {
    At(s, 0, Le(rank, 4)) && At(s, 4, Le(size, 4)) && At(s, 8, Le(begin, 8)) && At(s, 16, Le(end, 8)) &&
        At(s, 24, Le(n, 4))
  }

  ghost predicate KeyAt(s: seq<Byte>, p: nat, e: Edge) {
    At(s, p, Le(e.key.0, 8)) && At(s, p + 8, Le(e.key.1, 8)) && At(s, p + 16, Le(|e.values|, 4))
  }

  ghost predicate ValuesAt(s: seq<Byte>, p: nat, vs: seq<Data>) {
    forall j :: 0 <= j < |vs| ==> At(s, p + VALUE * j, Image(vs[j]))
  }

  /** The edges read back: keys one after the other, and for each key its number of records. */
  function DecodeValues(s: seq<Byte>, p: nat, n: nat): seq<Data>
    requires p + VALUE * n <= |s|
  {
    seq(n, j requires 0 <= j < n => DataAt(s, p + VALUE * j))
  }

  /** `n` edges, whose keys start at `kp` and records at `vp`. */
  function DecodeEdges(s: seq<Byte>, kp: nat, vp: nat, n: nat): Option<seq<Edge>>
    decreases n
  {
    if n == 0 then Some([])
    else if kp + KEY > |s| then None
    else
      var num := FromLe(s[kp + 16..kp + 20]);
      if vp + VALUE * num > |s| then None
      else
        match DecodeEdges(s, kp + KEY, vp + VALUE * num, n - 1)
        case None => None
        case Some(rest) =>
          Some([Edge((FromLe(s[kp..kp + 8]), FromLe(s[kp + 8..kp + 16])), DecodeValues(s, vp, num))] + rest)
  }

  /** The receiver. */
  function Decode(s: seq<Byte>): Option<Message> {
    if |s| < HEADER then None
    else
      var n := FromLe(s[24..28]);
      match DecodeEdges(s, HEADER, HEADER + KEY * n, n)
      case None => None
      case Some(es) => Some(Message(Signed(s[0..4]), FromLe(s[8..16]), FromLe(s[16..24]), es))
  }

  lemma {:induction false} AllValuesFront(es: seq<Edge>)
    requires es != []
    ensures AllValues(es) == es[0].values + AllValues(es[1..])
  {
    var n := |es| - 1;
    if n > 0 {
      AllValuesFront(es[..n]);
      assert es[..n][1..] == es[1..][..n - 1];
    }
  }

  /** One edge reads back. */
  lemma {:induction false} DecodesEdge(s: seq<Byte>, e: Edge, kp: nat, vp: nat)
    requires EdgeInRange(e) && |e.values| < Pow(4) && KeyAt(s, kp, e)
    requires ValuesAt(s, vp, e.values) && kp + KEY <= |s| && vp + VALUE * |e.values| <= |s|
    ensures FromLe(s[kp..kp + 8]) == e.key.0 && FromLe(s[kp + 8..kp + 16]) == e.key.1
    ensures FromLe(s[kp + 16..kp + 20]) == |e.values| && DecodeValues(s, vp, |e.values|) == e.values
  {
    hide Pow, Le, FromLe, DataAt, Image, InRange;
    FromLeBack(e.key.0, 8);
    FromLeBack(e.key.1, 8);
    FromLeBack(|e.values|, 4);
    forall j | 0 <= j < |e.values| ensures DataAt(s, vp + VALUE * j) == e.values[j] {
      DataBack(s, vp + VALUE * j, e.values[j]);
    }
  }

  lemma ValuesSplit(s: seq<Byte>, vp: nat, a: seq<Data>, b: seq<Data>)
    requires ValuesAt(s, vp, a + b)
    ensures ValuesAt(s, vp, a) && ValuesAt(s, vp + VALUE * |a|, b)
  {
    hide Image, At;
    forall j | 0 <= j < |a| ensures At(s, vp + VALUE * j, Image(a[j])) {
      assert (a + b)[j] == a[j];
    }
    forall j | 0 <= j < |b| ensures At(s, vp + VALUE * |a| + VALUE * j, Image(b[j])) {
      assert (a + b)[|a| + j] == b[j] && At(s, vp + VALUE * (|a| + j), Image((a + b)[|a| + j]));
    }
  }

  /** The keys of the edges, one after the other from `kp`. */
  ghost predicate KeysFrom(s: seq<Byte>, kp: nat, es: seq<Edge>) {
    forall i :: 0 <= i < |es| ==> KeyAt(s, kp + KEY * i, es[i])
  }

  lemma KeysRest(s: seq<Byte>, kp: nat, es: seq<Edge>)
    requires KeysFrom(s, kp, es) && es != []
    ensures KeyAt(s, kp, es[0]) && KeysFrom(s, kp + KEY, es[1..])
  {
    hide KeyAt;
    assert KeyAt(s, kp + KEY * 0, es[0]);
    forall i | 0 <= i < |es[1..]| ensures KeyAt(s, kp + KEY + KEY * i, es[1..][i]) {
      assert KeyAt(s, kp + KEY * (i + 1), es[i + 1]);
    }
  }

  ghost predicate Encodable(es: seq<Edge>) {
    forall i :: 0 <= i < |es| ==> EdgeInRange(es[i]) && |es[i].values| < Pow(4)
  }

  lemma {:induction false} DecodesEdges(s: seq<Byte>, es: seq<Edge>, kp: nat, vp: nat)
    requires Encodable(es) && KeysFrom(s, kp, es) && ValuesAt(s, vp, AllValues(es))
    requires kp + KEY * |es| <= |s| && vp + VALUE * |AllValues(es)| <= |s|
    ensures DecodeEdges(s, kp, vp, |es|) == Some(es)
    decreases |es|
  {
    hide Pow, FromLe, KeyAt, KeysFrom, ValuesAt, DecodeValues, EdgeInRange;
    if es != [] {
      var e, rest := es[0], es[1..];
      AllValuesFront(es);
      KeysRest(s, kp, es);
      hide AllValues;
      ValuesSplit(s, vp, e.values, AllValues(rest));
      DecodesEdge(s, e, kp, vp);
      DecodesEdges(s, rest, kp + KEY, vp + VALUE * |e.values|);
      assert [e] + rest == es;
    }
  }

  // ---------- Writing it

  /** The bytes `b` in place at `p`, nothing else changed. */
  ghost predicate Wrote(was: seq<Byte>, now: seq<Byte>, p: nat, b: seq<Byte>) {
    p + |b| <= |was| && now == was[..p] + b + was[p + |b|..]
  }

  /** The bytes of a region stay. */
  ghost predicate Untouched(was: seq<Byte>, now: seq<Byte>, from: nat, to: nat) {
    |was| == |now| && from <= to <= |was| && forall i :: from <= i < to ==> was[i] == now[i]
  }

  lemma UntouchedAt(was: seq<Byte>, now: seq<Byte>, from: nat, to: nat, q: nat, t: seq<Byte>)
    requires Untouched(was, now, from, to) && At(was, q, t) && from <= q && q + |t| <= to
    ensures At(now, q, t)
  {
    assert now[q..q + |t|] == was[q..q + |t|];
  }

  lemma UntouchedTwice(a: seq<Byte>, b: seq<Byte>, c: seq<Byte>, from: nat, to: nat, lo: nat, hi: nat)
    requires Untouched(a, b, from, to) && Untouched(b, c, lo, hi) && from <= lo <= hi <= to
    ensures Untouched(a, c, lo, hi)
  {
  }

  lemma HeaderStays(was: seq<Byte>, now: seq<Byte>, to: nat, rank: int, size: nat, begin: nat, end: nat, n: nat)
    requires Untouched(was, now, 0, to) && HEADER <= to && HeaderAt(was, rank, size, begin, end, n)
    ensures HeaderAt(now, rank, size, begin, end, n)
  {
    hide At, Untouched, Le;
    UntouchedAt(was, now, 0, to, 0, Le(rank, 4));
    UntouchedAt(was, now, 0, to, 4, Le(size, 4));
    UntouchedAt(was, now, 0, to, 8, Le(begin, 8));
    UntouchedAt(was, now, 0, to, 16, Le(end, 8));
    UntouchedAt(was, now, 0, to, 24, Le(n, 4));
  }

  lemma KeysStay(was: seq<Byte>, now: seq<Byte>, from: nat, to: nat, kp: nat, es: seq<Edge>)
    requires Untouched(was, now, from, to) && from <= kp && kp + KEY * |es| <= to && KeysFrom(was, kp, es)
    ensures KeysFrom(now, kp, es)
  {
    hide At, Untouched, Le;
    forall i | 0 <= i < |es| ensures KeyAt(now, kp + KEY * i, es[i]) {
      var q := kp + KEY * i;
      assert KeyAt(was, q, es[i]);
      UntouchedAt(was, now, from, to, q, Le(es[i].key.0, 8));
      UntouchedAt(was, now, from, to, q + 8, Le(es[i].key.1, 8));
      UntouchedAt(was, now, from, to, q + 16, Le(|es[i].values|, 4));
    }
  }

  lemma ValuesStay(was: seq<Byte>, now: seq<Byte>, from: nat, to: nat, vp: nat, vs: seq<Data>)
    requires Untouched(was, now, from, to) && from <= vp && vp + VALUE * |vs| <= to && ValuesAt(was, vp, vs)
    requires AllIn(vs)
    ensures ValuesAt(now, vp, vs)
  {
    hide At, Untouched;
    forall j | 0 <= j < |vs| ensures At(now, vp + VALUE * j, Image(vs[j])) {
      UntouchedAt(was, now, from, to, vp + VALUE * j, Image(vs[j]));
    }
  }

  /** The records of an edge as they lie in its vector. */
  function Images(vs: seq<Data>): (b: seq<Byte>)
    requires AllIn(vs)
    ensures |b| == VALUE * |vs|
  {
    if vs == [] then []
    else
      assert InRange(vs[|vs| - 1]);
      Images(vs[..|vs| - 1]) + Image(vs[|vs| - 1])
  }

  lemma {:induction false} ImagesAt(s: seq<Byte>, p: nat, vs: seq<Data>)
    requires AllIn(vs) && At(s, p, Images(vs))
    ensures ValuesAt(s, p, vs)
  {
    hide Image, InRange;
    if vs != [] {
      var n := |vs| - 1;
      AtSplit(s, p, Images(vs[..n]), Image(vs[n]));
      ImagesAt(s, p, vs[..n]);
      forall j | 0 <= j < |vs| ensures At(s, p + VALUE * j, Image(vs[j])) {
        if j < n {
          assert vs[..n][j] == vs[j];
        }
      }
    }
  }

  lemma ValuesJoin(s: seq<Byte>, vp: nat, a: seq<Data>, b: seq<Data>)
    requires ValuesAt(s, vp, a) && ValuesAt(s, vp + VALUE * |a|, b)
    ensures ValuesAt(s, vp, a + b)
  {
    hide Image, At;
    forall j | 0 <= j < |a + b| ensures At(s, vp + VALUE * j, Image((a + b)[j])) {
      if j >= |a| {
        assert At(s, vp + VALUE * |a| + VALUE * (j - |a|), Image(b[j - |a|]));
      }
    }
  }

  // ---------- How much is sent

  lemma {:induction false} AllValuesGrow(es: seq<Edge>, k: nat)
    requires k <= |es|
    ensures |AllValues(es[..k])| <= |AllValues(es)|
    ensures forall i :: 0 <= i < k ==> |es[i].values| <= |AllValues(es)|
  {
    if k < |es| {
      AllValuesGrow(es[..|es| - 1], k);
      assert es[..|es| - 1][..k] == es[..k];
    } else if k > 0 {
      assert es[..k] == es;
      AllValuesGrow(es[..k - 1], k - 1);
      assert es[..k - 1][..k - 1] == es[..k - 1];
    }
  }

  /** What is sent is the longest prefix whose message is smaller than the buffer. */
  lemma {:induction false} SentIsMaximal(es: seq<Edge>, n: nat)
    requires n <= |es| && Size(es[..n]) < MAXBUFSIZ
    ensures Size(es[..Sent(es, n)]) < MAXBUFSIZ
    ensures forall m :: Sent(es, n) < m <= |es| ==> Size(es[..m]) >= MAXBUFSIZ
    decreases |es| - n
  {
    hide Size;
    if n < |es| && Size(es[..n + 1]) < MAXBUFSIZ {
      SentIsMaximal(es, n + 1);
    } else {
      forall m | n < m <= |es| ensures Size(es[..m]) >= MAXBUFSIZ {
        SizeGrows(es[..m], n + 1);
        assert es[..m][..n + 1] == es[..n + 1];
      }
    }
  }

  lemma SizeGrows(es: seq<Edge>, k: nat)
    requires k <= |es|
    ensures Size(es[..k]) <= Size(es)
  {
    AllValuesGrow(es, k);
  }

  ghost predicate AllInRange(es: seq<Edge>) {
    forall i :: 0 <= i < |es| ==> EdgeInRange(es[i])
  }

  /** Edges that fit the buffer have few enough records for the count field. */
  lemma FitsCounts(es: seq<Edge>)
    requires AllInRange(es) && Size(es) < MAXBUFSIZ
    ensures Encodable(es) && |es| < Pow(4)
  {
    hide EdgeInRange;
    AllValuesGrow(es, |es|);
    assert Pow(4) == 256 * Pow(3) && Pow(3) == 256 * Pow(2) && Pow(2) == 256 * Pow(1) && Pow(1) == 256 * Pow(0);
    assert Pow(4) == 0x1_0000_0000;
  }

  lemma {:induction false} AllInRangeValues(es: seq<Edge>)
    requires AllInRange(es)
    ensures AllIn(AllValues(es))
  {
    hide InRange;
    if es != [] {
      AllInRangeValues(es[..|es| - 1]);
      assert EdgeInRange(es[|es| - 1]);
    }
  }

  /** A whole message in the buffer. */
  ghost predicate MessageAt(s: seq<Byte>, rank: int, size: nat, begin: nat, end: nat, es: seq<Edge>) {
    && size == Size(es) <= |s| && HeaderAt(s, rank, size, begin, end, |es|) && KeysFrom(s, HEADER, es)
    && ValuesAt(s, HEADER + KEY * |es|, AllValues(es))
  }

  lemma HeaderDecodes(s: seq<Byte>, rank: int, size: nat, begin: nat, end: nat, n: nat)
    requires HeaderAt(s, rank, size, begin, end, n) && |s| >= HEADER
    requires -Pow(4) <= 2 * rank < Pow(4) && begin < Pow(8) && end < Pow(8) && n < Pow(4)
    ensures Signed(s[0..4]) == rank && FromLe(s[8..16]) == begin && FromLe(s[16..24]) == end && FromLe(s[24..28]) == n
  {
    hide Pow, FromLe, Signed, Le;
    SignedBack(rank, 4);
    FromLeBack(begin, 8);
    FromLeBack(end, 8);
    FromLeBack(n, 4);
  }

  /** The receiver recovers what a message says, the rest of the buffer left out. */
  lemma MessageDecodes(s: seq<Byte>, rank: int, size: nat, begin: nat, end: nat, es: seq<Edge>)
    requires MessageAt(s, rank, size, begin, end, es) && size == |s| && AllInRange(es) && size < MAXBUFSIZ
    requires -Pow(4) <= 2 * rank < Pow(4) && begin < Pow(8) && end < Pow(8)
    ensures Decode(s) == Some(Message(rank, begin, end, es))
  {
    hide Pow, FromLe, Signed, KeyAt, KeysFrom, ValuesAt, EdgeInRange, DecodeEdges, HeaderAt, Le, At;
    FitsCounts(es);
    hide Encodable, AllInRange, AllValues;
    HeaderDecodes(s, rank, size, begin, end, |es|);
    DecodesEdges(s, es, HEADER, HEADER + KEY * |es|);
  }

  lemma MessageCut(s: seq<Byte>, rank: int, size: nat, begin: nat, end: nat, es: seq<Edge>)
    requires MessageAt(s, rank, size, begin, end, es) && AllInRange(es)
    ensures size <= |s| && MessageAt(s[..size], rank, size, begin, end, es)
  {
    hide Size, Le, At, KeyAt;
    assert size == HEADER + KEY * |es| + VALUE * |AllValues(es)| by { SizeIs(es); }
    hide AllValues, InRange, EdgeInRange;
    CutKeys(s, size, HEADER, es);
    AllInRangeValues(es);
    CutValues(s, size, HEADER + KEY * |es|, AllValues(es));
    hide KeysFrom, ValuesAt;
    CutAt(s, size, 0, Le(rank, 4));
    CutAt(s, size, 4, Le(size, 4));
    CutAt(s, size, 8, Le(begin, 8));
    CutAt(s, size, 16, Le(end, 8));
    CutAt(s, size, 24, Le(|es|, 4));
  }

  lemma SizeIs(es: seq<Edge>)
    ensures Size(es) == HEADER + KEY * |es| + VALUE * |AllValues(es)|
  {
  }

  lemma CutAt(s: seq<Byte>, n: nat, p: nat, t: seq<Byte>)
    requires n <= |s| && At(s, p, t) && p + |t| <= n
    ensures At(s[..n], p, t)
  {
    assert s[..n][p..p + |t|] == s[p..p + |t|];
  }

  lemma CutKeys(s: seq<Byte>, n: nat, kp: nat, es: seq<Edge>)
    requires n <= |s| && KeysFrom(s, kp, es) && kp + KEY * |es| <= n
    ensures KeysFrom(s[..n], kp, es)
  {
    hide At, Le;
    forall i | 0 <= i < |es| ensures KeyAt(s[..n], kp + KEY * i, es[i]) {
      var q := kp + KEY * i;
      assert KeyAt(s, q, es[i]);
      CutAt(s, n, q, Le(es[i].key.0, 8));
      CutAt(s, n, q + 8, Le(es[i].key.1, 8));
      CutAt(s, n, q + 16, Le(|es[i].values|, 4));
    }
  }

  lemma CutValues(s: seq<Byte>, n: nat, vp: nat, vs: seq<Data>)
    requires n <= |s| && ValuesAt(s, vp, vs) && vp + VALUE * |vs| <= n
    requires AllIn(vs)
    ensures ValuesAt(s[..n], vp, vs)
  {
    hide At;
    forall j | 0 <= j < |vs| ensures At(s[..n], vp + VALUE * j, Image(vs[j])) {
      CutAt(s, n, vp + VALUE * j, Image(vs[j]));
    }
  }

  lemma PutInPlace(was: seq<Byte>, now: seq<Byte>, p: nat, b: seq<Byte>)
    requires |was| == |now| && p + |b| <= |was|
    requires forall k :: 0 <= k < |was| ==> now[k] == if p <= k < p + |b| then b[k - p] else was[k]
    ensures Wrote(was, now, p, b) && At(now, p, b)
    ensures Untouched(was, now, 0, p) && Untouched(was, now, p + |b|, |was|)
  {
  }

  // ---------- The layout in numbers

  /** Byte `k` of a number, least first. */
  lemma {:induction false} LeAt(x: int, w: nat, k: nat)
    requires k < w
    ensures Le(x, w)[k] == x / Pow(k) % 256
    decreases w
  {
    if k > 0 {
      LeAt(x / 256, w - 1, k - 1);
      DivideTwice(x, Pow(k - 1));
    }
  }

  lemma DivideTwice(x: int, p: int)
    requires p > 0
    ensures x / 256 / p == x / (256 * p)
  {
    var q := x / 256 / p;
    var r := x / 256 - q * p;
    var low := x - 256 * (x / 256);
    assert 0 <= r < p && 0 <= low < 256;
    var z := 256 * r + low;
    assert x == q * (256 * p) + z by {
      assert x == 256 * (q * p + r) + low;
      assert 256 * (q * p) == q * (256 * p);
    }
    assert 0 <= z < 256 * p;
    QuotientIs(x, q, z, 256 * p);
  }

  /** A record: fourteen counters of eight bytes, times, and what the call was made with. */
  ghost predicate RecordLaid(s: seq<Byte>, p: nat, d: Data) {
    && (forall i :: 0 <= i < 14 && i < |d.papi| ==> At(s, p + 8 * i, Le(d.papi[i], 8)))
    && At(s, p + 112, Le(d.elapsed, 8)) && At(s, p + 120, Le(d.timestamp, 8)) && At(s, p + 128, Le(d.target, 4))
    && At(s, p + 132, Le(d.func, 4)) && At(s, p + 136, Le(d.count, 4)) && At(s, p + 144, Le(d.comm, 8))
  }

  /** A message: a header of 32 bytes, keys of 24, records of 152. */
  ghost predicate Laid(s: seq<Byte>, rank: int, begin: nat, end: nat, es: seq<Edge>) {
    var n, vs := |es|, AllValues(es);
    var size := 32 + 24 * n + 152 * |vs|;
    && size < 2097152 && At(s, 0, Le(rank, 4)) && At(s, 4, Le(size, 4)) && At(s, 8, Le(begin, 8))
    && At(s, 16, Le(end, 8)) && At(s, 24, Le(n, 4))
    && (forall i :: 0 <= i < n ==> EdgeLaid(s, 32 + 24 * i, es[i]))
    && (forall j :: 0 <= j < |vs| ==> RecordLaid(s, 32 + 24 * n + 152 * j, vs[j]))
  }

  ghost predicate EdgeLaid(s: seq<Byte>, p: nat, e: Edge) {
    At(s, p, Le(e.key.0, 8)) && At(s, p + 8, Le(e.key.1, 8)) && At(s, p + 16, Le(|e.values|, 4))
  }

  lemma {:induction false} WordsLaid(s: seq<Byte>, p: nat, xs: seq<int>, i: nat)
    requires At(s, p, Words(xs)) && i < |xs|
    ensures At(s, p + 8 * i, Le(xs[i], 8))
  {
    hide Le;
    var n := |xs| - 1;
    AtSplit(s, p, Words(xs[..n]), Le(xs[n], 8));
    if i < n {
      WordsLaid(s, p, xs[..n], i);
    }
  }

  lemma ImageLaid(s: seq<Byte>, p: nat, d: Data)
    requires At(s, p, Image(d)) && |d.papi| == 14
    ensures RecordLaid(s, p, d)
  {
    hide Le, Words, At;
    var t7 := Le(0, 4) + Le(d.comm, 8);
    var t6 := Le(d.count, 4) + t7;
    var t5 := Le(d.func, 4) + t6;
    var t4 := Le(d.target, 4) + t5;
    var t3 := Le(d.timestamp, 8) + t4;
    var t2 := Le(d.elapsed, 8) + t3;
    AtSplit(s, p, Words(d.papi), t2);
    AtSplit(s, p + 112, Le(d.elapsed, 8), t3);
    AtSplit(s, p + 120, Le(d.timestamp, 8), t4);
    AtSplit(s, p + 128, Le(d.target, 4), t5);
    AtSplit(s, p + 132, Le(d.func, 4), t6);
    AtSplit(s, p + 136, Le(d.count, 4), t7);
    AtSplit(s, p + 140, Le(0, 4), Le(d.comm, 8));
    forall i | 0 <= i < 14 ensures At(s, p + 8 * i, Le(d.papi[i], 8)) {
      WordsLaid(s, p, d.papi, i);
    }
  }

  lemma KeysLaid(s: seq<Byte>, es: seq<Edge>, i: nat)
    requires KeysFrom(s, 32, es) && i < |es|
    ensures EdgeLaid(s, 32 + 24 * i, es[i])
  {
    hide Le, At;
    assert KeyAt(s, 32 + KEY * i, es[i]);
  }

  lemma ValuesLaid(s: seq<Byte>, vp: nat, vs: seq<Data>, j: nat)
    requires ValuesAt(s, vp, vs) && AllIn(vs) && j < |vs|
    ensures RecordLaid(s, vp + 152 * j, vs[j])
  {
    hide Le, At, Image, Pow;
    assert At(s, vp + VALUE * j, Image(vs[j])) && InRange(vs[j]);
    ImageLaid(s, vp + VALUE * j, vs[j]);
  }

  lemma MessageParts(s: seq<Byte>, rank: int, size: nat, begin: nat, end: nat, es: seq<Edge>)
    requires MessageAt(s, rank, size, begin, end, es)
    ensures size == 32 + 24 * |es| + 152 * |AllValues(es)| && HeaderAt(s, rank, size, begin, end, |es|)
    ensures KeysFrom(s, 32, es) && ValuesAt(s, 32 + 24 * |es|, AllValues(es))
  {
    hide AllValues, KeysFrom, ValuesAt, HeaderAt;
  }

  lemma MessageLaid(s: seq<Byte>, rank: int, size: nat, begin: nat, end: nat, es: seq<Edge>)
    requires MessageAt(s, rank, size, begin, end, es) && AllInRange(es) && size < MAXBUFSIZ
    ensures Laid(s, rank, begin, end, es) && size == 32 + 24 * |es| + 152 * |AllValues(es)|
  {
    hide Size, Le, At, AllValues, MessageAt, KeysFrom, ValuesAt, EdgeLaid, RecordLaid, AllIn, AllInRange;
    AllInRangeValues(es);
    MessageParts(s, rank, size, begin, end, es);
    var vs, vp := AllValues(es), 32 + 24 * |es|;
    forall i | 0 <= i < |es| ensures EdgeLaid(s, 32 + 24 * i, es[i]) {
      KeysLaid(s, es, i);
    }
    forall j | 0 <= j < |vs| ensures RecordLaid(s, vp + 152 * j, vs[j]) {
      ValuesLaid(s, vp, vs, j);
    }
  }

  class SocketClient {
    var msgSize: nat
    const buf: array<Byte>

    constructor (buf: array<Byte>)
      requires buf.Length == MAXBUFSIZ
      ensures this.buf == buf && msgSize == 0
    {
      this.buf := buf;
      msgSize := 0;
    }

    /** memcpy into the buffer. */
    method Write(p: nat, b: seq<Byte>)
      requires p + |b| <= buf.Length
      modifies buf
      ensures Wrote(old(buf[..]), buf[..], p, b)
      ensures At(buf[..], p, b)
      ensures Untouched(old(buf[..]), buf[..], 0, p) && Untouched(old(buf[..]), buf[..], p + |b|, buf.Length)
    {
      for i := 0 to |b|
        invariant forall k :: 0 <= k < buf.Length ==> buf[k] == if p <= k < p + i then b[k - p] else old(buf[k])
      {
        buf[p + i] := b[i];
      }
      PutInPlace(old(buf[..]), buf[..], p, b);
    }

    method WriteKey(p: nat, e: Edge)
      requires p + KEY <= buf.Length
      modifies buf
      ensures KeyAt(buf[..], p, e)
      ensures Untouched(old(buf[..]), buf[..], 0, p) && Untouched(old(buf[..]), buf[..], p + KEY, buf.Length)
    {
      hide Le, At, Wrote;
      Write(p, Le(e.key.0, 8));
      ghost var b1 := buf[..];
      Write(p + 8, Le(e.key.1, 8));
      ghost var b2 := buf[..];
      UntouchedAt(b1, b2, 0, p + 8, p, Le(e.key.0, 8));
      Write(p + 16, Le(|e.values|, 4));
      UntouchedAt(b2, buf[..], 0, p + 16, p, Le(e.key.0, 8));
      UntouchedAt(b2, buf[..], 0, p + 16, p + 8, Le(e.key.1, 8));
    }

    method WriteHeader(rank: int, size: nat, begin: nat, end: nat, n: nat)
      requires buf.Length >= HEADER
      modifies buf
      ensures HeaderAt(buf[..], rank, size, begin, end, n) && Untouched(old(buf[..]), buf[..], HEADER, buf.Length)
    {
      hide Le, Wrote, Untouched;
      var t3 := Le(end, 8) + (Le(n, 4) + Le(0, 4));
      var t2 := Le(begin, 8) + t3;
      var t1 := Le(size, 4) + t2;
      Write(0, Le(rank, 4) + t1);
      hide At;
      AtSplit(buf[..], 0, Le(rank, 4), t1);
      AtSplit(buf[..], 4, Le(size, 4), t2);
      AtSplit(buf[..], 8, Le(begin, 8), t3);
      AtSplit(buf[..], 16, Le(end, 8), Le(n, 4) + Le(0, 4));
      AtSplit(buf[..], 24, Le(n, 4), Le(0, 4));
    }

    /** The first loop: the keys of as many edges as fit. */
    method WriteKeys(graph: seq<Edge>) returns (cntKey: nat, cntValue: nat)
      requires buf.Length == MAXBUFSIZ
      modifies buf
      ensures cntKey == Sent(graph, 0) && cntValue == |AllValues(graph[..cntKey])|
      ensures Size(graph[..cntKey]) < MAXBUFSIZ && KeysFrom(buf[..], HEADER, graph[..cntKey])
      ensures Untouched(old(buf[..]), buf[..], HEADER + KEY * cntKey, MAXBUFSIZ)
    {
      hide KeyAt, Untouched, KeysFrom, AllValues, Size;
      cntKey, cntValue := 0, 0;
      NoEdges(buf[..], HEADER);
      assert Untouched(old(buf[..]), buf[..], HEADER, MAXBUFSIZ) by { UntouchedSame(buf[..], HEADER, MAXBUFSIZ); }
      while cntKey < |graph|
        invariant cntKey <= |graph| && cntValue == |AllValues(graph[..cntKey])| && Sent(graph, 0) == Sent(graph, cntKey)
        invariant Size(graph[..cntKey]) < MAXBUFSIZ && KeysFrom(buf[..], HEADER, graph[..cntKey])
        invariant Untouched(old(buf[..]), buf[..], HEADER + KEY * cntKey, MAXBUFSIZ)
      {
        var sofar, e := graph[..cntKey], graph[cntKey];
        assert graph[..cntKey + 1] == sofar + [e];
        SizeWith(sofar, e);
        if HEADER + KEY * (cntKey + 1) + VALUE * (cntValue + |e.values|) >= MAXBUFSIZ {
          break;
        }
        ghost var was := buf[..];
        WriteKey(HEADER + KEY * cntKey, e);
        KeysStay(was, buf[..], 0, HEADER + KEY * cntKey, HEADER, sofar);
        KeysWith(buf[..], HEADER, sofar, e);
        UntouchedTwice(old(buf[..]), was, buf[..], HEADER + KEY * cntKey, MAXBUFSIZ, HEADER + KEY * (cntKey + 1),
            MAXBUFSIZ);
        cntValue := cntValue + |e.values|;
        cntKey := cntKey + 1;
      }
    }

    /** The second loop: the records of the first `n` edges, one edge after the other. */
    method WriteValues(graph: seq<Edge>, n: nat)
      requires buf.Length == MAXBUFSIZ && n <= |graph| && AllInRange(graph) && Size(graph[..n]) < MAXBUFSIZ
      modifies buf
      ensures ValuesAt(buf[..], HEADER + KEY * n, AllValues(graph[..n]))
      ensures Untouched(old(buf[..]), buf[..], 0, HEADER + KEY * n)
      ensures Untouched(old(buf[..]), buf[..], Size(graph[..n]), MAXBUFSIZ)
    {
      hide Untouched, AllValues, Size, Wrote, At, ValuesAt, AllIn, AllInRange, Images;
      var sDataType, iKey := HEADER + KEY * n, 0;
      ghost var vp := sDataType;
      SizeIs(graph[..n]);
      NoEdges(buf[..], vp);
      UntouchedSame(buf[..], 0, vp);
      UntouchedSame(buf[..], sDataType, MAXBUFSIZ);
      while iKey < n
        invariant iKey <= n && sDataType == vp + VALUE * |AllValues(graph[..iKey])| <= Size(graph[..n])
        invariant ValuesAt(buf[..], vp, AllValues(graph[..iKey]))
        invariant Untouched(old(buf[..]), buf[..], 0, vp) && Untouched(old(buf[..]), buf[..], sDataType, MAXBUFSIZ)
      {
        var e := graph[iKey];
        ghost var done := graph[..iKey];
        EdgeFits(graph, iKey, n);
        ghost var was, p := buf[..], sDataType;
        Write(sDataType, Images(e.values));
        ValuesStep(was, buf[..], vp, p, done, e);
        sDataType := sDataType + VALUE * |e.values|;
        UntouchedLess(was, buf[..], 0, p, 0, vp);
        UntouchedTwice(old(buf[..]), was, buf[..], 0, vp, 0, vp);
        UntouchedTwice(old(buf[..]), was, buf[..], p, MAXBUFSIZ, sDataType, MAXBUFSIZ);
        iKey := iKey + 1;
      }
    }

    /** The whole message: always smaller than the buffer, and the receiver recovers the longest prefix that is. */
    method Serialize(rank: int, begin: nat, end: nat, graph: seq<Edge>)
      requires buf.Length == MAXBUFSIZ && AllInRange(graph)
      requires -Pow(4) <= 2 * rank < Pow(4) && begin < Pow(8) && end < Pow(8)
      modifies this`msgSize, buf
      ensures msgSize == Size(graph[..Sent(graph, 0)]) < MAXBUFSIZ
      ensures Decode(buf[..msgSize]) == Some(Message(rank, begin, end, graph[..Sent(graph, 0)]))
      ensures Untouched(old(buf[..]), buf[..], msgSize, MAXBUFSIZ)
      ensures Laid(buf[..], rank, begin, end, graph[..Sent(graph, 0)])
    {
      hide Laid, Untouched, AllValues, KeysFrom, ValuesAt, HeaderAt, Decode, EdgeInRange, Pow;
      var cntKey, cntValue := WriteKeys(graph);
      ghost var sent := graph[..cntKey];
      msgSize := HEADER + KEY * cntKey + VALUE * cntValue;
      ghost var b1 := buf[..];
      WriteHeader(rank, msgSize, begin, end, cntKey);
      ghost var b2 := buf[..];
      KeysStay(b1, b2, HEADER, MAXBUFSIZ, HEADER, sent);
      WriteValues(graph, cntKey);
      ghost var b3 := buf[..];
      HeaderStays(b2, b3, HEADER + KEY * cntKey, rank, msgSize, begin, end, cntKey);
      KeysStay(b2, b3, 0, HEADER + KEY * cntKey, HEADER, sent);
      MessageCut(b3, rank, msgSize, begin, end, sent);
      MessageLaid(b3, rank, msgSize, begin, end, sent);
      MessageDecodes(b3[..msgSize], rank, msgSize, begin, end, sent);
      UntouchedTwice(old(buf[..]), b1, b2, HEADER + KEY * cntKey, MAXBUFSIZ, msgSize, MAXBUFSIZ) by {
        UntouchedLess(b1, b2, HEADER, MAXBUFSIZ, msgSize, MAXBUFSIZ);
      }
      UntouchedTwice(old(buf[..]), b2, b3, msgSize, MAXBUFSIZ, msgSize, MAXBUFSIZ);
    }
  }

  lemma UntouchedLess(was: seq<Byte>, now: seq<Byte>, from: nat, to: nat, lo: nat, hi: nat)
    requires Untouched(was, now, from, to) && from <= lo <= hi <= to
    ensures Untouched(was, now, lo, hi)
  {
  }

  lemma EdgeFits(graph: seq<Edge>, k: nat, n: nat)
    requires k < n <= |graph| && AllInRange(graph)
    ensures graph[..k + 1] == graph[..k] + [graph[k]] && EdgeInRange(graph[k]) && AllInRange(graph[..k])
    ensures HEADER + KEY * n + VALUE * (|AllValues(graph[..k])| + |graph[k].values|) <= Size(graph[..n])
    ensures |AllValues(graph[..k + 1])| == |AllValues(graph[..k])| + |graph[k].values|
  {
    hide EdgeInRange;
    assert EdgeInRange(graph[k]);
    AllValuesGrow(graph[..n], k + 1);
    assert graph[..n][..k + 1] == graph[..k + 1] == graph[..k] + [graph[k]];
    SizeWith(graph[..k], graph[k]);
  }

  /** One more edge's records in place, after those of the edges before it. */
  lemma ValuesStep(was: seq<Byte>, now: seq<Byte>, vp: nat, p: nat, done: seq<Edge>, e: Edge)
    requires AllInRange(done) && EdgeInRange(e) && p == vp + VALUE * |AllValues(done)|
    requires ValuesAt(was, vp, AllValues(done)) && At(now, p, Images(e.values)) && Untouched(was, now, 0, p)
    ensures ValuesAt(now, vp, AllValues(done + [e]))
  {
    hide Untouched, AllValues, At, ValuesAt, Images, AllIn, AllInRange;
    AllInRangeValues(done);
    ImagesAt(now, p, e.values);
    ValuesStay(was, now, 0, p, vp, AllValues(done));
    ValuesJoin(now, vp, AllValues(done), e.values);
    SizeWith(done, e);
  }

  lemma NoEdges(s: seq<Byte>, kp: nat)
    ensures KeysFrom(s, kp, []) && AllValues([]) == [] && Size([]) == HEADER && ValuesAt(s, kp, [])
  {
  }

  lemma SizeWith(es: seq<Edge>, e: Edge)
    ensures AllValues(es + [e]) == AllValues(es) + e.values
    ensures Size(es + [e]) == HEADER + KEY * (|es| + 1) + VALUE * (|AllValues(es)| + |e.values|)
  {
    assert (es + [e])[..|es|] == es;
  }

  lemma KeysWith(s: seq<Byte>, kp: nat, es: seq<Edge>, e: Edge)
    requires KeysFrom(s, kp, es) && KeyAt(s, kp + KEY * |es|, e)
    ensures KeysFrom(s, kp, es + [e])
  {
    hide KeyAt;
    forall i | 0 <= i < |es| + 1 ensures KeyAt(s, kp + KEY * i, (es + [e])[i]) {
      if i < |es| {
        assert KeyAt(s, kp + KEY * i, es[i]);
      }
    }
  }

  lemma UntouchedSame(s: seq<Byte>, from: nat, to: nat)
    requires from <= to <= |s|
    ensures Untouched(s, s, from, to)
  {
  }
}
