/**
 What every loop head of the tokenizer keeps.

 The reference is a pushdown scanner that knows no tokens: it keeps the unmatched brackets on an
 explicit stack. The tokenizer's open tokens are that stack, and its spans and sizes describe a forest.
 */
module JsmnStack {
  import opened Jsmn

  datatype Frame = Frame(kind: Kind, at: int)

  datatype Scanner = Scanning(pos: nat, stack: seq<Frame>) | Rejected

  function Pop(pos: nat, stack: seq<Frame>, kind: Kind): Scanner {
    if stack == [] || stack[|stack| - 1].kind != kind then Rejected
    else Scanning(pos + 1, stack[..|stack| - 1])
  }

  /** One lexeme of the reference scanner. */
  function Scan(js: string, pos: nat, stack: seq<Frame>): (r: Scanner)
    requires pos < |js|
    ensures r.Scanning? ==> pos < r.pos
  {
    var c := js[pos];
    if c == '{' || c == '[' then Scanning(pos + 1, stack + [Frame(KindOf(c), pos)])
    else if c == '}' || c == ']' then Pop(pos, stack, KindOf(c))
    else if c == '\"' then
      var e := StringEnd(js, pos + 1);
      if e.Closed? then Scanning(e.quote + 1, stack) else Rejected
    else if IsBlank(c) || c == ':' || c == ',' then Scanning(pos + 1, stack)
    else
      var e := PrimitiveEnd(js, pos);
      if e == -1 then Rejected else Scanning(e, stack)
  }

  /** Lexes to the end of the input with every bracket matched. */
  predicate Balanced(js: string, pos: nat, stack: seq<Frame>)
    decreases |js| - pos
  {
    if pos >= |js| then stack == []
    else
      match Scan(js, pos, stack)
      case Rejected => false
      case Scanning(p, st) => Balanced(js, p, st)
  }

  /** The open tokens, in index order. */
  function OpenFrames(toks: seq<Token>): seq<Frame> {
    if toks == [] then []
    else
      var t := toks[|toks| - 1];
      OpenFrames(toks[..|toks| - 1]) + if IsOpen(t) then [Frame(t.kind, t.start)] else []
  }

  predicate IsContainer(t: Token) {
    t.kind == Object || t.kind == Array
  }

  /** `t`, an earlier token, has position `x` inside its span; an open span has no end yet. */
  predicate Holds(t: Token, x: int) {
    IsContainer(t) && (t.end == -1 || x < t.end)
  }

  /** The last of the first `j` tokens that holds `x`, or -1. */
  function Cover(toks: seq<Token>, x: int, j: nat): (i: int)
    requires j <= |toks|
    ensures -1 <= i < j
  {
    if j == 0 then -1 else if Holds(toks[j - 1], x) then j - 1 else Cover(toks, x, j - 1)
  }

  /** The innermost container of token `i`, or -1. */
  function Parent(toks: seq<Token>, i: nat): int
    requires i < |toks|
  {
    Cover(toks, toks[i].start, i)
  }

  /** How many of the first `n` tokens have `j` as innermost container. */
  function Children(toks: seq<Token>, j: int, n: nat): nat
    requires n <= |toks|
  {
    if n == 0 then 0 else Children(toks, j, n - 1) + if Parent(toks, n - 1) == j then 1 else 0
  }

  ghost predicate Spans(toks: seq<Token>, pos: nat) {
    && (forall i :: 0 <= i < |toks| ==>
          && 0 <= toks[i].start < pos
          && (toks[i].end == -1 || toks[i].start <= toks[i].end <= pos)
          && (toks[i].end == -1 ==> IsContainer(toks[i])))
    && (forall i, j :: 0 <= i < j < |toks| ==> toks[i].start < toks[j].start)
  }

  /** A closed span either ends before a later token starts or, for a container, encloses it whole. */
  ghost predicate Nested(toks: seq<Token>) {
    forall i, j :: 0 <= i < j < |toks| && toks[i].end != -1 ==>
      || toks[i].end <= toks[j].start
      || (IsContainer(toks[i]) && toks[j].end != -1 && toks[j].end <= toks[i].end)
  }

  ghost predicate Sized(toks: seq<Token>) {
    forall j :: 0 <= j < |toks| ==> toks[j].size == Children(toks, j, |toks|)
  }

  ghost predicate Inv(s: State) {
    && |s.toks| <= s.pos
    && s.super == LastOpen(s.toks)
    && Spans(s.toks, s.pos)
    && Nested(s.toks)
    && Sized(s.toks)
  }

  /** Same tokens but for sizes. */
  ghost predicate SameSpans(a: seq<Token>, b: seq<Token>) {
    |a| == |b| && forall i :: 0 <= i < |a| ==> a[i].(size := 0) == b[i].(size := 0)
  }

  lemma {:induction false} CoverSame(a: seq<Token>, b: seq<Token>, x: int, j: nat)
    requires j <= |a| && j <= |b|
    requires forall k :: 0 <= k < j ==> Holds(a[k], x) == Holds(b[k], x)
    ensures Cover(a, x, j) == Cover(b, x, j)
  {
    if j > 0 {
      CoverSame(a, b, x, j - 1);
    }
  }

  lemma {:induction false} ChildrenSame(a: seq<Token>, b: seq<Token>, j: int, n: nat)
    requires n <= |a| && n <= |b|
    requires forall i :: 0 <= i < n ==> Parent(a, i) == Parent(b, i)
    ensures Children(a, j, n) == Children(b, j, n)
  {
    if n > 0 {
      ChildrenSame(a, b, j, n - 1);
    }
  }

  /** No token has itself or a later token as container. */
  lemma {:induction false} NoChildren(toks: seq<Token>, j: nat, n: nat)
    requires n <= |toks| && n <= j + 1
    ensures Children(toks, j, n) == 0
  {
    if n > 0 {
      NoChildren(toks, j, n - 1);
    }
  }

  lemma {:induction false} FramesSame(a: seq<Token>, b: seq<Token>)
    requires SameSpans(a, b)
    ensures OpenFrames(a) == OpenFrames(b)
    ensures LastOpen(a) == LastOpen(b)
  {
    if a != [] {
      var n := |a| - 1;
      assert a[n].(size := 0) == b[n].(size := 0);
      FramesSame(a[..n], b[..n]);
    }
  }

  lemma {:induction false} FramesAppend(toks: seq<Token>, t: Token)
    ensures OpenFrames(toks + [t]) == OpenFrames(toks) + if IsOpen(t) then [Frame(t.kind, t.start)] else []
    ensures LastOpen(toks + [t]) == if IsOpen(t) then |toks| else LastOpen(toks)
  {
    assert (toks + [t])[..|toks|] == toks;
  }

  /** The last open token is the top of the stack; the tokens before it hold the rest. */
  lemma {:induction false} FramesTop(toks: seq<Token>)
    ensures var i := LastOpen(toks);
            if i == -1 then OpenFrames(toks) == []
            else OpenFrames(toks) == OpenFrames(toks[..i]) + [Frame(toks[i].kind, toks[i].start)]
  {
    if toks != [] && !IsOpen(toks[|toks| - 1]) {
      var init := toks[..|toks| - 1];
      FramesTop(init);
      var i := LastOpen(toks);
      if i != -1 {
        assert init[..i] == toks[..i];
      }
    }
  }

  /** Closing the last open token pops the stack. */
  lemma {:induction false} FramesClose(toks: seq<Token>, end: int)
    requires LastOpen(toks) != -1 && end != -1
    ensures var i := LastOpen(toks);
            var closed := toks[i := toks[i].(end := end)];
            && OpenFrames(closed) == OpenFrames(toks[..i])
            && LastOpen(closed) == LastOpen(toks[..i])
  {
    var i := LastOpen(toks);
    var n := |toks| - 1;
    var closed := toks[i := toks[i].(end := end)];
    if i == n {
      assert closed[..n] == toks[..n];
    } else {
      FramesClose(toks[..n], end);
      assert closed[..n] == toks[..n][i := toks[i].(end := end)];
      assert toks[..n][..i] == toks[..i];
    }
  }

  /** A token starting at or after `pos` becomes a child of the last open token. */
  lemma {:induction false} CoverAtEnd(toks: seq<Token>, pos: nat, x: int, j: nat)
    requires Spans(toks, pos) && pos <= x && j <= |toks|
    ensures Cover(toks, x, j) == LastOpen(toks[..j])
  {
    if j > 0 {
      CoverAtEnd(toks, pos, x, j - 1);
      assert toks[..j][..j - 1] == toks[..j - 1];
    }
  }

  /** A new token is in the last open one; where the others are does not change. */
  lemma AppendParents(toks: seq<Token>, pos: nat, t: Token)
    requires Spans(toks, pos) && pos <= t.start
    ensures var r := Bump(toks, LastOpen(toks), 1) + [t];
            (forall i :: 0 <= i < |toks| ==> Parent(r, i) == Parent(toks, i)) && Parent(r, |toks|) == LastOpen(toks)
  {
    var super, n := LastOpen(toks), |toks|;
    var r := Bump(toks, super, 1) + [t];
    assert forall k, x :: 0 <= k < n ==> Holds(r[k], x) == Holds(toks[k], x);
    assert forall i :: 0 <= i < n ==> r[i].start == toks[i].start;
    assert r[n] == t && toks[..n] == toks;
    hide Bump, Holds, Cover, LastOpen;
    forall i | 0 <= i < n ensures Parent(r, i) == Parent(toks, i) {
      CoverSame(r, toks, toks[i].start, i);
    }
    CoverSame(r, toks, t.start, n);
    CoverAtEnd(toks, pos, t.start, n);
  }

  /** Adding a token to the superior token's children, counted in its size. */
  lemma {:induction false} AppendSized(toks: seq<Token>, pos: nat, t: Token)
    requires Spans(toks, pos) && Sized(toks) && pos <= t.start && t.size == 0
    ensures Sized(Bump(toks, LastOpen(toks), 1) + [t])
  {
    var super, n := LastOpen(toks), |toks|;
    var r := Bump(toks, super, 1) + [t];
    AppendParents(toks, pos, t);
    hide Parent, Cover, Spans, LastOpen;
    forall j | 0 <= j < |r| ensures r[j].size == Children(r, j, |r|) {
      ChildrenSame(r, toks, j, n);
      if j == n {
        NoChildren(r, n, n + 1);
      }
    }
  }

  /** Closing a container moves no token out of it. */
  lemma {:induction false} CloseSized(toks: seq<Token>, pos: nat, i: nat)
    requires Spans(toks, pos) && Sized(toks) && i < |toks| && IsOpen(toks[i])
    ensures Sized(toks[i := toks[i].(end := pos + 1)])
  {
    var r := toks[i := toks[i].(end := pos + 1)];
    forall k | 0 <= k < |toks| ensures Parent(r, k) == Parent(toks, k) {
      CoverSame(r, toks, toks[k].start, k);
    }
    forall j | 0 <= j < |r| ensures r[j].size == Children(r, j, |r|) {
      ChildrenSame(r, toks, j, |toks|);
    }
  }

  lemma {:induction false} AppendPlaced(toks: seq<Token>, before: nat, t: Token, pos: nat)
    requires Spans(toks, before) && Nested(toks)
    requires before <= t.start < pos
    requires if t.end == -1 then IsContainer(t) else t.start <= t.end <= pos
    ensures Spans(toks + [t], pos) && Nested(toks + [t])
  {
  }

  lemma {:induction false} SameSpansPlaced(a: seq<Token>, b: seq<Token>, pos: nat)
    requires SameSpans(a, b) && Spans(a, pos) && Nested(a)
    ensures Spans(b, pos) && Nested(b)
  {
    forall i | 0 <= i < |a|
      ensures a[i].start == b[i].start && a[i].end == b[i].end && a[i].kind == b[i].kind
    {
      assert a[i].(size := 0) == b[i].(size := 0);
    }
  }

  lemma {:induction false} BumpSameSpans(toks: seq<Token>, super: int, n: nat)
    requires -1 <= super < |toks|
    ensures SameSpans(toks, Bump(toks, super, n))
    ensures OpenFrames(Bump(toks, super, n)) == OpenFrames(toks)
    ensures LastOpen(Bump(toks, super, n)) == LastOpen(toks)
  {
    FramesSame(toks, Bump(toks, super, n));
  }

  lemma {:induction false} AppendInv(s: State, t: Token, pos: nat)
    requires Inv(s) && s.pos <= t.start < pos && t.size == 0
    requires if t.end == -1 then IsContainer(t) else t.start <= t.end <= pos
    ensures Valid(s)
    ensures var toks := Bump(s.toks, s.super, 1) + [t];
            && Inv(State(pos, toks, if t.end == -1 then |s.toks| else s.super))
            && OpenFrames(toks) == OpenFrames(s.toks) + if t.end == -1 then [Frame(t.kind, t.start)] else []
  {
    var bumped := Bump(s.toks, s.super, 1);
    BumpSameSpans(s.toks, s.super, 1);
    FramesAppend(bumped, t);
    AppendSized(s.toks, s.pos, t);
    assert Spans(bumped + [t], pos) && Nested(bumped + [t]) by {
      SameSpansPlaced(s.toks, bumped, s.pos);
      AppendPlaced(bumped, s.pos, t, pos);
    }
  }

  /** Closing the last open token: everything after it is closed already, and lies inside. */
  lemma {:induction false} ClosePlaced(toks: seq<Token>, pos: nat)
    requires Spans(toks, pos) && Nested(toks) && LastOpen(toks) != -1
    ensures var r := toks[LastOpen(toks) := toks[LastOpen(toks)].(end := pos + 1)];
            Spans(r, pos + 1) && Nested(r)
  {
    var k := LastOpen(toks);
    forall i, j | 0 <= i < j < |toks| && i != k && j == k && toks[i].end != -1
      ensures toks[i].end <= toks[j].start
    {
    }
  }

  lemma {:induction false} CloseInv(s: State)
    requires Inv(s) && s.super != -1
    ensures Valid(s)
    ensures var i := s.super;
            var toks := s.toks[i := s.toks[i].(end := s.pos + 1)];
            && Inv(State(s.pos + 1, toks, LastOpen(s.toks[..i])))
            && OpenFrames(s.toks) == OpenFrames(toks) + [Frame(s.toks[i].kind, s.toks[i].start)]
  {
    hide Spans, Nested, Sized;
    var toks := s.toks[s.super := s.toks[s.super].(end := s.pos + 1)];
    ClosePlaced(s.toks, s.pos);
    CloseSized(s.toks, s.pos, s.super);
    FramesTop(s.toks);
    FramesClose(s.toks, s.pos + 1);
  }

  /** A primitive takes at least its first byte. */
  lemma {:induction false} PrimitiveAdvances(js: string, pos: nat)
    requires pos < |js| && !IsDelimiter(js[pos])
    ensures var e := PrimitiveEnd(js, pos); e == -1 || pos < e
  {
  }

  /** A turn and a lexeme that agree. */
  ghost predicate Agree(s: State, o: Outcome, r: Scanner, cap: nat) {
    match o
    case Next(s') => Inv(s') && r == Scanning(s'.pos, OpenFrames(s'.toks))
    case Stop(code, s') => s' == s && code != Success && if code == NoMem then |s.toks| >= cap else r == Rejected
  }

  lemma {:induction false} OpenKeeps(s: State, kind: Kind, cap: nat)
    requires Inv(s) && (kind == Object || kind == Array)
    ensures Agree(s, Open(s, kind, cap), Scanning(s.pos + 1, OpenFrames(s.toks) + [Frame(kind, s.pos)]), cap)
  {
    hide Spans, Nested, Sized;
    AppendInv(s, Token(kind, s.pos, -1, 0), s.pos + 1);
  }

  lemma {:induction false} CloseKeeps(s: State, kind: Kind, cap: nat)
    requires Inv(s)
    ensures Agree(s, Close(s, kind), Pop(s.pos, OpenFrames(s.toks), kind), cap)
  {
    hide Spans, Nested, Sized;
    FramesTop(s.toks);
    if s.super != -1 {
      CloseInv(s);
    }
  }

  lemma {:induction false} LeafKeeps(s: State, t: Token, pos: nat, cap: nat)
    requires Inv(s) && s.pos <= t.start < pos && t.size == 0 && t.start <= t.end <= pos
    ensures Agree(s, AddLeaf(s, t, pos, cap), Scanning(pos, OpenFrames(s.toks)), cap)
  {
    hide Spans, Nested, Sized;
    AppendInv(s, t, pos);
  }

  lemma {:induction false} SkipKeeps(s: State, cap: nat)
    requires Inv(s)
    ensures Agree(s, Next(s.(pos := s.pos + 1)), Scanning(s.pos + 1, OpenFrames(s.toks)), cap)
  {
  }

  lemma {:induction false} StringKeeps(js: string, s: State, cap: nat)
    requires Inv(s) && s.pos < |js| && js[s.pos] == '\"'
    ensures Agree(s, Step(js, s, cap), Scan(js, s.pos, OpenFrames(s.toks)), cap)
  {
    hide Inv;
    var e := StringEnd(js, s.pos + 1);
    if e.Closed? {
      LeafKeeps(s, Token(String, s.pos + 1, e.quote, 0), e.quote + 1, cap);
    }
  }

  lemma {:induction false} PrimitiveKeeps(js: string, s: State, cap: nat)
    requires Inv(s) && s.pos < |js| && !IsDelimiter(js[s.pos])
    requires js[s.pos] != '{' && js[s.pos] != '[' && js[s.pos] != '\"'
    ensures Agree(s, Step(js, s, cap), Scan(js, s.pos, OpenFrames(s.toks)), cap)
  {
    hide Inv;
    PrimitiveAdvances(js, s.pos);
    var e := PrimitiveEnd(js, s.pos);
    if e != -1 {
      LeafKeeps(s, Token(Primitive, s.pos, e, 0), e, cap);
    }
  }

  /** One turn keeps the invariant and makes the same move on its open tokens as the scanner on its stack. */
  lemma {:induction false} StepKeeps(js: string, s: State, cap: nat)
    requires Inv(s) && s.pos < |js|
    ensures Agree(s, Step(js, s, cap), Scan(js, s.pos, OpenFrames(s.toks)), cap)
  {
    hide Inv, Agree, StringEnd, PrimitiveEnd, LastOpen;
    var c := js[s.pos];
    if c == '{' || c == '[' {
      OpenKeeps(s, KindOf(c), cap);
    } else if c == '}' || c == ']' {
      CloseKeeps(s, KindOf(c), cap);
    } else if c == '\"' {
      StringKeeps(js, s, cap);
    } else if IsDelimiter(c) {
      SkipKeeps(s, cap);
    } else {
      PrimitiveKeeps(js, s, cap);
    }
  }

  datatype Head = InLoop(s: State) | Ended

  /** The state at the `n`th head of the main loop of a call that starts in `s`. */
  function LoopHead(js: string, s: State, cap: nat, n: nat): (h: Head)
    requires Valid(s)
    ensures h.InLoop? ==> Valid(h.s)
    decreases n
  {
    if n == 0 then InLoop(s)
    else if s.pos >= |js| then Ended
    else
      match Step(js, s, cap)
      case Stop(_, _) => Ended
      case Next(s') => LoopHead(js, s', cap, n - 1)
  }

  /** The reference scanner after `n` lexemes. */
  function ScanHead(js: string, pos: nat, stack: seq<Frame>, n: nat): Scanner
    decreases n
  {
    if n == 0 then Scanning(pos, stack)
    else if pos >= |js| then Rejected
    else
      match Scan(js, pos, stack)
      case Rejected => Rejected
      case Scanning(p, st) => ScanHead(js, p, st, n - 1)
  }

  lemma {:induction false} LoopHeadFrom(js: string, s: State, cap: nat, n: nat)
    requires Inv(s)
    ensures var h := LoopHead(js, s, cap, n);
            && (h.InLoop? ==> Inv(h.s))
            && (h.InLoop? ==>
                  ScanHead(js, s.pos, OpenFrames(s.toks), n) == Scanning(h.s.pos, OpenFrames(h.s.toks)))
    decreases n
  {
    if n > 0 && s.pos < |js| {
      StepKeeps(js, s, cap);
      var o := Step(js, s, cap);
      if o.Next? {
        LoopHeadFrom(js, o.s, cap, n - 1);
      }
    }
  }

  /**
   At every head of the main loop, the open tokens in index order are the unmatched brackets, `super` is
   the last of them, and spans and sizes are those of a forest.
   */
  lemma {:induction false} EveryLoopHead(js: string, cap: nat, n: nat)
    ensures var h := LoopHead(js, INIT, cap, n);
            h.InLoop? ==> Inv(h.s) && ScanHead(js, 0, [], n) == Scanning(h.s.pos, OpenFrames(h.s.toks))
  {
    LoopHeadFrom(js, INIT, cap, n);
  }

  lemma {:induction false} RunFrom(js: string, s: State, cap: nat)
    requires Inv(s)
    ensures var (code, s') := Run(js, s, cap);
            && Inv(s')
            && (code == NoMem ==> cap <= |s'.toks| && s'.pos < |js|)
            && (code != NoMem ==> (code == Success <==> Balanced(js, s.pos, OpenFrames(s.toks))))
            && (code == Success ==> OpenFrames(s'.toks) == [] && s'.pos >= |js|)
    decreases |js| - s.pos
  {
    if s.pos >= |js| {
      FramesTop(s.toks);
    } else {
      StepKeeps(js, s, cap);
      var o := Step(js, s, cap);
      if o.Next? {
        RunFrom(js, o.s, cap);
      }
    }
  }

  /** A call on fresh fields succeeds exactly on balanced inputs, unless it runs out of tokens. */
  lemma {:induction false} SuccessIffBalanced(js: string, cap: nat)
    ensures var (code, s) := Run(js, INIT, cap);
            && Inv(s)
            && (code != NoMem ==> (code == Success <==> Balanced(js, 0, [])))
            && (code == Success ==> OpenFrames(s.toks) == [] && s.super == -1)
  {
    RunFrom(js, INIT, cap);
    FramesTop(Run(js, INIT, cap).1.toks);
  }

  /** As many tokens as bytes, which is what the event-file reader allocates, are always enough. */
  lemma {:induction false} OneTokenPerByteIsEnough(js: string, cap: nat)
    requires cap >= |js|
    ensures Run(js, INIT, cap).0 != NoMem
    ensures Run(js, INIT, cap).0 == Success <==> Balanced(js, 0, [])
  {
    RunFrom(js, INIT, cap);
  }
}
