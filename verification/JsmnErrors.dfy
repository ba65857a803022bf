/**
 What the error codes of the tokenizer mean: "more input needed" that some further text completes the input, and
 "invalid" that none does, but for one kind of input.
 */
module JsmnErrors {
  import opened Jsmn
  import opened JsmnStack
  import opened JsmnRestart

  // ---------- What some bytes mean

  lemma OneStep(js: string, s: State, cap: nat)
    requires Valid(s) && s.pos < |js|
    ensures var o := Step(js, s, cap);
            Run(js, s, cap) == (if o.Next? then Run(js, o.s, cap) else (o.code, o.s))
  {
    hide Step;
  }

  lemma AtEnd(js: string, s: State, cap: nat)
    requires Valid(s) && s.pos >= |js|
    ensures Run(js, s, cap) == (if LastOpen(s.toks) == -1 then Success else Part, s)
  {
  }

  /** What a bracket or a quote is, alone in a text. */
  lemma OneMark(c: char, cap: nat)
    requires cap > 0
    ensures var (code, s) := Run([c], INIT, cap);
            && (c == '{' ==> code == Part && s.toks == [Token(Object, 0, -1, 0)])
            && (c == '[' ==> code == Part && s.toks == [Token(Array, 0, -1, 0)])
            && (c == ']' || c == '}' ==> code == Inval) && (c == '\"' ==> code == Part && s.toks == [])
  {
    if c == '{' || c == '[' || c == ']' || c == '}' || c == '\"' {
      OneStep([c], INIT, cap);
      var o := Step([c], INIT, cap);
      hide Run, PrimitiveEnd;
      if o.Next? {
        AtEnd([c], o.s, cap);
      }
    }
  }

  /** Separators alone are no token, and any other byte is a primitive, if it can be printed. */
  lemma OneOther(c: char, cap: nat)
    requires cap > 0 && c != '{' && c != '[' && c != ']' && c != '}' && c != '\"'
    ensures var (code, s) := Run([c], INIT, cap);
            if c == ' ' || c == '\t' || c == '\r' || c == '\n' || c == ':' || c == ',' then
              code == Success && s.toks == []
            else if ' ' <= c <= '~' then code == Success && s.toks == [Token(Primitive, 0, 1, 0)]
            else code == Inval
  {
    OneStep([c], INIT, cap);
    assert PrimitiveEnd([c], 1) == 1;
    var o := Step([c], INIT, cap);
    hide Run;
    if o.Next? {
      AtEnd([c], o.s, cap);
    }
  }

  /** Which bytes end a primitive. */
  lemma EndsPrimitive(c: char)
    ensures PrimitiveEnd(['0', c], 0) == 1 <==> c in " \t\r\n:,]}"
    ensures PrimitiveEnd(['0', c], 0) == -1 <==> c !in " \t\r\n:,]}" && !(' ' <= c <= '~')
  {
    var js := ['0', c];
    assert PrimitiveEnd(js, 2) == 2;
    assert PrimitiveEnd(js, 0) == PrimitiveEnd(js, 1);
  }

  /** Which bytes may follow a backslash in a string. */
  lemma Escapes(c: char)
    ensures StringEnd(['\"', '\\', c, '\"'], 1) == if c in "\"\\/bfnrtu" then Closed(3) else BadEscape
  {
    var js := ['\"', '\\', c, '\"'];
    assert StringEnd(js, 3) == Closed(3);
  }

  // ---------- Completing an input

  /** The brackets that close a stack. */
  function Closers(stack: seq<Frame>): string {
    if stack == [] then []
    else [if stack[|stack| - 1].kind == Object then '}' else ']'] + Closers(stack[..|stack| - 1])
  }

  ghost predicate Brackets(stack: seq<Frame>) {
    forall i :: 0 <= i < |stack| ==> stack[i].kind == Object || stack[i].kind == Array
  }

  lemma {:induction false} FramesAreBrackets(toks: seq<Token>, pos: nat)
    requires Spans(toks, pos)
    ensures Brackets(OpenFrames(toks))
  {
    if toks != [] {
      var n := |toks| - 1;
      FramesAreBrackets(toks[..n], pos);
      assert toks[n].end == -1 ==> IsContainer(toks[n]);
    }
  }

  lemma {:induction false} ClosersBalance(x: string, stack: seq<Frame>)
    requires Brackets(stack)
    ensures Balanced(x + Closers(stack), |x|, stack)
    decreases |stack|
  {
    if stack != [] {
      var n := |stack| - 1;
      var c := if stack[n].kind == Object then '}' else ']';
      assert x + Closers(stack) == (x + [c]) + Closers(stack[..n]);
      ClosersBalance(x + [c], stack[..n]);
      var js := x + Closers(stack);
      assert js[|x|] == c;
      ScanCloser(js, |x|, stack);
      hide Scan, Closers;
    }
  }

  lemma ScanCloser(js: string, pos: nat, stack: seq<Frame>)
    requires pos < |js| && stack != [] && Brackets(stack)
    requires js[pos] == if stack[|stack| - 1].kind == Object then '}' else ']'
    ensures Scan(js, pos, stack) == Scanning(pos + 1, stack[..|stack| - 1])
  {
  }

  /** A string that the input leaves open goes on to the next quote. */
  lemma {:induction false} OpenString(js: string, more: string, p: nat)
    requires p <= |js| && StringEnd(js, p) == Unterminated && more != "" && more[0] == '\"'
    ensures StringEnd(js + more, p) == Closed(|js|)
    decreases |js| - p
  {
    if p < |js| {
      OpenString(js, more, if js[p] == '\\' then p + 2 else p + 1);
    }
  }

  /** A backslash in a string is the last byte of the input. */
  predicate CutEscape(js: string, p: nat)
    decreases |js| - p
  {
    if p >= |js| || js[p] == '\"' then false
    else if js[p] == '\\' then p + 1 == |js| || (IsEscapable(js[p + 1]) && CutEscape(js, p + 2))
    else CutEscape(js, p + 1)
  }

  lemma {:induction false} CutEscapeGoesOn(js: string, more: string, p: nat)
    requires CutEscape(js, p)
    ensures js[|js| - 1] == '\\' && StringEnd(js, p) == BadEscape
    ensures StringEnd(js + (['\"', '\"'] + more), p) == Closed(|js| + 1)
    decreases |js| - p
  {
    var js' := js + (['\"', '\"'] + more);
    if js[p] == '\\' {
      if p + 1 == |js| {
        assert js'[|js|] == '\"' && js'[|js| + 1] == '\"';
        assert CharAt(js', p + 1) == '\"';
      } else {
        CutEscapeGoesOn(js, more, p + 2);
      }
    } else {
      CutEscapeGoesOn(js, more, p + 1);
    }
  }

  /** A bad escape that is not cut stays bad. */
  lemma {:induction false} BadEscapeStays(js: string, more: string, p: nat)
    requires StringEnd(js, p) == BadEscape && !CutEscape(js, p)
    ensures StringEnd(js + more, p) == BadEscape
    decreases |js| - p
  {
    if js[p] != '\\' {
      BadEscapeStays(js, more, p + 1);
    } else if IsEscapable(CharAt(js, p + 1)) {
      BadEscapeStays(js, more, p + 2);
    }
  }

  /** The scan comes to such a backslash. */
  predicate CutsEscape(js: string, pos: nat, stack: seq<Frame>)
    decreases |js| - pos
  {
    if pos >= |js| then false
    else if js[pos] == '\"' && CutEscape(js, pos + 1) then true
    else
      match Scan(js, pos, stack)
      case Rejected => false
      case Scanning(p, st) => CutsEscape(js, p, st)
  }

  /** A lexeme stays when the input grows, unless it is a primitive that the input cuts. */
  lemma {:induction false} ScanStays(js: string, more: string, pos: nat, stack: seq<Frame>)
    requires pos < |js| && Scan(js, pos, stack).Scanning?
    requires Scan(js, pos, stack).pos < |js| || more == "" || IsDelimiter(more[0])
    ensures Scan(js + more, pos, stack) == Scan(js, pos, stack) && Scan(js, pos, stack).pos <= |js|
  {
    var c := js[pos];
    if c == '\"' {
      StringEndExtends(js, more, pos + 1);
    } else {
      PrimitiveEndExtends(js, more, pos);
    }
  }

  /** What the scanner rejects it rejects of any longer input, unless it is a cut escape or an open string. */
  lemma {:induction false} RejectStays(js: string, more: string, pos: nat, stack: seq<Frame>)
    requires pos < |js| && Scan(js, pos, stack) == Rejected
    requires js[pos] == '\"' ==> StringEnd(js, pos + 1) == BadEscape && !CutEscape(js, pos + 1)
    ensures Scan(js + more, pos, stack) == Rejected
  {
    if js[pos] == '\"' {
      BadEscapeStays(js, more, pos + 1);
    } else {
      PrimitiveEndExtends(js, more, pos);
    }
  }

  /** From "more input needed" on, closing the string, if one is open, and the brackets completes the input. */
  lemma {:induction false} PartCompletes(js: string, s: State, cap: nat) returns (more: string)
    requires Inv(s) && s.pos <= |js| && Run(js, s, cap).0 == Part
    ensures Balanced(js + more, s.pos, OpenFrames(s.toks))
    ensures s.pos == |js| ==> more == "" || IsDelimiter(more[0])
    decreases |js| - s.pos
  {
    var stack := OpenFrames(s.toks);
    FramesAreBrackets(s.toks, s.pos);
    if s.pos == |js| {
      hide *;
      more := Closers(stack);
      ClosersBalance(js, stack);
      ClosersDelimit(stack);
    } else {
      StepKeeps(js, s, cap);
      OneStep(js, s, cap);
      var o := Step(js, s, cap);
      hide Inv, Run, Step, Scan, Balanced, LastOpen;
      if o.Next? {
        EndsInside(js, s, cap);
        more := PartCompletes(js, o.s, cap);
        ScanStays(js, more, s.pos, stack);
        BalancedStep(js + more, s.pos, stack, o.s.pos, OpenFrames(o.s.toks));
      } else {
        PartIsOpenString(js, s, cap);
        more := ['\"'] + Closers(stack);
        OpenString(js, more, s.pos + 1);
        hide *;
        assert js + more == (js + ['\"']) + Closers(stack);
        ClosersBalance(js + ['\"'], stack);
        ScanString(js + more, s.pos, stack, |js|);
        BalancedStep(js + more, s.pos, stack, |js| + 1, stack);
      }
    }
  }

  lemma ClosersDelimit(stack: seq<Frame>)
    ensures Closers(stack) == "" || IsDelimiter(Closers(stack)[0])
  {
  }

  lemma EndsInside(js: string, s: State, cap: nat)
    requires Valid(s) && s.pos < |js| && Step(js, s, cap).Next?
    ensures Step(js, s, cap).s.pos <= |js|
  {
    hide LastOpen, Bump;
  }

  lemma StringStops(js: string, s: State, cap: nat)
    requires Valid(s) && s.pos < |js| && js[s.pos] == '\"'
    ensures var o, e := Step(js, s, cap), StringEnd(js, s.pos + 1);
            && (o == Stop(Part, s) <==> e == Unterminated) && (o == Stop(Inval, s) <==> e == BadEscape)
            && (o.Stop? ==> o.code == NoMem || e == BadEscape || e == Unterminated)
  {
    hide StringEnd, LastOpen, Bump, PrimitiveEnd;
  }

  lemma OtherStops(js: string, s: State, cap: nat)
    requires Valid(s) && s.pos < |js| && js[s.pos] != '\"'
    ensures var o := Step(js, s, cap); o.Stop? ==> o.code != Part
  {
    hide StringEnd, LastOpen, Bump, PrimitiveEnd, KindOf, IsBlank;
  }

  lemma PartIsOpenString(js: string, s: State, cap: nat)
    requires Valid(s) && s.pos < |js| && Step(js, s, cap).Stop? && Step(js, s, cap).code == Part
    ensures js[s.pos] == '\"' && StringEnd(js, s.pos + 1) == Unterminated
  {
    PartLeavesState(js, s, cap);
    hide Step, StringEnd;
    if js[s.pos] == '\"' {
      StringStops(js, s, cap);
    } else {
      OtherStops(js, s, cap);
    }
  }

  lemma InvalIsRejected(js: string, s: State, cap: nat)
    requires Valid(s) && s.pos < |js| && Step(js, s, cap).Stop? && Step(js, s, cap).code == Inval
    ensures js[s.pos] == '\"' ==> StringEnd(js, s.pos + 1) == BadEscape
  {
    PartLeavesState(js, s, cap);
    hide Step, StringEnd;
    if js[s.pos] == '\"' {
      StringStops(js, s, cap);
    }
  }

  /** What is invalid stays so, whatever follows, unless an escape was cut. */
  lemma {:induction false} InvalStays(js: string, s: State, cap: nat, more: string)
    requires Inv(s) && s.pos <= |js| && Run(js, s, cap).0 == Inval && !CutsEscape(js, s.pos, OpenFrames(s.toks))
    ensures !Balanced(js + more, s.pos, OpenFrames(s.toks))
    decreases |js| - s.pos
  {
    assert s.pos < |js|;
    hide Inv, LastOpen;
    var stack := OpenFrames(s.toks);
    StepKeeps(js, s, cap);
    var o := Step(js, s, cap);
    if o.Next? {
      EndsInside(js, s, cap);
      InvalStays(js, o.s, cap, more);
      ScanStays(js, more, s.pos, stack);
    } else {
      InvalIsRejected(js, s, cap);
      RejectStays(js, more, s.pos, stack);
    }
  }

  lemma BalancedStep(js: string, pos: nat, stack: seq<Frame>, p: nat, st: seq<Frame>)
    requires pos < |js| && Scan(js, pos, stack) == Scanning(p, st)
    ensures Balanced(js, pos, stack) == Balanced(js, p, st)
  {
    hide Scan;
  }

  lemma CutsInside(js: string, pos: nat, stack: seq<Frame>)
    requires CutsEscape(js, pos, stack)
    ensures pos < |js|
  {
  }

  lemma CutsStep(js: string, pos: nat, stack: seq<Frame>)
    requires CutsEscape(js, pos, stack) && pos < |js| && !(js[pos] == '\"' && CutEscape(js, pos + 1))
    ensures var r := Scan(js, pos, stack); r.Scanning? && CutsEscape(js, r.pos, r.stack)
  {
    hide Scan, CutEscape;
  }

  lemma ScanString(js: string, pos: nat, stack: seq<Frame>, quote: nat)
    requires pos < |js| && js[pos] == '\"' && StringEnd(js, pos + 1) == Closed(quote)
    ensures Scan(js, pos, stack) == Scanning(quote + 1, stack)
  {
  }

  lemma CutStops(js: string, s: State, cap: nat)
    requires Valid(s) && s.pos < |js| && js[s.pos] == '\"' && CutEscape(js, s.pos + 1)
    ensures js[|js| - 1] == '\\' && Run(js, s, cap) == (Inval, s)
  {
    CutEscapeGoesOn(js, "", s.pos + 1);
  }

  /** A cut escape is called invalid, although quotes and brackets complete the input. */
  lemma {:induction false} CutEscapeCompletes(js: string, s: State, cap: nat) returns (more: string)
    requires Inv(s) && s.pos <= |js| && CutsEscape(js, s.pos, OpenFrames(s.toks)) && Run(js, s, cap).0 != NoMem
    ensures Run(js, s, cap).0 == Inval && js[|js| - 1] == '\\'
    ensures Balanced(js + more, s.pos, OpenFrames(s.toks))
    decreases |js| - s.pos
  {
    hide Run, Step, Scan, Balanced, CutsEscape, CutEscape, LastOpen, OpenFrames, Closers, Nested, Sized;
    var stack := OpenFrames(s.toks);
    CutsInside(js, s.pos, stack);
    FramesAreBrackets(s.toks, s.pos);
    StepKeeps(js, s, cap);
    OneStep(js, s, cap);
    if js[s.pos] == '\"' && CutEscape(js, s.pos + 1) {
      more := ['\"', '\"'] + Closers(stack);
      CutStops(js, s, cap);
      CutEscapeGoesOn(js, Closers(stack), s.pos + 1);
      hide *;
      assert js + more == (js + ['\"', '\"']) + Closers(stack);
      ClosersBalance(js + ['\"', '\"'], stack);
      ScanString(js + more, s.pos, stack, |js| + 1);
      BalancedStep(js + more, s.pos, stack, |js| + 2, stack);
    } else {
      var o := Step(js, s, cap);
      CutsStep(js, s.pos, stack);
      hide Inv;
      EndsInside(js, s, cap);
      CutsInside(js, o.s.pos, OpenFrames(o.s.toks));
      more := CutEscapeCompletes(js, o.s, cap);
      ScanStays(js, more, s.pos, stack);
      BalancedStep(js + more, s.pos, stack, o.s.pos, OpenFrames(o.s.toks));
    }
  }

  /**
   Unless tokens run out: some further text completes the input if and only if the call succeeds, asks for more
   input, or the input ends in a backslash that opens an escape in a string, which is called invalid.
   */
  lemma {:induction false} CompletableIff(js: string, cap: nat)
    requires Run(js, INIT, cap).0 != NoMem
    ensures var code := Run(js, INIT, cap).0;
            && ((exists more :: Balanced(js + more, 0, [])) <==>
                code == Success || code == Part || CutsEscape(js, 0, []))
            && (CutsEscape(js, 0, []) ==> code == Inval && js[|js| - 1] == '\\')
  {
    hide Run, Balanced, CutsEscape;
    var code := Run(js, INIT, cap).0;
    if code == Success {
      SuccessIffBalanced(js, cap);
      assert js + "" == js;
      assert Balanced(js + "", 0, []);
    }
    if code == Part {
      var more := PartCompletes(js, INIT, cap);
    }
    if CutsEscape(js, 0, []) {
      var more := CutEscapeCompletes(js, INIT, cap);
    } else if code == Inval {
      forall more: string ensures !Balanced(js + more, 0, []) {
        InvalStays(js, INIT, cap, more);
      }
    }
  }
}
