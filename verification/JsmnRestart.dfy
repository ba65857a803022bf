/**
 Calling the tokenizer again on the same fields: after it ran out of tokens, with a larger array; and
 after it ran out of input, with more bytes appended.
 */
module JsmnRestart {
  import opened Jsmn
  import opened JsmnStack

  /**
   A call that runs out of `k` tokens and is continued with `more` gives what one call with `more` would
   have given; every other result does not depend on the size of the array.
   */
  lemma {:induction false} MoreTokens(js: string, s: State, k: nat, more: nat)
    requires Valid(s) && |s.toks| <= k <= more
    ensures var (code, s') := Run(js, s, k);
            if code == NoMem then |s'.toks| == k && Run(js, s, more) == Run(js, s', more)
            else Run(js, s, more) == (code, s')
    decreases |js| - s.pos
  {
    hide Step;
    if s.pos < |js| {
      var o := Step(js, s, k);
      StepMore(js, s, k, more);
      if o.Next? {
        MoreTokens(js, o.s, k, more);
      }
    }
  }

  /** A turn depends on the size of the array only when it runs out of tokens, and then it changes nothing. */
  lemma StepMore(js: string, s: State, k: nat, more: nat)
    requires Valid(s) && s.pos < |js| && |s.toks| <= k <= more
    ensures var o := Step(js, s, k);
            if o.Stop? && o.code == NoMem then |s.toks| == k && o.s == s else Step(js, s, more) == o
  {
    hide StringEnd, PrimitiveEnd, LastOpen, Bump;
  }

  /** Scans that stay clear of the end of the input do not see what follows it. */
  lemma {:induction false} StringEndExtends(js: string, more: string, p: nat)
    requires StringEnd(js, p).Closed?
    ensures StringEnd(js + more, p) == StringEnd(js, p)
    decreases |js| - p
  {
    if js[p] == '\\' {
      StringEndExtends(js, more, p + 2);
    } else if js[p] != '\"' {
      StringEndExtends(js, more, p + 1);
    }
  }

  lemma {:induction false} PrimitiveEndExtends(js: string, more: string, p: nat)
    requires p <= |js|
    ensures PrimitiveEnd(js + more, p) ==
            if PrimitiveEnd(js, p) == |js| then PrimitiveEnd(js + more, |js|) else PrimitiveEnd(js, p)
    decreases |js| - p
  {
    if p < |js| && !IsDelimiter(js[p]) && IsPrintable(js[p]) {
      PrimitiveEndExtends(js, more, p + 1);
    }
  }

  /** The next byte starts where a primitive seemed to end, and belongs to it. */
  predicate CutsPrimitive(js: string, s: State, more: string) {
    && more != "" && !IsDelimiter(more[0])
    && s.toks != []
    && var t := s.toks[|s.toks| - 1]; t.kind == Primitive && t.end == |js|
  }

  /** A turn that goes on has the same effect on the longer input, but for a primitive the input cut short. */
  lemma {:induction false} StepExtends(js: string, more: string, s: State, cap: nat)
    requires Valid(s) && s.pos < |js| && Step(js, s, cap).Next?
    ensures || Step(js + more, s, cap) == Step(js, s, cap)
            || (CutsPrimitive(js, Step(js, s, cap).s, more) && Step(js, s, cap).s.pos == |js|)
  {
    hide LastOpen;
    var c := js[s.pos];
    if c == '\"' {
      StringEndExtends(js, more, s.pos + 1);
    } else {
      PrimitiveEndExtends(js, more, s.pos);
    }
  }

  lemma {:induction false} UncutContinues(js: string, more: string, s: State, cap: nat)
    requires Valid(s)
    requires Run(js, s, cap).0 == Part && !CutsPrimitive(js, Run(js, s, cap).1, more)
    ensures Run(js + more, s, cap) == Run(js + more, Run(js, s, cap).1, cap)
    decreases |js| - s.pos
  {
    hide StringEnd, PrimitiveEnd, LastOpen, Open, Close, AddLeaf;
    if s.pos < |js| {
      var o := Step(js, s, cap);
      if o.Next? {
        StepExtends(js, more, s, cap);
        UncutContinues(js, more, o.s, cap);
      } else {
        PartLeavesState(js, s, cap);
      }
    }
  }

  lemma {:induction false} PartLeavesState(js: string, s: State, cap: nat)
    requires Valid(s) && s.pos < |js| && Step(js, s, cap).Stop?
    ensures Step(js, s, cap).s == s
  {
  }

  /** Once closed, a token keeps its span for the rest of the call; tokens are never given back. */
  lemma {:induction false} ClosedStays(js: string, s: State, cap: nat, i: nat)
    requires Valid(s) && i < |s.toks| && s.toks[i].end != -1
    ensures i < |Run(js, s, cap).1.toks| && Run(js, s, cap).1.toks[i].end == s.toks[i].end
    decreases |js| - s.pos
  {
    if s.pos < |js| {
      StepKeepsClosed(js, s, cap, i);
      var o := Step(js, s, cap);
      if o.Next? {
        ClosedStays(js, o.s, cap, i);
      }
    }
  }

  lemma {:induction false} StepKeepsClosed(js: string, s: State, cap: nat, i: nat)
    requires Valid(s) && s.pos < |js| && i < |s.toks| && s.toks[i].end != -1
    ensures var s' := Step(js, s, cap).s; i < |s'.toks| && s'.toks[i].end == s.toks[i].end
  {
    hide StringEnd, PrimitiveEnd;
  }

  /** The turn that read the primitive at the end of the input. */
  lemma {:induction false} LastPrimitive(js: string, more: string, s: State, cap: nat)
    requires Inv(s) && s.pos < |js| && Step(js, s, cap).Next?
    requires CutsPrimitive(js, Step(js, s, cap).s, more)
    ensures !IsDelimiter(js[s.pos]) && js[s.pos] != '{' && js[s.pos] != '[' && js[s.pos] != '\"'
    ensures PrimitiveEnd(js, s.pos) == |js|
    ensures Step(js, s, cap) == AddLeaf(s, Token(Primitive, s.pos, |js|, 0), |js|, cap)
  {
    hide StringEnd, Nested, Sized;
    if s.toks != [] {
      EndsBefore(s, |js|);
    }
  }

  lemma {:induction false} PrimitiveGrows(js: string, more: string, s: State, cap: nat)
    requires Inv(s) && s.pos < |js| && Step(js, s, cap).Next?
    requires CutsPrimitive(js, Step(js, s, cap).s, more)
    ensures Run(js + more, s, cap) != Run(js + more, Step(js, s, cap).s, cap)
  {
    var js2, n, t := js + more, |s.toks|, Step(js, s, cap).s;
    LastPrimitive(js, more, s, cap);
    PrimitiveEndExtends(js, more, s.pos);
    ClosedStays(js2, t, cap, n);
    var e := PrimitiveEnd(js2, |js|);
    if e == -1 {
      assert Run(js2, s, cap) == (Inval, s);
    } else {
      assert js2[|js|] == more[0];
      assert PrimitiveEnd(js2, |js|) == PrimitiveEnd(js2, |js| + 1);
      var longer := Step(js2, s, cap).s;
      assert longer.toks[n].end == e;
      ClosedStays(js2, longer, cap, n);
    }
  }

  lemma {:induction false} CutDiffers(js: string, more: string, s: State, cap: nat)
    requires Inv(s) && s.pos < |js|
    requires Run(js, s, cap).0 == Part && CutsPrimitive(js, Run(js, s, cap).1, more)
    ensures Run(js + more, s, cap) != Run(js + more, Run(js, s, cap).1, cap)
    decreases |js| - s.pos
  {
    hide StringEnd, PrimitiveEnd, LastOpen, Open, Close, AddLeaf, Spans, Nested, Sized;
    StepKeeps(js, s, cap);
    var o := Step(js, s, cap);
    if o.Stop? {
      EndsBefore(s, |js|);
    } else if o.s.pos >= |js| {
      PrimitiveGrows(js, more, s, cap);
    } else {
      CutEndsAtEnd(js, more, o.s);
      StepExtends(js, more, s, cap);
      CutDiffers(js, more, o.s, cap);
    }
  }

  lemma {:induction false} EndsBefore(s: State, n: nat)
    requires Inv(s) && s.pos < n && s.toks != []
    ensures s.toks[|s.toks| - 1].end != n
  {
    var t := s.toks[|s.toks| - 1];
  }

  lemma {:induction false} CutEndsAtEnd(js: string, more: string, s: State)
    requires Inv(s) && s.pos < |js|
    ensures !CutsPrimitive(js, s, more)
  {
    if s.toks != [] {
      EndsBefore(s, |js|);
    }
  }

  /**
   Feeding input in pieces: when a call asks for more bytes, continuing with the same fields on the longer
   input equals one call on the longer input, exactly unless the bytes go on with a primitive the first
   call took for finished.
   */
  lemma {:induction false} MoreInput(js: string, more: string, s: State, cap: nat)
    requires Inv(s) && s.pos < |js| && Run(js, s, cap).0 == Part
    ensures Run(js + more, s, cap) == Run(js + more, Run(js, s, cap).1, cap)
            <==> !CutsPrimitive(js, Run(js, s, cap).1, more)
  {
    if CutsPrimitive(js, Run(js, s, cap).1, more) {
      CutDiffers(js, more, s, cap);
    } else {
      UncutContinues(js, more, s, cap);
    }
  }
}
