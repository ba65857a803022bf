/**
 The JSON tokenizer: an in-place token array whose still-open tokens are the parser's only stack.

 `Run` is the meaning of one call of the tokenizer on values; class `Parser` is the code, working on
 a shared token array, and is proved equal to `Run`. A `char` stands for one byte of the input.
 */
module Jsmn {
  import opened Basics

  datatype Kind = Primitive | Object | Array | String

  datatype Token = Token(kind: Kind, start: int, end: int, size: int)

  datatype Code = NoMem | Inval | Part | Success

  /** The parser's fields together with the tokens allocated so far. */
  datatype State = State(pos: nat, toks: seq<Token>, super: int)

  datatype Outcome = Next(s: State) | Stop(code: Code, s: State)

  datatype StringScan = Closed(quote: nat) | BadEscape | Unterminated

  const INIT := State(0, [], -1)

  predicate IsOpen(t: Token) {
    t.start != -1 && t.end == -1
  }

  predicate IsBlank(c: char) {
    c == '\t' || c == '\r' || c == '\n' || c == ' '
  }

  /** The bytes that end a primitive. */
  predicate IsDelimiter(c: char) {
    c == ':' || IsBlank(c) || c == ',' || c == ']' || c == '}'
  }

  predicate IsPrintable(c: char) {
    32 <= c as int < 127
  }

  predicate IsEscapable(c: char) {
    c == '\"' || c == '/' || c == '\\' || c == 'b' || c == 'f' || c == 'r' || c == 'n' || c == 't' || c == 'u'
  }

  /** The byte after the input is a terminating zero. */
  function CharAt(js: string, i: nat): char {
    if i < |js| then js[i] else '\0'
  }

  function KindOf(c: char): Kind {
    if c == '{' || c == '}' then Object else Array
  }

  /** End of the primitive that is being read at `p`, or -1 when it holds a byte no primitive may hold. */
  function PrimitiveEnd(js: string, p: nat): (e: int)
    requires p <= |js|
    ensures e == -1 || p <= e <= |js|
    decreases |js| - p
  {
    if p == |js| || IsDelimiter(js[p]) then p
    else if !IsPrintable(js[p]) then -1
    else PrimitiveEnd(js, p + 1)
  }

  /** Scans the body of a string from `p` for the closing quote. */
  function StringEnd(js: string, p: nat): (r: StringScan)
    ensures r.Closed? ==> p <= r.quote < |js|
    decreases |js| - p
  {
    if p >= |js| then Unterminated
    else if js[p] == '\"' then Closed(p)
    else if js[p] == '\\' then
      if IsEscapable(CharAt(js, p + 1)) then StringEnd(js, p + 2) else BadEscape
    else StringEnd(js, p + 1)
  }

  /** Index of the last open token, -1 when all are closed. */
  function LastOpen(toks: seq<Token>): (i: int)
    ensures -1 <= i < |toks|
    ensures i != -1 ==> IsOpen(toks[i])
    ensures forall j :: i < j < |toks| ==> !IsOpen(toks[j])
  {
    if toks == [] then -1
    else if IsOpen(toks[|toks| - 1]) then |toks| - 1
    else LastOpen(toks[..|toks| - 1])
  }

  /** Adds `n` to the size of the superior token, if there is one. */
  function Bump(toks: seq<Token>, super: int, n: nat): (r: seq<Token>)
    requires -1 <= super < |toks|
    ensures |r| == |toks|
  {
    if super == -1 then toks else toks[super := toks[super].(size := toks[super].size + n)]
  }

  predicate Valid(s: State) {
    -1 <= s.super < |s.toks|
  }

  /** A finished string or primitive becomes the next token and a child of the superior token. */
  function AddLeaf(s: State, t: Token, pos: nat, cap: nat): Outcome
    requires Valid(s)
  {
    if |s.toks| >= cap then Stop(NoMem, s)
    else Next(State(pos, Bump(s.toks, s.super, 1) + [t], s.super))
  }

  /** An opening bracket becomes an open token, a child of the superior token and the new superior token. */
  function Open(s: State, kind: Kind, cap: nat): Outcome
    requires Valid(s)
  {
    if |s.toks| >= cap then Stop(NoMem, s)
    else Next(State(s.pos + 1, Bump(s.toks, s.super, 1) + [Token(kind, s.pos, -1, 0)], |s.toks|))
  }

  /** A closing bracket ends the last open token, if the kinds agree, and makes the one below it superior. */
  function Close(s: State, kind: Kind): Outcome {
    var i := LastOpen(s.toks);
    if i == -1 || s.toks[i].kind != kind then Stop(Inval, s)
    else Next(State(s.pos + 1, s.toks[i := s.toks[i].(end := s.pos + 1)], LastOpen(s.toks[..i])))
  }

  /** One turn of the main loop. */
  function Step(js: string, s: State, cap: nat): (o: Outcome)
    requires Valid(s) && s.pos < |js|
    ensures Valid(o.s)
    ensures o.Next? ==> s.pos < o.s.pos
    ensures o.Next? && |s.toks| <= cap ==> |o.s.toks| <= cap
  {
    var c := js[s.pos];
    if c == '{' || c == '[' then Open(s, KindOf(c), cap)
    else if c == '}' || c == ']' then Close(s, KindOf(c))
    else if c == '\"' then
      match StringEnd(js, s.pos + 1)
      case Closed(q) => AddLeaf(s, Token(String, s.pos + 1, q, 0), q + 1, cap)
      case BadEscape => Stop(Inval, s)
      case Unterminated => Stop(Part, s)
    else if IsBlank(c) || c == ':' || c == ',' then Next(s.(pos := s.pos + 1))
    else
      var e := PrimitiveEnd(js, s.pos);
      if e == -1 then Stop(Inval, s) else AddLeaf(s, Token(Primitive, s.pos, e, 0), e, cap)
  }

  /** A whole call: result code and final state. */
  function Run(js: string, s: State, cap: nat): (r: (Code, State))
    requires Valid(s)
    ensures Valid(r.1)
    ensures |s.toks| <= cap ==> |r.1.toks| <= cap
    decreases |js| - s.pos
  {
    if s.pos >= |js| then (if LastOpen(s.toks) == -1 then Success else Part, s)
    else
      match Step(js, s, cap)
      case Next(s') => Run(js, s', cap)
      case Stop(code, s') => (code, s')
  }

  lemma LastOpenIs(toks: seq<Token>, i: int)
    requires -1 <= i < |toks|
    requires i != -1 ==> IsOpen(toks[i])
    requires forall j :: i < j < |toks| ==> !IsOpen(toks[j])
    ensures LastOpen(toks) == i
  {
  }

  lemma RunStep(js: string, s: State, cap: nat)
    requires Valid(s) && s.pos < |js|
    ensures var o := Step(js, s, cap); Run(js, s, cap) == (if o.Next? then Run(js, o.s, cap) else (o.code, o.s))
  {
  }

  lemma RunEnd(js: string, s: State, cap: nat)
    requires Valid(s) && s.pos >= |js|
    ensures Run(js, s, cap) == (if LastOpen(s.toks) == -1 then Success else Part, s)
  {
  }

  /** An array that gets leaf `t` at `n` and then one more child of `super`, seen as the tokens in use. */
  lemma LeafInPlace(a: seq<Token>, b: seq<Token>, super: int, n: nat, t: Token)
    requires -1 <= super < n < |a|
    requires b == (if super == -1 then a[n := t] else a[n := t][super := a[super].(size := a[super].size + 1)])
    ensures b[..n + 1] == Bump(a[..n], super, 1) + [t]
    ensures b[n + 1..] == a[n + 1..]
  {
  }

  class Parser {
    var pos: nat
    var toknext: nat
    var toksuper: int

    /** The tokens in use fit the array, and so does the index of the superior token. */
    ghost predicate Fits(tokens: array<Token>)
      reads this
    {
      toknext <= tokens.Length && -1 <= toksuper < toknext
    }

    ghost function View(tokens: array<Token>): State
      reads this, tokens
      requires Fits(tokens)
    {
      State(pos, tokens[..toknext], toksuper)
    }

    constructor ()
      ensures pos == 0 && toknext == 0 && toksuper == -1
    {
      pos, toknext, toksuper := 0, 0, -1;
    }

    method AllocToken(tokens: array<Token>) returns (i: int)
      requires Fits(tokens)
      modifies this`toknext, tokens
      ensures Fits(tokens)
      ensures old(toknext) >= tokens.Length ==>
                i == -1 && unchanged(this) && tokens[..] == old(tokens[..])
      ensures old(toknext) < tokens.Length ==>
                && i == old(toknext) && toknext == i + 1
                && tokens[..] == old(tokens[..])[i := old(tokens[i]).(start := -1, end := -1, size := 0)]
    {
      if toknext >= tokens.Length {
        return -1;
      }
      i := toknext;
      toknext := toknext + 1;
      tokens[i] := tokens[i].(start := -1, end := -1);
      tokens[i] := tokens[i].(size := 0);
    }

    method ParsePrimitive(js: string, tokens: array<Token>) returns (r: Code)
      requires Fits(tokens) && pos < |js| && !IsDelimiter(js[pos])
      modifies this`pos, this`toknext, tokens
      ensures Fits(tokens)
      ensures var e := PrimitiveEnd(js, old(pos));
              if e == -1 then r == Inval && unchanged(this) && tokens[..] == old(tokens[..])
              else if old(toknext) >= tokens.Length then
                r == NoMem && unchanged(this) && tokens[..] == old(tokens[..])
              else
                && r == Success && pos == e - 1 && toknext == old(toknext) + 1
                && tokens[..] == old(tokens[..])[old(toknext) := Token(Primitive, old(pos), e, 0)]
    {
      var start := pos;
      while pos < |js|
        invariant start <= pos <= |js|
        invariant pos == start ==> !IsDelimiter(js[pos])
        invariant PrimitiveEnd(js, pos) == PrimitiveEnd(js, start)
        invariant tokens[..] == old(tokens[..]) && toknext == old(toknext)
      {
        if IsDelimiter(js[pos]) {
          break;
        }
        if js[pos] as int < 32 || js[pos] as int >= 127 {
          pos := start;
          return Inval;
        }
        pos := pos + 1;
      }
      var i := AllocToken(tokens);
      if i == -1 {
        pos := start;
        return NoMem;
      }
      tokens[i] := Token(Primitive, start, pos, 0);
      pos := pos - 1;
      return Success;
    }

    method ParseString(js: string, tokens: array<Token>) returns (r: Code)
      requires Fits(tokens) && pos < |js|
      modifies this`pos, this`toknext, tokens
      ensures Fits(tokens)
      ensures r != Success ==> unchanged(this) && tokens[..] == old(tokens[..])
      ensures match StringEnd(js, old(pos) + 1)
              case Unterminated => r == Part
              case BadEscape => r == Inval
              case Closed(q) =>
                if old(toknext) >= tokens.Length then r == NoMem
                else
                  && r == Success && pos == q && toknext == old(toknext) + 1
                  && tokens[..] == old(tokens[..])[old(toknext) := Token(String, old(pos) + 1, q, 0)]
    {
      var start := pos;
      pos := pos + 1;
      while pos < |js|
        invariant start < pos
        invariant StringEnd(js, pos) == StringEnd(js, start + 1)
        invariant tokens[..] == old(tokens[..]) && toknext == old(toknext)
      {
        var c := js[pos];
        if c == '\"' {
          var i := AllocToken(tokens);
          if i == -1 {
            pos := start;
            return NoMem;
          }
          tokens[i] := Token(String, start + 1, pos, 0);
          return Success;
        }
        if c == '\\' {
          pos := pos + 1;
          if !IsEscapable(CharAt(js, pos)) {
            pos := start;
            return Inval;
          }
        }
        pos := pos + 1;
      }
      pos := start;
      return Part;
    }

    /** The closing-bracket branch: find, check and close the last open token, then the one below it. */
    method CloseBracket(kind: Kind, tokens: array<Token>) returns (ok: bool)
      requires Fits(tokens)
      modifies this`toksuper, tokens
      ensures Fits(tokens)
      ensures var old_ := old(View(tokens)); var i := LastOpen(old_.toks);
              if i == -1 || old_.toks[i].kind != kind then
                !ok && unchanged(this) && tokens[..] == old(tokens[..])
              else
                && ok && toksuper == LastOpen(old_.toks[..i])
                && tokens[..] == old(tokens[..])[i := old_.toks[i].(end := pos + 1)]
    {
      ghost var toks := tokens[..toknext];
      var i := toknext - 1;
      while i >= 0
        invariant -1 <= i < toknext
        invariant forall j :: i < j < toknext ==> !IsOpen(toks[j])
      {
        if IsOpen(tokens[i]) {
          LastOpenIs(toks, i);
          if tokens[i].kind != kind {
            return false;
          }
          toksuper := -1;
          tokens[i] := tokens[i].(end := pos + 1);
          break;
        }
        i := i - 1;
      }
      if i == -1 {
        LastOpenIs(toks, -1);
        return false;
      }
      ghost var k := i;
      while i >= 0
        invariant -1 <= i <= k
        invariant forall j :: i < j < k ==> !IsOpen(toks[j])
        invariant toksuper == -1
        invariant tokens[..] == old(tokens[..])[k := toks[k].(end := pos + 1)]
      {
        if IsOpen(tokens[i]) {
          toksuper := i;
          break;
        }
        i := i - 1;
      }
      LastOpenIs(toks[..k], toksuper);
      return true;
    }

    /** Counts one more child in the superior token. */
    method BumpSuper(tokens: array<Token>)
      requires Fits(tokens)
      modifies tokens
      ensures tokens[..] == if toksuper == -1 then old(tokens[..])
                            else
                              var t := old(tokens[toksuper]);
                              old(tokens[..])[toksuper := t.(size := t.size + 1)]
    {
      if toksuper != -1 {
        tokens[toksuper] := tokens[toksuper].(size := tokens[toksuper].size + 1);
      }
    }

    method OpenBracket(kind: Kind, tokens: array<Token>) returns (ok: bool)
      requires Fits(tokens)
      modifies this`toknext, this`toksuper, tokens
      ensures Fits(tokens)
      ensures if old(toknext) >= tokens.Length then
                !ok && unchanged(this) && tokens[..] == old(tokens[..])
              else
                && ok && toksuper == old(toknext) && toknext == old(toknext) + 1
                && tokens[..toknext] == Bump(old(View(tokens)).toks, old(toksuper), 1) + [Token(kind, pos, -1, 0)]
                && tokens[toknext..] == old(tokens[..])[toknext..]
    {
      var i := AllocToken(tokens);
      if i == -1 {
        return false;
      }
      BumpSuper(tokens);
      tokens[i] := tokens[i].(kind := kind);
      tokens[i] := tokens[i].(start := pos);
      toksuper := toknext - 1;
      return true;
    }

    /** The branches of strings and of primitives: a token, counted in the superior one. */
    method TakeString(js: string, tokens: array<Token>) returns (r: Code)
      requires Fits(tokens) && pos < |js| && js[pos] == '\"'
      modifies this, tokens
      ensures Fits(tokens) && old(toknext) <= toknext
      ensures tokens[toknext..] == old(tokens[..])[toknext..]
      ensures match Step(js, old(View(tokens)), tokens.Length)
              case Stop(code, s) => r == code && code != Success && View(tokens) == s
              case Next(s) => r == Success && View(tokens).(pos := pos + 1) == s
    {
      hide PrimitiveEnd, StringEnd, LastOpen;
      ghost var a, n, p := tokens[..], toknext, pos;
      r := ParseString(js, tokens);
      if r == Success {
        BumpSuper(tokens);
        LeafInPlace(a, tokens[..], toksuper, n, Token(String, p + 1, pos, 0));
      }
    }

    method TakePrimitive(js: string, tokens: array<Token>) returns (r: Code)
      requires Fits(tokens) && pos < |js| && !IsDelimiter(js[pos])
      requires js[pos] != '\"' && js[pos] != '{' && js[pos] != '['
      modifies this, tokens
      ensures Fits(tokens) && old(toknext) <= toknext
      ensures tokens[toknext..] == old(tokens[..])[toknext..]
      ensures match Step(js, old(View(tokens)), tokens.Length)
              case Stop(code, s) => r == code && code != Success && View(tokens) == s
              case Next(s) => r == Success && View(tokens).(pos := pos + 1) == s
    {
      hide PrimitiveEnd, StringEnd, LastOpen;
      ghost var a, n, p := tokens[..], toknext, pos;
      r := ParsePrimitive(js, tokens);
      if r == Success {
        BumpSuper(tokens);
        LeafInPlace(a, tokens[..], toksuper, n, Token(Primitive, p, pos + 1, 0));
      }
    }

    /** The body of the main loop, up to the step past the last byte read: a result other than Success ends the call. */
    method Turn(js: string, tokens: array<Token>) returns (r: Code)
      requires Fits(tokens) && pos < |js|
      modifies this, tokens
      ensures Fits(tokens) && old(toknext) <= toknext
      ensures tokens[toknext..] == old(tokens[..])[toknext..]
      ensures match Step(js, old(View(tokens)), tokens.Length)
              case Stop(code, s) => r == code && code != Success && View(tokens) == s
              case Next(s) => r == Success && View(tokens).(pos := pos + 1) == s
    {
      hide PrimitiveEnd, StringEnd, LastOpen, AddLeaf;
      var c := js[pos];
      if c == '{' || c == '[' {
        var ok := OpenBracket(if c == '{' then Object else Array, tokens);
        return if ok then Success else NoMem;
      } else if c == '}' || c == ']' {
        var ok := CloseBracket(if c == '}' then Object else Array, tokens);
        return if ok then Success else Inval;
      } else if c == '\"' {
        r := TakeString(js, tokens);
      } else if IsBlank(c) || c == ':' || c == ',' {
        return Success;
      } else {
        r := TakePrimitive(js, tokens);
      }
    }

    method AnyOpen(tokens: array<Token>) returns (b: bool)
      requires Fits(tokens)
      ensures b <==> LastOpen(View(tokens).toks) != -1
    {
      var i := toknext - 1;
      while i >= 0
        invariant -1 <= i < toknext
        invariant forall j :: i < j < toknext ==> !IsOpen(tokens[j])
      {
        if IsOpen(tokens[i]) {
          LastOpenIs(tokens[..toknext], i);
          return true;
        }
        i := i - 1;
      }
      LastOpenIs(tokens[..toknext], -1);
      return false;
    }

    /** One call of the tokenizer, in full: its code, the parser's fields and every token. */
    method Parse(js: string, tokens: array<Token>) returns (r: Code)
      requires Fits(tokens)
      modifies this, tokens
      ensures Fits(tokens)
      ensures (r, View(tokens)) == Run(js, old(View(tokens)), tokens.Length)
      ensures tokens[toknext..] == old(tokens[..])[toknext..]
    {
      hide Run, Step, LastOpen;
      ghost var s0 := View(tokens);
      while pos < |js|
        invariant Fits(tokens)
        invariant Run(js, View(tokens), tokens.Length) == Run(js, s0, tokens.Length)
        invariant tokens[toknext..] == old(tokens[..])[toknext..]
        decreases |js| - pos
      {
        ghost var was, before, s := tokens[..], toknext, View(tokens);
        r := Turn(js, tokens);
        RunStep(js, s, tokens.Length);
        SameTail(old(tokens[..]), was, before, toknext);
        if r != Success {
          return;
        }
        pos := pos + 1;
      }
      RunEnd(js, View(tokens), tokens.Length);
      var open := AnyOpen(tokens);
      return if open then Part else Success;
    }
  }
}
