/**
 The wrapper template parser: text with macros in double braces. The outer lexer knows only braces and
 text; text met inside a macro is lexed again into words and pushed back onto the token stream.

 Words are separated by white space; quoted words and comments are not modelled. `Lang` says which
 macros have a body and which names are indices.
 */
module Template {
  import opened Basics

  datatype Token = LBrace | RBrace | Text(value: string) | Ident(value: string)

  /** Macro chunks keep the macro's name, its arguments and, for macros with a body, their children. */
  datatype Chunk = TextChunk(text: string) | MacroChunk(macro: string, args: seq<Arg>, children: seq<Chunk>)

  datatype Arg = Word(word: string) | Nested(chunk: Chunk)

  datatype End = NoEnd | EndAt(name: string)

  datatype Lang = Lang(bodies: set<string>, isIndex: string -> bool)

  /** A parse: what it gives and the tokens left, or a syntax error. */
  datatype Result<+T> = Done(value: T, rest: seq<Token>) | Fail

  // ---------- Lexers

  /** Where the last word of the text starts. */
  function WordStart(t: string): (k: nat)
    ensures k <= |t|
    ensures forall i :: k <= i < |t| ==> !IsSpace(t[i])
    ensures k > 0 ==> IsSpace(t[k - 1])
  {
    if t == [] || IsSpace(t[|t| - 1]) then |t| else WordStart(t[..|t| - 1])
  }

  function Words(t: string): (ws: seq<string>)
    ensures |ws| <= |t|
  {
    if t == [] then []
    else if IsSpace(t[|t| - 1]) then Words(t[..|t| - 1])
    else Words(t[..WordStart(t)]) + [t[WordStart(t)..]]
  }

  /** The tokens that replace a text inside a macro. */
  function Relex(t: string): (ts: seq<Token>)
    ensures |ts| == |Words(t)| && forall i :: 0 <= i < |ts| ==> ts[i] == Ident(Words(t)[i])
  {
    seq(|Words(t)|, i requires 0 <= i < |Words(t)| => Ident(Words(t)[i]))
  }

  /** What separates words: the blank and the five controls from tab to carriage return. */
  lemma BlankSeparates(c: char)
    ensures Words(['a', c, 'b']) ==
            if c == ' ' || c == '\t' || c == '\n' || c as int == 11 || c as int == 12 || c == '\r' then [['a'], ['b']]
            else [['a', c, 'b']]
  {
    var t := ['a', c, 'b'];
    assert t[..2] == ['a', c] && t[..2][..1] == ['a'] && ['a'][..0] == [];
    assert WordStart([]) == 0 && WordStart(['a']) == 0;
    if IsSpace(c) {
      assert WordStart(['a', c]) == 2 && WordStart(t) == 2;
      assert t[2..] == ['b'];
      assert Words(['a']) == Words(['a'][..0]) + [['a'][0..]];
      assert Words(['a', c]) == Words(['a', c][..1]) && ['a', c][..1] == ['a'];
    } else {
      assert ['a', c][..1] == ['a'];
      assert WordStart(['a', c]) == 0 && WordStart(t) == 0;
    }
  }

  predicate Opens(t: string) {
    |t| >= 2 && t[0] == '{' && t[1] == '{'
  }

  predicate Closes(t: string) {
    |t| >= 2 && t[0] == '}' && t[1] == '}'
  }

  /** How much text comes before the next pair of braces. */
  function TextLength(t: string): (n: nat)
    ensures n <= |t|
  {
    if t == [] || Opens(t) || Closes(t) then 0 else 1 + TextLength(t[1..])
  }

  /** The outer lexer. */
  function Lex(t: string): seq<Token>
    decreases |t|
  {
    if t == [] then []
    else if Opens(t) then [LBrace] + Lex(t[2..])
    else if Closes(t) then [RBrace] + Lex(t[2..])
    else [Text(t[..TextLength(t)])] + Lex(t[TextLength(t)..])
  }

  // ---------- The grammar

  function WeightOf(t: Token): nat {
    if t.Text? then |t.value| + 1 else 1
  }

  /** Lexing a text again makes the stream lighter. */
  function Weight(ts: seq<Token>): nat {
    if ts == [] then 0 else WeightOf(ts[0]) + Weight(ts[1..])
  }

  lemma {:induction false} WeightJoin(a: seq<Token>, b: seq<Token>)
    ensures Weight(a + b) == Weight(a) + Weight(b)
  {
    if a == [] {
      assert a + b == b;
    } else {
      WeightJoin(a[1..], b);
      assert (a + b)[1..] == a[1..] + b;
    }
  }

  lemma {:induction false} WeightOfIdents(ts: seq<Token>)
    requires forall i :: 0 <= i < |ts| ==> ts[i].Ident?
    ensures Weight(ts) == |ts|
  {
    if ts != [] {
      WeightOfIdents(ts[1..]);
    }
  }

  lemma RelexIsLighter(v: string, ts: seq<Token>)
    ensures Weight(Relex(v) + ts) < Weight([Text(v)] + ts)
  {
    WeightOfIdents(Relex(v));
    WeightJoin(Relex(v), ts);
    assert ([Text(v)] + ts)[1..] == ts;
  }

  /** The stream with a leading text lexed again. */
  function Pushed(ts: seq<Token>): (u: seq<Token>)
    ensures Weight(u) <= Weight(ts)
    ensures ts != [] && ts[0].Text? ==> Weight(u) < Weight(ts)
  {
    if ts != [] && ts[0].Text? then
      RelexIsLighter(ts[0].value, ts[1..]);
      assert [Text(ts[0].value)] + ts[1..] == ts;
      Relex(ts[0].value) + ts[1..]
    else ts
  }

  function PrependArgs(front: seq<Arg>, r: Result<seq<Arg>>): Result<seq<Arg>> {
    match r
    case Done(more, rest) => Done(front + more, rest)
    case Fail => Fail
  }

  function PrependChunks(front: seq<Chunk>, r: Result<seq<Chunk>>): Result<seq<Chunk>> {
    match r
    case Done(more, rest) => Done(front + more, rest)
    case Fail => Fail
  }

  /** A macro, its opening braces already taken. */
  function Macro(ts: seq<Token>, bodyAllowed: bool, l: Lang): (r: Result<Chunk>)
    ensures r.Done? ==> r.value.MacroChunk? && r.value.children == [] && Weight(r.rest) < Weight(ts)
    decreases Weight(ts), 1
  {
    var u := Pushed(ts);
    if u == [] || !u[0].Ident? then Fail
    else if !bodyAllowed && u[0].value in l.bodies then Fail
    else
      match Args(u[1..], l)
      case Done(args, rest) => Done(MacroChunk(u[0].value, args, []), rest)
      case Fail => Fail
  }

  /** The arguments of a macro up to its closing braces. */
  function Args(ts: seq<Token>, l: Lang): (r: Result<seq<Arg>>)
    ensures r.Done? ==> Weight(r.rest) < Weight(ts)
    decreases Weight(ts), 2
  {
    if ts == [] then Fail
    else
      match ts[0]
      case LBrace =>
        (match Macro(ts[1..], false, l)
         case Done(c, rest) => PrependArgs([Nested(c)], Args(rest, l))
         case Fail => Fail)
      case Ident(w) => PrependArgs([Word(w)], Args(ts[1..], l))
      case Text(_) => Args(Pushed(ts), l)
      case RBrace => Done([], ts[1..])
  }

  /** Macros with a body, unless an index has their name. */
  predicate HasBody(name: string, l: Lang) {
    name in l.bodies && !l.isIndex(name)
  }

  /** A macro with its body read: an index stands for an argument of the enclosing function. */
  function Finish(c: Chunk, l: Lang): Chunk
    requires c.MacroChunk?
  {
    if l.isIndex(c.macro) then MacroChunk("args", [Word(c.macro)], []) else c
  }

  /** Text and macros up to the macro that ends the body, or to the end of the stream. */
  function Chunks(ts: seq<Token>, end: End, l: Lang): (r: Result<seq<Chunk>>)
    ensures r.Done? ==> Weight(r.rest) <= Weight(ts)
    decreases Weight(ts)
  {
    if ts == [] then Done([], [])
    else if ts[0].Text? then PrependChunks([TextChunk(ts[0].value)], Chunks(ts[1..], end, l))
    else if ts[0].LBrace? then
      match Macro(ts[1..], true, l)
      case Fail => Fail
      case Done(c, rest) =>
        if end == EndAt(c.macro) then Done([], rest)
        else if HasBody(c.macro, l) then
          (match Chunks(rest, EndAt("end" + c.macro), l)
           case Fail => Fail
           case Done(children, rest2) => PrependChunks([c.(children := children)], Chunks(rest2, end, l)))
        else PrependChunks([Finish(c, l)], Chunks(rest, end, l))
    else Fail
  }
}
