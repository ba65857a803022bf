/** Templates survive being written down: lexing and parsing the text of a chunk tree gives the tree back. */
module TemplateRoundTrip {
  import opened Basics
  import opened Template

  // ---------- The text of a tree; `tail` is what follows it

  function ArgsText(args: seq<Arg>, tail: string): string
    decreases args, 0
  {
    if args == [] then tail else [' '] + ArgText(args[0], ArgsText(args[1..], tail))
  }

  function ArgText(a: Arg, tail: string): string
    decreases a, 1
  {
    match a
    case Word(w) => w + tail
    case Nested(c) => if c.MacroChunk? then MacroText(c, tail) else tail
  }

  /** A macro without its body. */
  function MacroText(c: Chunk, tail: string): string
    requires c.MacroChunk?
    decreases c, 0
  {
    "{{" + (c.macro + ArgsText(c.args, "}}" + tail))
  }

  function EndOf(name: string): Chunk {
    MacroChunk("end" + name, [], [])
  }

  function ChunkText(c: Chunk, l: Lang, tail: string): string
    decreases c, 2
  {
    match c
    case TextChunk(t) => t + tail
    case MacroChunk(name, _, children) =>
      if HasBody(name, l) then MacroText(c, ChunksText(children, l, MacroText(EndOf(name), tail)))
      else MacroText(c, tail)
  }

  function ChunksText(cs: seq<Chunk>, l: Lang, tail: string): string
    decreases cs, 1
  {
    if cs == [] then tail else ChunkText(cs[0], l, ChunksText(cs[1..], l, tail))
  }

  // ---------- Trees whose chunks, names and words are the tokens of their text

  /** Text without a pair of braces. */
  predicate PairFree(t: string) {
    TextLength(t) == |t|
  }

  predicate EndsIn(t: string, c: char) {
    t != [] && t[|t| - 1] == c
  }

  /** A word does not begin with a quote, which would make it a quoted one. */
  predicate IsWord(w: string) {
    w != [] && w[0] != '"' && w[0] != '\'' && PairFree(w) && forall i :: 0 <= i < |w| ==> !IsSpace(w[i])
  }

  /** What stands before the closing braces of a macro does not end in a brace that would be taken for them. */
  predicate ClosesWell(before: string, args: seq<Arg>) {
    if args == [] then !EndsIn(before, '}') else args[|args| - 1].Word? ==> !EndsIn(args[|args| - 1].word, '}')
  }

  predicate LexableArgs(args: seq<Arg>) {
    forall i :: 0 <= i < |args| ==> LexableArg(args[i])
  }

  predicate LexableArg(a: Arg) {
    match a
    case Word(w) => IsWord(w)
    case Nested(c) => LexableMacro(c) && c.children == []
  }

  predicate LexableMacro(c: Chunk) {
    c.MacroChunk? && IsWord(c.macro) && LexableArgs(c.args) && ClosesWell(c.macro, c.args)
  }

  predicate LexableChunk(c: Chunk, l: Lang) {
    match c
    case TextChunk(t) => t != [] && PairFree(t)
    case MacroChunk(name, _, children) =>
      && LexableMacro(c) && LexableChunks(children, false, l)
      && if HasBody(name, l) then !EndsIn(name, '}') else children == []
  }

  /** Text chunks are not side by side, and one that ends in an opening brace must be the last thing of all. */
  predicate LexableChunks(cs: seq<Chunk>, atEnd: bool, l: Lang) {
    && (forall i :: 0 <= i < |cs| ==> LexableChunk(cs[i], l))
    && (forall i :: 0 < i < |cs| ==> cs[i - 1].MacroChunk? || cs[i].MacroChunk?)
    && (forall i :: 0 <= i < |cs| && cs[i].TextChunk? && EndsIn(cs[i].text, '{') ==> atEnd && i == |cs| - 1)
  }

  // ---------- Trees the parser can give

  /** No macro with a body stands among arguments. */
  predicate NoBodies(args: seq<Arg>, l: Lang) {
    forall i :: 0 <= i < |args| ==> NoBody(args[i], l)
  }

  predicate NoBody(a: Arg, l: Lang) {
    match a
    case Word(_) => true
    case Nested(c) => c.MacroChunk? && c.macro !in l.bodies && NoBodies(c.args, l)
  }

  predicate ParsesOne(c: Chunk, end: End, l: Lang) {
    match c
    case TextChunk(_) => true
    case MacroChunk(name, args, children) =>
      end != EndAt(name) && NoBodies(args, l) && (HasBody(name, l) ==> Parses(children, EndAt("end" + name), l))
  }

  /** The name that ends a macro's body is not used in it, other than inside the bodies of other macros. */
  predicate Parses(cs: seq<Chunk>, end: End, l: Lang) {
    forall i :: 0 <= i < |cs| ==> ParsesOne(cs[i], end, l)
  }

  predicate NoIndexIn(c: Chunk, l: Lang) {
    c.MacroChunk? ==> !l.isIndex(c.macro) && NoIndex(c.children, l)
  }

  predicate NoIndex(cs: seq<Chunk>, l: Lang) {
    forall i :: 0 <= i < |cs| ==> NoIndexIn(cs[i], l)
  }

  /** Index macros replaced by arguments of the enclosing function. */
  function NormalOf(c: Chunk, l: Lang): Chunk {
    match c
    case TextChunk(_) => c
    case MacroChunk(name, args, children) =>
      if HasBody(name, l) then MacroChunk(name, args, Normal(children, l)) else Finish(c, l)
  }

  function Normal(cs: seq<Chunk>, l: Lang): (ns: seq<Chunk>)
    ensures |ns| == |cs|
  {
    if cs == [] then [] else [NormalOf(cs[0], l)] + Normal(cs[1..], l)
  }

  // ---------- Lexing

  /** A run of text ends where braces begin. */
  lemma {:induction false} RunEnds(t: string, tail: string)
    requires PairFree(t)
    requires tail == [] || (Opens(tail) && !EndsIn(t, '{')) || (Closes(tail) && !EndsIn(t, '}'))
    ensures TextLength(t + tail) == |t|
  {
    if t == [] {
      assert t + tail == tail;
    } else {
      assert (t + tail)[1..] == t[1..] + tail;
      if |t| > 1 {
        assert t[1..][|t| - 2] == t[|t| - 1];
      }
      RunEnds(t[1..], tail);
    }
  }

  lemma LexRun(t: string, tail: string)
    requires t != [] && PairFree(t)
    requires tail == [] || (Opens(tail) && !EndsIn(t, '{')) || (Closes(tail) && !EndsIn(t, '}'))
    ensures Lex(t + tail) == [Text(t)] + Lex(tail)
  {
    RunEnds(t, tail);
    var s := t + tail;
    assert s[..|t|] == t && s[|t|..] == tail;
    assert !Opens(s) && !Closes(s);
  }

  /** A space keeps two texts without pairs apart. */
  lemma PairFreeSpace(x: string, w: string)
    requires PairFree(x) && PairFree(w)
    ensures PairFree(x + [' '] + w) && PairFree(x + [' '])
  {
    SpaceBetween(x, w);
    SpaceBetween(x, []);
    assert x + [' '] + [] == x + [' '];
  }

  lemma {:induction false} SpaceBetween(x: string, w: string)
    requires PairFree(x) && PairFree(w)
    ensures PairFree(x + [' '] + w)
  {
    var t := x + [' '] + w;
    if x == [] {
      assert t[1..] == w;
    } else {
      assert t[1..] == x[1..] + [' '] + w;
      SpaceBetween(x[1..], w);
    }
  }

  lemma LexBraces(tail: string)
    ensures Lex("{{" + tail) == [LBrace] + Lex(tail) && Lex("}}" + tail) == [RBrace] + Lex(tail)
    ensures Opens("{{" + tail) && Closes("}}" + tail)
  {
    assert ("{{" + tail)[2..] == tail && ("}}" + tail)[2..] == tail;
  }

  // ---------- Words

  lemma WordStartWith(x: string, w: string)
    requires w != [] && (forall i :: 0 <= i < |w| ==> !IsSpace(w[i])) && (x == [] || IsSpace(x[|x| - 1]))
    ensures WordStart(x + w) == |x|
  {
    var t := x + w;
    assert forall i :: |x| <= i < |t| ==> t[i] == w[i - |x|];
    assert x != [] ==> t[|x| - 1] == x[|x| - 1];
  }

  lemma WordsWith(x: string, w: string)
    requires w != [] && (forall i :: 0 <= i < |w| ==> !IsSpace(w[i])) && (x == [] || IsSpace(x[|x| - 1]))
    ensures Words(x + w) == Words(x) + [w]
  {
    var t := x + w;
    WordStartWith(x, w);
    assert t[|t| - 1] == w[|w| - 1];
    assert t[..|x|] == x && t[|x|..] == w;
  }

  lemma WordsSpace(x: string)
    ensures Words(x + [' ']) == Words(x)
  {
    assert (x + [' '])[..|x|] == x;
  }

  lemma {:induction false} SomeWord(t: string)
    requires t != [] && !IsSpace(t[0])
    ensures Words(t) != []
    decreases |t|
  {
    if IsSpace(t[|t| - 1]) {
      SomeWord(t[..|t| - 1]);
    }
  }

  // ---------- Parsing it back

  function WordArgs(ws: seq<string>): (args: seq<Arg>)
    ensures |args| == |ws|
  {
    seq(|ws|, i requires 0 <= i < |ws| => Word(ws[i]))
  }

  /** A text among the arguments stands for its words. */
  lemma TextArgs(x: string, ts: seq<Token>, l: Lang)
    ensures Args([Text(x)] + ts, l) == PrependArgs(WordArgs(Words(x)), Args(ts, l))
  {
    hide Words;
    assert ([Text(x)] + ts)[1..] == ts;
    assert Pushed([Text(x)] + ts) == Relex(x) + ts;
    IdentArgs(Words(x), Relex(x), ts, l);
  }

  lemma {:induction false} IdentArgs(ws: seq<string>, ids: seq<Token>, ts: seq<Token>, l: Lang)
    requires |ids| == |ws| && forall i :: 0 <= i < |ws| ==> ids[i] == Ident(ws[i])
    ensures Args(ids + ts, l) == PrependArgs(WordArgs(ws), Args(ts, l))
    decreases |ws|
  {
    if ws == [] {
      assert ids + ts == ts;
      assert Args(ts, l).Done? ==> WordArgs(ws) + Args(ts, l).value == Args(ts, l).value;
    } else {
      IdentArg(ws[0], ids[1..] + ts, l);
      assert ids + ts == [Ident(ws[0])] + (ids[1..] + ts);
      hide Args;
      IdentArgs(ws[1..], ids[1..], ts, l);
      PrependTwice([Word(ws[0])], WordArgs(ws[1..]), Args(ts, l));
      assert [Word(ws[0])] + WordArgs(ws[1..]) == WordArgs(ws);
    }
  }

  lemma IdentArg(w: string, ts: seq<Token>, l: Lang)
    ensures Args([Ident(w)] + ts, l) == PrependArgs([Word(w)], Args(ts, l))
  {
    assert ([Ident(w)] + ts)[1..] == ts;
  }

  lemma PrependTwice(a: seq<Arg>, b: seq<Arg>, r: Result<seq<Arg>>)
    ensures PrependArgs(a, PrependArgs(b, r)) == PrependArgs(a + b, r)
  {
    if r.Done? {
      assert a + (b + r.value) == a + b + r.value;
    }
  }

  /** The arguments, read after some text `x` of the macro that is still to be lexed with them. */
  lemma {:induction false} ArgsBack(args: seq<Arg>, x: string, tail: string, l: Lang)
    requires LexableArgs(args) && NoBodies(args, l) && PairFree(x) && ClosesWell(x, args)
    ensures Args(Lex(x + ArgsText(args, "}}" + tail)), l) == Done(WordArgs(Words(x)) + args, Lex(tail))
    decreases args, 1
  {
    hide Words, Lex, Args, IsWord, PairFree, TextLength;
    var close := "}}" + tail;
    if args == [] {
      LexBraces(tail);
      LexArgs(x, close, l);
      CloseArgs(Lex(tail), l);
    } else {
      var more := ArgsText(args[1..], close);
      assert LexableArg(args[0]) && NoBody(args[0], l);
      match args[0]
      case Word(w) =>
        var y := x + [' '] + w;
        assert x + ArgsText(args, close) == y + more;
        WordIsPlain(w);
        PairFreeSpace(x, w);
        ArgsBack(args[1..], y, tail, l);
        WordsSpace(x);
        WordsWith(x + [' '], w);
        assert WordArgs(Words(y)) + args[1..] == WordArgs(Words(x)) + args;
      case Nested(c) =>
        assert x + ArgsText(args, close) == (x + [' ']) + MacroText(c, more);
        LexBraces(c.macro + ArgsText(c.args, "}}" + more));
        assert LexableMacro(c) && IsWord(c.macro);
        WordIsPlain(c.macro);
        PairFreeSpace(x, c.macro);
        LexArgs(x + [' '], MacroText(c, more), l);
        WordsSpace(x);
        NestedBack(args[0], more, l);
        NothingIsPlain();
        ArgsBack(args[1..], [], tail, l);
        NestedArgs(c, c.macro + ArgsText(c.args, "}}" + more), more, args[1..], tail, l);
        assert WordArgs(Words(x)) + ([Nested(c)] + args[1..]) == WordArgs(Words(x)) + args;
    }
  }

  lemma NothingIsPlain()
    ensures PairFree([])
  {
  }

  lemma WordIsPlain(w: string)
    requires IsWord(w)
    ensures w != [] && PairFree(w) && forall i :: 0 <= i < |w| ==> !IsSpace(w[i])
  {
  }

  lemma CloseArgs(ts: seq<Token>, l: Lang)
    ensures Args([RBrace] + ts, l) == Done([], ts)
  {
  }

  lemma LexArgs(x: string, more: string, l: Lang)
    requires PairFree(x) && ((Opens(more) && !EndsIn(x, '{')) || (Closes(more) && !EndsIn(x, '}')))
    ensures Args(Lex(x + more), l) == PrependArgs(WordArgs(Words(x)), Args(Lex(more), l))
  {
    hide Lex, Args;
    if x == [] {
      assert x + more == more;
      var r := Args(Lex(more), l);
      assert r.Done? ==> WordArgs(Words(x)) + r.value == r.value;
    } else {
      LexRun(x, more);
      TextArgs(x, Lex(more), l);
    }
  }

  lemma NestedArgs(c: Chunk, inside: string, more: string, rest: seq<Arg>, tail: string, l: Lang)
    requires Macro(Lex(inside), false, l) == Done(c, Lex(more))
    requires Args(Lex([] + more), l) == Done(WordArgs(Words([])) + rest, Lex(tail))
    ensures Args([LBrace] + Lex(inside), l) == Done([Nested(c)] + rest, Lex(tail))
  {
    assert [] + more == more && WordArgs(Words([])) + rest == rest;
    assert ([LBrace] + Lex(inside))[1..] == Lex(inside);
    hide Lex, Macro;
  }

  lemma {:induction false} NestedBack(a: Arg, tail: string, l: Lang)
    requires a.Nested? && LexableArg(a) && NoBody(a, l)
    ensures Macro(Lex(a.chunk.macro + ArgsText(a.chunk.args, "}}" + tail)), false, l) == Done(a.chunk, Lex(tail))
    decreases a, 0
  {
    hide Lex, Macro, ArgsText, IsWord;
    MacroBack(a.chunk, false, tail, l);
    assert MacroChunk(a.chunk.macro, a.chunk.args, []) == a.chunk;
  }

  /** A macro reads back without its children. */
  lemma {:induction false} MacroBack(c: Chunk, bodyAllowed: bool, tail: string, l: Lang)
    requires LexableMacro(c) && NoBodies(c.args, l) && (bodyAllowed || c.macro !in l.bodies)
    ensures Macro(Lex(c.macro + ArgsText(c.args, "}}" + tail)), bodyAllowed, l) ==
        Done(MacroChunk(c.macro, c.args, []), Lex(tail))
    decreases c, 0
  {
    hide LexableArgs, NoBodies, Args, Lex, Words, PairFree, IsWord;
    var rest := ArgsText(c.args, "}}" + tail);
    var t := c.macro + rest;
    WordIsPlain(c.macro);
    ArgsBack(c.args, c.macro, tail, l);
    assert Words(c.macro) == [c.macro] by {
      WordsWith([], c.macro);
      assert [] + c.macro == c.macro;
      assert Words([]) == [] by { NoWords(); }
    }
    FirstText(c.macro, rest);
    var ts := Lex(t);
    var u := Pushed(ts);
    FirstIdent(ts, l);
    assert (WordArgs([c.macro]) + c.args)[0] == Word(c.macro) && (WordArgs([c.macro]) + c.args)[1..] == c.args;
  }

  lemma NoWords()
    ensures Words([]) == []
  {
  }

  lemma FirstText(name: string, rest: string)
    requires name != [] && PairFree(name) && !IsSpace(name[0])
    requires rest != [] && (rest[0] == ' ' || (rest[0] == '}' && !EndsIn(name, '}')))
    ensures var t := name + rest; Lex(t) != [] && Lex(t)[0].Text? && Words(Lex(t)[0].value) != []
  {
    var t := name + rest;
    assert !Opens(t) && !Closes(t) by {
      assert t[0] == name[0] && t[1] == if |name| > 1 then name[1] else rest[0];
    }
    var v := t[..TextLength(t)];
    SomeWord(v);
  }

  /** The first word of a text is the macro's name, and the arguments go on behind it. */
  lemma FirstIdent(ts: seq<Token>, l: Lang)
    requires ts != [] && ts[0].Text? && Words(ts[0].value) != []
    ensures var u := Pushed(ts);
      u != [] && u[0].Ident? && Args(ts, l) == PrependArgs([Word(u[0].value)], Args(u[1..], l))
  {
    hide Words;
  }

  lemma ChunksTextOpens(cs: seq<Chunk>, l: Lang, tail: string)
    requires cs == [] ==> tail == [] || Opens(tail)
    requires cs != [] ==> cs[0].MacroChunk?
    ensures ChunksText(cs, l, tail) == [] || Opens(ChunksText(cs, l, tail))
    ensures cs != [] ==> ChunksText(cs, l, tail) != []
  {
  }

  /** Lexing a macro's text gives its opening braces and what `MacroBack` reads. */
  lemma MacroRead(c: Chunk, tail: string, l: Lang)
    requires LexableMacro(c) && NoBodies(c.args, l)
    ensures var ts := Lex(MacroText(c, tail));
      ts != [] && ts[0] == LBrace && Macro(ts[1..], true, l) == Done(MacroChunk(c.macro, c.args, []), Lex(tail))
    ensures Opens(MacroText(c, tail))
  {
    hide Lex, Macro, ArgsText, LexableArgs, NoBodies, IsWord;
    LexBraces(c.macro + ArgsText(c.args, "}}" + tail));
    MacroBack(c, true, tail, l);
  }

  /** The macro that ends a body can be lexed. */
  lemma EndIsLexable(name: string, l: Lang)
    requires IsWord(name) && !EndsIn(name, '}')
    ensures LexableMacro(EndOf(name)) && NoBodies(EndOf(name).args, l)
  {
    var e := "end" + name;
    assert e[3..] == name && e[1..][1..][1..] == name;
    assert e[|e| - 1] == name[|name| - 1];
    assert TextLength(e[1..][1..]) == 1 + TextLength(name);
    assert TextLength(e[1..]) == 2 + TextLength(name);
  }

  /** The body of a macro, with what ends it. */
  lemma BodyBack(cs: seq<Chunk>, ns: seq<Chunk>, name: string, tail: string, l: Lang)
    requires IsWord(name) && !EndsIn(name, '}')
    requires Chunks(Lex(ChunksText(cs, l, MacroText(EndOf(name), tail))), EndAt("end" + name), l)
          == PrependChunks(ns, Chunks(Lex(MacroText(EndOf(name), tail)), EndAt("end" + name), l))
    ensures Chunks(Lex(ChunksText(cs, l, MacroText(EndOf(name), tail))), EndAt("end" + name), l) == Done(ns, Lex(tail))
  {
    hide Lex, ChunksText, MacroText, IsWord, Macro;
    EndIsLexable(name, l);
    MacroRead(EndOf(name), tail, l);
    assert ns + [] == ns;
  }

  /** A macro without a body, somewhere in the text. */
  lemma MacroStep(c: Chunk, end: End, more: string, l: Lang)
    requires c.MacroChunk? && LexableChunk(c, l) && ParsesOne(c, end, l) && !HasBody(c.macro, l)
    ensures Chunks(Lex(MacroText(c, more)), end, l) == PrependChunks([NormalOf(c, l)], Chunks(Lex(more), end, l))
  {
    hide Lex, Macro, MacroText, LexableMacro, NoBodies;
    MacroRead(c, more, l);
    assert MacroChunk(c.macro, c.args, []) == c;
  }

  /** A macro with a body that is read back as its children. */
  lemma BodyStep(c: Chunk, end: End, body: string, more: string, l: Lang)
    requires c.MacroChunk? && LexableChunk(c, l) && ParsesOne(c, end, l) && HasBody(c.macro, l)
    requires Chunks(Lex(body), EndAt("end" + c.macro), l) == Done(Normal(c.children, l), Lex(more))
    ensures Chunks(Lex(MacroText(c, body)), end, l) == PrependChunks([NormalOf(c, l)], Chunks(Lex(more), end, l))
  {
    hide Lex, Macro, MacroText, LexableMacro, NoBodies, LexableChunks, Parses, Normal;
    MacroRead(c, body, l);
    assert MacroChunk(c.macro, c.args, []).(children := Normal(c.children, l)) == NormalOf(c, l);
  }

  lemma TextStep(t: string, end: End, more: string, l: Lang)
    ensures Chunks([Text(t)] + Lex(more), end, l) == PrependChunks([TextChunk(t)], Chunks(Lex(more), end, l))
  {
    hide Lex;
    assert ([Text(t)] + Lex(more))[1..] == Lex(more);
  }

  /** Chunks read back in normal form, before any text that follows. */
  lemma {:induction false} ChunksBack(cs: seq<Chunk>, end: End, tail: string, l: Lang)
    requires LexableChunks(cs, tail == [], l) && Parses(cs, end, l) && (tail == [] || Opens(tail))
    ensures Chunks(Lex(ChunksText(cs, l, tail)), end, l) == PrependChunks(Normal(cs, l), Chunks(Lex(tail), end, l))
    decreases cs, 1
  {
    hide Lex, Chunks, MacroText, LexableMacro, Opens, NormalOf, PairFree;
    var r := Chunks(Lex(tail), end, l);
    if cs == [] {
      assert r.Done? ==> [] + r.value == r.value;
    } else {
      var c, more := cs[0], ChunksText(cs[1..], l, tail);
      var n, ns := NormalOf(c, l), Normal(cs[1..], l);
      assert LexableChunk(c, l) && ParsesOne(c, end, l);
      LexableRest(cs, tail == [], l);
      ParsesRest(cs, end, l);
      ChunksBack(cs[1..], end, tail, l);
      assert r.Done? ==> [n] + (ns + r.value) == Normal(cs, l) + r.value;
      match c
      case TextChunk(t) =>
        TextRead(cs, l, tail, t, more);
        TextStep(t, end, more, l);
        assert n == c by { NormalText(t, l); }
      case MacroChunk(name, args, children) =>
        if HasBody(name, l) {
          ChildrenBack(c, end, more, l);
          BodyStep(c, end, ChunksText(children, l, MacroText(EndOf(name), more)), more, l);
        } else {
          MacroStep(c, end, more, l);
        }
    }
  }

  lemma NormalText(t: string, l: Lang)
    ensures NormalOf(TextChunk(t), l) == TextChunk(t)
  {
  }

  lemma {:induction false} ChildrenBack(c: Chunk, end: End, more: string, l: Lang)
    requires c.MacroChunk? && LexableChunk(c, l) && ParsesOne(c, end, l) && HasBody(c.macro, l)
    ensures Chunks(Lex(ChunksText(c.children, l, MacroText(EndOf(c.macro), more))), EndAt("end" + c.macro), l)
         == Done(Normal(c.children, l), Lex(more))
    decreases c, 0
  {
    assert IsWord(c.macro);
    hide Lex, Chunks, ChunksText, MacroText, LexableChunks, LexableMacro, NoBodies, IsWord, Parses, Normal, Opens;
    EndIsLexable(c.macro, l);
    MacroRead(EndOf(c.macro), more, l);
    assert MacroText(EndOf(c.macro), more) != [] by { OpensSomething(MacroText(EndOf(c.macro), more)); }
    ChunksBack(c.children, EndAt("end" + c.macro), MacroText(EndOf(c.macro), more), l);
    BodyBack(c.children, Normal(c.children, l), c.macro, more, l);
  }

  lemma OpensSomething(t: string)
    requires Opens(t)
    ensures t != []
  {
  }

  lemma LexableRest(cs: seq<Chunk>, atEnd: bool, l: Lang)
    requires LexableChunks(cs, atEnd, l) && cs != []
    ensures LexableChunks(cs[1..], atEnd, l)
  {
    hide LexableChunk, EndsIn;
    var rest := cs[1..];
    forall i | 0 < i < |rest| ensures rest[i - 1].MacroChunk? || rest[i].MacroChunk? {
      assert cs[i + 1 - 1].MacroChunk? || cs[i + 1].MacroChunk?;
    }
    forall i | 0 <= i < |rest| && rest[i].TextChunk? && EndsIn(rest[i].text, '{') ensures atEnd && i == |rest| - 1 {
      assert cs[i + 1] == rest[i];
    }
  }

  lemma ParsesRest(cs: seq<Chunk>, end: End, l: Lang)
    requires Parses(cs, end, l) && cs != []
    ensures Parses(cs[1..], end, l)
  {
    hide ParsesOne;
  }

  lemma TextRead(cs: seq<Chunk>, l: Lang, tail: string, t: string, more: string)
    requires cs != [] && cs[0] == TextChunk(t) && LexableChunks(cs, tail == [], l) && (tail == [] || Opens(tail))
    requires more == ChunksText(cs[1..], l, tail)
    ensures Lex(ChunksText(cs, l, tail)) == [Text(t)] + Lex(more)
  {
    hide Lex, PairFree;
    assert LexableChunk(cs[0], l);
    if |cs| > 1 {
      assert cs[1 - 1].MacroChunk? || cs[1].MacroChunk?;
    }
    assert EndsIn(t, '{') ==> tail == [] && |cs| == 1 by {
      assert cs[0].TextChunk? && cs[0].text == t;
    }
    ChunksTextOpens(cs[1..], l, tail);
    LexRun(t, more);
  }

  /** Lexing and parsing the text of a tree gives its normal form, and no token is left. */
  lemma NormalForm(cs: seq<Chunk>, end: End, l: Lang)
    requires LexableChunks(cs, true, l) && Parses(cs, end, l)
    ensures Chunks(Lex(ChunksText(cs, l, [])), end, l) == Done(Normal(cs, l), [])
  {
    assert Lex([]) == [] && Chunks([], end, l) == Done([], []);
    hide Lex, Chunks, ChunksText, LexableChunks, Parses, Normal;
    ChunksBack(cs, end, [], l);
    assert Normal(cs, l) + [] == Normal(cs, l);
  }

  // ---------- What any parse gives

  /** What may be waiting to end a body. */
  predicate GoodEnd(end: End) {
    end == NoEnd || (end.EndAt? && |end.name| >= 3 && end.name[..3] == "end")
  }

  /** Whatever the tokens, no argument read is a macro with a body. */
  lemma {:induction false} ArgsHaveNoBodies(ts: seq<Token>, l: Lang)
    ensures Args(ts, l).Done? ==> NoBodies(Args(ts, l).value, l)
    decreases Weight(ts), 2
  {
    hide Pushed, Weight;
    if Args(ts, l).Done? {
      WeightRest(ts);
      var front: seq<Arg>, rest: seq<Token> := [], ts;
      if ts[0].LBrace? {
        MacroHasNoBodies(ts[1..], false, l);
        front, rest := [Nested(Macro(ts[1..], false, l).value)], Macro(ts[1..], false, l).rest;
        ArgsHaveNoBodies(rest, l);
      } else if ts[0].Ident? {
        front, rest := [Word(ts[0].value)], ts[1..];
        ArgsHaveNoBodies(rest, l);
      } else if ts[0].Text? {
        ArgsHaveNoBodies(Pushed(ts), l);
      }
      hide Macro;
    }
  }

  lemma {:induction false} MacroHasNoBodies(ts: seq<Token>, bodyAllowed: bool, l: Lang)
    ensures var m := Macro(ts, bodyAllowed, l);
      m.Done? ==> NoBodies(m.value.args, l) && (bodyAllowed || m.value.macro !in l.bodies)
    decreases Weight(ts), 1
  {
    hide Args;
    var u := Pushed(ts);
    if u != [] {
      WeightRest(u);
      ArgsHaveNoBodies(u[1..], l);
    }
  }

  lemma WeightRest(ts: seq<Token>)
    ensures ts != [] ==> Weight(ts[1..]) < Weight(ts)
  {
  }

  /** Whatever the tokens, a parse has no index macro and no end name in its own body. */
  lemma {:induction false} ParseIsNormal(ts: seq<Token>, end: End, l: Lang)
    requires !l.isIndex("args") && GoodEnd(end)
    ensures var r := Chunks(ts, end, l); r.Done? ==> Parses(r.value, end, l) && NoIndex(r.value, l)
    decreases Weight(ts)
  {
    hide Macro, Weight, NoBodies;
    if ts != [] {
      WeightRest(ts);
      if ts[0].Text? {
        ParseIsNormal(ts[1..], end, l);
        AddNormal(TextChunk(ts[0].value), Chunks(ts[1..], end, l), end, l);
      } else if ts[0].LBrace? && Macro(ts[1..], true, l).Done? {
        var c, rest := Macro(ts[1..], true, l).value, Macro(ts[1..], true, l).rest;
        MacroHasNoBodies(ts[1..], true, l);
        if end != EndAt(c.macro) {
          if HasBody(c.macro, l) {
            var body := Chunks(rest, EndAt("end" + c.macro), l);
            ParseIsNormal(rest, EndAt("end" + c.macro), l);
            if body.Done? {
              ParseIsNormal(body.rest, end, l);
              AddNormal(c.(children := body.value), Chunks(body.rest, end, l), end, l);
            }
          } else {
            ParseIsNormal(rest, end, l);
            FinishIsNormal(c, end, l);
            AddNormal(Finish(c, l), Chunks(rest, end, l), end, l);
          }
        }
      }
    }
  }

  lemma FinishIsNormal(c: Chunk, end: End, l: Lang)
    requires !l.isIndex("args") && GoodEnd(end) && c.MacroChunk? && c.children == [] && NoBodies(c.args, l)
    requires end != EndAt(c.macro) && !HasBody(c.macro, l)
    ensures NoIndexIn(Finish(c, l), l) && ParsesOne(Finish(c, l), end, l)
  {
    assert "args"[..3] == "arg";
  }

  lemma AddNormal(c: Chunk, r: Result<seq<Chunk>>, end: End, l: Lang)
    requires r.Done? ==> Parses(r.value, end, l) && NoIndex(r.value, l)
    requires ParsesOne(c, end, l) && NoIndexIn(c, l)
    ensures var p := PrependChunks([c], r); p.Done? ==> Parses(p.value, end, l) && NoIndex(p.value, l)
  {
    hide ParsesOne, NoIndexIn;
  }

  lemma {:induction false} NormalIsSame(cs: seq<Chunk>, l: Lang)
    requires NoIndex(cs, l)
    ensures Normal(cs, l) == cs
    decreases cs
  {
    if cs != [] {
      var c := cs[0];
      assert NoIndexIn(c, l);
      NormalIsSame(cs[1..], l);
      if c.MacroChunk? {
        NormalIsSame(c.children, l);
      }
    }
  }

  /**
   The round trip. A tree whose text can be lexed comes back if and only if it has no index macro, no macro
   with a body among arguments, and no end name in its own body.
   */
  lemma RoundTrip(cs: seq<Chunk>, l: Lang)
    requires LexableChunks(cs, true, l) && !l.isIndex("args")
    ensures Chunks(Lex(ChunksText(cs, l, [])), NoEnd, l) == Done(cs, []) <==> Parses(cs, NoEnd, l) && NoIndex(cs, l)
  {
    hide *;
    ParseIsNormal(Lex(ChunksText(cs, l, [])), NoEnd, l) by { NoEndIsGood(); }
    if Parses(cs, NoEnd, l) && NoIndex(cs, l) {
      NormalForm(cs, NoEnd, l);
      NormalIsSame(cs, l);
    }
  }

  lemma NoEndIsGood()
    ensures GoodEnd(NoEnd)
  {
  }

  /** An index keeps only its number: whatever arguments it is written with are dropped. */
  lemma IndexForgets(n: string, args: seq<Arg>, l: Lang)
    requires LexableMacro(MacroChunk(n, args, [])) && NoBodies(args, l) && l.isIndex(n)
    ensures Chunks(Lex(MacroText(MacroChunk(n, args, []), [])), NoEnd, l) ==
        Done([MacroChunk("args", [Word(n)], [])], [])
  {
    assert Lex([]) == [] && Chunks([], NoEnd, l) == Done([], []);
    hide Lex, MacroText, Macro, LexableMacro, NoBodies;
    MacroRead(MacroChunk(n, args, []), [], l);
    var c := MacroChunk("args", [Word(n)], []);
    assert PrependChunks([c], Done([], [])) == Done([c], []) by {
      assert [c] + [] == [c];
    }
  }
}
