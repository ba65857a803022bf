/** The parser object: a token stream that lexers push onto, one token of lookahead, and recursive descent. */
module TemplateParser {
  import opened Basics
  import opened Template

  datatype Kind = OpenBrace | CloseBrace | SomeText | Identifier

  predicate Isa(t: Token, k: Kind) {
    match k
    case OpenBrace => t.LBrace?
    case CloseBrace => t.RBrace?
    case SomeText => t.Text?
    case Identifier => t.Ident?
  }

  /** The tokens before the first that is missing. */
  function Ahead(s: seq<Option<Token>>): seq<Token> {
    if s == [] || s[0].None? then [] else [s[0].value] + Ahead(s[1..])
  }

  function Somes(ts: seq<Token>): (s: seq<Option<Token>>)
    ensures |s| == |ts|
  {
    seq(|ts|, i requires 0 <= i < |ts| => Some(ts[i]))
  }

  lemma {:induction false} AheadOf(ts: seq<Token>, s: seq<Option<Token>>)
    ensures Ahead(Somes(ts) + s) == ts + Ahead(s)
  {
    if ts == [] {
      assert Somes(ts) + s == s;
    } else {
      AheadOf(ts[1..], s);
      assert Somes(ts) + s == [Some(ts[0])] + (Somes(ts[1..]) + s);
      AheadFirst(ts[0], Somes(ts[1..]) + s);
      hide Ahead, Somes;
      assert [ts[0]] + (ts[1..] + Ahead(s)) == ts + Ahead(s);
    }
  }

  lemma AheadFirst(t: Token, s: seq<Option<Token>>)
    ensures Ahead([Some(t)] + s) == [t] + Ahead(s)
  {
    assert ([Some(t)] + s)[1..] == s;
  }

  /** The outcome of a method that may raise a syntax error. */
  ghost predicate Gives<T>(r: Result<T>, ok: bool, value: T, left: seq<Token>) {
    if ok then r == Done(value, left) else r.Fail?
  }

  class Parser {
    const lang: Lang
    var tokens: seq<Option<Token>>
    var token: Option<Token>
    var next: Option<Token>

    constructor (lang: Lang)
      ensures this.lang == lang && tokens == [] && next.None? && Pending() == []
    {
      this.lang, tokens, token, next := lang, [], None, None;
    }

    /** All tokens still to be handled. */
    ghost function Pending(): seq<Token>
      reads this
    {
      Ahead([next] + tokens)
    }

    method GetTok()
      modifies this
      ensures token == old(token) && Pending() == Ahead(old(tokens))
    {
      ghost var was := tokens;
      if tokens == [] {
        next := None;
      } else {
        next, tokens := tokens[0], tokens[1..];
        assert [next] + tokens == was;
      }
    }

    method PushTokens(ts: seq<Token>)
      modifies this
      ensures token == old(token) && Pending() == ts + old(Pending())
    {
      AheadOf(ts, [next] + tokens);
      tokens := Somes(ts) + ([next] + tokens);
      GetTok();
    }

    /** Takes the next token if it is of the kind wanted. */
    method Accept(k: Kind) returns (ok: bool)
      requires next.Some?
      modifies this
      ensures old(Pending()) != [] && ok == Isa(old(Pending())[0], k)
      ensures ok ==> token == Some(old(Pending())[0]) && Pending() == old(Pending())[1..]
      ensures !ok ==> Pending() == old(Pending()) && next == old(next)
    {
      assert ([next] + tokens)[1..] == tokens;
      ok := Isa(next.value, k);
      if ok {
        token := next;
        GetTok();
      }
    }

    /** A macro, its opening braces already taken; a missing token is an error. */
    method ParseMacro(bodyAllowed: bool) returns (ok: bool, chunk: Chunk)
      modifies this
      ensures Gives(Macro(old(Pending()), bodyAllowed, lang), ok, chunk, Pending())
      decreases Weight(Pending()), 1
    {
      chunk := MacroChunk("", [], []);
      ghost var ts := Pending();
      if next.None? {
        return false, chunk;
      }
      var text := Accept(SomeText);
      if text {
        PushTokens(Relex(token.value.value));
      }
      assert Pending() == Pushed(ts);
      if next.None? {
        return false, chunk;
      }
      var named := Accept(Identifier);
      if !named {
        return false, chunk;
      }
      var name := token.value.value;
      if !bodyAllowed && name in lang.bodies {
        return false, chunk;
      }
      ghost var u := Pending();
      assert u == Pushed(ts)[1..];
      var args;
      ok, args := ParseArgs();
      chunk := MacroChunk(name, args, []);
    }

    /** The loop over the arguments. */
    method ParseArgs() returns (ok: bool, args: seq<Arg>)
      modifies this
      ensures Gives(Args(old(Pending()), lang), ok, args, Pending())
      decreases Weight(Pending()), 2
    {
      args := [];
      ghost var all := Args(Pending(), lang);
      NoneBefore(all);
      while true
        invariant all == PrependArgs(args, Args(Pending(), lang)) && Weight(Pending()) <= Weight(old(Pending()))
        decreases Weight(Pending())
      {
        ghost var ts := Pending();
        ArgsStep(args, ts, lang);
        hide Weight, Relex, Args, PrependArgs, Macro, Pushed;
        if next.None? {
          return false, args;
        }
        var open := Accept(OpenBrace);
        if open {
          var c;
          ok, c := ParseMacro(false);
          if !ok {
            return;
          }
          args := args + [Nested(c)];
        } else {
          var word := Accept(Identifier);
          if word {
            args := args + [Word(token.value.value)];
          } else {
            var text := Accept(SomeText);
            if text {
              PushTokens(Relex(token.value.value));
            } else {
              ok := Accept(CloseBrace);
              return;
            }
          }
        }
      }
    }

    /** Text and macros up to the macro that ends the body, or to the end of the input. */
    method ParseText(end: End) returns (ok: bool, chunks: seq<Chunk>)
      modifies this
      ensures Gives(Chunks(old(Pending()), end, lang), ok, chunks, Pending())
      decreases Weight(Pending()), 3
    {
      chunks := [];
      ghost var all := Chunks(Pending(), end, lang);
      NoChunksBefore(all);
      while next.Some?
        invariant all == PrependChunks(chunks, Chunks(Pending(), end, lang)) &&
            Weight(Pending()) <= Weight(old(Pending()))
        decreases Weight(Pending())
      {
        ghost var ts := Pending();
        ChunksStep(chunks, ts, end, lang);
        hide Weight, Chunks, PrependChunks, Macro;
        var text := Accept(SomeText);
        if text {
          chunks := chunks + [TextChunk(token.value.value)];
        } else {
          var open := Accept(OpenBrace);
          if !open {
            return false, chunks;
          }
          var chunk;
          ok, chunk := ParseMacro(true);
          if !ok {
            return;
          }
          var name := chunk.macro;
          if end == EndAt(name) {
            return;
          } else if lang.isIndex(name) {
            chunk := chunk.(macro := "args", args := [Word(name)]);
          } else if name in lang.bodies {
            var children;
            ok, children := ParseText(EndAt("end" + name));
            if !ok {
              return;
            }
            chunk := chunk.(children := children);
          }
          chunks := chunks + [chunk];
        }
      }
      ok := true;
      NothingLeft(chunks, end, lang);
    }

    /** The whole text of a file. */
    method Parse(text: string) returns (ok: bool, chunks: seq<Chunk>)
      requires Pending() == []
      modifies this
      ensures Gives(Chunks(Lex(text), NoEnd, lang), ok, chunks, Pending())
    {
      PushTokens(Lex(text));
      assert Lex(text) + [] == Lex(text);
      ok, chunks := ParseText(NoEnd);
    }
  }

  lemma NoneBefore(r: Result<seq<Arg>>)
    ensures PrependArgs([], r) == r
  {
    assert r.Done? ==> [] + r.value == r.value;
  }

  lemma NoChunksBefore(r: Result<seq<Chunk>>)
    ensures PrependChunks([], r) == r
  {
    assert r.Done? ==> [] + r.value == r.value;
  }

  lemma NothingLeft(chunks: seq<Chunk>, end: End, l: Lang)
    ensures PrependChunks(chunks, Chunks([], end, l)) == Done(chunks, [])
  {
    assert chunks + [] == chunks;
  }

  /** One turn of the loop over the arguments. */
  lemma ArgsStep(args: seq<Arg>, ts: seq<Token>, l: Lang)
    ensures ts == [] ==> PrependArgs(args, Args(ts, l)).Fail?
    ensures ts != [] ==> Weight(ts[1..]) < Weight(ts)
    ensures ts != [] && ts[0].LBrace? ==> var m, whole := Macro(ts[1..], false, l), PrependArgs(args, Args(ts, l));
      if m.Fail? then whole.Fail?
      else whole == PrependArgs(args + [Nested(m.value)], Args(m.rest, l)) && Weight(m.rest) < Weight(ts)
    ensures ts != [] && ts[0].Ident? ==>
      PrependArgs(args, Args(ts, l)) == PrependArgs(args + [Word(ts[0].value)], Args(ts[1..], l))
    ensures ts != [] && ts[0].Text? ==> var u := Relex(ts[0].value) + ts[1..];
      PrependArgs(args, Args(ts, l)) == PrependArgs(args, Args(u, l)) && Weight(u) < Weight(ts)
    ensures ts != [] && ts[0].RBrace? ==> PrependArgs(args, Args(ts, l)) == Done(args, ts[1..])
  {
    if ts != [] {
      hide Macro, Relex;
      if ts[0].LBrace? {
        var m := Macro(ts[1..], false, l);
        if m.Done? {
          ArgsAssoc(args, Nested(m.value), Args(m.rest, l));
        }
      } else if ts[0].Ident? {
        ArgsAssoc(args, Word(ts[0].value), Args(ts[1..], l));
      } else if ts[0].Text? {
        assert Pushed(ts) == Relex(ts[0].value) + ts[1..];
      } else {
        assert args + [] == args;
      }
    }
  }

  lemma ArgsAssoc(args: seq<Arg>, a: Arg, r: Result<seq<Arg>>)
    ensures PrependArgs(args, PrependArgs([a], r)) == PrependArgs(args + [a], r)
  {
    if r.Done? {
      assert args + ([a] + r.value) == args + [a] + r.value;
    }
  }

  lemma ChunksAssoc(cs: seq<Chunk>, c: Chunk, r: Result<seq<Chunk>>)
    ensures PrependChunks(cs, PrependChunks([c], r)) == PrependChunks(cs + [c], r)
  {
    if r.Done? {
      assert cs + ([c] + r.value) == cs + [c] + r.value;
    }
  }

  /** One turn of the loop over text and macros. */
  lemma ChunksStep(cs: seq<Chunk>, ts: seq<Token>, end: End, l: Lang)
    requires ts != []
    ensures Weight(ts[1..]) < Weight(ts)
    ensures ts[0].Text? ==>
      PrependChunks(cs, Chunks(ts, end, l)) == PrependChunks(cs + [TextChunk(ts[0].value)], Chunks(ts[1..], end, l))
    ensures ts[0].LBrace? ==>
      AfterMacro(PrependChunks(cs, Chunks(ts, end, l)), Macro(ts[1..], true, l), cs, Weight(ts), end, l)
    ensures !ts[0].Text? && !ts[0].LBrace? ==> PrependChunks(cs, Chunks(ts, end, l)).Fail?
  {
    hide Macro;
    var m := Macro(ts[1..], true, l);
    if ts[0].Text? {
      ChunksAssoc(cs, TextChunk(ts[0].value), Chunks(ts[1..], end, l));
    } else if ts[0].LBrace? && m.Done? {
      var c := m.value;
      assert cs + [] == cs;
      if !l.isIndex(c.macro) && c.macro in l.bodies {
        var body := Chunks(m.rest, EndAt("end" + c.macro), l);
        if body.Done? {
          ChunksAssoc(cs, c.(children := body.value), Chunks(body.rest, end, l));
        }
      } else {
        ChunksAssoc(cs, Finish(c, l), Chunks(m.rest, end, l));
      }
    }
  }

  /** What the whole parse is once a macro has been read. */
  ghost predicate AfterMacro(whole: Result<seq<Chunk>>, m: Result<Chunk>, cs: seq<Chunk>, weight: nat, end: End,
      l: Lang) {
    if m.Fail? then whole.Fail?
    else
      var c := m.value;
      && Weight(m.rest) < weight && c.MacroChunk?
      && if end == EndAt(c.macro) then whole == Done(cs, m.rest)
         else if l.isIndex(c.macro) then
           whole == PrependChunks(cs + [c.(macro := "args", args := [Word(c.macro)])], Chunks(m.rest, end, l))
         else if c.macro in l.bodies then
           var body := Chunks(m.rest, EndAt("end" + c.macro), l);
           if body.Fail? then whole.Fail?
           else
             && Weight(body.rest) < weight
             && whole == PrependChunks(cs + [c.(children := body.value)], Chunks(body.rest, end, l))
         else whole == PrependChunks(cs + [c], Chunks(m.rest, end, l))
  }
}
