/** Which templates are rejected: a scan that counts open macros decides what the parser does by recursion. */
module TemplateErrors {
  import opened Basics
  import opened Template
  import opened TemplateRoundTrip

  /** What the lexer gives: no words yet. */
  predicate Plain(ts: seq<Token>) {
    forall i :: 0 <= i < |ts| ==> !ts[i].Ident?
  }

  /** The text behind opening braces begins with a name; inside a macro not with that of one with a body. */
  predicate Names(ts: seq<Token>, inside: bool, l: Lang) {
    ts != [] && ts[0].Text? && Words(ts[0].value) != [] && (inside ==> Words(ts[0].value)[0] !in l.bodies)
  }

  /** With `open` macros open: each macro has a name and is closed, and no other braces close. */
  predicate Closed(ts: seq<Token>, open: nat, l: Lang) {
    if ts == [] then open == 0
    else if ts[0].LBrace? then Names(ts[1..], open > 0, l) && Closed(ts[1..], open + 1, l)
    else if ts[0].RBrace? then open > 0 && Closed(ts[1..], open - 1, l)
    else Closed(ts[1..], open, l)
  }

  lemma {:induction false} LexIsPlain(t: string)
    ensures Plain(Lex(t))
    decreases |t|
  {
    if t != [] {
      if Opens(t) || Closes(t) {
        LexIsPlain(t[2..]);
      } else {
        LexIsPlain(t[TextLength(t)..]);
      }
    }
  }

  lemma {:induction false} MacroClosed(ts: seq<Token>, inside: bool, open: nat, l: Lang)
    requires Plain(ts)
    ensures var m := Macro(ts, !inside, l);
      && (m.Done? ==> |m.rest| < |ts| && Plain(m.rest))
      && (Names(ts, inside, l) && Closed(ts, open + 1, l) <==> m.Done? && Closed(m.rest, open, l))
    decreases |ts|, 0
  {
    hide Words, Args, Plain;
    if Names(ts, inside, l) {
      var ws, ids := Words(ts[0].value), Relex(ts[0].value);
      assert Pushed(ts) == ids + ts[1..];
      assert (ids + ts[1..])[1..] == ids[1..] + ts[1..];
      IdentArgs(ws[1..], ids[1..], ts[1..], l);
      PlainRest(ts);
      ArgsClosed(ts[1..], open, l);
    } else {
      NoName(ts, inside, l);
    }
  }

  lemma PlainRest(ts: seq<Token>)
    requires Plain(ts) && ts != []
    ensures Plain(ts[1..]) && !ts[0].Ident?
  {
  }

  lemma NoName(ts: seq<Token>, inside: bool, l: Lang)
    requires Plain(ts) && !Names(ts, inside, l)
    ensures Macro(ts, !inside, l).Fail?
  {
    hide Words, Args;
    if ts != [] && ts[0].Text? && Words(ts[0].value) == [] {
      assert Pushed(ts) == ts[1..];
    }
  }

  lemma {:induction false} ArgsClosed(ts: seq<Token>, open: nat, l: Lang)
    requires Plain(ts)
    ensures var a := Args(ts, l);
      && (a.Done? ==> |a.rest| < |ts| && Plain(a.rest))
      && (Closed(ts, open + 1, l) <==> a.Done? && Closed(a.rest, open, l))
    decreases |ts|, 1
  {
    hide Words, Macro, Plain, Names, Relex;
    if ts != [] {
      PlainRest(ts);
      if ts[0].LBrace? {
        MacroClosed(ts[1..], true, open + 1, l);
        var m := Macro(ts[1..], false, l);
        if m.Done? {
          ArgsClosed(m.rest, open, l);
        }
      } else if ts[0].Text? {
        assert [Text(ts[0].value)] + ts[1..] == ts;
        TextArgs(ts[0].value, ts[1..], l);
        ArgsClosed(ts[1..], open, l);
      }
    }
  }

  lemma {:induction false} ChunksClosed(ts: seq<Token>, end: End, l: Lang)
    requires Plain(ts)
    ensures var c := Chunks(ts, end, l);
      && (c.Done? ==> |c.rest| <= |ts| && Plain(c.rest) && (end == NoEnd ==> c.rest == []))
      && (Closed(ts, 0, l) <==> c.Done? && Closed(c.rest, 0, l))
    decreases |ts|
  {
    hide Macro, Plain, Names;
    if ts != [] {
      PlainRest(ts);
      if ts[0].Text? {
        ChunksClosed(ts[1..], end, l);
      } else if ts[0].LBrace? {
        MacroClosed(ts[1..], false, 0, l);
        var m := Macro(ts[1..], true, l);
        if m.Done? && end != EndAt(m.value.macro) {
          if HasBody(m.value.macro, l) {
            ChunksClosed(m.rest, EndAt("end" + m.value.macro), l);
            var body := Chunks(m.rest, EndAt("end" + m.value.macro), l);
            if body.Done? {
              ChunksClosed(body.rest, end, l);
            }
          } else {
            ChunksClosed(m.rest, end, l);
          }
        }
      }
    }
  }

  /**
   A file is parsed to its end, or rejected: for a macro left open, for closing braces without a macro, for a
   macro without a name, and for a macro with a body inside another. A missing end macro is no error.
   */
  lemma ParsesIff(text: string, l: Lang)
    ensures var r := Chunks(Lex(text), NoEnd, l);
      && (r.Done? <==> Closed(Lex(text), 0, l))
      && (r.Done? ==> r.rest == [])
  {
    LexIsPlain(text);
    ChunksClosed(Lex(text), NoEnd, l);
  }

  lemma Nothing(end: End, l: Lang)
    ensures Lex([]) == [] && Chunks([], end, l) == Done([], [])
  {
  }

  /** A body whose end macro is missing ends with the file. */
  lemma BodyLeftOpen(c: Chunk, l: Lang)
    requires c.MacroChunk? && LexableMacro(c) && NoBodies(c.args, l) && c.macro in l.bodies && !l.isIndex(c.macro)
    requires LexableChunks(c.children, true, l) && Parses(c.children, EndAt("end" + c.macro), l)
    ensures Chunks(Lex(MacroText(c, ChunksText(c.children, l, []))), NoEnd, l) ==
        Done([MacroChunk(c.macro, c.args, Normal(c.children, l))], [])
  {
    hide Lex, MacroText, Macro, LexableMacro, NoBodies, ChunksText, LexableChunks, Parses, Normal;
    var body, ns := ChunksText(c.children, l, []), Normal(c.children, l);
    NormalForm(c.children, EndAt("end" + c.macro), l);
    Nothing(NoEnd, l);
    MacroRead(c, body, l);
    var whole := MacroChunk(c.macro, c.args, ns);
    assert PrependChunks([whole], Done([], [])) == Done([whole], []) by {
      assert [whole] + [] == [whole];
    }
  }
}
