/**
 Tokenizing the text of a JSON value gives its tree in preorder, and the tree rebuilds from the tokens.

 The grammar is that of sections 2 to 7 of RFC 8259, with any insignificant whitespace; literals and
 string bodies are those the tokenizer takes, which include all of the standard's.
 */
module JsmnRoundTrip {
  import opened Basics
  import opened Jsmn
  import opened JsmnStack

  datatype Value =
    | Literal(text: string)                                  // number, true, false, null
    | Text(body: string)                                     // string, without its quotes
    | Box(isObject: bool, pad: string, entries: Entries)     // array or object

  /** Array elements or object members; members carry a name and the whitespace around it. */
  datatype Entries = NoEntries | More(name: Name, before: string, value: Value, after: string, rest: Entries)

  datatype Name = NoName | Named(pre: string, body: string, post: string)

  predicate Blanks(s: string) {
    forall c <- s :: IsBlank(c)
  }

  predicate IsLiteral(s: string) {
    && s != ""
    && s[0] != '\"' && s[0] != '{' && s[0] != '['
    && forall c <- s :: !IsDelimiter(c) && IsPrintable(c)
  }

  /** Every quote and backslash of the body is escaped, every escape is one the tokenizer knows. */
  predicate IsBody(s: string) {
    || s == ""
    || (s[0] == '\\' && |s| > 1 && IsEscapable(s[1]) && IsBody(s[2..]))
    || (s[0] != '\\' && s[0] != '\"' && IsBody(s[1..]))
  }

  predicate WellFormed(v: Value) {
    match v
    case Literal(t) => IsLiteral(t)
    case Text(b) => IsBody(b)
    case Box(isObject, pad, es) => Blanks(pad) && AllWellFormed(es, isObject)
  }

  predicate AllWellFormed(es: Entries, named: bool) {
    match es
    case NoEntries => true
    case More(n, b, v, a, rest) =>
      && Blanks(b) && WellFormed(v) && Blanks(a) && AllWellFormed(rest, named)
      && (if named then n.Named? && Blanks(n.pre) && IsBody(n.body) && Blanks(n.post) else n == NoName)
  }

  function Quoted(body: string): string {
    "\"" + body + "\""
  }

  function Opening(isObject: bool): char {
    if isObject then '{' else '['
  }

  function Closing(isObject: bool): char {
    if isObject then '}' else ']'
  }

  function Print(v: Value): string {
    match v
    case Literal(t) => t
    case Text(b) => Quoted(b)
    case Box(isObject, pad, es) =>
      [Opening(isObject)] + (pad + (PrintAll(es) + [Closing(isObject)]))
  }

  function PrintName(n: Name): string {
    match n
    case NoName => ""
    case Named(pre, body, post) => pre + (Quoted(body) + (post + ":"))
  }

  function PrintAll(es: Entries): string {
    match es
    case NoEntries => ""
    case More(n, b, v, a, rest) =>
      PrintName(n) + (b + (Print(v) + (a + (Separator(rest) + PrintAll(rest)))))
  }

  /** Direct children: names and values each count. */
  function Count(es: Entries): nat {
    if es == NoEntries then 0 else EntryCount(es) + Count(es.rest)
  }

  function EntryCount(es: Entries): nat
    requires es.More?
  {
    if es.name.Named? then 2 else 1
  }

  /** The preorder token list of a value printed at position `p`. */
  function Tokens(v: Value, p: nat): seq<Token> {
    match v
    case Literal(t) => [Token(Primitive, p, p + |t|, 0)]
    case Text(b) => [Token(String, p + 1, p + 1 + |b|, 0)]
    case Box(isObject, pad, es) =>
      [Token(if isObject then Object else Array, p, p + |Print(v)|, Count(es))] + AllTokens(es, p + 1 + |pad|)
  }

  function NameTokens(n: Name, p: nat): seq<Token> {
    match n
    case NoName => []
    case Named(pre, body, _) => [Token(String, p + |pre| + 1, p + |pre| + 1 + |body|, 0)]
  }

  /** Where the first value of the entries printed at `p` stands, and where the remaining entries do. */
  function ValueAt(es: Entries, p: nat): nat
    requires es.More?
  {
    p + |PrintName(es.name)| + |es.before|
  }

  function RestAt(es: Entries, p: nat): nat
    requires es.More?
  {
    ValueAt(es, p) + |Print(es.value)| + |es.after| + |Separator(es.rest)|
  }

  function Separator(rest: Entries): string {
    if rest == NoEntries then "" else ","
  }

  function AllTokens(es: Entries, p: nat): seq<Token>
    decreases es, 1
  {
    if es == NoEntries then [] else EntryTokens(es, p) + AllTokens(es.rest, RestAt(es, p))
  }

  function EntryTokens(es: Entries, p: nat): seq<Token>
    requires es.More?
    decreases es, 0
  {
    NameTokens(es.name, p) + Tokens(es.value, ValueAt(es, p))
  }

  /** A literal may stop at `p`. */
  predicate Delimited(js: string, p: nat) {
    p < |js| ==> IsDelimiter(js[p])
  }

  lemma {:induction false} LiteralScan(js: string, p: nat, t: string)
    requires At(js, p, t) && Delimited(js, p + |t|)
    requires forall c <- t :: !IsDelimiter(c) && IsPrintable(c)
    ensures PrimitiveEnd(js, p) == p + |t|
    decreases |t|
  {
    if t != "" {
      assert js[p] == t[0];
      assert t == t[..1] + t[1..];
      AtSplit(js, p, t[..1], t[1..]);
      LiteralScan(js, p + 1, t[1..]);
    }
  }

  lemma {:induction false} BodyScan(js: string, p: nat, b: string)
    requires At(js, p, b) && IsBody(b) && p + |b| < |js| && js[p + |b|] == '\"'
    ensures StringEnd(js, p) == Closed(p + |b|)
    decreases |b|
  {
    if b != "" {
      var k := if b[0] == '\\' then 2 else 1;
      assert js[p] == b[0] && (k == 2 ==> js[p + 1] == b[1]);
      assert b == b[..k] + b[k..];
      AtSplit(js, p, b[..k], b[k..]);
      BodyScan(js, p + k, b[k..]);
    }
  }

  lemma RunNext(js: string, s: State, cap: nat)
    requires Valid(s) && s.pos < |js| && Step(js, s, cap).Next?
    ensures Run(js, s, cap) == Run(js, Step(js, s, cap).s, cap)
  {
  }

  lemma {:induction false} RunBlanks(js: string, s: State, cap: nat, b: string)
    requires Valid(s) && At(js, s.pos, b) && Blanks(b)
    ensures Run(js, s, cap) == Run(js, s.(pos := s.pos + |b|), cap)
    decreases |b|
  {
    hide Run, LastOpen, StringEnd, PrimitiveEnd;
    if b != "" {
      assert js[s.pos] == b[0] && b[0] in b;
      RunNext(js, s, cap);
      assert b == b[..1] + b[1..];
      AtSplit(js, s.pos, b[..1], b[1..]);
      RunBlanks(js, s.(pos := s.pos + 1), cap, b[1..]);
    }
  }

  /** Tokens all closed: what a finished value leaves behind. */
  ghost predicate AllClosed(toks: seq<Token>) {
    forall t <- toks :: t.start >= 0 && t.end != -1
  }

  lemma {:induction false} TokensClosed(v: Value, p: nat)
    ensures AllClosed(Tokens(v, p)) && Tokens(v, p) != []
    decreases v
  {
    if v.Box? {
      hide Print, AllTokens;
      AllTokensClosed(v.entries, p + 1 + |v.pad|);
    }
  }

  lemma {:induction false} AllTokensClosed(es: Entries, p: nat)
    ensures AllClosed(AllTokens(es, p))
    decreases es
  {
    if es.More? {
      hide Print, PrintAll, PrintName, Separator, Tokens;
      TokensClosed(es.value, ValueAt(es, p));
      AllTokensClosed(es.rest, RestAt(es, p));
      NameTokensClosed(es.name, p);
    }
  }

  lemma {:induction false} NameTokensClosed(n: Name, p: nat)
    ensures AllClosed(NameTokens(n, p))
  {
  }

  lemma {:induction false} EntryAt(js: string, p: nat, es: Entries)
    requires es.More? && At(js, p, PrintAll(es))
    ensures At(js, p, PrintName(es.name))
    ensures At(js, p + |PrintName(es.name)|, es.before)
    ensures At(js, ValueAt(es, p), Print(es.value))
    ensures At(js, ValueAt(es, p) + |Print(es.value)|, es.after)
    ensures At(js, ValueAt(es, p) + |Print(es.value)| + |es.after|, Separator(es.rest))
    ensures At(js, RestAt(es, p), PrintAll(es.rest))
    ensures RestAt(es, p) + |PrintAll(es.rest)| == p + |PrintAll(es)|
  {
    hide At, Print, PrintName;
    var More(n, b, v, a, rest) := es;
    var t4 := Separator(rest) + PrintAll(rest);
    var t3 := a + t4;
    var t2 := Print(v) + t3;
    var t1 := b + t2;
    assert PrintAll(es) == PrintName(n) + t1;
    AtSplit(js, p, PrintName(n), t1);
    AtSplit(js, p + |PrintName(n)|, b, t2);
    AtSplit(js, ValueAt(es, p), Print(v), t3);
    AtSplit(js, ValueAt(es, p) + |Print(v)|, a, t4);
    AtSplit(js, ValueAt(es, p) + |Print(v)| + |a|, Separator(rest), PrintAll(rest));
  }

  /** The state after a finished value or list of values: `n` more children for the superior token. */
  function After(s: State, width: nat, n: nat, toks: seq<Token>): State
    requires Valid(s)
  {
    State(s.pos + width, Bump(s.toks, s.super, n) + toks, s.super)
  }

  lemma AfterAfter(s: State, w: nat, n: nat, a: seq<Token>, w': nat, n': nat, b: seq<Token>)
    requires Valid(s)
    ensures After(After(s, w, n, a), w', n', b) == After(s, w + w', n + n', a + b)
  {
    if s.super == -1 {
      assert s.toks + a + b == s.toks + (a + b);
    } else {
      var l, r := After(After(s, w, n, a), w', n', b).toks, After(s, w + w', n + n', a + b).toks;
      assert |l| == |r|;
      assert forall i :: 0 <= i < |l| ==> l[i] == r[i];
      assert l == r;
    }
  }

  lemma AfterNothing(s: State, w: nat)
    requires Valid(s)
    ensures After(s, w, 0, []) == s.(pos := s.pos + w)
  {
    assert Bump(s.toks, s.super, 0) == s.toks;
  }

  lemma QuotedAt(js: string, p: nat, b: string)
    requires At(js, p, Quoted(b))
    ensures At(js, p + 1, b) && p + 1 + |b| < |js| && js[p] == '\"' && js[p + 1 + |b|] == '\"'
  {
    AtSplit(js, p, "\"", b + "\"");
    AtSplit(js, p + 1, b, "\"");
    assert "\"" + (b + "\"") == Quoted(b);
  }

  lemma {:induction false} RunText(js: string, s: State, cap: nat, b: string)
    requires Valid(s) && At(js, s.pos, Quoted(b)) && IsBody(b) && |s.toks| < cap
    ensures Run(js, s, cap) == Run(js, After(s, |b| + 2, 1, [Token(String, s.pos + 1, s.pos + 1 + |b|, 0)]), cap)
  {
    hide Run, LastOpen, PrimitiveEnd;
    QuotedAt(js, s.pos, b);
    BodyScan(js, s.pos + 1, b);
    RunNext(js, s, cap);
  }

  lemma {:induction false} RunLiteral(js: string, s: State, cap: nat, t: string)
    requires Valid(s) && At(js, s.pos, t) && IsLiteral(t) && |s.toks| < cap && Delimited(js, s.pos + |t|)
    ensures Run(js, s, cap) == Run(js, After(s, |t|, 1, [Token(Primitive, s.pos, s.pos + |t|, 0)]), cap)
  {
    hide Run, LastOpen, StringEnd;
    assert js[s.pos] == t[0] && t[0] in t;
    LiteralScan(js, s.pos, t);
    RunNext(js, s, cap);
  }

  /** Blanks, or the delimiter after them, may end a literal. */
  lemma BlanksDelimit(js: string, p: nat, b: string)
    requires At(js, p, b) && Blanks(b) && Delimited(js, p + |b|)
    ensures Delimited(js, p)
  {
    if b != "" {
      assert js[p] == b[0] && b[0] in b;
    }
  }

  /** The box opened at index `|before|`, all of whose tokens are closed, is the last open token. */
  lemma {:induction false} ClosesBox(before: seq<Token>, open: Token, toks: seq<Token>, end: int)
    requires IsOpen(open) && AllClosed(toks)
    ensures var all := before + [open] + toks;
            && LastOpen(all) == |before| && all[|before|] == open && all[..|before|] == before
            && all[|before| := open.(end := end)] == before + ([open.(end := end)] + toks)
  {
    hide LastOpen;
    var all, n := before + [open] + toks, |before|;
    forall j | n < j < |all| ensures !IsOpen(all[j]) {
      assert all[j] == toks[j - n - 1] && toks[j - n - 1] in toks;
    }
    LastOpenIs(all, n);
  }

  /** Closing that box. */
  lemma {:induction false} RunClose(js: string, s: State, cap: nat, outer: State, open: Token, toks: seq<Token>)
    requires Valid(outer) && outer.super == LastOpen(outer.toks)
    requires IsOpen(open) && AllClosed(toks) && IsContainer(open)
    requires s.toks == Bump(outer.toks, outer.super, 1) + [open] + toks && s.super == |outer.toks|
    requires s.pos < |js| && js[s.pos] == (if open.kind == Object then '}' else ']')
    ensures Run(js, s, cap) ==
            Run(js, State(s.pos + 1, Bump(outer.toks, outer.super, 1) + ([open.(end := s.pos + 1)] + toks),
                outer.super), cap)
  {
    hide Run, LastOpen, AllClosed, Bump, StringEnd, PrimitiveEnd;
    ClosesBox(Bump(outer.toks, outer.super, 1), open, toks, s.pos + 1);
    BumpSameSpans(outer.toks, outer.super, 1);
    RunNext(js, s, cap);
  }

  /** Reading one printed value, from any state whose superior token is its last open one. */
  lemma {:induction false} RunValue(js: string, s: State, cap: nat, v: Value)
    requires Valid(s) && s.super == LastOpen(s.toks)
    requires WellFormed(v) && At(js, s.pos, Print(v)) && Delimited(js, s.pos + |Print(v)|)
    requires |s.toks| + |Tokens(v, s.pos)| <= cap
    ensures Run(js, s, cap) == Run(js, After(s, |Print(v)|, 1, Tokens(v, s.pos)), cap)
    decreases v
  {
    hide Run, LastOpen, At;
    match v
    case Literal(t) => RunLiteral(js, s, cap, t);
    case Text(b) => RunText(js, s, cap, b);
    case Box(isObject, pad, es) => RunBox(js, s, cap, v);
  }

  lemma AtChar(js: string, p: nat, c: char)
    ensures At(js, p, [c]) <==> p < |js| && js[p] == c
  {
  }

  lemma {:induction false} BoxAt(js: string, p: nat, v: Value)
    requires v.Box? && At(js, p, Print(v))
    ensures p < |js| && js[p] == Opening(v.isObject)
    ensures At(js, p + 1, v.pad) && At(js, p + 1 + |v.pad|, PrintAll(v.entries))
    ensures |Print(v)| == 2 + |v.pad| + |PrintAll(v.entries)|
    ensures var q := p + 1 + |v.pad| + |PrintAll(v.entries)|; q < |js| && js[q] == Closing(v.isObject)
  {
    hide At, PrintAll, Opening, Closing;
    var l, r := [Opening(v.isObject)], [Closing(v.isObject)];
    AtSplit(js, p, l, v.pad + (PrintAll(v.entries) + r));
    AtSplit(js, p + 1, v.pad, PrintAll(v.entries) + r);
    AtSplit(js, p + 1 + |v.pad|, PrintAll(v.entries), r);
    AtChar(js, p, l[0]);
    AtChar(js, p + 1 + |v.pad| + |PrintAll(v.entries)|, r[0]);
  }

  lemma {:induction false} RunOpen(js: string, s: State, cap: nat)
    requires Valid(s) && s.pos < |js| && (js[s.pos] == '{' || js[s.pos] == '[') && |s.toks| < cap
    ensures var t := Token(KindOf(js[s.pos]), s.pos, -1, 0);
            var s' := State(s.pos + 1, Bump(s.toks, s.super, 1) + [t], |s.toks|);
            LastOpen(s'.toks) == s'.super && Run(js, s, cap) == Run(js, s', cap)
  {
    FramesAppend(Bump(s.toks, s.super, 1), Token(KindOf(js[s.pos]), s.pos, -1, 0));
  }

  /** A box: its bracket opens a token, which its entries fill and its closing bracket ends. */
  lemma {:induction false} RunBox(js: string, s: State, cap: nat, v: Value)
    requires Valid(s) && s.super == LastOpen(s.toks)
    requires v.Box? && WellFormed(v) && At(js, s.pos, Print(v))
    requires |s.toks| + |Tokens(v, s.pos)| <= cap
    ensures Run(js, s, cap) == Run(js, After(s, |Print(v)|, 1, Tokens(v, s.pos)), cap)
    decreases v, 0
  {
    hide Run, LastOpen, At, PrintAll, AllTokens, Blanks, AllWellFormed;
    var es, p, q := v.entries, s.pos, s.pos + 1 + |v.pad|;
    BoxAt(js, p, v);
    var open := Token(KindOf(js[p]), p, -1, 0);
    RunOpen(js, s, cap);
    var s1 := State(p + 1, Bump(s.toks, s.super, 1) + [open], |s.toks|);
    RunBlanks(js, s1, cap, v.pad);
    RunEntries(js, s1.(pos := q), cap, es, v.isObject);
    var counted := open.(size := Count(es));
    var s3 := After(s1.(pos := q), |PrintAll(es)|, Count(es), AllTokens(es, q));
    assert s3.toks == Bump(s.toks, s.super, 1) + [counted] + AllTokens(es, q);
    AllTokensClosed(es, q);
    RunClose(js, s3, cap, s, counted, AllTokens(es, q));
  }

  lemma {:induction false} NameAt(js: string, p: nat, n: Name)
    requires n.Named? && At(js, p, PrintName(n))
    ensures At(js, p, n.pre) && At(js, p + |n.pre|, Quoted(n.body))
    ensures At(js, p + |n.pre| + |n.body| + 2, n.post)
    ensures At(js, p + |PrintName(n)| - 1, ":")
    ensures |PrintName(n)| == |n.pre| + |n.body| + |n.post| + 3
  {
    hide At;
    AtSplit(js, p, n.pre, Quoted(n.body) + (n.post + ":"));
    AtSplit(js, p + |n.pre|, Quoted(n.body), n.post + ":");
    AtSplit(js, p + |n.pre| + |Quoted(n.body)|, n.post, ":");
  }

  lemma {:induction false} RunName(js: string, s: State, cap: nat, n: Name)
    requires Valid(s) && At(js, s.pos, PrintName(n)) && |s.toks| + |NameTokens(n, s.pos)| <= cap
    requires n.Named? ==> Blanks(n.pre) && IsBody(n.body) && Blanks(n.post)
    ensures Run(js, s, cap) ==
            Run(js, After(s, |PrintName(n)|, if n.Named? then 1 else 0, NameTokens(n, s.pos)), cap)
  {
    hide Run, At, Blanks, Quoted;
    if n == NoName {
      AfterNothing(s, 0);
    } else {
      var p := s.pos;
      NameAt(js, p, n);
      RunBlanks(js, s, cap, n.pre);
      RunText(js, s.(pos := p + |n.pre|), cap, n.body);
      var s2 := After(s, |n.pre| + |n.body| + 2, 1, NameTokens(n, p));
      RunBlanks(js, s2, cap, n.post);
      RunPunctuation(js, s2.(pos := s2.pos + |n.post|), cap, ":");
    }
  }

  /** Reading the entries of a box whose token is superior, up to its closing bracket. */
  lemma {:induction false} RunEntries(js: string, s: State, cap: nat, es: Entries, named: bool)
    requires Valid(s) && s.super == LastOpen(s.toks)
    requires AllWellFormed(es, named) && At(js, s.pos, PrintAll(es)) && Delimited(js, s.pos + |PrintAll(es)|)
    requires |s.toks| + |AllTokens(es, s.pos)| <= cap
    ensures Run(js, s, cap) == Run(js, After(s, |PrintAll(es)|, Count(es), AllTokens(es, s.pos)), cap)
    decreases es
  {
    hide Run, LastOpen, At, Print, PrintName, Tokens, EntryTokens, NameTokens, Blanks, Delimited, RestAt;
    if es == NoEntries {
      AfterNothing(s, 0);
    } else {
      var p := s.pos;
      assert AllTokens(es, p) == EntryTokens(es, p) + AllTokens(es.rest, RestAt(es, p));
      assert AllWellFormed(es.rest, named) && Count(es) == EntryCount(es) + Count(es.rest);
      hide PrintAll, AllTokens, AllWellFormed, Count, EntryCount;
      EntryAt(js, p, es);
      RunEntry(js, s, cap, es, named);
      var s1 := After(s, RestAt(es, p) - p, EntryCount(es), EntryTokens(es, p));
      RunEntries(js, s1, cap, es.rest, named);
      AfterAfter(s, RestAt(es, p) - p, EntryCount(es), EntryTokens(es, p),
                 |PrintAll(es.rest)|, Count(es.rest), AllTokens(es.rest, RestAt(es, p)));
    }
  }

  /** One entry and the comma after it, if any. */
  lemma {:induction false} RunEntry(js: string, s: State, cap: nat, es: Entries, named: bool)
    requires Valid(s) && s.super == LastOpen(s.toks) && es.More?
    requires AllWellFormed(es, named) && At(js, s.pos, PrintAll(es)) && Delimited(js, s.pos + |PrintAll(es)|)
    requires |s.toks| + |EntryTokens(es, s.pos)| <= cap
    ensures var s1 := After(s, RestAt(es, s.pos) - s.pos, EntryCount(es), EntryTokens(es, s.pos));
            s1.super == LastOpen(s1.toks) && Run(js, s, cap) == Run(js, s1, cap)
    decreases es, 0
  {
    hide Run, LastOpen, At, Print, PrintName, PrintAll, Tokens, NameTokens, Blanks, Delimited;
    var More(n, b, v, a, rest) := es;
    var p, k := s.pos, if n.Named? then 1 else 0;
    EntryAt(js, p, es);
    RunName(js, s, cap, n);
    var s1 := After(s, |PrintName(n)|, k, NameTokens(n, p));
    RunBlanks(js, s1, cap, b);
    NameTokensClosed(n, p);
    AfterSuper(s, |PrintName(n)|, k, NameTokens(n, p));
    EntryDelimits(js, p, es);
    var s2 := s1.(pos := ValueAt(es, p));
    RunValue(js, s2, cap, v);
    var s3 := After(s2, |Print(v)|, 1, Tokens(v, ValueAt(es, p)));
    RunBlanks(js, s3, cap, a);
    RunPunctuation(js, s3.(pos := s3.pos + |a|), cap, Separator(rest));
    TokensClosed(v, ValueAt(es, p));
    AfterSuper(s2, |Print(v)|, 1, Tokens(v, ValueAt(es, p)));
    AfterAfter(s, |PrintName(n)|, k, NameTokens(n, p), RestAt(es, p) - p - |PrintName(n)|, 1,
        Tokens(v, ValueAt(es, p)));
  }

  /** The whitespace, comma or closing bracket after a value may end a literal. */
  lemma {:induction false} EntryDelimits(js: string, p: nat, es: Entries)
    requires es.More? && At(js, p, PrintAll(es)) && Blanks(es.after) && Delimited(js, p + |PrintAll(es)|)
    ensures Delimited(js, ValueAt(es, p) + |Print(es.value)|)
  {
    hide Print, PrintName, At, PrintAll, ValueAt, RestAt, Blanks, Separator, Delimited;
    EntryAt(js, p, es);
    var q := ValueAt(es, p) + |Print(es.value)| + |es.after|;
    SeparatorDelimits(js, p, q, es);
    BlanksDelimit(js, q - |es.after|, es.after);
  }

  lemma SeparatorDelimits(js: string, p: nat, q: nat, es: Entries)
    requires es.More? && At(js, q, Separator(es.rest)) && q == ValueAt(es, p) + |Print(es.value)| + |es.after|
    requires RestAt(es, p) + |PrintAll(es.rest)| == p + |PrintAll(es)| && Delimited(js, p + |PrintAll(es)|)
    ensures Delimited(js, q)
  {
    hide At, PrintAll, Print, RestAt, ValueAt, PrintName;
    if es.rest.More? {
      AtChar(js, q, ',');
    } else {
      LastRest(es, p);
    }
  }

  lemma LastRest(es: Entries, p: nat)
    requires es.More? && es.rest == NoEntries
    ensures RestAt(es, p) == ValueAt(es, p) + |Print(es.value)| + |es.after| && |PrintAll(es.rest)| == 0
  {
    hide Print, PrintName, ValueAt;
  }

  lemma {:induction false} RunPunctuation(js: string, s: State, cap: nat, sep: string)
    requires Valid(s) && At(js, s.pos, sep) && (sep == "" || sep == "," || sep == ":")
    ensures Run(js, s, cap) == Run(js, s.(pos := s.pos + |sep|), cap)
  {
    if sep != "" {
      assert js[s.pos] == sep[0];
      assert Step(js, s, cap) == Next(s.(pos := s.pos + 1));
    }
  }

  /** Finished values leave the superior token the last open one. */
  lemma {:induction false} AfterSuper(s: State, w: nat, n: nat, toks: seq<Token>)
    requires Valid(s) && s.super == LastOpen(s.toks) && AllClosed(toks)
    ensures LastOpen(After(s, w, n, toks).toks) == s.super
  {
    var r := After(s, w, n, toks).toks;
    BumpSameSpans(s.toks, s.super, n);
    var b := Bump(s.toks, s.super, n);
    forall j | s.super < j < |r| ensures !IsOpen(r[j]) {
      if j >= |b| {
        assert r[j] == toks[j - |b|] && toks[j - |b|] in toks;
      } else {
        assert r[j] == b[j];
      }
    }
    if s.super != -1 {
      assert r[s.super] == b[s.super];
    }
    LastOpenIs(r, s.super);
  }

  /** A JSON text: one value with whitespace around it. */
  function Document(pre: string, v: Value, post: string): string {
    pre + (Print(v) + post)
  }

  /** Tokenizing a JSON text succeeds, with exactly the preorder token list of its value. */
  lemma {:induction false} Tokenizes(pre: string, v: Value, post: string, cap: nat)
    requires Blanks(pre) && WellFormed(v) && Blanks(post) && |Tokens(v, |pre|)| <= cap
    ensures Run(Document(pre, v, post), INIT, cap) ==
            (Success, State(|Document(pre, v, post)|, Tokens(v, |pre|), -1))
  {
    hide Run, Step, Print, Tokens, WellFormed, Blanks, LastOpen;
    var js, toks := Document(pre, v, post), Tokens(v, |pre|);
    DocumentAt(pre, v, post);
    RunBlanks(js, INIT, cap, pre);
    BlanksDelimit(js, |pre| + |Print(v)|, post);
    var s1 := State(|pre|, [], -1);
    RunValue(js, s1, cap, v);
    assert After(s1, |Print(v)|, 1, toks).toks == toks;
    RunBlanks(js, State(|pre| + |Print(v)|, toks, -1), cap, post);
    TokensClosed(v, |pre|);
    RunEnd(js, State(|js|, toks, -1), cap);
  }

  lemma {:induction false} DocumentAt(pre: string, v: Value, post: string)
    ensures var js := Document(pre, v, post);
            At(js, 0, pre) && At(js, |pre|, Print(v)) && At(js, |pre| + |Print(v)|, post)
  {
    hide Print;
    var js := Document(pre, v, post);
    assert js[0..0 + |js|] == js;
    AtSplit(js, 0, pre, Print(v) + post);
    AtSplit(js, |pre|, Print(v), post);
  }

  lemma {:induction false} RunEnd(js: string, s: State, cap: nat)
    requires s.pos == |js| && s.super == -1 && AllClosed(s.toks)
    ensures Run(js, s, cap) == (Success, s)
  {
    forall j | 0 <= j < |s.toks| ensures !IsOpen(s.toks[j]) {
      assert s.toks[j] in s.toks;
    }
    LastOpenIs(s.toks, -1);
  }

  /** A value without its whitespace; an object's children are its names and values in turn. */
  datatype Tree = Leaf(isString: bool, text: string) | Node(isObject: bool, kids: Trees)

  datatype Trees = End | Kid(head: Tree, tail: Trees)

  function Strip(v: Value): Tree {
    match v
    case Literal(t) => Leaf(false, t)
    case Text(b) => Leaf(true, b)
    case Box(isObject, _, es) => Node(isObject, StripAll(es))
  }

  function StripAll(es: Entries): Trees {
    match es
    case NoEntries => End
    case More(n, _, v, _, rest) =>
      var tail := Kid(Strip(v), StripAll(rest));
      if n.Named? then Kid(Leaf(true, n.body), tail) else tail
  }

  datatype Reading<T> = Bad | Good(value: T, next: nat)

  /** A consumer of tokens that steers by sizes alone: the tree at token `i` and the index after it. */
  function Read(js: string, toks: seq<Token>, i: nat): (r: Reading<Tree>)
    ensures r.Good? ==> i < r.next <= |toks|
    decreases |toks| - i, 0, 0
  {
    if i >= |toks| then Bad
    else if IsContainer(toks[i]) then
      match ReadMany(js, toks, i + 1, toks[i].size)
      case Bad => Bad
      case Good(kids, next) => Good(Node(toks[i].kind == Object, kids), next)
    else if 0 <= toks[i].start <= toks[i].end <= |js| then
      Good(Leaf(toks[i].kind == String, js[toks[i].start..toks[i].end]), i + 1)
    else Bad
  }

  function ReadMany(js: string, toks: seq<Token>, i: nat, n: int): (r: Reading<Trees>)
    requires i <= |toks|
    ensures r.Good? ==> i <= r.next <= |toks|
    decreases |toks| - i, 1, n
  {
    if n <= 0 then Good(End, i)
    else
      match Read(js, toks, i)
      case Bad => Bad
      case Good(t, j) =>
        match ReadMany(js, toks, j, n - 1)
        case Bad => Bad
        case Good(rest, k) => Good(Kid(t, rest), k)
  }

  lemma {:induction false} ReadText(js: string, toks: seq<Token>, i: nat, b: string, p: nat)
    requires At(js, p, Quoted(b)) && At(toks, i, [Token(String, p + 1, p + 1 + |b|, 0)])
    ensures Read(js, toks, i) == Good(Leaf(true, b), i + 1)
  {
    QuotedAt(js, p, b);
    assert toks[i] == toks[i..i + 1][0];
  }

  lemma {:induction false} ReadValue(js: string, toks: seq<Token>, i: nat, v: Value, p: nat)
    requires At(js, p, Print(v)) && At(toks, i, Tokens(v, p))
    ensures Read(js, toks, i) == Good(Strip(v), i + |Tokens(v, p)|)
    decreases v, 1
  {
    match v
    case Literal(t) =>
      assert Tokens(v, p) == [Token(Primitive, p, p + |t|, 0)] && Print(v) == t;
      hide At, Tokens, Print, Read;
      ReadLiteral(js, toks, i, t, p);
    case Text(b) =>
      assert Tokens(v, p) == [Token(String, p + 1, p + 1 + |b|, 0)] && Print(v) == Quoted(b);
      hide At, Tokens, Print, Read, Quoted;
      ReadText(js, toks, i, b, p);
    case Box(_, _, _) => ReadBox(js, toks, i, v, p);
  }

  lemma {:induction false} ReadBox(js: string, toks: seq<Token>, i: nat, v: Value, p: nat)
    requires v.Box? && At(js, p, Print(v)) && At(toks, i, Tokens(v, p))
    ensures Read(js, toks, i) == Good(Strip(v), i + |Tokens(v, p)|)
    decreases v, 0
  {
    var es, q := v.entries, p + 1 + |v.pad|;
    assert |Tokens(v, p)| == 1 + |AllTokens(es, q)|;
    hide Print, PrintAll, At, AllTokens, ReadMany, Tokens;
    BoxAt(js, p, v);
    BoxTokenAt(toks, i, v, p);
    ReadEntries(js, toks, i + 1, es, q);
  }

  lemma ReadLiteral(js: string, toks: seq<Token>, i: nat, t: string, p: nat)
    requires At(js, p, t) && At(toks, i, [Token(Primitive, p, p + |t|, 0)])
    ensures Read(js, toks, i) == Good(Leaf(false, t), i + 1)
  {
    assert toks[i] == toks[i..i + 1][0];
  }

  lemma {:induction false} BoxTokenAt(toks: seq<Token>, i: nat, v: Value, p: nat)
    requires v.Box? && At(toks, i, Tokens(v, p))
    ensures i < |toks| && toks[i] == Token(if v.isObject then Object else Array, p, p + |Print(v)|, Count(v.entries))
    ensures At(toks, i + 1, AllTokens(v.entries, p + 1 + |v.pad|))
  {
    hide Print, AllTokens;
    AtSplit(toks, i, [Tokens(v, p)[0]], AllTokens(v.entries, p + 1 + |v.pad|));
    assert toks[i] == toks[i..i + 1][0];
  }

  lemma ReadKid(js: string, toks: seq<Token>, i: nat, n: nat)
    requires i <= |toks| && n > 0 && Read(js, toks, i).Good?
    ensures var Good(t, j) := Read(js, toks, i);
            ReadMany(js, toks, i, n) ==
            match ReadMany(js, toks, j, n - 1)
            case Bad => Bad
            case Good(rest, k) => Good(Kid(t, rest), k)
  {
  }

  lemma {:induction false} EntryTokensAt(toks: seq<Token>, i: nat, es: Entries, p: nat)
    requires es.More? && At(toks, i, AllTokens(es, p))
    ensures At(toks, i, NameTokens(es.name, p))
    ensures At(toks, i + |NameTokens(es.name, p)|, Tokens(es.value, ValueAt(es, p)))
    ensures At(toks, i + |EntryTokens(es, p)|, AllTokens(es.rest, RestAt(es, p)))
    ensures |AllTokens(es, p)| == |EntryTokens(es, p)| + |AllTokens(es.rest, RestAt(es, p))|
  {
    hide At, Tokens, NameTokens, RestAt, ValueAt;
    AtSplit(toks, i, EntryTokens(es, p), AllTokens(es.rest, RestAt(es, p)));
    AtSplit(toks, i, NameTokens(es.name, p), Tokens(es.value, ValueAt(es, p)));
  }

  lemma {:induction false} ReadEntries(js: string, toks: seq<Token>, i: nat, es: Entries, p: nat)
    requires At(js, p, PrintAll(es)) && At(toks, i, AllTokens(es, p))
    ensures ReadMany(js, toks, i, Count(es)) == Good(StripAll(es), i + |AllTokens(es, p)|)
    decreases es, 1
  {
    hide At, Print, PrintAll, PrintName, Tokens, Read, RestAt;
    if es == NoEntries {
    } else {
      assert |EntryTokens(es, p)| == |NameTokens(es.name, p)| + |Tokens(es.value, ValueAt(es, p))|;
      assert StripAll(es) == WithName(es.name, Kid(Strip(es.value), StripAll(es.rest)));
      assert Count(es) == (if es.name.Named? then 1 else 0) + 1 + Count(es.rest);
      hide AllTokens, ReadMany, StripAll, Strip, NameTokens, EntryTokens, WithName, ValueAt, Count;
      var n, k := es.name, |NameTokens(es.name, p)|;
      EntryAt(js, p, es);
      EntryTokensAt(toks, i, es, p);
      ReadValue(js, toks, i + k, es.value, ValueAt(es, p));
      ReadEntries(js, toks, i + |EntryTokens(es, p)|, es.rest, RestAt(es, p));
      ReadKid(js, toks, i + k, 1 + Count(es.rest));
      ReadName(js, toks, i, n, p, 1 + Count(es.rest));
    }
  }

  function WithName(n: Name, rest: Trees): Trees {
    if n.Named? then Kid(Leaf(true, n.body), rest) else rest
  }

  /** A name, if there is one, comes before what is read after it. */
  lemma ReadName(js: string, toks: seq<Token>, i: nat, n: Name, p: nat, count: nat)
    requires At(js, p, PrintName(n)) && At(toks, i, NameTokens(n, p))
    requires i + |NameTokens(n, p)| <= |toks| && ReadMany(js, toks, i + |NameTokens(n, p)|, count).Good?
    ensures var r := ReadMany(js, toks, i + |NameTokens(n, p)|, count);
            ReadMany(js, toks, i, count + (if n.Named? then 1 else 0)) == Good(WithName(n, r.value), r.next)
  {
    hide At, Read, PrintName, ReadMany;
    if n.Named? {
      assert NameTokens(n, p) == [Token(String, p + |n.pre| + 1, p + |n.pre| + 1 + |n.body|, 0)];
      hide NameTokens;
      NameAt(js, p, n);
      ReadText(js, toks, i, n.body, p + |n.pre|);
      ReadKid(js, toks, i, count + 1);
    }
  }

  /** From text to tokens and back to the tree, for every JSON text and every large enough token array. */
  lemma {:induction false} RoundTrip(pre: string, v: Value, post: string, cap: nat)
    requires Blanks(pre) && WellFormed(v) && Blanks(post) && |Tokens(v, |pre|)| <= cap
    ensures var js := Document(pre, v, post);
            var (code, s) := Run(js, INIT, cap);
            code == Success && Read(js, s.toks, 0) == Good(Strip(v), |s.toks|)
  {
    hide Print, Tokens, Run, Read;
    Tokenizes(pre, v, post, cap);
    DocumentAt(pre, v, post);
    var toks := Tokens(v, |pre|);
    assert toks[0..0 + |toks|] == toks;
    ReadValue(Document(pre, v, post), toks, 0, v, |pre|);
  }

  /** A value has no more tokens than bytes. */
  lemma {:induction false} TokensFit(v: Value, p: nat)
    requires WellFormed(v)
    ensures |Tokens(v, p)| <= |Print(v)|
    decreases v
  {
    if v.Box? {
      AllTokensFit(v.entries, p + 1 + |v.pad|, v.isObject);
    }
  }

  lemma {:induction false} AllTokensFit(es: Entries, p: nat, named: bool)
    requires AllWellFormed(es, named)
    ensures |AllTokens(es, p)| <= |PrintAll(es)|
    decreases es
  {
    if es.More? {
      hide Print, Tokens;
      TokensFit(es.value, ValueAt(es, p));
      AllTokensFit(es.rest, RestAt(es, p), named);
    }
  }
}
