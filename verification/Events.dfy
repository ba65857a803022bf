/**
 The event-file reader: a walk over the tokens of a JSON file, steered by the size fields.

 An event is the list of its (field name, value) texts; what the callback makes of it is a parameter.
 Reading a token past the end of the list counts as a failed expectation.
 */
module Events {
  import opened Basics
  import opened Jsmn
  import opened JsmnRoundTrip

  type Fields = seq<(string, string)>

  /** What the callback returns, given the number of earlier calls and the event. */
  type Callback = (nat, Fields) -> int

  const EIO := 5

  function Lower(c: char): char {
    if 'A' <= c <= 'Z' then c + 32 as char else c
  }

  /** Equality of names ignores case. */
  predicate SameName(a: string, b: string) {
    |a| == |b| && forall i :: 0 <= i < |a| ==> Lower(a[i]) == Lower(b[i])
  }

  predicate HasName(fs: Fields) {
    exists i :: 0 <= i < |fs| && SameName(fs[i].0, "EventName")
  }

  function TextOf(js: string, t: Token): string {
    if 0 <= t.start <= t.end <= |js| then js[t.start..t.end] else ""
  }

  predicate IsString(toks: seq<Token>, i: nat) {
    i < |toks| && toks[i].kind == String
  }

  /** The fields read from token `tok` on while `j`, going up by two, is below `size`. */
  function FieldsFrom(js: string, toks: seq<Token>, tok: nat, j: nat, size: int): Option<Fields>
    decreases size - j
  {
    if j >= size then Some([])
    else if !IsString(toks, tok + j) || !IsString(toks, tok + j + 1) then None
    else
      match FieldsFrom(js, toks, tok, j + 2, size)
      case None => None
      case Some(fs) => Some([(TextOf(js, toks[tok + j]), TextOf(js, toks[tok + j + 1]))] + fs)
  }

  /** `size` rounded up to even: how far the cursor moves over an object's fields. */
  function Width(size: int): nat {
    if size <= 0 then 0 else size + size % 2
  }

  datatype Result = Result(err: int, calls: seq<Fields>)

  /** The loop over the `n` objects still to come, with the last error code and the calls made so far. */
  function Walk(js: string, toks: seq<Token>, reply: Callback, tok: nat, n: int, last: Result): Result
    decreases n
  {
    if n <= 0 then if tok == |toks| then last.(err := 0) else last
    else if tok >= |toks| || toks[tok].kind != Object then last
    else
      match FieldsFrom(js, toks, tok + 1, 0, toks[tok].size)
      case None => last
      case Some(fs) =>
        var now := if HasName(fs) then Result(reply(|last.calls|, fs), last.calls + [fs]) else last.(err := -EIO);
        if now.err != 0 then (if tok + 1 == |toks| then now.(err := 0) else now)
        else Walk(js, toks, reply, tok + 1 + Width(toks[tok].size), n - 1, now)
  }

  function JsonEvents(js: string, toks: seq<Token>, reply: Callback): Result {
    if toks == [] || toks[0].kind != Array then Result(-EIO, [])
    else Walk(js, toks, reply, 1, toks[0].size, Result(-EIO, []))
  }

  method FindName(fs: Fields) returns (found: bool)
    ensures found <==> HasName(fs)
  {
    for i := 0 to |fs|
      invariant forall k :: 0 <= k < i ==> !SameName(fs[k].0, "EventName")
    {
      if SameName(fs[i].0, "EventName") {
        return true;
      }
    }
    return false;
  }

  /** A field is the event's name if it is "EventName" in any mixture of cases. */
  lemma NameIs(fs: Fields)
    ensures HasName(fs) <==> exists i :: 0 <= i < |fs| && Spells(fs[i].0)
  {
    forall i | 0 <= i < |fs| ensures SameName(fs[i].0, "EventName") == Spells(fs[i].0) {
      SpellsName(fs[i].0);
    }
  }

  predicate Spells(a: string) {
    |a| == 9 && forall k :: 0 <= k < 9 ==> a[k] == "EventName"[k] || a[k] == "eVENTnAME"[k]
  }

  lemma SpellsName(a: string)
    ensures SameName(a, "EventName") == Spells(a)
  {
    if |a| == 9 {
      forall k | 0 <= k < 9
        ensures Lower(a[k]) == Lower("EventName"[k]) <==> a[k] == "EventName"[k] || a[k] == "eVENTnAME"[k]
      {
        SpellsLetter(a[k], k);
      }
    }
  }

  lemma SpellsLetter(c: char, k: nat)
    requires k < 9
    ensures Lower(c) == Lower("EventName"[k]) <==> c == "EventName"[k] || c == "eVENTnAME"[k]
  {
    var u, l := "EventName"[k], "eVENTnAME"[k];
    assert ('a' <= u <= 'z' && l as int == u as int - 32) || ('A' <= u <= 'Z' && l as int == u as int + 32);
  }

  lemma FieldsAppend(js: string, toks: seq<Token>, tok: nat, j: nat, size: int, head: Fields, all: Option<Fields>)
    requires j < size && IsString(toks, tok + j) && IsString(toks, tok + j + 1)
    requires all == match FieldsFrom(js, toks, tok, j, size)
                    case None => None
                    case Some(fs) => Some(head + fs)
    ensures all == match FieldsFrom(js, toks, tok, j + 2, size)
                   case None => None
                   case Some(fs) => Some(head + [(TextOf(js, toks[tok + j]), TextOf(js, toks[tok + j + 1]))] + fs)
  {
    var pair := [(TextOf(js, toks[tok + j]), TextOf(js, toks[tok + j + 1]))];
    match FieldsFrom(js, toks, tok, j + 2, size)
    case None =>
    case Some(fs) => assert head + (pair + fs) == head + pair + fs;
  }

  /** The inner loop over one object; `width` is the final value of its index. */
  method ReadFields(js: string, toks: seq<Token>, tok: nat, size: int) returns (fs: Option<Fields>, width: nat)
    ensures fs == FieldsFrom(js, toks, tok, 0, size)
    ensures fs.Some? ==> width == Width(size)
  {
    var j, acc := 0, [];
    ghost var all := FieldsFrom(js, toks, tok, 0, size);
    assert all.Some? ==> [] + all.value == all.value;
    while j < size
      invariant j % 2 == 0 && j <= Width(size)
      invariant all == match FieldsFrom(js, toks, tok, j, size)
                       case None => None
                       case Some(rest) => Some(acc + rest)
    {
      if !IsString(toks, tok + j) || !IsString(toks, tok + j + 1) {
        return None, j;
      }
      FieldsAppend(js, toks, tok, j, size, acc, all);
      acc := acc + [(TextOf(js, toks[tok + j]), TextOf(js, toks[tok + j + 1]))];
      j := j + 2;
    }
    assert acc + [] == acc;
    return Some(acc), j;
  }

  method ReadEvents(js: string, toks: seq<Token>, reply: Callback) returns (r: Result)
    ensures r == JsonEvents(js, toks, reply)
  {
    r := Result(-EIO, []);
    if toks == [] || toks[0].kind != Array {
      return;
    }
    var tok: nat, i := 1, 0;
    while i < toks[0].size
      invariant 0 <= i && (i <= toks[0].size || i == 0)
      invariant JsonEvents(js, toks, reply) == Walk(js, toks, reply, tok, toks[0].size - i, r)
    {
      if tok >= |toks| || toks[tok].kind != Object {
        return;
      }
      var size := toks[tok].size;
      tok := tok + 1;
      var fs, j := ReadFields(js, toks, tok, size);
      if fs == None {
        return;
      }
      var named := FindName(fs.value);
      r := r.(err := -EIO);
      if named {
        r := Result(reply(|r.calls|, fs.value), r.calls + [fs.value]);
      }
      if r.err != 0 {
        break;
      }
      tok := tok + j;
      i := i + 1;
    }
    if tok != |toks| {
      return;
    }
    r := r.(err := 0);
  }

  predicate FlatMembers(es: Entries) {
    es == NoEntries || (es.name.Named? && es.value.Text? && FlatMembers(es.rest))
  }

  /** An object from strings to strings. */
  predicate FlatObject(v: Value) {
    v.Box? && v.isObject && FlatMembers(v.entries)
  }

  function Pairs(es: Entries): Fields
    requires FlatMembers(es)
  {
    if es == NoEntries then [] else [(es.name.body, es.value.body)] + Pairs(es.rest)
  }

  /**
   What reading an array does: one call for each object in order, up to the first element that is not a
   flat object, has no name, or is answered by an error; `all` says that no token follows the array. Three cases
   are odd. An empty last object reads as success, because the walk ends where the tokens end. An element that is
   not a flat object leaves the code of the call before it, which is 0, and -EIO only when there was no call. So do
   tokens that follow the array.
   */
  function Expected(es: Entries, reply: Callback, calls: seq<Fields>, all: bool): Result {
    if es == NoEntries then Result(if all || calls != [] then 0 else -EIO, calls)
    else if !FlatObject(es.value) then Result(if calls == [] then -EIO else 0, calls)
    else
      var fs := Pairs(es.value.entries);
      if !HasName(fs) then Result(if all && es.rest == NoEntries && fs == [] then 0 else -EIO, calls)
      else
        var err, calls' := reply(|calls|, fs), calls + [fs];
        if err != 0 then Result(err, calls') else Expected(es.rest, reply, calls', all)
  }

  lemma {:induction false} EvenCount(es: Entries)
    requires FlatMembers(es)
    ensures Count(es) == 2 * |Pairs(es)|
  {
    if es.More? {
      EvenCount(es.rest);
    }
  }

  /** The first token of a value shows whether it is a string. */
  lemma KindOfValue(toks: seq<Token>, i: nat, v: Value, p: nat)
    requires At(toks, i, Tokens(v, p))
    ensures i < |toks| && (toks[i].kind == String <==> v.Text?)
    ensures toks[i].kind == Object <==> v.Box? && v.isObject
  {
    hide AllTokens;
    assert toks[i] == toks[i..i + |Tokens(v, p)|][0];
  }

  lemma NameToken(js: string, toks: seq<Token>, i: nat, n: Name, p: nat)
    requires n.Named? && At(js, p, PrintName(n)) && At(toks, i, NameTokens(n, p))
    ensures |NameTokens(n, p)| == 1 && IsString(toks, i) && TextOf(js, toks[i]) == n.body
  {
    assert NameTokens(n, p) == [Token(String, p + |n.pre| + 1, p + |n.pre| + 1 + |n.body|, 0)];
    hide At, PrintName, NameTokens, IsString, TextOf, Quoted;
    NameAt(js, p, n);
    TextToken(js, toks, i, n.body, p + |n.pre|);
  }

  lemma ValueToken(js: string, toks: seq<Token>, i: nat, v: Value, p: nat)
    requires v.Text? && At(js, p, Print(v)) && At(toks, i, Tokens(v, p))
    ensures |Tokens(v, p)| == 1 && IsString(toks, i) && TextOf(js, toks[i]) == v.body
  {
    assert Tokens(v, p) == [Token(String, p + 1, p + 1 + |v.body|, 0)] && Print(v) == Quoted(v.body);
    hide At, Print, Tokens, IsString, TextOf, Quoted;
    TextToken(js, toks, i, v.body, p);
  }

  /** The tokens of one member: its name, then its value. */
  lemma {:induction false} MemberTokens(js: string, toks: seq<Token>, i: nat, es: Entries, p: nat)
    requires es.More? && es.name.Named?
    requires At(js, p, PrintAll(es)) && At(toks, i, AllTokens(es, p))
    ensures IsString(toks, i) && (IsString(toks, i + 1) <==> es.value.Text?)
    ensures es.value.Text? ==>
              && TextOf(js, toks[i]) == es.name.body && TextOf(js, toks[i + 1]) == es.value.body
              && At(js, RestAt(es, p), PrintAll(es.rest)) && At(toks, i + 2, AllTokens(es.rest, RestAt(es, p)))
              && |AllTokens(es, p)| == 2 + |AllTokens(es.rest, RestAt(es, p))|
  {
    assert |EntryTokens(es, p)| == |NameTokens(es.name, p)| + |Tokens(es.value, ValueAt(es, p))|;
    hide At, PrintAll, Print, PrintName, AllTokens, EntryTokens, Tokens, NameTokens, ValueAt, RestAt, TextOf;
    EntryAt(js, p, es);
    EntryTokensAt(toks, i, es, p);
    NameToken(js, toks, i, es.name, p);
    KindOfValue(toks, i + 1, es.value, ValueAt(es, p));
    if es.value.Text? {
      ValueToken(js, toks, i + 1, es.value, ValueAt(es, p));
    }
  }

  lemma {:induction false} TextToken(js: string, toks: seq<Token>, i: nat, b: string, p: nat)
    requires At(js, p, Quoted(b)) && At(toks, i, [Token(String, p + 1, p + 1 + |b|, 0)])
    ensures IsString(toks, i) && TextOf(js, toks[i]) == b
  {
    QuotedAt(js, p, b);
    assert toks[i] == toks[i..i + 1][0];
  }

  /** Reading members gives their pairs, or stops at the first value that is not a string. */
  lemma {:induction false} FieldsOfMembers(js: string, toks: seq<Token>, tok: nat, j: nat, size: nat, es: Entries,
      p: nat)
    requires AllWellFormed(es, true) && size == j + Count(es)
    requires At(js, p, PrintAll(es)) && At(toks, tok + j, AllTokens(es, p))
    ensures FieldsFrom(js, toks, tok, j, size) == if FlatMembers(es) then Some(Pairs(es)) else None
    ensures FlatMembers(es) ==> |AllTokens(es, p)| == Count(es)
    decreases es
  {
    hide At, PrintAll, TextOf, Tokens, NameTokens, RestAt, ValueAt;
    if es.More? {
      assert es.name.Named? && AllWellFormed(es.rest, true);
      hide AllWellFormed;
      MemberTokens(js, toks, tok + j, es, p);
      if es.value.Text? {
        hide AllTokens, IsString;
        FieldsOfMembers(js, toks, tok, j + 2, size, es.rest, RestAt(es, p));
      }
    }
  }

  /** The object at the cursor: its token, its fields and its width. */
  lemma {:induction false} ObjectFields(js: string, toks: seq<Token>, tok: nat, v: Value, p: nat)
    requires v.Box? && v.isObject && WellFormed(v)
    requires At(js, p, Print(v)) && At(toks, tok, Tokens(v, p))
    ensures tok < |toks| && toks[tok].kind == Object && toks[tok].size >= 0
    ensures FieldsFrom(js, toks, tok + 1, 0, toks[tok].size) == if FlatObject(v) then Some(Pairs(v.entries)) else None
    ensures FlatObject(v) ==> toks[tok].size == 2 * |Pairs(v.entries)| && |Tokens(v, p)| == 1 + 2 * |Pairs(v.entries)|
  {
    var q := p + 1 + |v.pad|;
    assert |Tokens(v, p)| == 1 + |AllTokens(v.entries, q)|;
    hide At, PrintAll, Print, AllTokens, FieldsFrom, Tokens, Pairs, AllWellFormed, FlatMembers, Count;
    BoxAt(js, p, v);
    BoxTokenAt(toks, tok, v, p);
    FieldsOfMembers(js, toks, tok + 1, 0, Count(v.entries), v.entries, q);
    if FlatObject(v) {
      EvenCount(v.entries);
    }
  }

  lemma NamedIsNotEmpty(fs: Fields)
    ensures HasName(fs) ==> fs != []
  {
  }

  /** The element at the cursor: its kind, its fields if it is an object, and what comes behind it. */
  lemma {:induction false} ElementAt(js: string, toks: seq<Token>, tok: nat, es: Entries, p: nat)
    requires es.More? && AllWellFormed(es, false) && At(js, p, PrintAll(es)) && At(toks, tok, AllTokens(es, p))
    ensures tok < |toks| && (toks[tok].kind == Object <==> es.value.Box? && es.value.isObject)
    ensures AllWellFormed(es.rest, false) && At(js, RestAt(es, p), PrintAll(es.rest))
    ensures toks[tok].kind == Object ==>
              && toks[tok].size >= 0
              && FieldsFrom(js, toks, tok + 1, 0, toks[tok].size) ==
                 if FlatObject(es.value) then Some(Pairs(es.value.entries)) else None
    ensures FlatObject(es.value) ==> var n := 2 * |Pairs(es.value.entries)|;
              && toks[tok].size == n && At(toks, tok + 1 + n, AllTokens(es.rest, RestAt(es, p)))
              && |AllTokens(es, p)| == 1 + n + |AllTokens(es.rest, RestAt(es, p))|
  {
    hide At, PrintAll, Print, PrintName, AllTokens, FieldsFrom, RestAt, ValueAt, Tokens, FlatMembers, Pairs;
    assert AllWellFormed(es.rest, false) && WellFormed(es.value) && es.name == NoName && |NameTokens(es.name, p)| == 0;
    hide AllWellFormed, NameTokens;
    EntryAt(js, p, es);
    EntryTokensAt(toks, tok, es, p);
    KindOfValue(toks, tok, es.value, ValueAt(es, p));
    if es.value.Box? && es.value.isObject {
      ObjectFields(js, toks, tok, es.value, ValueAt(es, p));
    }
  }

  /** One turn of the walk at an object, and what it should do. */
  lemma WalkObject(js: string, toks: seq<Token>, reply: Callback, tok: nat, n: int, last: Result, fs: Fields)
    requires n > 0 && tok < |toks| && toks[tok].kind == Object && toks[tok].size == 2 * |fs|
    requires FieldsFrom(js, toks, tok + 1, 0, toks[tok].size) == Some(fs)
    ensures var now := if HasName(fs) then Result(reply(|last.calls|, fs), last.calls + [fs]) else last.(err := -EIO);
            Walk(js, toks, reply, tok, n, last) ==
            if now.err == 0 then Walk(js, toks, reply, tok + 1 + 2 * |fs|, n - 1, now)
            else if tok + 1 == |toks| then now.(err := 0)
            else now
  {
    hide FieldsFrom, HasName;
  }

  lemma ExpectedObject(es: Entries, reply: Callback, calls: seq<Fields>, all: bool)
    requires es.More? && FlatObject(es.value)
    ensures var fs := Pairs(es.value.entries);
            Expected(es, reply, calls, all) ==
            if !HasName(fs) then Result(if all && es.rest == NoEntries && fs == [] then 0 else -EIO, calls)
            else if reply(|calls|, fs) != 0 then Result(reply(|calls|, fs), calls + [fs])
            else Expected(es.rest, reply, calls + [fs], all)
  {
    hide FlatMembers, Pairs, HasName;
  }

  /** Where the walk ends without another object. */
  lemma WalkEnd(js: string, toks: seq<Token>, reply: Callback, tok: nat, n: int, last: Result)
    ensures n <= 0 ==> Walk(js, toks, reply, tok, n, last) == if tok == |toks| then last.(err := 0) else last
    ensures n > 0 && tok < |toks| && toks[tok].kind != Object ==> Walk(js, toks, reply, tok, n, last) == last
    ensures n > 0 && tok < |toks| && FieldsFrom(js, toks, tok + 1, 0, toks[tok].size) == None ==>
      Walk(js, toks, reply, tok, n, last) == last
  {
    hide FieldsFrom, HasName;
  }

  lemma ExpectedEnd(es: Entries, reply: Callback, calls: seq<Fields>, all: bool)
    ensures es == NoEntries ==> Expected(es, reply, calls, all) == Result(if all || calls != [] then 0 else -EIO, calls)
    ensures es.More? && !FlatObject(es.value) ==>
      Expected(es, reply, calls, all) == Result(if calls == [] then -EIO else 0, calls)
  {
    hide FlatObject, HasName;
  }

  /** At each turn the cursor stands at the token of the element whose turn it is. */
  lemma {:induction false} WalkArray(js: string, toks: seq<Token>, reply: Callback, tok: nat, es: Entries, p: nat,
      last: Result, all: bool)
    requires AllWellFormed(es, false) && At(js, p, PrintAll(es)) && At(toks, tok, AllTokens(es, p))
    requires all <==> |toks| == tok + |AllTokens(es, p)|
    requires last.err == if last.calls == [] then -EIO else 0
    ensures Walk(js, toks, reply, tok, Count(es), last) == Expected(es, reply, last.calls, all)
    decreases es
  {
    hide *;
    CountIs(toks, tok, es, p);
    RestTokens(es, p);
    if es == NoEntries {
      WalkEnd(js, toks, reply, tok, Count(es), last);
      ExpectedEnd(es, reply, last.calls, all);
    } else {
      ElementAt(js, toks, tok, es, p);
      if FlatObject(es.value) {
        FlatIsObject(es.value);
        RestTokens(es.rest, RestAt(es, p));
        WalkFlat(js, toks, reply, tok, es, last, all, |AllTokens(es.rest, RestAt(es, p))|);
        var fs := Pairs(es.value.entries);
        if HasName(fs) && reply(|last.calls|, fs) == 0 {
          WalkArray(js, toks, reply, tok + 1 + 2 * |fs|, es.rest, RestAt(es, p), Result(0, last.calls + [fs]), all);
        }
      } else {
        WalkEnd(js, toks, reply, tok, Count(es), last);
        ExpectedEnd(es, reply, last.calls, all);
      }
    }
  }

  /** A turn at a flat object ends the walk as it should, or goes on behind it. */
  lemma WalkFlat(js: string, toks: seq<Token>, reply: Callback, tok: nat, es: Entries, last: Result, all: bool, n: nat)
    requires es.More? && FlatObject(es.value) && tok < |toks| && toks[tok].kind == Object &&
        Count(es) == 1 + Count(es.rest)
    requires var fs := Pairs(es.value.entries);
             toks[tok].size == 2 * |fs| && FieldsFrom(js, toks, tok + 1, 0, toks[tok].size) == Some(fs)
             && tok + 1 + 2 * |fs| + n <= |toks| && (all <==> |toks| == tok + 1 + 2 * |fs| + n)
    requires n == 0 <==> es.rest == NoEntries
    ensures var fs := Pairs(es.value.entries);
            var now, walk := Result(0, last.calls + [fs]), Walk(js, toks, reply, tok, Count(es), last);
            if HasName(fs) && reply(|last.calls|, fs) == 0 then
              && walk == Walk(js, toks, reply, tok + 1 + 2 * |fs|, Count(es.rest), now)
              && Expected(es, reply, last.calls, all) == Expected(es.rest, reply, now.calls, all)
            else walk == Expected(es, reply, last.calls, all)
  {
    var fs := Pairs(es.value.entries);
    hide Walk, Expected, FieldsFrom, Pairs, FlatObject, HasName, Count;
    NamedIsNotEmpty(fs);
    WalkObject(js, toks, reply, tok, Count(es), last, fs);
    ExpectedObject(es, reply, last.calls, all);
  }

  lemma FlatIsObject(v: Value)
    requires FlatObject(v)
    ensures v.Box? && v.isObject && FlatMembers(v.entries)
  {
  }

  lemma CountIs(toks: seq<Token>, tok: nat, es: Entries, p: nat)
    requires AllWellFormed(es, false) && At(toks, tok, AllTokens(es, p))
    ensures Count(es) == if es == NoEntries then 0 else 1 + Count(es.rest)
    ensures tok + |AllTokens(es, p)| <= |toks|
  {
  }

  lemma {:induction false} RestTokens(es: Entries, p: nat)
    ensures |AllTokens(es, p)| == 0 <==> es == NoEntries
  {
    if es.More? {
      TokensClosed(es.value, ValueAt(es, p));
    }
  }

  /** What reading a file does that holds the value `v`, and nothing behind it if `all`. */
  function ExpectedOf(v: Value, reply: Callback, all: bool): Result {
    if v.Box? && !v.isObject then Expected(v.entries, reply, [], all) else Result(-EIO, [])
  }

  /** Reading the tokens of a value, whatever tokens follow. */
  lemma {:induction false} EventsOfTokens(js: string, toks: seq<Token>, p: nat, v: Value, reply: Callback)
    requires WellFormed(v) && At(js, p, Print(v)) && Tokens(v, p) <= toks
    ensures JsonEvents(js, toks, reply) == ExpectedOf(v, reply, toks == Tokens(v, p))
  {
    var own := Tokens(v, p);
    assert At(toks, 0, own) by {
      assert toks[0..0 + |own|] == own;
    }
    assert toks == own <==> |toks| == |own| by {
      assert toks[..|toks|] == toks;
    }
    KindOfValue(toks, 0, v, p);
    if v.Box? && !v.isObject {
      var es, q := v.entries, p + 1 + |v.pad|;
      assert |own| == 1 + |AllTokens(es, q)|;
      hide Print, PrintAll, At, Walk, Tokens, AllTokens, Expected;
      BoxAt(js, p, v);
      BoxTokenAt(toks, 0, v, p);
      WalkArray(js, toks, reply, 1, es, q, Result(-EIO, []), toks == own);
    }
  }

  /** From the bytes of any JSON file to the calls made and the code returned. */
  lemma {:induction false} ReadsEventFile(pre: string, v: Value, post: string, cap: nat, reply: Callback)
    requires Blanks(pre) && WellFormed(v) && Blanks(post) && |Tokens(v, |pre|)| <= cap
    ensures var js := Document(pre, v, post);
            var (code, s) := Run(js, INIT, cap);
            code == Success && JsonEvents(js, s.toks, reply) == ExpectedOf(v, reply, true)
  {
    hide Run, Print, Tokens, At, JsonEvents, ExpectedOf;
    Tokenizes(pre, v, post, cap);
    DocumentAt(pre, v, post);
    EventsOfTokens(Document(pre, v, post), Tokens(v, |pre|), |pre|, v, reply);
  }

  /**
   When the code is 0: every object has a name and is answered by 0, up to the end, to an empty last
   object, or to an element that is no flat object and comes after a call.
   */
  predicate Succeeds(es: Entries, reply: Callback, calls: seq<Fields>, all: bool) {
    if es == NoEntries then all || calls != []
    else if !FlatObject(es.value) then calls != []
    else
      var fs := Pairs(es.value.entries);
      if HasName(fs) then reply(|calls|, fs) == 0 && Succeeds(es.rest, reply, calls + [fs], all)
      else all && fs == [] && es.rest == NoEntries
  }

  /** The events of the objects that have a name, in order, before the first element that is no flat object. */
  function NamedEvents(es: Entries): seq<Fields> {
    if es == NoEntries || !FlatObject(es.value) then []
    else (if HasName(Pairs(es.value.entries)) then [Pairs(es.value.entries)] else []) + NamedEvents(es.rest)
  }

  /** Success means exactly that, and then the event of every object read was handed over once, in order. */
  lemma {:induction false} SucceedsIff(es: Entries, reply: Callback, calls: seq<Fields>, all: bool)
    ensures Expected(es, reply, calls, all).err == 0 <==> Succeeds(es, reply, calls, all)
    ensures Succeeds(es, reply, calls, all) ==> Expected(es, reply, calls, all).calls == calls + NamedEvents(es)
    decreases es
  {
    hide HasName, Pairs, FlatMembers;
    if es.More? && FlatObject(es.value) {
      NamedIsNotEmpty(Pairs(es.value.entries));
      SucceedsIff(es.rest, reply, calls + [Pairs(es.value.entries)], all);
    }
  }

  /** A file that is not an array, or whose first element is no flat object, or has no name, is an I/O error, -5. */
  lemma NothingRead(v: Value, reply: Callback, all: bool)
    requires v.Box? && !v.isObject ==> v.entries.More?
    requires v.Box? && !v.isObject && FlatObject(v.entries.value) ==>
      Pairs(v.entries.value.entries) != [] && !HasName(Pairs(v.entries.value.entries))
    ensures ExpectedOf(v, reply, all) == Result(-5, [])
  {
  }

  /** A failed expectation does not show after a successful call: the rest of the file is left out in silence. */
  lemma FailureAfterSuccess(es: Entries, reply: Callback, all: bool)
    requires es.More? && FlatObject(es.value) && HasName(Pairs(es.value.entries))
    requires es.rest.More? && !FlatObject(es.rest.value) && reply(0, Pairs(es.value.entries)) == 0
    ensures Expected(es, reply, [], all) == Result(0, [Pairs(es.value.entries)])
  {
    assert [] + [Pairs(es.value.entries)] == [Pairs(es.value.entries)];
  }
}
