/**
 Event sessions: the list of events a user asks for, with groups in braces, is cut up in place, parsed
 into an event list, and every event is opened with the leader of its group.

 A C string is a region of a character array up to a 0. What the event database says of a name is a
 parameter.
 */
module Session {
  import opened Basics

  const NUL := '\0'

  /** `clones` further events follow an event known to several units; they remember it as their origin. */
  datatype Event = Event(name: string, leader: bool, end: bool, inGroup: bool, uncore: bool, clones: nat,
      orig: Option<nat>)

  /** What the database says of a name: how many further units know it, and whether looking for them failed. */
  datatype Answer = Unresolved | Resolved(uncore: bool, more: nat, lost: bool)

  type Resolver = string -> Answer

  datatype Parsed = Parsed(events: seq<Event>, inGroup: bool, ok: bool)

  function Blank(name: string): Event {
    Event(name, false, false, false, false, 0, None)
  }

  // ---------- Cutting the text

  /** How much of the text comes before the first comma outside slashes. */
  function Cut(t: string, inside: bool): (n: nat)
    ensures n <= |t|
  {
    if t == [] then 0
    else if t[0] == '/' then 1 + Cut(t[1..], !inside)
    else if t[0] == ',' && !inside then 0
    else 1 + Cut(t[1..], inside)
  }

  /** Every slash that opens is closed. */
  predicate Closed(t: string, inside: bool) {
    if t == [] then !inside else Closed(t[1..], if t[0] == '/' then !inside else inside)
  }

  function Slashes(t: string): nat {
    if t == [] then 0 else (if t[0] == '/' then 1 else 0) + Slashes(t[1..])
  }

  /** `i` is a separator: a comma with an even number of slashes before it. */
  predicate Separator(t: string, inside: bool, i: nat) {
    i < |t| && t[i] == ',' && (Slashes(t[..i]) % 2 == 0) == !inside
  }

  /** The cut is at the first separator, or at the end if there is none. */
  lemma {:induction false} CutAtSeparator(t: string, inside: bool)
    ensures Cut(t, inside) < |t| ==> Separator(t, inside, Cut(t, inside))
    ensures forall i :: 0 <= i < Cut(t, inside) ==> !Separator(t, inside, i)
  {
    if t != [] {
      var deeper := if t[0] == '/' then !inside else inside;
      CutAtSeparator(t[1..], deeper);
      forall i | 1 <= i < |t| ensures Separator(t, inside, i) == Separator(t[1..], deeper, i - 1) {
        assert t[..i][1..] == t[1..][..i - 1];
      }
    }
  }

  lemma {:induction false} RestClosed(t: string, inside: bool)
    requires Closed(t, inside) && Cut(t, inside) < |t|
    ensures Closed(t[Cut(t, inside) + 1..], false)
  {
    var n := Cut(t, inside);
    if n > 0 {
      var deeper := if t[0] == '/' then !inside else inside;
      RestClosed(t[1..], deeper);
      assert t[1..][n..] == t[n + 1..];
    }
  }

  /** Between two slashes nothing is cut. */
  lemma {:induction false} SlashesHide(x: string, rest: string)
    requires '/' !in x
    ensures Cut(['/'] + (x + (['/'] + rest)), false) == |x| + 2 + Cut(rest, false)
  {
    var t := x + (['/'] + rest);
    assert (['/'] + t)[1..] == t;
    InsideSlashes(x, rest);
  }

  lemma {:induction false} InsideSlashes(x: string, rest: string)
    requires '/' !in x
    ensures Cut(x + (['/'] + rest), true) == |x| + 1 + Cut(rest, false)
  {
    var t := x + (['/'] + rest);
    if x == [] {
      assert t == ['/'] + rest && t[1..] == rest;
    } else {
      assert t[1..] == x[1..] + (['/'] + rest) && t[0] == x[0] && x[0] in x;
      InsideSlashes(x[1..], rest);
    }
  }

  /** Elsewhere the first comma cuts. */
  lemma {:induction false} CommaCuts(x: string, rest: string)
    requires '/' !in x && ',' !in x
    ensures Cut(x + ([','] + rest), false) == |x| && Cut(x, false) == |x|
  {
    var t := x + ([','] + rest);
    if x == [] {
      assert t == [','] + rest;
    } else {
      assert t[1..] == x[1..] + ([','] + rest) && t[0] == x[0] && x[0] in x;
      CommaCuts(x[1..], rest);
    }
  }

  // ---------- What the text means

  function ClonesOf(name: string, uncore: bool, orig: nat, n: nat): seq<Event> {
    seq(n, i => Blank(name).(uncore := uncore, orig := Some(orig)))
  }

  predicate Leads(p: string) {
    p != [] && p[0] == '{'
  }

  predicate Ends(p: string) {
    !Leads(p) && p != [] && p[|p| - 1] == '}'
  }

  function NameOf(p: string): string {
    if Leads(p) then p[1..] else if Ends(p) then p[..|p| - 1] else p
  }

  /** One event with its flags, and its clones if it may have any. */
  function Add(name: string, leader: bool, end: bool, es: seq<Event>, within: bool, r: Resolver): Parsed {
    var e := Blank(name).(leader := leader, end := end, inGroup := within);
    match r(name)
    case Unresolved => Parsed(es + [e], within, false)
    case Resolved(uncore, more, lost) =>
      if within then Parsed(es + [e.(uncore := uncore)], within && !end, more == 0 && !lost)
      else Parsed(es + [e.(uncore := uncore, clones := more)] + ClonesOf(name, uncore, |es|, more), false, !lost)
  }

  /** One piece: an opening brace makes a leader, otherwise a closing brace ends the group. */
  function Piece(p: string, es: seq<Event>, inGroup: bool, r: Resolver): Parsed {
    Add(NameOf(p), Leads(p), Ends(p), es, inGroup || Leads(p), r)
  }

  function Parse(t: string, es: seq<Event>, inGroup: bool, r: Resolver): Parsed
    decreases |t|
  {
    if t == [] then Parsed(es, inGroup, true)
    else
      var n := Cut(t, false);
      var one := Piece(t[..n], es, inGroup, r);
      if one.ok && n < |t| then Parse(t[n + 1..], one.events, one.inGroup, r) else one
  }

  /** The database knows the event's name, and knows it once if it is in a group. */
  predicate Found(e: Event, r: Resolver) {
    match r(e.name)
    case Unresolved => false
    case Resolved(_, more, lost) => !lost && !(e.inGroup && more > 0)
  }

  /** All that were asked for: the events behind the first `n` that are no clones. */
  ghost predicate AllFound(es: seq<Event>, n: nat, r: Resolver) {
    forall i :: n <= i < |es| && es[i].orig == None ==> Found(es[i], r)
  }

  /** One piece adds one event that was asked for and perhaps clones, and fails if it is not found. */
  lemma PieceFound(p: string, es: seq<Event>, inGroup: bool, r: Resolver)
    ensures var one := Piece(p, es, inGroup, r);
      es <= one.events && (one.ok <==> AllFound(one.events, |es|, r))
  {
    var one := Piece(p, es, inGroup, r);
    assert one.events[|es|].orig == None;
    assert forall i :: |es| < i < |one.events| ==> one.events[i].orig != None;
  }

  lemma FoundMore(a: seq<Event>, b: seq<Event>, n: nat, r: Resolver)
    requires a <= b && n <= |a|
    ensures AllFound(b, n, r) <==> AllFound(a, n, r) && AllFound(b, |a|, r)
  {
    hide Found;
  }

  /** Parsing succeeds exactly if every event that was asked for is found. */
  lemma {:induction false} OkIffFound(t: string, es: seq<Event>, inGroup: bool, r: Resolver)
    ensures var all := Parse(t, es, inGroup, r);
      es <= all.events && (all.ok <==> AllFound(all.events, |es|, r))
    decreases |t|
  {
    hide Cut, Piece, AllFound;
    if t == [] {
      NoneAsked(es, r);
    } else {
      var n := Cut(t, false);
      var one := Piece(t[..n], es, inGroup, r);
      PieceFound(t[..n], es, inGroup, r);
      if one.ok && n < |t| {
        OkIffFound(t[n + 1..], one.events, one.inGroup, r);
        FoundMore(one.events, Parse(t, es, inGroup, r).events, |es|, r);
      }
    }
  }

  lemma NoneAsked(es: seq<Event>, r: Resolver)
    ensures AllFound(es, |es|, r)
  {
  }

  /** The event says what the database says of its name; the clones of event `i` follow it, and no others. */
  ghost predicate Answered(es: seq<Event>, i: nat, r: Resolver)
    requires i < |es|
  {
    var e := es[i];
    match r(e.name)
    case Unresolved => true
    case Resolved(uncore, more, _) =>
      && e.uncore == uncore
      && (e.orig == None ==> e.clones == (if e.inGroup then 0 else more) && i + e.clones < |es|)
      && (e.orig == None ==> forall j :: i < j <= i + e.clones ==> es[j].orig == Some(i) && es[j].name == e.name)
      && (e.orig != None ==> e.orig.value < i <= e.orig.value + es[e.orig.value].clones)
  }

  ghost predicate AllAnswered(es: seq<Event>, n: nat, r: Resolver) {
    forall i :: n <= i < |es| ==> Answered(es, i, r)
  }

  lemma PieceAnswered(p: string, es: seq<Event>, inGroup: bool, r: Resolver)
    ensures AllAnswered(Piece(p, es, inGroup, r).events, |es|, r)
  {
    var all, n := Piece(p, es, inGroup, r).events, |es|;
    forall i | n <= i < |all| ensures Answered(all, i, r) {
      assert all[n].orig == None && all[n].name == NameOf(p);
      assert i > n ==> all[i] == Blank(NameOf(p)).(uncore := all[n].uncore, orig := Some(n));
    }
  }

  lemma AnsweredMore(a: seq<Event>, b: seq<Event>, n: nat, r: Resolver)
    requires a <= b && n <= |a| && AllAnswered(a, n, r) && AllAnswered(b, |a|, r)
    ensures AllAnswered(b, n, r)
  {
    forall i | n <= i < |b| ensures Answered(b, i, r) {
      if i < |a| {
        assert Answered(a, i, r) && b[i] == a[i];
      }
    }
  }

  /** After parsing every new event is what the database says, with its clones behind it. */
  lemma {:induction false} EventsAnswered(t: string, es: seq<Event>, inGroup: bool, r: Resolver)
    ensures AllAnswered(Parse(t, es, inGroup, r).events, |es|, r)
    decreases |t|
  {
    hide Cut, Piece, AllAnswered;
    if t == [] {
      NoneAnswered(es, r);
    } else {
      var n := Cut(t, false);
      var one := Piece(t[..n], es, inGroup, r);
      PieceAnswered(t[..n], es, inGroup, r);
      if one.ok && n < |t| {
        PieceFound(t[..n], es, inGroup, r);
        OkIffFound(t[n + 1..], one.events, one.inGroup, r);
        EventsAnswered(t[n + 1..], one.events, one.inGroup, r);
        AnsweredMore(one.events, Parse(t, es, inGroup, r).events, |es|, r);
      }
    }
  }

  lemma NoneAnswered(es: seq<Event>, r: Resolver)
    ensures AllAnswered(es, |es|, r)
  {
  }

  /** Clones are behind their origin, with its name and its kind of unit, outside groups. */
  lemma {:induction false} ClonesAre(name: string, uncore: bool, orig: nat, n: nat, i: nat)
    requires i < n
    ensures |ClonesOf(name, uncore, orig, n)| == n
    ensures ClonesOf(name, uncore, orig, n)[i] == Event(name, false, false, false, uncore, 0, Some(orig))
  {
  }

  // ---------- The code

  /** A string that runs from `s` to the 0 at the end of the array. */
  ghost predicate StringFrom(b: seq<char>, s: int) {
    0 <= s < |b| && b[|b| - 1] == NUL && forall i :: s <= i < |b| - 1 ==> b[i] != NUL
  }

  ghost function Rest(b: seq<char>, s: int): string
    requires StringFrom(b, s)
  {
    b[s..|b| - 1]
  }

  /** One character more. */
  lemma CutFirst(b: seq<char>, s: nat, end: nat, inside: bool)
    requires s < end <= |b|
    ensures var t, u, flips := b[s..end], b[s + 1..end], if b[s] == '/' then !inside else inside;
      && Closed(t, inside) == Closed(u, flips)
      && Cut(t, inside) == (if b[s] == ',' && !inside then 0 else 1 + Cut(u, flips))
  {
    assert b[s..end][1..] == b[s + 1..end];
  }

  lemma CutAtEnd(b: seq<char>, s: nat, end: nat, inside: bool)
    requires s <= end <= |b|
    ensures s == end ==> Cut(b[s..end], inside) == 0 && Closed(b[s..end], inside) == !inside
  {
  }

  /** From behind a slash to the slash that closes it. */
  method SkipSection(text: array<char>, start: nat) returns (s: nat)
    requires start < text.Length && StringFrom(text[..], start) && Closed(text[start..text.Length - 1], true)
    ensures start <= s < text.Length - 1 && text[s] == '/'
    ensures Closed(text[s..text.Length - 1], true)
    ensures start + Cut(text[start..text.Length - 1], true) == s + Cut(text[s..text.Length - 1], true)
  {
    s := start;
    ghost var b, end := text[..], text.Length - 1;
    hide Cut, Closed;
    while text[s] != NUL && text[s] != '/'
      invariant start <= s <= end && Closed(b[s..end], true)
      invariant start + Cut(b[start..end], true) == s + Cut(b[s..end], true)
      decreases end - s
    {
      CutFirst(b, s, end, true);
      s := s + 1;
    }
    CutAtEnd(b, s, end, true);
  }

  /** Cuts the first event off at its comma; -1 is the null pointer. */
  method GrabEvent(text: array<char>, start: int) returns (p: int, next: int)
    requires start == -1 || (StringFrom(text[..], start) && Closed(Rest(text[..], start), false))
    modifies text
    ensures p == (if start == -1 || old(Rest(text[..], start)) == [] then -1 else start)
    ensures p == -1 ==> text[..] == old(text[..])
    ensures p != -1 ==> var t := old(Rest(text[..], start)); var n := Cut(t, false);
            && next == (if n < |t| then start + n + 1 else -1)
            && text[..] == (if n < |t| then old(text[..])[start + n := NUL] else old(text[..]))
  {
    hide Cut, Closed;
    next := -1;
    if start == -1 || text[start] == NUL {
      return -1, -1;
    }
    p := start;
    var s := start;
    ghost var b, end := text[..], text.Length - 1;
    ghost var n := Cut(b[start..end], false);
    while text[s] != NUL
      invariant start <= s <= end && text[..] == b && next == -1
      invariant n == s - start + Cut(b[s..end], false) && Closed(b[s..end], false)
      decreases end - s
    {
      CutFirst(b, s, end, false);
      if text[s] == '/' {
        s := SkipSection(text, s + 1);
        CutFirst(b, s, end, true);
      }
      if text[s] == ',' {
        text[s] := NUL;
        next := s + 1;
        break;
      }
      s := s + 1;
    }
    CutAtEnd(b, s, end, false);
  }

  method Strlen(text: array<char>, s: nat) returns (len: nat)
    requires exists i :: s <= i < text.Length && text[i] == NUL
    ensures s + len < text.Length && text[s + len] == NUL && forall i :: s <= i < s + len ==> text[i] != NUL
  {
    len := 0;
    while text[s + len] != NUL
      invariant s + len < text.Length && exists i :: s + len <= i < text.Length && text[i] == NUL
      invariant forall i :: s <= i < s + len ==> text[i] != NUL
      decreases text.Length - s - len
    {
      len := len + 1;
    }
  }

  /** The first piece of `t` lies at `s`, cut off, and the rest of `t` at `next`. */
  ghost predicate Grabbed(b: seq<char>, t: string, s: int, next: int) {
    var n := Cut(t, false);
    && t != [] && Closed(t, false) && NUL !in t && 0 <= s && s + |t| + 1 == |b| && b[s..s + n] == t[..n] &&
        b[s + n] == NUL
    && (if n < |t| then next == s + n + 1 && b[next..] == t[n + 1..] + [NUL] else next == -1)
  }

  lemma Grabs(b: seq<char>, now: seq<char>, t: string, start: int, next: int)
    requires StringFrom(b, start) && t == Rest(b, start) && t != [] && Closed(t, false) && |now| == |b|
    requires Cut(t, false) < |t| ==> next == start + Cut(t, false) + 1 && now == b[start + Cut(t, false) := NUL]
    requires Cut(t, false) == |t| ==> next == -1 && now == b
    ensures Grabbed(now, t, start, next)
  {
    hide Cut, Closed;
    var n := Cut(t, false);
    assert forall i :: 0 <= i < |t| ==> t[i] == b[start + i];
    assert now[start..start + n] == t[..n];
  }

  lemma IsString(b: seq<char>, s: nat, t: string)
    requires s <= |b| && b[s..] == t + [NUL] && NUL !in t
    ensures StringFrom(b, s) && Rest(b, s) == t
  {
    assert forall i :: s <= i < |b| ==> b[i] == b[s..][i - s];
  }

  method StrlenIs(text: array<char>, s: nat, ghost n: nat) returns (len: nat)
    requires s + n < text.Length && text[s + n] == NUL && NUL !in text[s..s + n]
    ensures len == n
  {
    forall i | s <= i < s + n ensures text[i] != NUL {
      assert text[i] in text[s..s + n];
    }
    len := Strlen(text, s);
  }

  /** The next piece, ready to be read. */
  method Grab(text: array<char>, start: int, ghost t: string) returns (p: int, next: int)
    requires start == -1 || (0 <= start <= text.Length && text[start..] == t + [NUL] && NUL !in t && Closed(t, false))
    modifies text
    ensures p == -1 <==> start == -1 || t == []
    ensures p != -1 ==> Grabbed(text[..], t, p, next)
  {
    hide Cut, Closed;
    ghost var b := text[..];
    if start != -1 {
      IsString(b, start, t);
    }
    p, next := GrabEvent(text, start);
    if p != -1 {
      Grabs(b, text[..], t, p, next);
    }
  }

  /** Takes the braces off a piece, the closing one in place, and says where the name is. */
  method Trim(text: array<char>, start: nat, ghost n: nat) returns (s: nat, len: nat, leader: bool, end: bool)
    requires start + n < text.Length && text[start + n] == NUL && NUL !in text[start..start + n]
    modifies text
    ensures var p := old(text[start..start + n]);
      leader == Leads(p) && end == Ends(p) && s + len < text.Length && text[s..s + len] == NameOf(p)
    ensures text[start + n..] == old(text[start + n..])
  {
    ghost var piece := text[start..start + n];
    leader, end, s := false, false, start;
    if text[s] == '{' {
      assert n > 0 && piece[0] == '{';
      leader, s := true, s + 1;
      assert text[s..start + n] == piece[1..];
      len := StrlenIs(text, s, n - 1);
    } else {
      len := StrlenIs(text, s, n);
      if len > 0 && text[s + len - 1] == '}' {
        text[s + len - 1] := NUL;
        end := true;
        assert text[s..s + len - 1] == piece[..len - 1];
        len := StrlenIs(text, s, n - 1);
      }
    }
  }

  /** The piece that has been grabbed. */
  lemma PieceReady(b: seq<char>, t: string, s: int, next: int)
    requires Grabbed(b, t, s, next)
    ensures var n := Cut(t, false);
      t != [] && 0 <= s && s + n < |b| && b[s..s + n] == t[..n] && b[s + n] == NUL && NUL !in b[s..s + n]
  {
    hide Cut, Closed;
  }

  /** What follows it. */
  lemma RestReady(b: seq<char>, t: string, s: int, next: int)
    requires Grabbed(b, t, s, next)
    ensures Cut(t, false) == |t| ==> next == -1
    ensures var n := Cut(t, false);
      n < |t| ==>
        && next == s + n + 1 && 0 <= next <= |b| && b[next..] == t[n + 1..] + [NUL]
        && NUL !in t[n + 1..] && Closed(t[n + 1..], false)
  {
    hide Cut, Closed;
    if Cut(t, false) < |t| {
      RestClosed(t, false);
    }
  }

  lemma ParseStep(t: string, es: seq<Event>, inGroup: bool, r: Resolver)
    requires t != []
    ensures var n := Cut(t, false);
      var one := Piece(t[..n], es, inGroup, r);
      Parse(t, es, inGroup, r) == (if one.ok && n < |t| then Parse(t[n + 1..], one.events, one.inGroup, r) else one)
    ensures var p := t[..Cut(t, false)];
      Piece(p, es, inGroup, r) == Add(NameOf(p), Leads(p), Ends(p), es, inGroup || Leads(p), r)
  {
  }

  lemma ParseNothing(t: string, es: seq<Event>, inGroup: bool, r: Resolver)
    requires t == []
    ensures Parse(t, es, inGroup, r) == Parsed(es, inGroup, true)
  {
  }

  class EventList {
    var events: seq<Event>

    constructor ()
      ensures events == []
    {
      events := [];
    }

    method NewEvent(name: string)
      modifies this
      ensures events == old(events) + [Blank(name)]
    {
      events := events + [Blank(name)];
    }

    /** The further units that know the event: none is allowed inside a group. */
    method AddClones(name: string, inGroup: bool, more: nat, lost: bool) returns (ok: bool)
      requires events != []
      modifies this
      ensures var k := |old(events)| - 1; var e := old(events)[k];
        events == if inGroup then old(events)
                  else old(events)[..k] + [e.(clones := e.clones + more)] + ClonesOf(name, e.uncore, k, more)
      ensures ok == if inGroup then more == 0 && !lost else !lost
    {
      var k, i := |events| - 1, 0;
      ghost var front, e := events[..k], events[k];
      while i < more
        invariant i <= more && (inGroup ==> i == 0)
        invariant events == front + [e.(clones := e.clones + i)] + ClonesOf(name, e.uncore, k, i)
      {
        if inGroup {
          return false;
        }
        NewEvent(name);
        var last := |events| - 1;
        events := events[last := events[last].(uncore := events[k].uncore, orig := Some(k))];
        events := events[k := events[k].(clones := events[k].clones + 1)];
        i := i + 1;
        assert ClonesOf(name, e.uncore, k, i) == ClonesOf(name, e.uncore, k, i - 1) + [events[last]];
      }
      ok := !lost;
    }

    method AddEvent(name: string, leader: bool, end: bool, inGroup: bool, resolve: Resolver)
      returns (within: bool, ok: bool)
      modifies this
      ensures Parsed(events, within, ok) == Add(name, leader, end, old(events), inGroup, resolve)
    {
      within := inGroup;
      NewEvent(name);
      var k := |events| - 1;
      events := events[k := events[k].(leader := leader, end := end, inGroup := inGroup)];
      var answer := resolve(name);
      if answer.Unresolved? {
        return within, false;
      }
      events := events[k := events[k].(uncore := answer.uncore)];
      ok := AddClones(name, inGroup, answer.more, answer.lost);
      if end {
        within := false;
      }
    }

    method ParseEvents(input: string, resolve: Resolver) returns (rc: int)
      requires Closed(input, false) && NUL !in input
      modifies this
      ensures events == Parse(input, old(events), false, resolve).events
      ensures rc == if Parse(input, old(events), false, resolve).ok then 0 else -1
    {
      hide Cut, Closed, Piece, Add, Leads, Ends, NameOf, Parse, Grabbed;
      var text := new char[|input| + 1](i => if 0 <= i < |input| then input[i] else NUL);
      assert text[0..] == input + [NUL];
      var inGroup := false;
      ghost var whole := Parse(input, events, false, resolve);
      ghost var t := input;
      var s, next := Grab(text, 0, t);
      if s == -1 {
        ParseNothing(t, events, inGroup, resolve);
      }
      while s != -1
        invariant s != -1 ==> Grabbed(text[..], t, s, next)
        invariant whole == if s == -1 then Parsed(events, inGroup, true) else Parse(t, events, inGroup, resolve)
        decreases if s == -1 then 0 else |t|
      {
        ghost var n, b := Cut(t, false), text[..];
        PieceReady(b, t, s, next);
        RestReady(b, t, s, next);
        ParseStep(t, events, inGroup, resolve);
        var start, len, leader, end := Trim(text, s, n);
        var name := text[start..start + len];
        var ok;
        inGroup, ok := AddEvent(name, leader, end, inGroup || leader, resolve);
        if !ok {
          return -1;
        }
        if n < |t| {
          SameTail(b, text[..], s + n, next);
          t := t[n + 1..];
        }
        s, next := Grab(text, next, t);
        if s == -1 && t == [] {
          ParseNothing(t, events, inGroup, resolve);
        }
      }
      rc := 0;
    }
  }
}
