/**
 Groups survive the trip: writing down single events and groups, parsing the text and opening the
 events gives every event the leader it should have. One kind of group does not survive: a group of
 one, whose closing brace stays in the name.
 */
module SessionGroups {
  import opened Basics
  import opened Session

  datatype Item = Single(name: string) | Group(head: string, rest: seq<string>)

  // ---------- The text of a list

  /** The members of a group after its head, each behind a comma, the closing brace, then the rest of the text. */
  function Members(ms: seq<string>, tail: string): string {
    if ms == [] then ['}'] + tail else [','] + (ms[0] + Members(ms[1..], tail))
  }

  /** An item, then the rest of the text. */
  function Text(i: Item, tail: string): string {
    match i
    case Single(name) => name + tail
    case Group(head, rest) => (['{'] + head) + Members(rest, tail)
  }

  function After(items: seq<Item>): string {
    if items == [] then [] else [','] + Text(items[0], After(items[1..]))
  }

  /** Items separated by commas. */
  function Join(items: seq<Item>): string {
    if items == [] then [] else Text(items[0], After(items[1..]))
  }

  /** A name: slashes closed, no comma outside them, no braces at its ends. */
  predicate Plain(n: string) {
    n != [] && NUL !in n && Closed(n, false) && Cut(n, false) == |n| && n[0] != '{' && n[|n| - 1] != '}'
  }

  predicate AllPlain(i: Item) {
    match i
    case Single(name) => Plain(name)
    case Group(head, rest) => Plain(head) && forall k :: 0 <= k < |rest| ==> Plain(rest[k])
  }

  /** The database knows a name; inside a group only one unit may know it. */
  predicate Known(n: string, inGroup: bool, r: Resolver) {
    r(n).Resolved? && !r(n).lost && (inGroup ==> r(n).more == 0)
  }

  predicate AllKnown(i: Item, r: Resolver) {
    match i
    case Single(name) => Known(name, false, r)
    case Group(head, rest) => Known(head, true, r) && forall k :: 0 <= k < |rest| ==> Known(rest[k], true, r)
  }

  ghost predicate Usable(items: seq<Item>, r: Resolver) {
    forall k :: 0 <= k < |items| ==> AllPlain(items[k]) && AllKnown(items[k], r)
  }

  // ---------- The events it stands for

  function Member(m: string, last: bool, r: Resolver): Event
    requires Known(m, true, r)
  {
    Event(m, false, last, true, r(m).uncore, 0, None)
  }

  function Head(m: string, last: bool, r: Resolver): Event
    requires Known(m, true, r)
  {
    Event(m, true, last, true, r(m).uncore, 0, None)
  }

  function MemberEvents(ms: seq<string>, r: Resolver): (es: seq<Event>)
    requires forall k :: 0 <= k < |ms| ==> Known(ms[k], true, r)
    ensures |es| == |ms|
  {
    if ms == [] then []
    else
      assert Known(ms[0], true, r);
      [Member(ms[0], |ms| == 1, r)] + MemberEvents(ms[1..], r)
  }

  function ItemEvents(i: Item, base: nat, r: Resolver): (es: seq<Event>)
    requires AllKnown(i, r)
    ensures es != []
  {
    match i
    case Single(name) =>
      [Event(name, false, false, false, r(name).uncore, r(name).more, None)] +
          ClonesOf(name, r(name).uncore, base, r(name).more)
    case Group(head, rest) =>
      [Head(head, rest == [], r)] + MemberEvents(rest, r)
  }

  ghost function Expected(items: seq<Item>, base: nat, r: Resolver): seq<Event>
    requires Usable(items, r)
  {
    if items == [] then []
    else var first := ItemEvents(items[0], base, r); first + Expected(items[1..], base + |first|, r)
  }

  // ---------- Parsing it back

  lemma {:induction false} CutThen(w: string, inside: bool, tail: string)
    requires Closed(w, inside) && Cut(w, inside) == |w| && (tail == [] || tail[0] == ',')
    ensures Cut(w + tail, inside) == |w|
  {
    if w == [] {
      assert w + tail == tail;
    } else {
      CutThen(w[1..], if w[0] == '/' then !inside else inside, tail);
      assert (w + tail)[1..] == w[1..] + tail;
    }
  }

  /** A brace in front or behind changes neither slashes nor commas. */
  lemma {:induction false} CutBraced(w: string, inside: bool)
    requires Closed(w, inside) && Cut(w, inside) == |w|
    ensures Closed(w + ['}'], inside) && Cut(w + ['}'], inside) == |w| + 1
    ensures Closed(['{'] + w, inside) && Cut(['{'] + w, inside) == |w| + 1
  {
    assert (['{'] + w)[1..] == w;
    if w == [] {
      assert w + ['}'] == ['}'];
    } else {
      CutBraced(w[1..], if w[0] == '/' then !inside else inside);
      assert (w + ['}'])[1..] == w[1..] + ['}'];
    }
  }

  /** The parser takes one piece and goes on behind the comma. */
  lemma OnePiece(w: string, tail: string, es: seq<Event>, inGroup: bool, r: Resolver)
    requires w != [] && Closed(w, false) && Cut(w, false) == |w| && (tail == [] || tail[0] == ',')
    ensures var one := Piece(w, es, inGroup, r);
      Parse(w + tail, es, inGroup, r) ==
        if one.ok && tail != [] then Parse(tail[1..], one.events, one.inGroup, r) else one
  {
    hide Piece;
    CutThen(w, false, tail);
    hide Cut;
    assert (w + tail)[..|w|] == w;
    if tail != [] {
      assert (w + tail)[|w| + 1..] == tail[1..];
    }
  }

  /** What parsing goes on with after an item. */
  ghost predicate GoesOn(p: Parsed, tail: string, es: seq<Event>, r: Resolver) {
    p == if tail == [] then Parsed(es, false, true) else Parse(tail[1..], es, false, r)
  }

  lemma MemberPieces(m: string, es: seq<Event>, r: Resolver)
    requires Plain(m) && Known(m, true, r)
    ensures Piece(m, es, true, r) == Parsed(es + [Member(m, false, r)], true, true)
    ensures Piece(m + ['}'], es, true, r) == Parsed(es + [Member(m, true, r)], false, true)
    ensures Piece(['{'] + m, es, false, r) == Parsed(es + [Head(m, false, r)], true, true)
  {
    hide Cut, Closed;
    assert (m + ['}'])[0] == m[0];
    assert NameOf(m + ['}']) == m;
    assert NameOf(['{'] + m) == m;
  }

  lemma SinglePiece(n: string, es: seq<Event>, r: Resolver)
    requires Plain(n) && Known(n, false, r)
    ensures Piece(n, es, false, r) == Parsed(es + ItemEvents(Single(n), |es|, r), false, true)
  {
    hide Cut, Closed;
  }

  lemma FirstMember(ms: seq<string>, tail: string)
    requires ms != []
    ensures Members(ms, tail) != [] && Members(ms, tail)[0] == ','
    ensures Members(ms, tail)[1..] == ms[0] + Members(ms[1..], tail)
    ensures |ms| == 1 ==> Members(ms, tail)[1..] == (ms[0] + ['}']) + tail
  {
    assert ms[0] + (['}'] + tail) == (ms[0] + ['}']) + tail;
  }

  /** One member read. */
  lemma MemberStep(ms: seq<string>, tail: string, es: seq<Event>, r: Resolver)
    requires ms != [] && Plain(ms[0]) && Known(ms[0], true, r) && (tail == [] || tail[0] == ',')
    ensures Members(ms, tail) != [] && Members(ms[1..], tail) != []
    ensures var p := Parse(Members(ms, tail)[1..], es, true, r);
      if |ms| == 1 then GoesOn(p, tail, es + [Member(ms[0], true, r)], r)
      else p == Parse(Members(ms[1..], tail)[1..], es + [Member(ms[0], false, r)], true, r)
  {
    var m := ms[0];
    hide Parse, Cut, Closed, Piece, Known, Member;
    FirstMember(ms, tail);
    MemberPieces(m, es, r);
    if |ms| == 1 {
      CutBraced(m, false);
      OnePiece(m + ['}'], tail, es, true, r);
    } else {
      FirstMember(ms[1..], tail);
      hide Members;
      OnePiece(m, Members(ms[1..], tail), es, true, r);
    }
  }

  /** The members of a group, the comma before them already taken. */
  lemma {:induction false} MembersBack(ms: seq<string>, tail: string, es: seq<Event>, r: Resolver)
    requires ms != [] && (forall k :: 0 <= k < |ms| ==> Plain(ms[k]) && Known(ms[k], true, r)) &&
        (tail == [] || tail[0] == ',')
    ensures Members(ms, tail) != []
    ensures GoesOn(Parse(Members(ms, tail)[1..], es, true, r), tail, es + MemberEvents(ms, r), r)
    decreases |ms|
  {
    hide Parse, Plain, Known, Member, Members, GoesOn;
    var first := [Member(ms[0], |ms| == 1, r)];
    MemberStep(ms, tail, es, r);
    assert es + first + MemberEvents(ms[1..], r) == es + MemberEvents(ms, r);
    if |ms| == 1 {
      assert es + first == es + MemberEvents(ms, r);
    } else {
      MembersBack(ms[1..], tail, es + first, r);
    }
  }

  /** An item survives, unless it is a group of one. */
  lemma ItemBack(i: Item, tail: string, es: seq<Event>, r: Resolver)
    requires AllPlain(i) && AllKnown(i, r) && (tail == [] || tail[0] == ',') && (i.Group? ==> i.rest != [])
    ensures GoesOn(Parse(Text(i, tail), es, false, r), tail, es + ItemEvents(i, |es|, r), r)
  {
    hide Parse, Cut, Closed, Piece, Known, Head, Member;
    match i
    case Single(name) =>
      assert Plain(name);
      hide ItemEvents;
      OnePiece(name, tail, es, false, r);
      SinglePiece(name, es, r);
    case Group(head, rest) =>
      GroupBack(head, rest, tail, es, r);
  }

  lemma GroupParts(head: string, rest: seq<string>, tail: string, es: seq<Event>, r: Resolver)
    requires Plain(head) && Known(head, true, r) && rest != []
    requires forall k :: 0 <= k < |rest| ==> Known(rest[k], true, r)
    ensures Closed(head, false) && Cut(head, false) == |head|
    ensures var i := Group(head, rest); AllKnown(i, r) && Text(i, tail) == (['{'] + head) + Members(rest, tail)
    ensures es + ItemEvents(Group(head, rest), |es|, r) == es + [Head(head, false, r)] + MemberEvents(rest, r)
  {
    hide Members, MemberEvents, Head, Cut, Closed;
  }

  lemma GroupBack(head: string, rest: seq<string>, tail: string, es: seq<Event>, r: Resolver)
    requires Plain(head) && Known(head, true, r) && rest != [] && (tail == [] || tail[0] == ',')
    requires forall k :: 0 <= k < |rest| ==> Plain(rest[k]) && Known(rest[k], true, r)
    ensures var i := Group(head, rest);
            GoesOn(Parse(Text(i, tail), es, false, r), tail, es + ItemEvents(i, |es|, r), r)
  {
    hide *;
    var w, m, h := ['{'] + head, Members(rest, tail), Head(head, false, r);
    GroupParts(head, rest, tail, es, r);
    CutBraced(head, false);
    FirstMember(rest, tail);
    OnePiece(w, m, es, false, r);
    MemberPieces(head, es, r);
    MembersBack(rest, tail, es + [h], r);
  }

  /** Parsing only adds events; at most the number of clones of earlier ones would change, and it does not. */
  lemma {:induction false} OnlyAdds(t: string, es: seq<Event>, inGroup: bool, r: Resolver)
    ensures es <= Parse(t, es, inGroup, r).events
    decreases |t|
  {
    hide Cut;
    if t != [] {
      var n := Cut(t, false);
      var one := Piece(t[..n], es, inGroup, r);
      if n < |t| {
        OnlyAdds(t[n + 1..], one.events, one.inGroup, r);
      }
    }
  }

  /** A group of one keeps its closing brace in the name. */
  lemma GroupOfOne(head: string, tail: string, es: seq<Event>, r: Resolver)
    requires Plain(head) && (tail == [] || tail[0] == ',')
    ensures var p := Parse(Text(Group(head, []), tail), es, false, r);
      |p.events| > |es| && p.events[|es|].name == head + ['}']
  {
    hide Parse, Cut, Closed;
    var w := ['{'] + (head + ['}']);
    assert Text(Group(head, []), tail) == w + tail;
    CutBraced(head, false);
    CutBraced(head + ['}'], false);
    OnePiece(w, tail, es, false, r);
    assert NameOf(w) == head + ['}'];
    var one := Piece(w, es, false, r);
    assert one.events[|es|].name == head + ['}'];
    if one.ok && tail != [] {
      OnlyAdds(tail[1..], one.events, one.inGroup, r);
    }
  }

  predicate NoGroupOfOne(items: seq<Item>) {
    forall k :: 0 <= k < |items| && items[k].Group? ==> items[k].rest != []
  }

  lemma {:induction false} ItemsBack(items: seq<Item>, es: seq<Event>, r: Resolver)
    requires Usable(items, r)
    ensures Parse(Join(items), es, false, r) == Parsed(es + Expected(items, |es|, r), false, true) <==>
        NoGroupOfOne(items)
    decreases |items|
  {
    hide Parse, Plain, Known, ItemEvents, Text;
    if items == [] {
      ParseNothing([], es, false, r);
    } else {
      var i, rest := items[0], items[1..];
      var first := ItemEvents(i, |es|, r);
      ItemsText(items);
      hide Join, After;
      assert es + first + Expected(rest, |es| + |first|, r) == es + Expected(items, |es|, r);
      if i.Group? && i.rest == [] {
        assert (es + Expected(items, |es|, r))[|es|] == first[0];
        hide Expected;
        GroupOfOne(i.head, After(rest), es, r);
        HeadName(i, |es|, r);
        assert !NoGroupOfOne(items);
      } else {
        hide Expected;
        ItemBack(i, After(rest), es, r);
        if rest != [] {
          ItemsBack(rest, es + first, r);
        } else {
          assert es + first == es + Expected(items, |es|, r) by { NothingExpected(|es| + |first|, r); }
        }
        assert NoGroupOfOne(items) <==> NoGroupOfOne(rest) by {
          assert forall k :: 1 <= k < |items| ==> items[k] == rest[k - 1];
        }
      }
    }
  }

  lemma NothingExpected(base: nat, r: Resolver)
    ensures Expected([], base, r) == []
  {
  }

  lemma ItemsText(items: seq<Item>)
    requires items != []
    ensures var tail := After(items[1..]);
      && Join(items) == Text(items[0], tail) && (items[1..] == [] <==> tail == [])
      && (tail != [] ==> tail[0] == ',' && tail[1..] == Join(items[1..]))
  {
    hide Text;
  }

  lemma HeadName(i: Item, base: nat, r: Resolver)
    requires i.Group? && AllKnown(i, r)
    ensures ItemEvents(i, base, r)[0].name == i.head
  {
  }

  /** Parsing the text of a list gives back exactly its events, if and only if the list has no group of one. */
  lemma GroupsRoundTrip(items: seq<Item>, r: Resolver)
    requires Usable(items, r)
    ensures Parse(Join(items), [], false, r) == Parsed(Expected(items, 0, r), false, true) <==> NoGroupOfOne(items)
  {
    hide *;
    ItemsBack(items, [], r);
    assert [] + Expected(items, 0, r) == Expected(items, 0, r);
  }

  lemma {:induction false} ClosedThen(w: string, inside: bool, tail: string)
    requires Closed(w, inside)
    ensures Closed(w + tail, inside) == Closed(tail, false)
  {
    if w == [] {
      assert w + tail == tail;
    } else {
      ClosedThen(w[1..], if w[0] == '/' then !inside else inside, tail);
      assert (w + tail)[1..] == w[1..] + tail;
    }
  }

  /** The text of a list is one that can be parsed. */
  lemma {:induction false} JoinReadable(items: seq<Item>)
    requires forall k :: 0 <= k < |items| ==> AllPlain(items[k])
    ensures Closed(Join(items), false) && NUL !in Join(items)
    decreases |items|
  {
    hide AllPlain, Plain, Text;
    if items != [] {
      var rest := items[1..];
      JoinReadable(rest);
      assert After(rest) == if rest == [] then [] else [','] + Join(rest);
      assert Closed(After(rest), false) by {
        if rest != [] {
          assert ([','] + Join(rest))[1..] == Join(rest);
        }
      }
      TextReadable(items[0], After(rest));
    }
  }

  lemma TextReadable(i: Item, tail: string)
    requires AllPlain(i) && Closed(tail, false) && NUL !in tail
    ensures Closed(Text(i, tail), false) && NUL !in Text(i, tail)
  {
    match i
    case Single(name) => ClosedThen(name, false, tail);
    case Group(head, rest) =>
      MembersReadable(rest, tail);
      CutBraced(head, false);
      hide Members;
      ClosedThen(['{'] + head, false, Members(rest, tail));
  }

  lemma {:induction false} MembersReadable(ms: seq<string>, tail: string)
    requires (forall k :: 0 <= k < |ms| ==> Plain(ms[k])) && Closed(tail, false) && NUL !in tail
    ensures Closed(Members(ms, tail), false) && NUL !in Members(ms, tail)
    decreases |ms|
  {
    if ms == [] {
      assert (['}'] + tail)[1..] == tail;
    } else {
      MembersReadable(ms[1..], tail);
      var more := ms[0] + Members(ms[1..], tail);
      ClosedThen(ms[0], false, Members(ms[1..], tail));
      assert ([','] + more)[1..] == more;
    }
  }
}
