/**
 Opening a list of events on the processors of a machine: each event is opened on every processor its
 mask allows, in the group of the leader seen last, until a group ends.
 */
module SessionOpen {
  import opened CpuMasks
  import opened Basics
  import opened Session
  import opened SessionGroups

  /** One perf_event_open: the event, the processor, and the event whose descriptor leads the group. */
  datatype Open = Open(event: nat, cpu: int, leader: Option<nat>)

  /** The processors of a machine, one of each socket, and the mask the user gives, if any. */
  datatype Machine = Machine(cpus: nat, sockets: seq<int>, mask: Option<string>)

  predicate Allows(mask: Option<string>, cpu: int) {
    mask.None? || Matches(mask.value, cpu)
  }

  function Allowed(cpus: seq<int>, mask: Option<string>): seq<int> {
    if cpus == [] then [] else (if Allows(mask, cpus[0]) then [cpus[0]] else []) + Allowed(cpus[1..], mask)
  }

  /** Where an event is opened: uncore events once per socket. */
  function CpusOf(e: Event, m: Machine): seq<int> {
    Allowed(if e.uncore then m.sockets else seq(m.cpus, i => i), m.mask)
  }

  function OpensOn(k: nat, leader: Option<nat>, cpus: seq<int>): seq<Open> {
    seq(|cpus|, i requires 0 <= i < |cpus| => Open(k, cpus[i], leader))
  }

  function LeaderAfter(leader: Option<nat>, k: nat, e: Event): Option<nat> {
    if e.end then None else if e.leader then Some(k) else leader
  }

  /** The leader of each event, the first of them having index `k`. */
  function Leaders(es: seq<Event>, k: nat, leader: Option<nat>): (ls: seq<Option<nat>>)
    ensures |ls| == |es|
  {
    if es == [] then [] else [leader] + Leaders(es[1..], k + 1, LeaderAfter(leader, k, es[0]))
  }

  /** Every event opened in order with the leaders given. */
  function Opens(es: seq<Event>, ls: seq<Option<nat>>, m: Machine, n: nat): seq<Open>
    requires n <= |es| == |ls|
  {
    if n == 0 then [] else Opens(es, ls, m, n - 1) + OpensOn(n - 1, ls[n - 1], CpusOf(es[n - 1], m))
  }

  lemma OpensNone(es: seq<Event>, ls: seq<Option<nat>>, m: Machine)
    requires |es| == |ls|
    ensures Opens(es, ls, m, 0) == []
  {
  }

  lemma OpensNext(es: seq<Event>, ls: seq<Option<nat>>, m: Machine, k: nat)
    requires k < |es| == |ls|
    ensures Opens(es, ls, m, k + 1) == Opens(es, ls, m, k) + OpensOn(k, ls[k], CpusOf(es[k], m))
  {
  }

  lemma {:induction false} AllowedBack(cpus: seq<int>, mask: Option<string>, n: nat)
    requires n < |cpus|
    ensures Allowed(cpus[..n + 1], mask) == Allowed(cpus[..n], mask) + if Allows(mask, cpus[n]) then [cpus[n]] else []
  {
    hide Allows;
    if n == 0 {
      assert cpus[..1] == [cpus[0]] && [cpus[0]][1..] == [];
    } else {
      var first := if Allows(mask, cpus[0]) then [cpus[0]] else [];
      var more, less := cpus[1..][..n], cpus[1..][..n - 1];
      assert cpus[..n + 1][1..] == more && cpus[..n][1..] == less;
      assert Allowed(cpus[..n + 1], mask) == first + Allowed(more, mask) &&
          Allowed(cpus[..n], mask) == first + Allowed(less, mask);
      hide Allowed;
      AllowedBack(cpus[1..], mask, n - 1);
    }
  }

  lemma {:induction false} LeaderStep(es: seq<Event>, k: nat, leader: Option<nat>, n: nat)
    requires n + 1 < |es|
    ensures Leaders(es, k, leader)[n + 1] == LeaderAfter(Leaders(es, k, leader)[n], k + n, es[n])
  {
    if n > 0 {
      LeaderStep(es[1..], k + 1, LeaderAfter(leader, k, es[0]), n - 1);
    }
  }

  /** Event `i` is opened with the leader before it that is nearest, unless a group ends on the way. */
  lemma {:induction false} LeaderIs(es: seq<Event>, i: nat)
    requires i < |es|
    ensures match Leaders(es, 0, None)[i]
            case Some(j) => j < i && es[j].leader && !es[j].end && forall m :: j < m < i ==> !es[m].leader && !es[m].end
            case None => forall j :: 0 <= j < i && es[j].leader ==> exists m :: j <= m < i && es[m].end
  {
    if i > 0 {
      LeaderIs(es, i - 1);
      LeaderStep(es, 0, None, i - 1);
      hide Leaders;
      var was := Leaders(es, 0, None)[i - 1];
      if Leaders(es, 0, None)[i] == None && !es[i - 1].end {
        assert was == None;
        forall j | 0 <= j < i && es[j].leader ensures exists m :: j <= m < i && es[m].end {
          assert j < i - 1;
        }
      }
    }
  }

  predicate AllFail(log: seq<Open>, fails: Open -> bool) {
    forall i :: 0 <= i < |log| ==> fails(log[i])
  }

  predicate AllGood(log: seq<Open>, fails: Open -> bool) {
    forall i :: 0 <= i < |log| ==> !fails(log[i])
  }

  lemma LogJoin(a: seq<Open>, b: seq<Open>, fails: Open -> bool)
    ensures AllFail(a + b, fails) == (AllFail(a, fails) && AllFail(b, fails))
    ensures AllGood(a + b, fails) == (AllGood(a, fails) && AllGood(b, fails))
  {
    var c := a + b;
    assert forall i :: 0 <= i < |a| ==> c[i] == a[i];
    assert forall i :: 0 <= i < |b| ==> c[|a| + i] == b[i];
  }

  lemma FailedOrNot(log: seq<Open>, fails: Open -> bool)
    ensures log == [] ==> AllFail(log, fails) && AllGood(log, fails)
    ensures log != [] && AllFail(log, fails) ==> !AllGood(log, fails)
  {
    if log != [] && AllFail(log, fails) {
      assert fails(log[0]);
    }
  }

  /** What a run of calls leaves: how many succeeded, and an error if one failed. */
  ghost predicate Counted(log: seq<Open>, fails: Open -> bool, success: int, err: int) {
    success >= 0 && (success == 0 <==> AllFail(log, fails)) && err == if AllGood(log, fails) then 0 else -1
  }

  lemma CountedWith(log: seq<Open>, call: Open, fails: Open -> bool, success: int, err: int)
    requires Counted(log, fails, success, err)
    ensures Counted(log + [call], fails, if fails(call) then success else success + 1, if fails(call) then -1 else err)
  {
    LogJoin(log, [call], fails);
    assert AllFail([call], fails) == fails(call) && AllGood([call], fails) == !fails(call) by {
      assert [call][0] == call;
    }
  }

  /** One event on its processors. */
  method OpenOn(k: nat, leader: Option<nat>, cpus: seq<int>, mask: Option<string>, fails: Open -> bool, was: seq<Open>,
                success0: int, err0: int)
    returns (log: seq<Open>, success: int, err: int)
    requires Counted(was, fails, success0, err0)
    ensures log == was + OpensOn(k, leader, Allowed(cpus, mask)) && Counted(log, fails, success, err)
  {
    hide Counted, Matches;
    log, success, err := was, success0, err0;
    var i := 0;
    while i < |cpus|
      invariant i <= |cpus| && log == was + OpensOn(k, leader, Allowed(cpus[..i], mask))
      invariant Counted(log, fails, success, err)
    {
      AllowedBack(cpus, mask, i);
      var named := CpumaskMatch(mask, cpus[i]);
      if named {
        var call := Open(k, cpus[i], leader);
        CountedWith(log, call, fails, success, err);
        log := log + [call];
        if fails(call) {
          err := -1;
        } else {
          success := success + 1;
        }
      }
      i := i + 1;
    }
    assert cpus[..i] == cpus;
  }

  /** The calls made, in order, and the result: 0 unless there were calls and every one failed. */
  method SetupEvents(es: seq<Event>, m: Machine, fails: Open -> bool) returns (rc: int, log: seq<Open>)
    ensures log == Opens(es, Leaders(es, 0, None), m, |es|)
    ensures rc == if log != [] && AllFail(log, fails) then -1 else 0
  {
    ghost var ls := Leaders(es, 0, None);
    assert es != [] ==> ls[0] == None;
    FailedOrNot([], fails);
    var leader: Option<nat> := None;
    var err, success, k := 0, 0, 0;
    log := [];
    assert Counted(log, fails, success, err);
    OpensNone(es, ls, m);
    hide AllFail, AllGood, Leaders, OpensOn, Allowed, Counted, Opens;
    while k < |es|
      invariant k <= |es| && log == Opens(es, ls, m, k)
      invariant k < |es| ==> leader == ls[k]
      invariant Counted(log, fails, success, err)
    {
      var e := es[k];
      OpensNext(es, ls, m, k);
      if e.uncore {
        log, success, err := OpenOn(k, leader, m.sockets, m.mask, fails, log, success, err);
      } else {
        log, success, err := OpenOn(k, leader, seq(m.cpus, i => i), m.mask, fails, log, success, err);
      }
      if k + 1 < |es| {
        LeaderStep(es, 0, None, k);
      }
      if e.leader {
        leader := Some(k);
      }
      if e.end {
        leader := None;
      }
      k := k + 1;
    }
    Result(log, fails, success, err);
    if success > 0 {
      return 0, log;
    }
    rc := err;
  }

  lemma Result(log: seq<Open>, fails: Open -> bool, success: int, err: int)
    requires Counted(log, fails, success, err)
    ensures (if success > 0 then 0 else err) == if log != [] && AllFail(log, fails) then -1 else 0
  {
    hide AllFail, AllGood;
    FailedOrNot(log, fails);
  }

  lemma {:induction false} AllowedHas(cpus: seq<int>, mask: Option<string>, c: int)
    ensures c in Allowed(cpus, mask) <==> c in cpus && (mask.Some? ==> Matches(mask.value, c))
  {
    hide Matches;
    if cpus != [] {
      AllowedHas(cpus[1..], mask, c);
      assert cpus == [cpus[0]] + cpus[1..];
    }
  }

  /**
   Event `k` is opened on a processor exactly if the mask allows it and it is, for an uncore event, one that stands
   for a socket, and for any other one of the machine; always with the same leader.
   */
  lemma {:induction false} OpenedOn(es: seq<Event>, ls: seq<Option<nat>>, m: Machine, n: nat, call: Open)
    requires n <= |es| == |ls|
    ensures call in Opens(es, ls, m, n) <==>
            && call.event < n && call.leader == ls[call.event]
            && (if es[call.event].uncore then call.cpu in m.sockets else 0 <= call.cpu < m.cpus)
            && (m.mask.Some? ==> Matches(m.mask.value, call.cpu))
  {
    hide Matches, Allowed;
    if n > 0 {
      OpenedOn(es, ls, m, n - 1, call);
      var e := es[n - 1];
      var all := seq(m.cpus, i => i);
      assert forall c: int :: c in all <==> 0 <= c < m.cpus by {
        forall c: int ensures c in all <==> 0 <= c < m.cpus {
          if 0 <= c < m.cpus {
            assert all[c] == c;
          }
        }
      }
      AllowedHas(m.sockets, m.mask, call.cpu);
      AllowedHas(all, m.mask, call.cpu);
      CallsOn(n - 1, ls[n - 1], CpusOf(e, m), call);
    }
  }

  lemma CallsOn(k: nat, leader: Option<nat>, cpus: seq<int>, call: Open)
    ensures call in OpensOn(k, leader, cpus) <==> call.event == k && call.leader == leader && call.cpu in cpus
  {
    var calls := OpensOn(k, leader, cpus);
    if call.event == k && call.leader == leader && call.cpu in cpus {
      var i :| 0 <= i < |cpus| && cpus[i] == call.cpu;
      assert calls[i] == call;
    }
  }

  // ---------- Leaders of a list

  function Nones(n: nat): seq<Option<nat>> {
    seq(n, i => None)
  }

  function ItemLeaders(i: Item, base: nat, r: Resolver): seq<Option<nat>> {
    match i
    case Single(name) => Nones(1 + if r(name).Resolved? then r(name).more else 0)
    case Group(head, rest) => [None] + seq(|rest|, j => Some(base))
  }

  /** The leaders the user means: none for single events and heads of groups, the head for every other member. */
  ghost function MeantLeaders(items: seq<Item>, base: nat, r: Resolver): seq<Option<nat>>
    requires Usable(items, r)
  {
    if items == [] then []
    else ItemLeaders(items[0], base, r) + MeantLeaders(items[1..], base + |ItemEvents(items[0], base, r)|, r)
  }

  /** The leader after a run of events. */
  function LeaderPast(es: seq<Event>, k: nat, leader: Option<nat>): Option<nat> {
    if es == [] then leader else LeaderPast(es[1..], k + 1, LeaderAfter(leader, k, es[0]))
  }

  lemma {:induction false} LeadersJoin(a: seq<Event>, b: seq<Event>, k: nat, leader: Option<nat>)
    ensures Leaders(a + b, k, leader) == Leaders(a, k, leader) + Leaders(b, k + |a|, LeaderPast(a, k, leader))
  {
    if a == [] {
      assert a + b == b;
    } else {
      var next := LeaderAfter(leader, k, a[0]);
      assert (a + b)[1..] == a[1..] + b && (a + b)[0] == a[0];
      hide LeaderAfter;
      LeadersJoin(a[1..], b, k + 1, next);
      var last := LeaderPast(a, k, leader);
      assert Leaders(a + b, k, leader) == [leader] + (Leaders(a[1..], k + 1, next) + Leaders(b, k + |a|, last));
    }
  }

  lemma {:induction false} PlainEventsLead(es: seq<Event>, k: nat)
    requires forall i :: 0 <= i < |es| ==> !es[i].leader && !es[i].end
    ensures Leaders(es, k, None) == Nones(|es|) && LeaderPast(es, k, None) == None
  {
    if es != [] {
      PlainEventsLead(es[1..], k + 1);
      assert [None] + Nones(|es| - 1) == Nones(|es|);
    }
  }

  lemma {:induction false} MembersLead(ms: seq<string>, k: nat, head: nat, r: Resolver)
    requires ms != [] && forall i :: 0 <= i < |ms| ==> Known(ms[i], true, r)
    ensures Leaders(MemberEvents(ms, r), k, Some(head)) == seq(|ms|, j => Some(head))
    ensures LeaderPast(MemberEvents(ms, r), k, Some(head)) == None
  {
    var es := MemberEvents(ms, r);
    assert es[1..] == MemberEvents(ms[1..], r);
    if |ms| > 1 {
      MembersLead(ms[1..], k + 1, head, r);
    } else {
      assert es[1..] == [];
    }
    assert Leaders(es, k, Some(head)) == seq(|ms|, j => Some(head));
  }

  lemma ItemLead(i: Item, base: nat, r: Resolver)
    requires AllKnown(i, r) && (i.Group? ==> i.rest != [])
    ensures Leaders(ItemEvents(i, base, r), base, None) == ItemLeaders(i, base, r)
    ensures LeaderPast(ItemEvents(i, base, r), base, None) == None
  {
    match i
    case Single(name) => PlainEventsLead(ItemEvents(i, base, r), base);
    case Group(head, rest) =>
      MembersLead(rest, base + 1, base, r);
      assert ItemEvents(i, base, r)[1..] == MemberEvents(rest, r);
  }

  lemma {:induction false} ItemsLead(items: seq<Item>, base: nat, r: Resolver)
    requires Usable(items, r) && NoGroupOfOne(items)
    ensures Leaders(Expected(items, base, r), base, None) == MeantLeaders(items, base, r)
    decreases |items|
  {
    hide ItemEvents, ItemLeaders, Leaders, LeaderPast, AllPlain, AllKnown;
    if items == [] {
      NoLeaders(base);
    } else {
      assert AllKnown(items[0], r);
      var first := ItemEvents(items[0], base, r);
      ItemLead(items[0], base, r);
      ItemsLead(items[1..], base + |first|, r);
      LeadersJoin(first, Expected(items[1..], base + |first|, r), base, None);
    }
  }

  lemma NoLeaders(base: nat)
    ensures Leaders([], base, None) == []
  {
  }

  /** From text to descriptors: every event of the list is opened with the leader the user means. */
  lemma GroupsOpen(items: seq<Item>, r: Resolver, m: Machine)
    requires Usable(items, r) && NoGroupOfOne(items)
    ensures var es := Parse(Join(items), [], false, r).events;
      es == Expected(items, 0, r) && Leaders(es, 0, None) == MeantLeaders(items, 0, r)
  {
    hide *;
    GroupsRoundTrip(items, r);
    ItemsLead(items, 0, r);
  }

  lemma GroupOfOneText(a: string, b: string)
    ensures Join([Group(a, []), Single(b)]) == (['{'] + (a + ['}'])) + ([','] + b)
  {
    var items := [Group(a, []), Single(b)];
    assert items[1..] == [Single(b)] && items[1..][1..] == [];
    assert After(items[1..]) == [','] + b by { assert b + [] == b; }
    assert (['{'] + (a + ['}'])) + ([','] + b) == (['{'] + a) + (['}'] + ([','] + b));
  }

  lemma GroupOfOnePiece(a: string, r: Resolver)
    requires Known(a + ['}'], true, r)
    ensures Piece(['{'] + (a + ['}']), [], false, r) == Parsed([Head(a + ['}'], false, r)], true, true)
  {
    assert NameOf(['{'] + (a + ['}'])) == a + ['}'];
  }

  /** A group of one leaks: its name keeps the brace, and the event after it is opened in its group. */
  lemma GroupOfOneLeaks(a: string, b: string, r: Resolver)
    requires Plain(a) && Plain(b) && Known(a + ['}'], true, r) && Known(b, true, r)
    ensures var es := Parse(Join([Group(a, []), Single(b)]), [], false, r).events;
      es == [Head(a + ['}'], false, r), Member(b, false, r)] && Leaders(es, 0, None) == [None, Some(0)]
  {
    hide *;
    GroupOfOneText(a, b);
    GroupOfOneParses(a, b, r);
    TwoLeaders(Head(a + ['}'], false, r), Member(b, false, r)) by { TwoFlags(a + ['}'], b, r); }
  }

  lemma TwoFlags(a: string, b: string, r: Resolver)
    requires Known(a, true, r) && Known(b, true, r)
    ensures var h, m := Head(a, false, r), Member(b, false, r); h.leader && !h.end && !m.leader && !m.end
  {
  }

  lemma TwoLeaders(h: Event, m: Event)
    requires h.leader && !h.end && !m.leader && !m.end
    ensures Leaders([h, m], 0, None) == [None, Some(0)]
  {
    assert [h, m][1..] == [m];
  }

  lemma GroupOfOneParses(a: string, b: string, r: Resolver)
    requires Plain(a) && Plain(b) && Known(a + ['}'], true, r) && Known(b, true, r)
    ensures Parse((['{'] + (a + ['}'])) + ([','] + b), [], false, r).events ==
            [Head(a + ['}'], false, r), Member(b, false, r)]
  {
    var w, tail := ['{'] + (a + ['}']), [','] + b;
    var h, m := Head(a + ['}'], false, r), Member(b, false, r);
    assert b != [] && Closed(b, false) && Cut(b, false) == |b|;
    CutBraced(a, false);
    CutBraced(a + ['}'], false);
    hide Parse, Cut, Closed, Known, Plain, Piece, Head, Member;
    GroupOfOnePiece(a, r);
    OnePiece(w, tail, [], false, r);
    assert tail[1..] == b && b + [] == b;
    OnePiece(b, [], [h], true, r);
    MemberPieces(b, [h], r);
    assert [h] + [m] == [h, m];
  }
}
