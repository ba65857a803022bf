/**
 Grouping communication records by target and size, in key order, each group in recording order.
 */
module CommGroups {
  import opened Hooks
  import opened Clustering

  datatype CommKey = CommKey(target: int, count: int)

  predicate Less(a: CommKey, b: CommKey) {
    if a.target != b.target then a.target < b.target else a.count < b.count
  }

  function KeyOf(d: Data): CommKey {
    CommKey(d.target, d.count)
  }

  /** The records with key `k`, in order. */
  function Keyed(s: seq<Data>, k: CommKey): seq<Data> {
    if s == [] then []
    else
      var rest, d := Keyed(s[..|s| - 1], k), s[|s| - 1];
      if KeyOf(d) == k then rest + [d] else rest
  }

  function Keys(s: seq<Data>): set<CommKey> {
    set d <- s :: KeyOf(d)
  }

  function SetOf(ks: seq<CommKey>): set<CommKey> {
    set k <- ks
  }

  ghost predicate KeysAscend(ks: seq<CommKey>) {
    forall i, j :: 0 <= i < j < |ks| ==> Less(ks[i], ks[j])
  }

  function Parts(s: seq<Data>, ks: seq<CommKey>): seq<seq<Data>> {
    seq(|ks|, i requires 0 <= i < |ks| => Keyed(s, ks[i]))
  }

  lemma {:induction false} LeastKey(ks: set<CommKey>) returns (m: CommKey)
    requires ks != {}
    ensures m in ks && forall k <- ks :: k == m || Less(m, k)
    decreases ks
  {
    m :| m in ks;
    var rest := ks - {m};
    if rest != {} {
      var n := LeastKey(rest);
      if Less(n, m) {
        m := n;
      }
      assert forall k <- ks :: k in rest || k in ks - rest;
    } else {
      assert ks == {m};
    }
  }

  lemma KeyedAppend(s: seq<Data>, d: Data)
    ensures Keys(s + [d]) == Keys(s) + {KeyOf(d)}
    ensures forall k :: Keyed(s + [d], k) == if k == KeyOf(d) then Keyed(s, k) + [d] else Keyed(s, k)
  {
    assert (s + [d])[..|s|] == s;
    assert forall x :: x in s + [d] <==> x in s || x == d;
  }

  /** A map from each key to its records. */
  ghost predicate Collected(m: map<CommKey, seq<Data>>, s: seq<Data>) {
    m.Keys == Keys(s) && forall k <- m :: m[k] == Keyed(s, k)
  }

  lemma CollectNext(m: map<CommKey, seq<Data>>, s: seq<Data>, d: Data)
    requires Collected(m, s)
    ensures Collected(m[KeyOf(d) := (if KeyOf(d) in m then m[KeyOf(d)] else []) + [d]], s + [d])
  {
    hide Keys, Keyed, KeyOf;
    KeyedAppend(s, d);
    if KeyOf(d) !in m {
      KeyedNone(s, KeyOf(d));
    }
  }

  method Collect(paths: seq<Data>) returns (classified: map<CommKey, seq<Data>>)
    ensures Collected(classified, paths)
  {
    classified := map[];
    for n := 0 to |paths|
      invariant Collected(classified, paths[..n])
    {
      hide Collected, Keyed, KeyOf;
      var data := paths[n];
      var key := KeyOf(data);
      assert paths[..n + 1] == paths[..n] + [data];
      CollectNext(classified, paths[..n], data);
      if key !in classified {
        classified := classified[key := []];
      }
      classified := classified[key := classified[key] + [data]];
    }
    assert paths[..|paths|] == paths;
  }

  /** `ks` are keys taken out in order, `todo` the larger ones still in. */
  ghost predicate Taken(ks: seq<CommKey>, todo: set<CommKey>) {
    KeysAscend(ks) && forall i :: 0 <= i < |ks| ==> forall k <- todo :: Less(ks[i], k)
  }

  lemma TakeNext(ks: seq<CommKey>, todo: set<CommKey>, key: CommKey)
    requires Taken(ks, todo) && key in todo && forall k <- todo :: k == key || Less(key, k)
    ensures Taken(ks + [key], todo - {key})
    ensures SetOf(ks + [key]) + (todo - {key}) == SetOf(ks) + todo
  {
    assert forall x :: x in ks + [key] <==> x in ks || x == key;
  }

  /** One part for each key that occurs, the keys ascending. */
  ghost predicate PartedBy(ks: seq<CommKey>, paths: seq<Data>, parts: seq<seq<Data>>) {
    KeysAscend(ks) && SetOf(ks) == Keys(paths) && parts == Parts(paths, ks)
  }

  method CommClassify(paths: seq<Data>) returns (ret: seq<seq<Data>>)
    ensures exists ks :: PartedBy(ks, paths, ret)
  {
    var classified := Collect(paths);
    ret := [];
    ghost var ks: seq<CommKey> := [];
    var todo := classified.Keys;
    while todo != {}
      invariant Taken(ks, todo) && SetOf(ks) + todo == classified.Keys && todo <= classified.Keys
      invariant ret == Parts(paths, ks)
      decreases todo
    {
      hide Taken, SetOf, Keyed, Less;
      ghost var least := LeastKey(todo);
      var key :| key in todo && forall k <- todo :: k == key || Less(key, k);
      TakeNext(ks, todo, key);
      ret := ret + [classified[key]];
      ks := ks + [key];
      todo := todo - {key};
    }
    assert PartedBy(ks, paths, ret);
  }

  lemma {:induction false} KeyedNone(s: seq<Data>, k: CommKey)
    requires k !in Keys(s)
    ensures Keyed(s, k) == []
  {
    if s != [] {
      assert KeyOf(s[|s| - 1]) in Keys(s);
      assert forall d <- s[..|s| - 1] :: d in s;
      KeyedNone(s[..|s| - 1], k);
    }
  }

  /** The records whose key is in `ks`. */
  function Only(s: seq<Data>, ks: set<CommKey>): multiset<Data> {
    if s == [] then multiset{}
    else Only(s[..|s| - 1], ks) + if KeyOf(s[|s| - 1]) in ks then multiset{s[|s| - 1]} else multiset{}
  }

  lemma {:induction false} OnlyOneMore(s: seq<Data>, ks: set<CommKey>, k: CommKey)
    requires k !in ks
    ensures Only(s, ks + {k}) == Only(s, ks) + multiset(Keyed(s, k))
  {
    if s != [] {
      OnlyOneMore(s[..|s| - 1], ks, k);
    }
  }

  lemma {:induction false} OnlyAll(s: seq<Data>, ks: set<CommKey>)
    requires Keys(s) <= ks
    ensures Only(s, ks) == multiset(s)
  {
    if s != [] {
      var n := |s| - 1;
      assert s == s[..n] + [s[n]] && KeyOf(s[n]) in Keys(s);
      OnlyAll(s[..n], ks);
    }
  }

  lemma {:induction false} PartsAreOnly(s: seq<Data>, ks: seq<CommKey>)
    requires KeysAscend(ks)
    ensures multiset(Flat(Parts(s, ks))) == Only(s, SetOf(ks))
  {
    if ks == [] {
      OnlyNone(s);
      assert SetOf(ks) == {};
    } else {
      var n := |ks| - 1;
      PartsAreOnly(s, ks[..n]);
      assert Parts(s, ks)[..n] == Parts(s, ks[..n]);
      FlatLast(Parts(s, ks));
      assert ks == ks[..n] + [ks[n]];
      assert SetOf(ks) == SetOf(ks[..n]) + {ks[n]};
      hide Flat, Only, Keyed, SetOf;
      OnlyOneMore(s, SetOf(ks[..n]), ks[n]);
    }
  }

  lemma {:induction false} OnlyNone(s: seq<Data>)
    ensures Only(s, {}) == multiset{}
  {
    if s != [] {
      OnlyNone(s[..|s| - 1]);
    }
  }

  /** The groups hold every record exactly once. */
  lemma {:induction false} CommPartition(s: seq<Data>, ks: seq<CommKey>)
    requires KeysAscend(ks) && SetOf(ks) == Keys(s)
    ensures multiset(Flat(Parts(s, ks))) == multiset(s)
  {
    PartsAreOnly(s, ks);
    OnlyAll(s, Keys(s));
  }

  /** The records with the given target and count, in order. */
  function OfClass(s: seq<Data>, target: int, count: int): seq<Data> {
    if s == [] then []
    else
      var d := s[|s| - 1];
      OfClass(s[..|s| - 1], target, count) + if d.target == target && d.count == count then [d] else []
  }

  lemma {:induction false} KeyedIs(s: seq<Data>, k: CommKey)
    ensures Keyed(s, k) == OfClass(s, k.target, k.count)
    ensures forall d <- Keyed(s, k) :: d in s && d.target == k.target && d.count == k.count
  {
    if s != [] {
      KeyedIs(s[..|s| - 1], k);
    }
  }

  lemma {:induction false} KeyedSome(s: seq<Data>, k: CommKey)
    requires k in Keys(s)
    ensures Keyed(s, k) != []
  {
    if s != [] && KeyOf(s[|s| - 1]) != k {
      assert s == s[..|s| - 1] + [s[|s| - 1]];
      KeyedSome(s[..|s| - 1], k);
    }
  }

  predicate ClassBefore(a: Data, b: Data) {
    a.target < b.target || (a.target == b.target && a.count < b.count)
  }

  /** The groups: each holds all records of one target and count, in order; targets ascend, and counts in a target. */
  lemma {:induction false} CommOrder(s: seq<Data>, ks: seq<CommKey>, parts: seq<seq<Data>>, i: nat)
    requires PartedBy(ks, s, parts) && i < |parts|
    ensures parts[i] != [] && parts[i] == OfClass(s, parts[i][0].target, parts[i][0].count)
    ensures forall j :: i < j < |parts| ==> parts[j] != [] && ClassBefore(parts[i][0], parts[j][0])
  {
    hide Keyed, OfClass;
    PartIs(s, ks, parts, i);
    forall j | i < j < |parts| ensures parts[j] != [] && ClassBefore(parts[i][0], parts[j][0]) {
      PartIs(s, ks, parts, j);
      assert Less(ks[i], ks[j]);
    }
  }

  lemma PartIs(s: seq<Data>, ks: seq<CommKey>, parts: seq<seq<Data>>, i: nat)
    requires PartedBy(ks, s, parts) && i < |parts|
    ensures |ks| == |parts| && parts[i] != [] && parts[i] == OfClass(s, ks[i].target, ks[i].count)
    ensures parts[i][0].target == ks[i].target && parts[i][0].count == ks[i].count
  {
    assert ks[i] in SetOf(ks);
    KeyedSome(s, ks[i]);
    KeyedIs(s, ks[i]);
    assert parts[i][0] in Keyed(s, ks[i]);
  }
}
