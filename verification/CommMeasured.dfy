/** What is measured of communication: classes of at least five calls with the same target and count. */
module CommMeasured {
  import opened Hooks
  import opened Clustering
  import opened CommGroups
  import opened MeasuredOnce
  import opened Report
  import Stability

  lemma {:induction false} ClassJoin(a: seq<Data>, b: seq<Data>, target: int, count: int)
    ensures OfClass(a + b, target, count) == OfClass(a, target, count) + OfClass(b, target, count)
  {
    if b == [] {
      assert a + b == a;
    } else {
      var n := |b| - 1;
      assert (a + b)[..|a + b| - 1] == a + b[..n] && (a + b)[|a + b| - 1] == b[n];
      ClassJoin(a, b[..n], target, count);
    }
  }

  /** Of records of one class, all are of it or none. */
  lemma {:induction false} ClassOfOne(s: seq<Data>, k: CommKey, target: int, count: int)
    requires forall d <- s :: d.target == k.target && d.count == k.count
    ensures OfClass(s, target, count) == if k == CommKey(target, count) then s else []
  {
    if s != [] {
      var n := |s| - 1;
      assert s == s[..n] + [s[n]] && s[n] in s;
      ClassOfOne(s[..n], k, target, count);
    }
  }

  /** What is used of `n` records of a class: none of fewer than five, all of up to sixteen, else all but sixteen. */
  function Measure(s: seq<Data>): seq<Data> {
    if |s| < 5 then [] else if |s| <= 16 then s else s[..|s| - 16]
  }

  lemma UsedOfClass(s: seq<Data>, target: int, count: int)
    ensures var p := OfClass(s, target, count); (if Passes(p, true) then Used(p, true) else []) == Measure(p)
  {
  }

  lemma MeasuredOfClass(s: seq<Data>, k: CommKey, target: int, count: int)
    ensures OfClass(Measure(OfClass(s, k.target, k.count)), target, count) ==
            if k == CommKey(target, count) then Measure(OfClass(s, target, count)) else []
  {
    hide OfClass, Keyed;
    KeyedIs(s, k);
    assert forall d <- Measure(Keyed(s, k)) :: d in Keyed(s, k);
    ClassOfOne(Measure(Keyed(s, k)), k, target, count);
  }

  lemma UsedNext(s: seq<Data>, ks: seq<CommKey>, k: CommKey)
    ensures UsedOf(Parts(s, ks + [k]), true) == UsedOf(Parts(s, ks), true) + Measure(OfClass(s, k.target, k.count))
  {
    hide Passes, Used, OfClass, Keyed, Measure;
    var parts := Parts(s, ks + [k]);
    assert parts[..|ks|] == Parts(s, ks) && parts[|ks|] == Keyed(s, k);
    KeyedIs(s, k);
    UsedOfClass(s, k.target, k.count);
  }

  lemma {:induction false} PartsMeasure(s: seq<Data>, ks: seq<CommKey>, target: int, count: int)
    requires KeysAscend(ks)
    ensures OfClass(UsedOf(Parts(s, ks), true), target, count) ==
            if CommKey(target, count) in ks then Measure(OfClass(s, target, count)) else []
  {
    hide OfClass, Measure, UsedOf;
    if ks == [] {
      NoClass(target, count);
      assert Parts(s, ks) == [];
    } else {
      hide Parts;
      var init, k := ks[..|ks| - 1], ks[|ks| - 1];
      PartsMeasure(s, init, target, count);
      assert ks == init + [k];
      UsedNext(s, init, k);
      ClassJoin(UsedOf(Parts(s, init), true), Measure(OfClass(s, k.target, k.count)), target, count);
      MeasuredOfClass(s, k, target, count);
      assert forall i :: 0 <= i < |init| ==> Less(ks[i], k);
      assert k !in init;
    }
  }

  lemma NoClass(target: int, count: int)
    ensures OfClass([], target, count) == [] && UsedOf([], true) == []
  {
  }

  function Large(s: seq<Data>, ks: seq<CommKey>): set<CommKey> {
    set k <- ks | |OfClass(s, k.target, k.count)| >= 5
  }

  /** The classes of at least five calls. */
  function LargeClasses(s: seq<Data>): set<CommKey> {
    set d <- s | |OfClass(s, d.target, d.count)| >= 5 :: CommKey(d.target, d.count)
  }

  lemma {:induction false} PartsCount(s: seq<Data>, ks: seq<CommKey>)
    requires KeysAscend(ks)
    ensures CountPassing(Parts(s, ks), true) == |Large(s, ks)|
  {
    hide OfClass, Keyed;
    if ks == [] {
      assert Large(s, ks) == {};
    } else {
      var n := |ks| - 1;
      var init, k := ks[..n], ks[n];
      PartsCount(s, init);
      assert Parts(s, ks)[..n] == Parts(s, init) && Parts(s, ks)[n] == Keyed(s, k);
      KeyedIs(s, k);
      assert ks == init + [k];
      forall i | 0 <= i < n ensures ks[i] != k {
        assert Less(ks[i], ks[n]);
      }
      LargeNext(s, init, k);
    }
  }

  lemma LargeNext(s: seq<Data>, ks: seq<CommKey>, k: CommKey)
    requires k !in ks
    ensures |Large(s, ks + [k])| == |Large(s, ks)| + if |OfClass(s, k.target, k.count)| >= 5 then 1 else 0
  {
    hide OfClass;
    assert Large(s, ks + [k]) == Large(s, ks) + if |OfClass(s, k.target, k.count)| >= 5 then {k} else {};
  }

  /**
   Of each class of calls of a vertex: fewer than five are not measured; five to sixteen all are; of more, all but
   the last sixteen.
   */
  lemma {:induction false} VertexMeasures(records: seq<Data>, groups: seq<seq<Data>>, target: int, count: int)
    requires Grouping(records, true, groups)
    ensures var class_ := OfClass(records, target, count);
            OfClass(UsedOf(groups, true), target, count) ==
            if |class_| < 5 then [] else if |class_| <= 16 then class_ else class_[..|class_| - 16]
  {
    hide OfClass, UsedOf;
    var ks :| PartedBy(ks, records, groups);
    PartsMeasure(records, ks, target, count);
    if CommKey(target, count) !in ks {
      assert CommKey(target, count) !in SetOf(ks);
      NoneOfClass(records, target, count);
    }
  }

  lemma {:induction false} NoneOfClass(s: seq<Data>, target: int, count: int)
    requires CommKey(target, count) !in Keys(s)
    ensures OfClass(s, target, count) == []
  {
    if s != [] {
      var n := |s| - 1;
      assert s == s[..n] + [s[n]] && KeyOf(s[n]) in Keys(s);
      NoneOfClass(s[..n], target, count);
    }
  }

  /** The number noted for a vertex is that of its classes of at least five calls. */
  lemma {:induction false} VertexCounts(records: seq<Data>, groups: seq<seq<Data>>)
    requires Grouping(records, true, groups)
    ensures CountPassing(groups, true) == |LargeClasses(records)|
  {
    hide OfClass, CountPassing;
    var ks: seq<CommKey> :| PartedBy(ks, records, groups);
    PartsCount(records, ks);
    assert forall k: CommKey :: k in ks <==> k in SetOf(ks);
    assert Large(records, ks) == LargeClasses(records);
  }

  /** What is measured of computation is in groups of at least five records with counts closer than 49 to 51. */
  lemma {:induction false} EdgeMeasures(groups: seq<seq<Data>>, d: Data) returns (i: nat)
    requires d in UsedOf(groups, false)
    ensures i < |groups| && d in groups[i] && |groups[i]| >= 5
    ensures (forall e <- groups[i] :: |e.papi| > 0 && 0 < e.papi[0] <= 0x7fff_ffff_ffff_ffff) ==>
      forall a, b :: a in groups[i] && b in groups[i] ==> 49 * b.papi[0] < 51 * a.papi[0]
  {
    InUsed(groups, d);
    i :| 0 <= i < |groups| && Passes(groups[i], false) && d in groups[i];
    if forall e <- groups[i] :: |e.papi| > 0 && 0 < e.papi[0] <= 0x7fff_ffff_ffff_ffff {
      Stability.StableIff(groups[i]);
    }
  }
}
