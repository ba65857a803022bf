/** The library sort: any rearrangement in which the keys ascend will do. */
module Sorting {
  ghost predicate AscendingBy<T>(s: seq<T>, key: T -> real) {
    forall i, j :: 0 <= i < j < |s| ==> key(s[i]) <= key(s[j])
  }

  lemma InsertedAscends<T>(s: seq<T>, i: nat, x: T, key: T -> real)
    requires AscendingBy(s, key) && i <= |s|
    requires forall k :: 0 <= k < i ==> key(s[k]) <= key(x)
    requires i < |s| ==> key(x) <= key(s[i])
    ensures AscendingBy(s[..i] + [x] + s[i..], key)
  {
    var r := s[..i] + [x] + s[i..];
    assert forall k :: 0 <= k < |r| ==> r[k] == if k < i then s[k] else if k == i then x else s[k - 1];
  }

  method Insert<T>(s: seq<T>, x: T, key: T -> real) returns (r: seq<T>)
    requires AscendingBy(s, key)
    ensures AscendingBy(r, key) && multiset(r) == multiset(s) + multiset{x}
  {
    hide AscendingBy;
    var i := 0;
    while i < |s| && key(s[i]) <= key(x)
      invariant 0 <= i <= |s| && forall k :: 0 <= k < i ==> key(s[k]) <= key(x)
    {
      i := i + 1;
    }
    r := s[..i] + [x] + s[i..];
    InsertedAscends(s, i, x, key);
    assert s == s[..i] + s[i..];
  }

  method SortBy<T>(items: seq<T>, key: T -> real) returns (s: seq<T>)
    ensures AscendingBy(s, key) && multiset(s) == multiset(items)
  {
    s := [];
    for n := 0 to |items|
      invariant AscendingBy(s, key) && multiset(s) == multiset(items[..n])
    {
      hide AscendingBy;
      assert items[..n + 1] == items[..n] + [items[n]];
      s := Insert(s, items[n], key);
    }
    assert items[..|items|] == items;
  }
}
