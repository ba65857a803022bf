/**
 Reading a performance counter from user space while the kernel may move it to another hardware counter
 at any instruction: a sequence lock around an index, an offset and one counter read.
 */
module Rdpmc {
  import opened Basics

  /** Counters and results have 48 bits. */
  const WIDTH := 0x1_0000_0000_0000

  /** The sequence word has 32 bits and grows by two at each change. */
  const CHANGES := 0x8000_0000

  /**
   What the reader shares with the kernel and the hardware: how often the mapping changed, the index plus
   one of the hardware counter in use (0: none), the offset, the hardware counters; and the true count.
   */
  datatype World = World(changes: nat, index: nat, offset: nat, pmc: nat -> nat, count: nat)

  function Lock(w: World): nat {
    2 * w.changes % 0x1_0000_0000
  }

  /** While a hardware counter is in use, it and the offset make up the count. */
  ghost predicate Coherent(w: World) {
    w.index != 0 ==> (w.pmc(w.index - 1) + w.offset) % WIDTH == w.count % WIDTH
  }

  /** Events are counted, and the kernel may change the mapping, but then it changes the sequence word. */
  ghost predicate Reaches(a: World, b: World) {
    && Coherent(b) && a.changes <= b.changes && a.count <= b.count
    && (a.changes == b.changes ==> a.index == b.index && a.offset == b.offset)
  }

  lemma ReachesMore(a: World, b: World, c: World)
    requires Reaches(a, b) && Reaches(b, c)
    ensures Reaches(a, c)
  {
  }

  lemma ReachesItself(w: World)
    requires Coherent(w)
    ensures Reaches(w, w)
  {
  }

  lemma LockMoves(a: World, b: World)
    requires Lock(a) != Lock(b)
    ensures a.changes != b.changes
  {
  }

  /** One or more full turns of the sequence word lie between. */
  predicate Turned(a: World, b: World) {
    a.changes < b.changes && (b.changes - a.changes) % CHANGES == 0
  }

  /** The sequence word is the same again without changes and after full turns, and only then. */
  lemma SameLock(a: World, b: World)
    requires a.changes <= b.changes
    ensures Lock(a) == Lock(b) <==> (b.changes - a.changes) % 0x8000_0000 == 0
    ensures Lock(a) == Lock(b) <==> a.changes == b.changes || Turned(a, b)
  {
    var d := b.changes - a.changes;
    var q, r := d / CHANGES, d % CHANGES;
    assert 2 * b.changes == 2 * a.changes + q * 0x1_0000_0000 + 2 * r;
    LowBits(2 * a.changes, q, 2 * r);
  }

  lemma LowBits(x: nat, q: nat, r: nat)
    requires r < 0x1_0000_0000
    ensures (x + q * 0x1_0000_0000 + r) % 0x1_0000_0000 == x % 0x1_0000_0000 <==> r == 0
  {
    assert (x + q * 0x1_0000_0000 + r) % 0x1_0000_0000 == (x + r) % 0x1_0000_0000;
    var y := x % 0x1_0000_0000;
    assert (x + r) % 0x1_0000_0000 == (y + r) % 0x1_0000_0000;
    if r > 0 {
      assert (y + r) % 0x1_0000_0000 == if y + r < 0x1_0000_0000 then y + r else y + r - 0x1_0000_0000;
    }
  }

  function Masked(val: nat, offset: nat): nat {
    (val + offset) % WIDTH
  }

  /**
   One attempt that leaves through the lock test: its five reads happen in five worlds, and the result is
   the true count at the moment of the counter read, modulo 2^48.
   */
  lemma {:induction false} Snapshot(lock: World, index: World, offset: World, pmc: World, check: World)
    requires Reaches(lock, index) && Reaches(index, offset) && Reaches(offset, pmc) && Reaches(pmc, check)
    requires index.index != 0 && Lock(lock) == Lock(check) && !Turned(lock, check)
    ensures Masked(pmc.pmc(index.index - 1), offset.offset) == pmc.count % 0x1_0000_0000_0000
    ensures lock.changes == check.changes && lock.count <= pmc.count <= check.count
  {
    SameLock(lock, check);
  }

  /** Any number of full turns of the sequence word within one attempt defeats the test. */
  lemma FullTurnsMislead(changes: nat, turns: nat) returns (before: World, after: World)
    requires turns > 0
    ensures Coherent(before) && Reaches(before, after)
    ensures before.changes == changes && after.changes == changes + turns * CHANGES && Turned(before, after)
    ensures Lock(before) == Lock(after) && before.index != 0
    ensures Masked(after.pmc(before.index - 1), before.offset) != after.count % WIDTH
  {
    before := World(changes, 1, 0, (i: nat) => 5, 5);
    after := World(changes + turns * CHANGES, 2, 0, (i: nat) => if i == 0 then 7 else 5, 5);
    assert (turns * CHANGES) % CHANGES == 0;
    SameLock(before, after);
  }

  /** The shared state and what will still happen to it. */
  class Machine {
    var now: World
    var future: seq<World>

    ghost predicate Valid()
      reads this
    {
      && Coherent(now)
      && (future != [] ==> Reaches(now, future[0]))
      && forall i :: 0 <= i < |future| - 1 ==> Reaches(future[i], future[i + 1])
    }

    constructor (now: World, future: seq<World>)
      requires Coherent(now) && (future != [] ==> Reaches(now, future[0]))
      requires forall i :: 0 <= i < |future| - 1 ==> Reaches(future[i], future[i + 1])
      ensures Valid() && this.now == now && this.future == future
    {
      this.now, this.future := now, future;
    }

    /** Any number of events and changes, between two instructions of the reader. */
    method Elapse()
      requires Valid()
      modifies this
      ensures Valid() && Reaches(old(now), now) && |future| <= |old(future)|
      ensures now.changes != old(now.changes) ==> |future| < |old(future)|
    {
      var k :| 0 <= k <= |future|;
      while k > 0
        invariant 0 <= k <= |future| && Valid() && Reaches(old(now), now)
        invariant |future| <= |old(future)| && (|future| == |old(future)| ==> now == old(now))
        decreases k
      {
        ReachesMore(old(now), now, future[0]);
        assert forall i :: 0 <= i < |future[1..]| - 1 ==> Reaches(future[1..][i], future[1..][i + 1]);
        now, future := future[0], future[1..];
        k := k - 1;
      }
    }

    /** One turn of the loop; `done` when it is the last. */
    method Attempt() returns (done: bool, val: nat, offset: nat, index: nat, ghost start: World, ghost at: World)
      requires Valid()
      modifies this
      ensures Valid() && Reaches(old(now), start) && Reaches(start, at) && Reaches(at, now)
      ensures |future| <= |old(future)| && (!done ==> |future| < |old(future)|)
      ensures index == 0 ==> done && val == 0 && offset == at.offset
      ensures index != 0 ==> (done <==> Lock(start) == Lock(now))
      ensures index != 0 && done && !Turned(start, now) ==> Masked(val, offset) == at.count % WIDTH
    {
      hide Reaches, Coherent, Lock, Turned, Masked;
      Elapse();
      var seq_ := Lock(now);
      start := now;
      Elapse();
      index := now.index;
      ghost var atIndex := now;
      Elapse();
      offset := now.offset;
      ghost var atOffset := now;
      ReachesMore(start, atIndex, atOffset);
      if index == 0 {
        ReachesItself(now);
        return true, 0, offset, 0, start, now;
      }
      Elapse();
      val, at := now.pmc(index - 1), now;
      ReachesMore(start, atOffset, at);
      Elapse();
      done := Lock(now) == seq_;
      if !done {
        LockMoves(start, now);
      } else if !Turned(start, now) {
        Snapshot(start, atIndex, atOffset, at, now);
      }
    }

    /**
     The counter read: under any finite interleaving it ends; unless it finds no hardware counter or the
     sequence word makes full turns, it returns the true count at one moment during the call.
     */
    method RdpmcRead() returns (r: nat, ghost index: nat, ghost start: World, ghost at: World)
      requires Valid()
      modifies this
      ensures Valid() && Reaches(old(now), start) && Reaches(start, at) && Reaches(at, now)
      ensures index == 0 ==> r == at.offset % 0x1_0000_0000_0000
      ensures index != 0 ==> Lock(start) == Lock(now)
      ensures index != 0 && !Turned(start, now) ==> r == at.count % 0x1_0000_0000_0000
    {
      hide Reaches, Coherent, Lock;
      var done, val: nat, offset: nat, i: nat;
      done, val, offset, i, start, at := Attempt();
      while !done
        invariant Valid() && Reaches(old(now), start) && Reaches(start, at) && Reaches(at, now)
        invariant done && i == 0 ==> val == 0 && offset == at.offset
        invariant done && i != 0 ==> Lock(start) == Lock(now)
        invariant done && i != 0 && !Turned(start, now) ==> Masked(val, offset) == at.count % WIDTH
        decreases !done, |future|
      {
        ghost var before := now;
        ReachesMore(old(now), start, at);
        ReachesMore(old(now), at, before);
        done, val, offset, i, start, at := Attempt();
        ReachesMore(old(now), before, start);
      }
      index := i;
      r := (val + offset) % WIDTH;
    }
  }

  /**
   The difference of two readings, as it is recorded, is the number of events between them exactly when the
   counter did not wrap.
   */
  lemma {:induction false} DifferenceIff(c1: nat, c2: nat)
    requires c1 <= c2
    ensures S64(U64(c2 % WIDTH - c1 % WIDTH)) == c2 - c1 <==> c1 / WIDTH == c2 / WIDTH
    ensures c2 < c1 + WIDTH && c1 / WIDTH != c2 / WIDTH ==> S64(U64(c2 % WIDTH - c1 % WIDTH)) == c2 - c1 - WIDTH
  {
    var a, b := c1 % WIDTH, c2 % WIDTH;
    var p, q := c1 / WIDTH, c2 / WIDTH;
    assert c1 == p * WIDTH + a && c2 == q * WIDTH + b;
    assert S64(U64(b - a)) == b - a;
    if c2 < c1 + WIDTH && p != q {
      assert q == p + 1;
    }
  }
}
