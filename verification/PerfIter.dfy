/**
 The perf ring buffer: the kernel writes records, a reader walks them with an iterator and gives the
 space back. Positions are counted without bound; the kernel's are taken modulo the buffer size, which
 is what the mask of a power of two does.
 */
module PerfIter {
  import opened Basics

  /** The size field of the record header that starts at `at`: bytes 6 and 7, low byte first. */
  function SizeAt(data: seq<Byte>, at: nat): nat
    requires at + 8 <= |data|
  {
    var lo: int, hi: int := data[at + 6], data[at + 7];
    lo + 256 * hi
  }

  /** A record: at least a header, a multiple of eight bytes, of the size it says. */
  predicate IsRecord(r: seq<Byte>) {
    |r| >= 8 && |r| % 8 == 0 && SizeAt(r, 0) == |r|
  }

  /** A record says its length in its bytes 6 and 7. */
  lemma RecordSays(r: seq<Byte>)
    requires IsRecord(r)
    ensures |r| >= 8 && |r| % 8 == 0 && r[6] as int + 256 * r[7] as int == |r|
  {
  }

  datatype Found = Null | InRing(at: nat, size: nat) | InBuffer(size: nat)

  /** A read: where the record is, its bytes, and the iterator's new fields. */
  datatype ReadResult = ReadResult(found: Found, bytes: seq<Byte>, cur: nat, avail: int)

  /** The header at the iterator's position; at the very end of the buffer it is the one at the start. */
  function HeaderAt(n: nat, cur: nat): nat {
    if cur == n then 0 else cur
  }

  /** Headers do not wrap, and the size at the position is that of a record the ring can hold. */
  predicate CanRead(data: seq<Byte>, cur: nat) {
    && |data| > 0 && |data| % 8 == 0 && cur % 8 == 0 && cur <= |data|
    && 8 <= SizeAt(data, HeaderAt(|data|, cur)) <= |data|
  }

  function Read(data: seq<Byte>, cur: nat, avail: int, bufsize: int): ReadResult
    requires CanRead(data, cur)
  {
    var left := |data| - cur;
    var size := SizeAt(data, HeaderAt(|data|, cur));
    if left >= 2 && size <= left then ReadResult(InRing(cur, size), data[cur..cur + size], cur + size, avail - size)
    else if size > bufsize then ReadResult(Null, [], cur, avail)
    else ReadResult(InBuffer(size), data[cur..] + data[..size - left], size - left, avail - size)
  }

  lemma Copied(was: seq<Byte>, now: seq<Byte>, data: seq<Byte>, to: nat, from: nat, n: nat)
    requires |was| == |now| && to + n <= |was| && from + n <= |data|
    requires forall k :: 0 <= k < |was| ==> now[k] == if to <= k < to + n then data[from + k - to] else was[k]
    ensures now == was[..to] + data[from..from + n] + was[to + n..]
  {
  }

  class Page {
    const data: array<Byte>
    var dataHead: nat
    var dataTail: nat

    constructor (data: array<Byte>)
      ensures this.data == data && dataHead == 0 && dataTail == 0
    {
      this.data := data;
      dataHead, dataTail := 0, 0;
    }
  }

  class Iter {
    const page: Page
    const bufsize: nat
    var cur: nat
    var rawHead: nat
    var avail: int

    /** Starts walking what the kernel has written so far. */
    constructor (page: Page)
      requires page.data.Length > 0
      ensures this.page == page && bufsize == page.data.Length
      ensures cur == page.dataTail % page.data.Length && rawHead == page.dataHead &&
          avail == page.dataHead - page.dataTail
    {
      this.page := page;
      bufsize := page.data.Length;
      cur := page.dataTail % page.data.Length;
      rawHead := page.dataHead;
      avail := page.dataHead - page.dataTail;
    }

    method Copy(buffer: array<Byte>, to: nat, from: nat, n: nat)
      requires buffer != page.data && to + n <= buffer.Length && from + n <= page.data.Length
      modifies buffer
      ensures buffer[..] == old(buffer[..to]) + page.data[from..from + n] + old(buffer[to + n..])
    {
      for i := 0 to n
        invariant forall k :: 0 <= k < buffer.Length ==>
                    buffer[k] == if to <= k < to + i then page.data[from + k - to] else old(buffer[k])
      {
        buffer[to + i] := page.data[from + i];
      }
      Copied(old(buffer[..]), buffer[..], page.data[..], to, from, n);
    }

    /** Copies the rest of the buffer, if any, and then its start. */
    method CopyWrapped(buffer: array<Byte>, left: nat, size: nat)
      requires buffer != page.data && left <= size <= buffer.Length && size <= page.data.Length
      requires cur + left == page.data.Length
      modifies buffer
      ensures buffer[..size] == page.data[cur..] + page.data[..size - left]
    {
      if left > 0 {
        Copy(buffer, 0, cur, left);
      }
      assert buffer[..left] == page.data[cur..];
      Copy(buffer, left, 0, size - left);
    }

    /** The next record: in place, or copied to `buffer` when it wraps; null when it does not fit there. */
    method PerfBufferRead(buffer: array<Byte>, size: int) returns (found: Found)
      requires bufsize == page.data.Length && buffer != page.data && size <= buffer.Length
      requires CanRead(page.data[..], cur)
      modifies this`cur, this`avail, buffer
      ensures var r := Read(page.data[..], old(cur), old(avail), size);
              && found == r.found && cur == r.cur && avail == r.avail
              && (found.InBuffer? ==> found.size <= buffer.Length && buffer[..found.size] == r.bytes)
              && (!found.InBuffer? ==> buffer[..] == old(buffer[..]))
      ensures Delivers(page.data[..], old(cur), buffer[..], size, found)
    {
      hide Delivers, SizeAt;
      ghost var data, was, had := page.data[..], cur, avail;
      var left := bufsize - cur;
      if left >= 2 && SizeAt(page.data[..], cur) <= left {
        var hdr := SizeAt(page.data[..], cur);
        found := InRing(cur, hdr);
        cur := cur + hdr;
        avail := avail - hdr;
        ReadDelivers(data, was, had, buffer[..], size, found);
      } else {
        var hdr := SizeAt(page.data[..], if left > 0 then cur else 0);
        if hdr > size {
          ReadDelivers(data, was, had, buffer[..], size, Null);
          return Null;
        }
        CopyWrapped(buffer, left, hdr);
        cur := hdr - left;
        avail := avail - hdr;
        found := InBuffer(hdr);
        ReadDelivers(data, was, had, buffer[..], size, found);
      }
    }

    /** Lets the kernel write over everything the iterator was started on. */
    method PerfIterContinue()
      modifies page
      ensures page.dataTail == rawHead && page.dataHead == old(page.dataHead)
    {
      page.dataTail := rawHead;
    }
  }

  // ---------- The protocol of kernel and reader

  function Join(rs: seq<seq<Byte>>): seq<Byte> {
    if rs == [] then [] else Join(rs[..|rs| - 1]) + rs[|rs| - 1]
  }

  /** The ring after the kernel has written `r` at position `head`. */
  function Put(data: seq<Byte>, head: nat, r: seq<Byte>): (d: seq<Byte>)
    ensures |d| == |data|
  {
    seq(|data|, j requires 0 <= j < |data| => if (j - head) % |data| < |r| then r[(j - head) % |data|] else data[j])
  }

  datatype Cursor = Cursor(cur: nat, avail: int, rawHead: nat)

  datatype Session = Idle | Reading(c: Cursor)

  /** Ring, kernel positions, the kernel's log; the reader's iterator, what it has returned, and where that was. */
  datatype Sys = Sys(data: seq<Byte>, head: nat, tail: nat, log: seq<seq<Byte>>, session: Session,
                     got: seq<seq<Byte>>, outs: seq<Found>)

  datatype Action = Append(r: seq<Byte>) | Begin | Take(bufsize: int) | Continue

  /**
   The kernel writes whole records into free space at any time. The reader starts an iterator, reads
   while it is not finished, and then continues.
   */
  predicate Enabled(s: Sys, a: Action) {
    match a
    case Append(r) => IsRecord(r) && s.head + |r| <= s.tail + |s.data|
    case Begin => s.session == Idle
    case Take(_) => s.session.Reading? && s.session.c.avail > 0 && CanRead(s.data, s.session.c.cur)
    case Continue => s.session.Reading? && s.session.c.avail <= 0
  }

  function Next(s: Sys, a: Action): Sys
    requires |s.data| > 0 && Enabled(s, a)
  {
    match a
    case Append(r) => s.(data := Put(s.data, s.head, r), head := s.head + |r|, log := s.log + [r])
    case Begin => s.(session := Reading(Cursor(s.tail % |s.data|, s.head - s.tail, s.head)))
    case Take(bufsize) =>
      var c := s.session.c;
      var r := Read(s.data, c.cur, c.avail, bufsize);
      s.(session := Reading(Cursor(r.cur, r.avail, c.rawHead)),
         got := if r.found == Null then s.got else s.got + [r.bytes],
         outs := if r.found == Null then s.outs else s.outs + [r.found])
    case Continue => s.(session := Idle, tail := s.session.c.rawHead)
  }

  function Boot(data: seq<Byte>): Sys {
    Sys(data, 0, 0, [], Idle, [], [])
  }

  /** All the bytes that may still be read are in the ring, each at its place. */
  ghost predicate Kept(s: Sys) {
    && |s.data| > 0 && |s.data| % 8 == 0
    && s.tail <= s.head == |Join(s.log)| <= s.tail + |s.data|
    && (forall i :: s.tail <= i < s.head ==> s.data[i % |s.data|] == Join(s.log)[i])
    && (forall k :: 0 <= k < |s.log| ==> IsRecord(s.log[k]) && |s.log[k]| <= |s.data|)
  }

  /** Where the iterator stands when `p` bytes have been returned; it may rest at the very end of the buffer. */
  predicate Stands(n: nat, cur: nat, p: nat)
    requires n > 0
  {
    cur == p % n || (cur == n && p % n == 0)
  }

  /** What was returned is the start of the log, up to the tail or to the iterator's place. */
  ghost predicate Returned(s: Sys)
    requires |s.data| > 0
  {
    && s.got <= s.log
    && var p := |Join(s.got)|;
       match s.session
       case Idle => p == s.tail
       case Reading(c) =>
         && s.tail <= p && p + c.avail == c.rawHead <= s.head && c.avail >= 0
         && Stands(|s.data|, c.cur, p)
         && exists m: nat :: m <= |s.log| && |Join(s.log[..m])| == c.rawHead
  }

  /**
   Each place handed out is that of its record in the log: in the ring, where the record lies whole, or the
   buffer.
   */
  ghost predicate Handed(s: Sys)
    requires |s.data| > 0
  {
    && |s.outs| == |s.got| <= |s.log|
    && forall k :: 0 <= k < |s.outs| ==> Placed(s.outs[k], s.log[k], |Join(s.log[..k])|, |s.data|)
  }

  predicate Placed(found: Found, r: seq<Byte>, p: nat, n: nat)
    requires n > 0
  {
    match found
    case Null => false
    case InRing(at, size) => at == p % n && size == |r| && at + size <= n
    case InBuffer(size) => size == |r|
  }

  ghost predicate Inv(s: Sys) {
    Kept(s) && Returned(s) && Handed(s)
  }

  lemma ModShift(x: int, k: int, n: int)
    requires n > 0
    ensures (x + k * n) % n == x % n
  {
    assert x + k * n == (x / n + k) * n + x % n;
    QuotientIs(x + k * n, x / n + k, x % n, n);
  }

  lemma ModSub(x: int, y: int, n: int)
    requires n > 0
    ensures (x % n - y) % n == (x - y) % n
  {
    assert x % n - y == (x - y) + (-(x / n)) * n;
    ModShift(x - y, -(x / n), n);
  }

  /** A byte of the record lies where it should; the bytes before, back to the tail, stay. */
  lemma PutAt(data: seq<Byte>, head: nat, r: seq<Byte>, i: nat)
    requires |data| > 0 && |r| <= |data| && head + |r| - |data| <= i < head + |r|
    ensures Put(data, head, r)[i % |data|] == if i < head then data[i % |data|] else r[i - head]
  {
    var n := |data|;
    ModSub(i, head, n);
    if i < head {
      QuotientIs(i - head, -1, i - head + n, n);
    } else {
      QuotientIs(i - head, 0, i - head, n);
    }
  }

  lemma JoinNext(rs: seq<seq<Byte>>, r: seq<Byte>)
    ensures Join(rs + [r]) == Join(rs) + r
  {
    assert (rs + [r])[..|rs|] == rs;
  }

  /** A longer log has a longer stream that starts the same. */
  lemma {:induction false} JoinPrefix(a: seq<seq<Byte>>, b: seq<seq<Byte>>)
    requires a <= b
    ensures Join(a) <= Join(b)
    decreases |b|
  {
    if |a| < |b| {
      JoinPrefix(a, b[..|b| - 1]);
    } else {
      assert a == b;
    }
  }

  lemma {:induction false} JoinAligned(rs: seq<seq<Byte>>)
    requires forall k :: 0 <= k < |rs| ==> IsRecord(rs[k])
    ensures |Join(rs)| % 8 == 0
  {
    if rs != [] {
      var n := |rs| - 1;
      assert IsRecord(rs[n]) && |rs[n]| % 8 == 0;
      JoinAligned(rs[..n]);
      assert |Join(rs)| == |Join(rs[..n])| + |rs[n]|;
      hide Join, IsRecord;
    }
  }

  lemma AppendKept(s: Sys, r: seq<Byte>)
    requires Kept(s) && Enabled(s, Append(r))
    ensures Kept(Next(s, Append(r)))
  {
    var s' := Next(s, Append(r));
    JoinNext(s.log, r);
    hide Put, Join;
    forall i | s'.tail <= i < s'.head ensures s'.data[i % |s'.data|] == Join(s'.log)[i] {
      PutAt(s.data, s.head, r, i);
    }
  }

  lemma AppendReturned(a: Sys, b: Sys)
    requires |a.data| > 0 && Returned(a) && a.log <= b.log && a.head <= b.head && |b.data| == |a.data|
    requires b == a.(data := b.data, head := b.head, log := b.log)
    ensures Returned(b)
  {
    hide Join, Stands;
    if a.session.Reading? {
      var m: nat :| m <= |a.log| && |Join(a.log[..m])| == a.session.c.rawHead;
      assert b.log[..m] == a.log[..m];
    }
  }

  /** Room for the kernel: what it writes does not touch what may still be read. */
  lemma {:induction false} AppendKeeps(s: Sys, r: seq<Byte>)
    requires Inv(s) && Enabled(s, Append(r))
    ensures Inv(Next(s, Append(r)))
  {
    InvParts(s);
    hide Kept, Returned, Handed, Join, IsRecord;
    AppendKept(s, r);
    AppendHanded(s, Next(s, Append(r)));
    AppendReturned(s, Next(s, Append(r)));
  }

  lemma {:induction false} BeginKeeps(s: Sys)
    requires Inv(s) && Enabled(s, Begin)
    ensures Inv(Next(s, Begin))
  {
    assert s.log[..|s.log|] == s.log;
  }

  lemma {:induction false} ContinueKeeps(s: Sys)
    requires Inv(s) && Enabled(s, Continue)
    ensures Inv(Next(s, Continue)) && |Join(Next(s, Continue).got)| == s.session.c.rawHead
  {
  }

  /** Before the end of a longer log there is a next record, and it ends no later. */
  lemma {:induction false} NextInLog(got: seq<seq<Byte>>, log: seq<seq<Byte>>, m: nat)
    requires got <= log && m <= |log| && |Join(got)| < |Join(log[..m])|
    ensures |got| < |log| && |Join(got)| + |log[|got|]| <= |Join(log[..m])|
    ensures Join(got) + log[|got|] <= Join(log)
  {
    var n := |got|;
    assert got == log[..n];
    if m <= n {
      JoinPrefix(log[..m], got);
    }
    assert log[..n + 1] == got + [log[n]];
    JoinNext(got, log[n]);
    JoinPrefix(log[..n + 1], log[..m]);
    JoinPrefix(log[..n + 1], log);
  }

  /** While the iterator is not finished, the next record of the log is whole in the ring. */
  lemma {:induction false} NextRecord(s: Sys)
    requires Inv(s) && s.session.Reading? && s.session.c.avail > 0
    ensures |s.got| < |s.log|
    ensures var r, p := s.log[|s.got|], |Join(s.got)|;
            && IsRecord(r) && |r| <= |s.data| && |r| <= s.session.c.avail && p % 8 == 0
            && (forall j :: 0 <= j < |r| ==> s.data[(p + j) % |s.data|] == r[j])
  {
    hide Join, IsRecord;
    var m: nat :| m <= |s.log| && |Join(s.log[..m])| == s.session.c.rawHead;
    NextInLog(s.got, s.log, m);
    JoinAligned(s.got);
    var r, p := s.log[|s.got|], |Join(s.got)|;
    forall j | 0 <= j < |r| ensures s.data[(p + j) % |s.data|] == r[j] {
      assert Join(s.log)[p + j] == (Join(s.got) + r)[p + j];
    }
  }

  /** A record that lies in a ring, and an iterator at its start. */
  ghost predicate Lies(data: seq<Byte>, cur: nat, p: nat, r: seq<Byte>) {
    && |data| > 0 && |data| % 8 == 0 && p % 8 == 0 && Stands(|data|, cur, p)
    && IsRecord(r) && |r| <= |data|
    && forall j :: 0 <= j < |r| ==> data[(p + j) % |data|] == r[j]
  }

  lemma ModPlus(p: nat, j: nat, n: nat)
    requires n > 0 && p % n + j < 2 * n
    ensures (p + j) % n == if p % n + j < n then p % n + j else p % n + j - n
  {
    assert p == p / n * n + p % n;
    if p % n + j < n {
      QuotientIs(p + j, p / n, p % n + j, n);
    } else {
      assert p + j == (p / n + 1) * n + (p % n + j - n);
      QuotientIs(p + j, p / n + 1, p % n + j - n, n);
    }
  }

  lemma ModAligned(p: nat, n: nat)
    requires n > 0 && n % 8 == 0 && p % 8 == 0
    ensures p % n % 8 == 0
  {
    var k := n / 8;
    assert p % n == p + (-(p / n) * k) * 8 by {
      assert n == k * 8;
      assert p == p / n * n + p % n;
      assert (p / n) * (k * 8) == (p / n * k) * 8;
    }
    ModShift(p, -(p / n) * k, 8);
  }

  /** The iterator at `cur` reads a header that lies at `p` and says the size is `n`. */
  predicate HeaderReads(data: seq<Byte>, cur: nat, p: nat, n: nat) {
    CanRead(data, cur) && HeaderAt(|data|, cur) == p % |data| && SizeAt(data, HeaderAt(|data|, cur)) == n
  }

  /** Its header is whole, and says its size. */
  lemma {:induction false} ReadsHeader(data: seq<Byte>, cur: nat, p: nat, r: seq<Byte>)
    requires Lies(data, cur, p, r)
    ensures HeaderReads(data, cur, p, |r|)
  {
    var n, at := |data|, p % |data|;
    ModAligned(p, n);
    NextEight(at, n);
    HeaderBytes(data, cur, p, r);
    assert HeaderAt(n, cur) == at && cur % 8 == 0;
    assert SizeAt(data, at) == SizeAt(r, 0);
  }

  lemma NextEight(x: nat, n: nat)
    requires x % 8 == 0 && n % 8 == 0 && x < n
    ensures x + 8 <= n
  {
  }

  lemma HeaderBytes(data: seq<Byte>, cur: nat, p: nat, r: seq<Byte>)
    requires Lies(data, cur, p, r) && p % |data| + 8 <= |data| && |r| >= 8
    ensures data[p % |data| + 6] == r[6] && data[p % |data| + 7] == r[7]
  {
    hide IsRecord, Stands;
    ModPlus(p, 6, |data|);
    ModPlus(p, 7, |data|);
    assert data[(p + 6) % |data|] == r[6] && data[(p + 7) % |data|] == r[7];
  }

  /** Its bytes, from where it starts to the end of the ring and then from the start of the ring. */
  lemma {:induction false} LiesInPieces(data: seq<Byte>, cur: nat, p: nat, r: seq<Byte>)
    requires Lies(data, cur, p, r) && cur <= |data|
    ensures var left := |data| - cur;
            if |r| <= left then data[cur..cur + |r|] == r else data[cur..] + data[..|r| - left] == r
  {
    var left := |data| - cur;
    var got := if |r| <= left then data[cur..cur + |r|] else data[cur..] + data[..|r| - left];
    hide IsRecord;
    forall j | 0 <= j < |r| ensures got[j] == r[j] {
      ModPlus(p, j, |data|);
      assert data[(p + j) % |data|] == r[j];
    }
  }

  /** Reading it: the header says its size, the bytes are its bytes, the iterator moves past it. */
  lemma {:induction false} ReadsRecord(data: seq<Byte>, cur: nat, p: nat, r: seq<Byte>, avail: int, bufsize: int)
    requires Lies(data, cur, p, r)
    ensures CanRead(data, cur)
    ensures var rd := Read(data, cur, avail, bufsize);
            if |data| - cur < |r| && |r| > bufsize then rd.found == Null
            else rd.found != Null && rd.bytes == r && rd.avail == avail - |r| && Stands(|data|, rd.cur, p + |r|) &&
                 Placed(rd.found, r, p, |data|) &&
                 (rd.found.InRing? ==> data[rd.found.at..rd.found.at + rd.found.size] == r)
  {
    ReadsHeader(data, cur, p, r);
    LiesInPieces(data, cur, p, r);
    ModPlus(p, |r|, |data|);
    hide SizeAt, IsRecord;
  }

  /**
   A record that lies at the iterator is found whole, in the ring or in the buffer, unless the buffer is too
   small.
   */
  ghost predicate Delivers(data: seq<Byte>, cur: nat, buffer: seq<Byte>, bufsize: int, found: Found) {
    forall p: nat, r: seq<Byte> :: Lies(data, cur, p, r) ==> Holds(data, cur, buffer, bufsize, found, r)
  }

  predicate Holds(data: seq<Byte>, cur: nat, buffer: seq<Byte>, bufsize: int, found: Found, r: seq<Byte>) {
    match found
    case Null => |data| - cur < |r| && |r| > bufsize
    case InRing(at, n) => n == |r| && at + n <= |data| && data[at..at + n] == r
    case InBuffer(n) => n == |r| && n <= |buffer| && buffer[..n] == r
  }

  lemma ReadDelivers(data: seq<Byte>, cur: nat, avail: int, buffer: seq<Byte>, bufsize: int, found: Found)
    requires CanRead(data, cur)
    requires var r := Read(data, cur, avail, bufsize);
      found == r.found && (found.InBuffer? ==> found.size <= |buffer| && buffer[..found.size] == r.bytes)
    ensures Delivers(data, cur, buffer, bufsize, found)
  {
    forall p: nat, r: seq<Byte> | Lies(data, cur, p, r) ensures Holds(data, cur, buffer, bufsize, found, r) {
      ReadsRecord(data, cur, p, r, avail, bufsize);
      hide Lies, Read, CanRead;
    }
  }

  /** What a read does to the state: nothing if the record does not fit, else it returns the next record of the log. */
  lemma TakeReads(s: Sys, bufsize: int) returns (found: Found)
    requires Inv(s) && Enabled(s, Take(bufsize))
    ensures |s.data| > 0 && |s.got| < |s.log| && s.session.Reading?
    ensures var r, s', c := s.log[|s.got|], Next(s, Take(bufsize)), s.session.c;
            if |s.data| - c.cur < |r| && |r| > bufsize then s' == s
            else
              && s'.session.Reading? && Placed(found, r, |Join(s.got)|, |s.data|)
              && s' == s.(session := s'.session, got := s.got + [r], outs := s.outs + [found])
              && s'.session.c.rawHead == c.rawHead && s'.session.c.avail == c.avail - |r| >= 0
              && Stands(|s.data|, s'.session.c.cur, |Join(s.got)| + |r|)
  {
    hide Lies, IsRecord, Join, CanRead, Stands, Placed, Inv, Kept, Returned, Handed, Read, Put;
    NextLies(s);
    var r, c, p := s.log[|s.got|], s.session.c, |Join(s.got)|;
    var rd := Read(s.data, c.cur, c.avail, bufsize);
    ReadsRecord(s.data, c.cur, p, r, c.avail, bufsize);
    found := rd.found;
    if found == Null {
      NullStays(s.data, c.cur, c.avail, bufsize);
    }
  }

  /** The next record lies where the iterator stands. */
  lemma NextLies(s: Sys)
    requires Inv(s) && s.session.Reading? && s.session.c.avail > 0
    ensures |s.data| > 0 && |s.got| < |s.log| && s.session.c.cur >= 0
    ensures var r, c := s.log[|s.got|], s.session.c; Lies(s.data, c.cur, |Join(s.got)|, r) && |r| <= c.avail
  {
    NextRecord(s);
    hide Join;
  }

  lemma NullStays(data: seq<Byte>, cur: nat, avail: int, bufsize: int)
    requires CanRead(data, cur) && Read(data, cur, avail, bufsize).found == Null
    ensures Read(data, cur, avail, bufsize).cur == cur && Read(data, cur, avail, bufsize).avail == avail
  {
  }

  lemma TakeKeeps(s: Sys, bufsize: int)
    requires Inv(s) && Enabled(s, Take(bufsize))
    ensures |s.got| < |s.log| && Inv(Next(s, Take(bufsize)))
    ensures var r := s.log[|s.got|];
            if |s.data| - s.session.c.cur < |r| && |r| > bufsize then Next(s, Take(bufsize)) == s
            else Next(s, Take(bufsize)).got == s.got + [r]
  {
    hide Kept, Returned, Handed, Next, Stands, Placed, Join;
    var found := TakeReads(s, bufsize);
    var s' := Next(s, Take(bufsize));
    if s' != s {
      KeptSame(s, s');
      TakeReturned(s, s', s.log[|s.got|]);
      TakeHanded(s, s', found);
    }
  }

  lemma KeptSame(a: Sys, b: Sys)
    requires Kept(a) && b == a.(session := b.session, got := b.got, outs := b.outs)
    ensures Kept(b)
  {
  }

  lemma TakeReturned(a: Sys, b: Sys, r: seq<Byte>)
    requires |a.data| > 0 && Returned(a) && a.session.Reading? && |a.got| < |a.log| && r == a.log[|a.got|]
    requires b == a.(session := b.session, got := a.got + [r], outs := b.outs) && b.session.Reading?
    requires b.session.c.rawHead == a.session.c.rawHead && b.session.c.avail == a.session.c.avail - |r| >= 0
    requires Stands(|a.data|, b.session.c.cur, |Join(a.got)| + |r|)
    ensures Returned(b)
  {
    JoinNext(a.got, r);
  }

  lemma TakeHanded(a: Sys, b: Sys, found: Found)
    requires |a.data| > 0 && Handed(a) && a.got <= a.log && |a.got| < |a.log|
    requires b == a.(session := b.session, got := a.got + [a.log[|a.got|]], outs := a.outs + [found])
    requires Placed(found, a.log[|a.got|], |Join(a.got)|, |a.data|)
    ensures Handed(b)
  {
    hide Placed, Join;
    assert a.log[..|a.outs|] == a.got;
    forall k | 0 <= k < |b.outs| ensures Placed(b.outs[k], b.log[k], |Join(b.log[..k])|, |b.data|) {
      assert k < |a.outs| ==> b.outs[k] == a.outs[k];
    }
  }

  lemma AppendHanded(a: Sys, b: Sys)
    requires |a.data| > 0 && Handed(a) && a.log <= b.log && b.got == a.got && b.outs == a.outs && |b.data| == |a.data|
    ensures Handed(b)
  {
    hide Placed, Join;
    forall k | 0 <= k < |b.outs| ensures Placed(b.outs[k], b.log[k], |Join(b.log[..k])|, |b.data|) {
      assert a.log[..k] == b.log[..k];
    }
  }

  /** Any run of enabled steps. */
  ghost predicate Runs(s: Sys, acts: seq<Action>, last: Sys)
    decreases |acts|
  {
    if acts == [] then last == s
    else |s.data| > 0 && Enabled(s, acts[0]) && Runs(Next(s, acts[0]), acts[1..], last)
  }

  lemma {:induction false} StepKeeps(s: Sys, a: Action)
    requires Inv(s) && Enabled(s, a)
    ensures Inv(Next(s, a)) && s.log <= Next(s, a).log && s.got <= Next(s, a).got
  {
    match a
    case Append(r) => AppendKeeps(s, r);
    case Begin => BeginKeeps(s);
    case Take(bufsize) => TakeKeeps(s, bufsize);
    case Continue => ContinueKeeps(s);
  }

  lemma {:induction false} RunKeeps(s: Sys, acts: seq<Action>, last: Sys)
    requires Inv(s) && Runs(s, acts, last)
    ensures Inv(last)
    decreases |acts|
  {
    hide Inv, Next, Enabled;
    if acts != [] {
      StepKeeps(s, acts[0]);
      RunKeeps(Next(s, acts[0]), acts[1..], last);
    }
  }

  /**
   Whole runs: under any interleaving, the reader returns the kernel's records, each once, whole and in
   order; between sessions it has returned all that it has given back.
   */
  lemma {:induction false} RunReturnsTheLog(data: seq<Byte>, acts: seq<Action>, s: Sys)
    requires |data| > 0 && |data| % 8 == 0 && Runs(Boot(data), acts, s)
    ensures Inv(s) && s.got <= s.log
    ensures s.session == Idle ==> |Join(s.got)| == s.tail
  {
    RunKeeps(Boot(data), acts, s);
  }

  lemma {:induction false} LongerJoin(a: seq<seq<Byte>>, b: seq<seq<Byte>>)
    requires a <= b && |a| < |b| && forall k :: 0 <= k < |b| ==> IsRecord(b[k])
    ensures |Join(a)| < |Join(b)|
  {
    JoinPrefix(a, b[..|b| - 1]);
  }

  /** A finished iterator has returned every record that was there when it was started. */
  lemma {:induction false} FinishedIsDrained(s: Sys, m: nat)
    requires Inv(s) && s.session.Reading? && s.session.c.avail <= 0
    requires m <= |s.log| && |Join(s.log[..m])| == s.session.c.rawHead
    ensures s.got == s.log[..m]
  {
    var a, b := s.got, s.log[..m];
    if |a| < |b| {
      LongerJoin(a, b);
    } else if |b| < |a| {
      LongerJoin(b, a);
    }
  }

  /** Where a record lies in the log's bytes. */
  lemma JoinAt(rs: seq<seq<Byte>>, k: nat)
    requires k < |rs|
    ensures var p := |Join(rs[..k])|;
      p + |rs[k]| <= |Join(rs)| && forall j :: 0 <= j < |rs[k]| ==> Join(rs)[p + j] == rs[k][j]
  {
    hide Join;
    var r := rs[k];
    assert rs[..k + 1] == rs[..k] + [r];
    JoinNext(rs[..k], r);
    JoinPrefix(rs[..k + 1], rs);
    forall j | 0 <= j < |r| ensures Join(rs)[|Join(rs[..k])| + j] == r[j] {
      assert Join(rs)[|Join(rs[..k])| + j] == Join(rs[..k + 1])[|Join(rs[..k])| + j];
    }
  }

  lemma InvParts(s: Sys)
    requires Inv(s)
    ensures Kept(s) && |s.data| > 0 && s.got <= s.log && s.tail <= s.head == |Join(s.log)|
  {
  }

  lemma KeptAt(s: Sys, i: nat)
    requires Kept(s) && s.tail <= i < s.head
    ensures i < |Join(s.log)| && s.data[i % |s.data|] == Join(s.log)[i]
  {
  }

  lemma ByteStays(s: Sys, k: nat, j: nat)
    requires Inv(s) && k < |s.log| && j < |s.log[k]|
    requires var p := |Join(s.log[..k])|; s.tail <= p && p % |s.data| + |s.log[k]| <= |s.data|
    ensures s.data[|Join(s.log[..k])| % |s.data| + j] == s.log[k][j]
  {
    InvParts(s);
    hide Join, Inv, Kept;
    var p := |Join(s.log[..k])|;
    JoinAt(s.log, k);
    ModPlus(p, j, |s.data|);
    KeptAt(s, p + j);
  }

  /** Where a record of the log fits the ring, its bytes stay until the reader continues. */
  lemma {:induction false} LogStays(s: Sys, k: nat)
    requires Inv(s) && k < |s.got|
    requires var p := |Join(s.log[..k])|; s.tail <= p && p % |s.data| + |s.log[k]| <= |s.data|
    ensures var at := |Join(s.log[..k])| % |s.data|; s.data[at..at + |s.log[k]|] == s.log[k] == s.got[k]
  {
    InvParts(s);
    hide Join, Inv;
    var at := |Join(s.log[..k])| % |s.data|;
    forall j | 0 <= j < |s.log[k]| ensures s.data[at + j] == s.log[k][j] {
      ByteStays(s, k, j);
    }
    assert s.data[at..at + |s.log[k]|] == s.log[k];
  }

  /**
   At an address handed out in the ring lies the record returned, whatever the kernel has written since, until
   the reader continues.
   */
  lemma {:induction false} ReturnedStays(s: Sys, k: nat)
    requires Inv(s) && k < |s.got| && s.tail <= |Join(s.log[..k])|
    ensures k < |s.outs| && s.outs[k] != Null
    ensures s.outs[k].InRing? ==>
      var at, size := s.outs[k].at, s.outs[k].size;
      at + size <= |s.data| && s.data[at..at + size] == s.log[k] == s.got[k]
  {
    InvParts(s);
    hide Join, Kept, Returned;
    assert Placed(s.outs[k], s.log[k], |Join(s.log[..k])|, |s.data|);
    if s.outs[k].InRing? {
      LogStays(s, k);
    }
  }

  /** With a buffer for the largest record, every read returns the next record. */
  lemma {:induction false} BigEnoughBuffer(s: Sys, bufsize: int)
    requires Inv(s) && s.session.Reading? && s.session.c.avail > 0
    requires forall k :: 0 <= k < |s.log| ==> |s.log[k]| <= bufsize
    ensures Enabled(s, Take(bufsize)) && |s.got| < |s.log|
    ensures Next(s, Take(bufsize)).got == s.got + [s.log[|s.got|]]
  {
    AlwaysReadable(s, bufsize);
    hide Next, Enabled, Inv, Join;
    TakeKeeps(s, bufsize);
    assert |s.log[|s.got|]| <= bufsize;
  }

  /** An unfinished iterator can always read: its position holds a record's header. */
  lemma {:induction false} AlwaysReadable(s: Sys, bufsize: int)
    requires Inv(s) && s.session.Reading? && s.session.c.avail > 0
    ensures Enabled(s, Take(bufsize))
  {
    NextRecord(s);
    ReadsHeader(s.data, s.session.c.cur, |Join(s.got)|, s.log[|s.got|]);
  }
}
