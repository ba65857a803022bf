/** Processor masks such as "0-3,8,12-": which processors a mask text names. */
module CpuMasks {
  import opened Basics

  // ---------- strtoul with base 0

  /** The value of a digit, or 99. */
  function DigitOf(c: char): nat {
    if '0' <= c <= '9' then c as int - '0' as int
    else if 'a' <= c <= 'z' then c as int - 'a' as int + 10
    else if 'A' <= c <= 'Z' then c as int - 'A' as int + 10
    else 99
  }

  function Digits(t: string, base: nat): (n: nat)
    ensures n <= |t|
  {
    if t == [] || DigitOf(t[0]) >= base then 0 else 1 + Digits(t[1..], base)
  }

  function Value(t: string, base: nat): nat {
    if t == [] then 0 else base * Value(t[..|t| - 1], base) + DigitOf(t[|t| - 1])
  }

  function Spaces(t: string): (n: nat)
    ensures n <= |t|
  {
    if t == [] || !IsSpace(t[0]) then 0 else 1 + Spaces(t[1..])
  }

  datatype Number = Number(value: nat, end: nat)

  /** The number at the start of the text and where it ends; the end is 0 if there is none. */
  function Strtoul(t: string): (r: Number)
    ensures r.end <= |t|
  {
    var w := Spaces(t);
    var signed := w < |t| && (t[w] == '-' || t[w] == '+');
    var p := if signed then w + 1 else w;
    var hex := p + 2 < |t| && t[p] == '0' && (t[p + 1] == 'x' || t[p + 1] == 'X') && DigitOf(t[p + 2]) < 16;
    var base := if hex then 16 else if p < |t| && t[p] == '0' then 8 else 10;
    var d := if hex then p + 2 else p;
    var n := Digits(t[d..], base);
    if n == 0 then Number(0, 0)
    else
      var v := Value(t[d..d + n], base);
      Number(if v >= TWO64 then TWO64 - 1 else if signed && t[w] == '-' then (TWO64 - v) % TWO64 else v, d + n)
  }

  /** The low 32 bits as a signed number. */
  function ToInt(x: nat): int {
    var low := x % TWO32;
    if low < TWO31 then low else low - TWO32
  }

  // ---------- Matching

  function SkipComma(t: string): string {
    if t != [] && t[0] == ',' then t[1..] else t
  }

  /** Does the mask name this processor? */
  predicate Matches(m: string, cpu: int)
    decreases |m|
  {
    if m == [] then false
    else
      var a := Strtoul(m);
      var lo, rest := ToInt(a.value), m[a.end..];
      if a.end == 0 then false
      else if lo == cpu then true
      else if rest != [] && rest[0] == '-' then
        var b := Strtoul(rest[1..]);
        if b.end == 0 then cpu > lo
        else lo < cpu <= ToInt(b.value) || Matches(SkipComma(rest[1..][b.end..]), cpu)
      else Matches(SkipComma(rest), cpu)
  }

  /** A pointer into the mask is the text from there on. */
  method CpumaskMatch(text: Option<string>, ocpu: int) returns (r: bool)
    ensures r == (text.None? || Matches(text.value, ocpu))
  {
    hide Strtoul, ToInt;
    if text.None? {
      return true;
    }
    var mask := text.value;
    while mask != []
      invariant Matches(text.value, ocpu) == Matches(mask, ocpu)
      decreases |mask|
    {
      var a := Strtoul(mask);
      var cpu, endp := ToInt(a.value), mask[a.end..];
      if a.end == 0 {
        return false;
      }
      if cpu == ocpu {
        return true;
      }
      if endp != [] && endp[0] == '-' {
        mask := endp[1..];
        var b := Strtoul(mask);
        endp := mask[b.end..];
        if b.end == 0 {
          return ocpu > cpu;
        }
        if ocpu > cpu && ocpu <= ToInt(b.value) {
          return true;
        }
      }
      mask := endp;
      if mask != [] && mask[0] == ',' {
        mask := mask[1..];
      }
    }
    r := false;
  }

  // ---------- Masks as users write them

  datatype Range = One(n: nat) | Span(lo: nat, hi: nat)

  function Dec(n: nat): (t: string)
    ensures t != []
  {
    var last := ['0' + (n % 10) as char];
    if n < 10 then last else Dec(n / 10) + last
  }

  function RangeText(r: Range, tail: string): string {
    match r
    case One(n) => Dec(n) + tail
    case Span(lo, hi) => Dec(lo) + (['-'] + (Dec(hi) + tail))
  }

  /** Ranges separated by commas; the last may have no upper end. */
  function MaskText(rs: seq<Range>, open: Option<nat>): string {
    if rs == [] then if open.None? then [] else Dec(open.value) + ['-']
    else RangeText(rs[0], if |rs| == 1 && open.None? then [] else [','] + MaskText(rs[1..], open))
  }

  /** A span that descends holds its first processor alone. */
  predicate Holds(r: Range, cpu: int) {
    match r
    case One(n) => cpu == n
    case Span(lo, hi) => cpu == lo || lo <= cpu <= hi
  }

  predicate Names(rs: seq<Range>, open: Option<nat>, cpu: int) {
    (exists i :: 0 <= i < |rs| && Holds(rs[i], cpu)) || (open.Some? && cpu >= open.value)
  }

  predicate Proper(r: Range) {
    match r
    case One(n) => n < TWO31
    case Span(lo, hi) => lo < TWO31 && hi < TWO31
  }

  /** Decimal digits, the first of them 0 only for 0 itself. */
  lemma {:induction false} DecDigits(n: nat)
    ensures forall i :: 0 <= i < |Dec(n)| ==> '0' <= Dec(n)[i] <= '9'
    ensures Dec(n)[0] == '0' <==> n == 0
    ensures n == 0 ==> Dec(n) == ['0']
    ensures Value(Dec(n), 10) == n
  {
    if n >= 10 {
      DecDigits(n / 10);
      assert Dec(n)[..|Dec(n)| - 1] == Dec(n / 10);
    } else {
      assert Dec(n)[..0] == [];
    }
  }

  lemma {:induction false} DigitsOf(t: string, tail: string, base: nat)
    requires forall i :: 0 <= i < |t| ==> DigitOf(t[i]) < base
    requires tail == [] || DigitOf(tail[0]) >= base
    ensures Digits(t + tail, base) == |t|
  {
    if t == [] {
      assert t + tail == tail;
    } else {
      DigitsOf(t[1..], tail, base);
      assert (t + tail)[1..] == t[1..] + tail;
    }
  }

  /** strtoul reads back a decimal number and stops behind it. */
  lemma StrtoulBack(n: nat, tail: string)
    requires n < TWO31 && (tail == [] || tail[0] == ',' || tail[0] == '-')
    ensures Strtoul(Dec(n) + tail) == Number(n, |Dec(n)|) && ToInt(n) == n
  {
    hide Strtoul;
    var d := Dec(n);
    DecDigits(n);
    if n == 0 {
      hide Dec;
      assert Value(d, 8) == 0 by { assert d[..0] == []; }
      DigitsOf(d, tail, 8);
      StrtoulDigits(d, tail, 8);
    } else {
      hide Dec, Value, Digits;
      DigitsOf(d, tail, 10);
      StrtoulDigits(d, tail, 10);
    }
  }

  lemma StrtoulDigits(d: string, tail: string, base: nat)
    requires d != [] && '0' <= d[0] <= '9' && base == if d[0] == '0' then 8 else 10
    requires d[0] == '0' ==> d + tail == ['0'] || (d + tail)[1] == ',' || (d + tail)[1] == '-'
    requires Digits(d + tail, base) == |d| && Value(d, base) < TWO64
    ensures Strtoul(d + tail) == Number(Value(d, base), |d|)
  {
    var t := d + tail;
    assert Spaces(t) == 0;
    assert t[0..] == t && t[0..|d|] == d;
    hide Value, Digits, Spaces;
  }

  /** A mask names exactly the processors in its ranges. */
  lemma {:induction false} MaskBack(rs: seq<Range>, open: Option<nat>, cpu: int)
    requires (forall i :: 0 <= i < |rs| ==> Proper(rs[i])) && (open.Some? ==> open.value < TWO31)
    ensures Matches(MaskText(rs, open), cpu) <==> Names(rs, open, cpu)
    decreases |rs|
  {
    hide Strtoul, ToInt, Dec;
    if rs == [] {
      if open.Some? {
        StrtoulBack(open.value, ['-']);
        assert (Dec(open.value) + ['-'])[|Dec(open.value)|..] == ['-'];
        NoNumber();
        assert ['-'][1..] == [];
      }
    } else {
      var rest := MaskText(rs[1..], open);
      var tail := if |rs| == 1 && open.None? then [] else [','] + rest;
      MaskBack(rs[1..], open, cpu);
      assert SkipComma(tail) == rest;
      RangeBack(rs[0], tail, cpu);
      assert Names(rs, open, cpu) <==> Holds(rs[0], cpu) || Names(rs[1..], open, cpu) by { NamesFirst(rs, open, cpu); }
    }
  }

  lemma NoNumber()
    ensures Strtoul([]).end == 0
  {
  }

  lemma NamesFirst(rs: seq<Range>, open: Option<nat>, cpu: int)
    requires rs != []
    ensures Names(rs, open, cpu) <==> Holds(rs[0], cpu) || Names(rs[1..], open, cpu)
  {
    assert forall i :: 1 <= i < |rs| ==> rs[i] == rs[1..][i - 1];
  }

  /** One range, then the rest. */
  lemma RangeBack(r: Range, tail: string, cpu: int)
    requires Proper(r) && (tail == [] || tail[0] == ',')
    ensures Matches(RangeText(r, tail), cpu) <==> Holds(r, cpu) || Matches(SkipComma(tail), cpu)
  {
    hide Strtoul, ToInt, Dec;
    match r
    case One(n) =>
      StrtoulBack(n, tail);
      assert (Dec(n) + tail)[|Dec(n)|..] == tail;
    case Span(lo, hi) =>
      var more := ['-'] + (Dec(hi) + tail);
      StrtoulBack(lo, more);
      StrtoulBack(hi, tail);
      assert (Dec(lo) + more)[|Dec(lo)|..] == more;
      assert more[1..] == Dec(hi) + tail;
      assert (Dec(hi) + tail)[|Dec(hi)|..] == tail;
  }

  // ---------- Other bases

  /** The value of a hexadecimal digit. */
  function HexDigit(c: char): int {
    if '0' <= c <= '9' then c as int - 48
    else if 'a' <= c <= 'f' then c as int - 87
    else if 'A' <= c <= 'F' then c as int - 55
    else -1
  }

  function HexValue(t: string): int {
    if t == [] then 0 else 16 * HexValue(t[..|t| - 1]) + HexDigit(t[|t| - 1])
  }

  function OctalValue(t: string): int {
    if t == [] then 0 else 8 * OctalValue(t[..|t| - 1]) + (t[|t| - 1] as int - 48)
  }

  lemma {:induction false} HexValueIs(t: string)
    requires forall i :: 0 <= i < |t| ==> HexDigit(t[i]) >= 0
    ensures Value(t, 16) == HexValue(t)
  {
    if t != [] {
      HexValueIs(t[..|t| - 1]);
      assert HexDigit(t[|t| - 1]) >= 0;
    }
  }

  lemma {:induction false} OctalValueIs(t: string)
    requires forall i :: 0 <= i < |t| ==> '0' <= t[i] <= '7'
    ensures Value(t, 8) == OctalValue(t)
  {
    if t != [] {
      OctalValueIs(t[..|t| - 1]);
    }
  }

  /** A number with no blank or sign before it, its digits from `d` on. */
  lemma StrtoulFrom(s: string, d: nat, n: nat, base: nat)
    requires s != [] && s[0] == '0' && d + n <= |s| && n > 0
    requires if |s| > 2 && (s[1] == 'x' || s[1] == 'X') && DigitOf(s[2]) < 16 then d == 2 && base == 16
             else d == 0 && base == 8
    requires Digits(s[d..], base) == n && Value(s[d..d + n], base) < TWO64
    ensures Strtoul(s) == Number(Value(s[d..d + n], base), d + n)
  {
    assert Spaces(s) == 0;
    hide Value, Digits, Spaces, DigitOf;
  }

  lemma HexDigits(t: string, tail: string)
    requires forall i :: 0 <= i < |t| ==> HexDigit(t[i]) >= 0
    requires tail == [] || tail[0] == ',' || tail[0] == '-'
    ensures Digits(t + tail, 16) == |t| && (t != [] ==> DigitOf(t[0]) < 16)
  {
    forall i | 0 <= i < |t| ensures DigitOf(t[i]) < 16 {
      assert HexDigit(t[i]) >= 0;
    }
    DigitsOf(t, tail, 16);
  }

  /** After 0x digits are hexadecimal, whatever their case. */
  lemma HexBack(x: char, t: string, tail: string)
    requires x == 'x' || x == 'X'
    requires t != [] && (forall i :: 0 <= i < |t| ==> HexDigit(t[i]) >= 0) && HexValue(t) < 0x1_0000_0000_0000_0000
    requires tail == [] || tail[0] == ',' || tail[0] == '-'
    ensures var r := Strtoul(['0', x] + (t + tail)); r.value == HexValue(t) && r.end == |t| + 2
  {
    hide Value, HexValue, Digits, HexDigit, Strtoul, DigitOf;
    var s := ['0', x] + (t + tail);
    HexValueIs(t);
    HexDigits(t, tail);
    assert s[2..] == t + tail && s[2] == t[0];
    assert s[2..2 + |t|] == t;
    StrtoulFrom(s, 2, |t|, 16);
  }

  /** After a leading 0 digits are octal. */
  lemma OctalBack(t: string, tail: string)
    requires t != [] && t[0] == '0' && (forall i :: 0 <= i < |t| ==> '0' <= t[i] <= '7')
    requires OctalValue(t) < 0x1_0000_0000_0000_0000 && (tail == [] || tail[0] == ',' || tail[0] == '-')
    ensures var r := Strtoul(t + tail); r.value == OctalValue(t) && r.end == |t|
  {
    var s := t + tail;
    OctalValueIs(t);
    DigitsOf(t, tail, 8);
    assert s[0..] == s && s[0..|t|] == t;
    assert |s| > 1 ==> s[1] == (if |t| > 1 then t[1] else tail[0]);
    hide Value, OctalValue, Digits, Strtoul, DigitOf;
    StrtoulFrom(s, 0, |t|, 8);
  }

  predicate Blank(c: char) {
    c == ' ' || c == '\t' || c == '\n' || c as int == 11 || c as int == 12 || c == '\r'
  }

  lemma {:induction false} SpacesOf(b: string, t: string)
    requires (forall i :: 0 <= i < |b| ==> Blank(b[i])) && t != [] && !Blank(t[0])
    ensures Spaces(b + t) == |b|
  {
    if b == [] {
      assert b + t == t;
    } else {
      SpacesOf(b[1..], t);
      assert (b + t)[1..] == b[1..] + t;
    }
  }

  lemma StrtoulAt(s: string, w: nat, p: nat, n: nat)
    requires w <= p < |s| && Spaces(s) == w && '1' <= s[p] <= '9'
    requires if p == w then s[w] != '-' && s[w] != '+' else p == w + 1 && (s[w] == '-' || s[w] == '+')
    requires p + n <= |s| && n > 0 && Digits(s[p..], 10) == n
    ensures var v := Value(s[p..p + n], 10);
            Strtoul(s) == Number(if v >= TWO64 then TWO64 - 1 else if p > w &&
                s[w] == '-' then (TWO64 - v) % TWO64 else v, p + n)
  {
    hide Value, Digits, Spaces, DigitOf;
  }

  /** Blanks and a sign may come first; a number below 0 wraps around, and one too large is the largest there is. */
  lemma SignedBack(b: string, sign: string, n: nat, tail: string)
    requires (forall i :: 0 <= i < |b| ==> Blank(b[i])) && (sign == [] || sign == ['-'] || sign == ['+'])
    requires n > 0 && (tail == [] || tail[0] == ',' || tail[0] == '-')
    ensures var r := Strtoul(b + (sign + (Dec(n) + tail)));
            && r.end == |b| + |sign| + |Dec(n)|
            && r.value == if n >= 0x1_0000_0000_0000_0000 then 0xFFFF_FFFF_FFFF_FFFF
                          else if sign == ['-'] then 0x1_0000_0000_0000_0000 - n else n
  {
    hide Strtoul, Value, Digits, Spaces, Dec;
    var d := Dec(n);
    var t := sign + (d + tail);
    var s := b + t;
    DecDigits(n);
    assert t[0] == if sign == [] then d[0] else sign[0];
    SpacesOf(b, t);
    DigitsOf(d, tail, 10);
    var p := |b| + |sign|;
    assert s[p..] == d + tail && s[p..p + |d|] == d && s[p] == d[0] && s[|b|] == t[0];
    StrtoulAt(s, |b|, p, |d|);
  }

  /** A number goes down to 32 bits, with the sign of the upper half. */
  lemma LowBits(x: nat)
    requires x < 0x1_0000_0000_0000_0000
    ensures ToInt(x) % 0x1_0000_0000 == x % 0x1_0000_0000 && -0x8000_0000 <= ToInt(x) < 0x8000_0000
  {
  }
}
