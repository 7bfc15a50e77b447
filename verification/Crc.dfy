/**
 * The frame check sequence of the serial link: the 16-bit reflected CRC with polynomial 0x8408,
 * initial value 0xffff and no final complement. The code folds a whole byte at a time; the
 * reference here is the shift register itself, clocked once per message bit, least significant
 * bit first.
 */
module Crc {
  // ---- Machine words, bit by bit ----

  type Octet = x: nat | x < 256

  /** A uint8_t, least significant bit first. */
  datatype Byte = Byte(b0: bool, b1: bool, b2: bool, b3: bool, b4: bool, b5: bool, b6: bool, b7: bool)

  /** A uint16_t, least significant bit first. */
  datatype Word = Word(
    w0: bool, w1: bool, w2: bool, w3: bool, w4: bool, w5: bool, w6: bool, w7: bool,
    w8: bool, w9: bool, w10: bool, w11: bool, w12: bool, w13: bool, w14: bool, w15: bool)

  const X25_INIT_CRC := Word(true, true, true, true, true, true, true, true,
                             true, true, true, true, true, true, true, true)
  const ZERO := Word(false, false, false, false, false, false, false, false,
                     false, false, false, false, false, false, false, false)

  function ByteHalf(n: nat): (bool, bool, bool, bool)
    requires n < 16
  {
    (n % 2 == 1, n / 2 % 2 == 1, n / 4 % 2 == 1, n / 8 == 1)
  }

  function ByteOf(x: Octet): Byte {
    var n := ByteHalf(x % 16);
    var m := ByteHalf(x / 16);
    Byte(n.0, n.1, n.2, n.3, m.0, m.1, m.2, m.3)
  }

  function ByteXor(a: Byte, b: Byte): Byte {
    Byte(a.b0 != b.b0, a.b1 != b.b1, a.b2 != b.b2, a.b3 != b.b3, a.b4 != b.b4, a.b5 != b.b5, a.b6 != b.b6, a.b7 != b.b7)
  }

  function ByteLeft4(a: Byte): Byte {
    Byte(false, false, false, false, a.b0, a.b1, a.b2, a.b3)
  }

  /** The cast of a word to a byte. */
  function Narrow(w: Word): Byte {
    Byte(w.w0, w.w1, w.w2, w.w3, w.w4, w.w5, w.w6, w.w7)
  }

  function WordXor(a: Word, b: Word): Word {
    Word(a.w0 != b.w0, a.w1 != b.w1, a.w2 != b.w2, a.w3 != b.w3, a.w4 != b.w4, a.w5 != b.w5, a.w6 != b.w6, a.w7 != b.w7,
         a.w8 != b.w8, a.w9 != b.w9, a.w10 != b.w10, a.w11 != b.w11,
         a.w12 != b.w12, a.w13 != b.w13, a.w14 != b.w14, a.w15 != b.w15)
  }

  function WordRight8(w: Word): Word {
    Word(w.w8, w.w9, w.w10, w.w11, w.w12, w.w13, w.w14, w.w15, false, false, false, false, false, false, false, false)
  }

  /** A byte shifted left by eight, by three, and right by four, as words. */
  function Left8(a: Byte): Word {
    Word(false, false, false, false, false, false, false, false, a.b0, a.b1, a.b2, a.b3, a.b4, a.b5, a.b6, a.b7)
  }

  function Left3(a: Byte): Word {
    Word(false, false, false, a.b0, a.b1, a.b2, a.b3, a.b4, a.b5, a.b6, a.b7, false, false, false, false, false)
  }

  function Right4(a: Byte): Word {
    Word(a.b4, a.b5, a.b6, a.b7, false, false, false, false, false, false, false, false, false, false, false, false)
  }

  // ---- The byte-wise program ----

  /** The message byte meets the low half of the register, which is then added to itself, shifted. */
  function Folded(data: Byte, crc: Word): Byte {
    var tmp := ByteXor(data, Narrow(crc));
    ByteXor(tmp, ByteLeft4(tmp))
  }

  function Accumulate(data: Byte, crc: Word): Word {
    var tmp := Folded(data, crc);
    WordXor(WordXor(WordXor(WordRight8(crc), Left8(tmp)), Left3(tmp)), Right4(tmp))
  }

  function Fold(crc: Word, s: seq<Octet>): Word
    decreases |s|
  {
    if s == [] then crc else Fold(Accumulate(ByteOf(s[0]), crc), s[1..])
  }

  function Sum(s: seq<Octet>): Word {
    Fold(X25_INIT_CRC, s)
  }

  lemma {:induction false} FoldConcat(c: Word, s: seq<Octet>, t: seq<Octet>)
    ensures Fold(c, s + t) == Fold(Fold(c, s), t)
    decreases |s|
  {
    hide Accumulate, ByteOf;
    if s == [] {
      assert s + t == t;
    } else {
      assert (s + t)[1..] == s[1..] + t;
      FoldConcat(Accumulate(ByteOf(s[0]), c), s[1..], t);
    }
  }

  lemma FoldOne(c: Word, x: Octet)
    ensures Fold(c, [x]) == Accumulate(ByteOf(x), c)
  {
    hide Accumulate, ByteOf;
    assert Fold(Accumulate(ByteOf(x), c), [x][1..]) == Accumulate(ByteOf(x), c);
  }

  /** The loop of the serial link, which the network codec repeats with a wider count. */
  method CrcCalculate(buffer: array<Octet>, from: nat, length: nat) returns (crc: Word)
    requires from + length <= buffer.Length
    ensures crc == Sum(buffer[from..from + length])
  {
    hide Accumulate, ByteOf;
    crc := X25_INIT_CRC;
    var p, left := from, length;
    while left != 0
      invariant from <= p <= from + length && left == from + length - p
      invariant crc == Sum(buffer[from..p])
    {
      FoldConcat(X25_INIT_CRC, buffer[from..p], [buffer[p]]);
      FoldOne(crc, buffer[p]);
      assert buffer[from..p + 1] == buffer[from..p] + [buffer[p]];
      crc := Accumulate(ByteOf(buffer[p]), crc);
      p, left := p + 1, left - 1;
    }
  }

  // ---- The shift register ----

  /** One clock: the bit that leaves, plus the message bit, feeds positions 3, 10 and 15. */
  function Clock(r: Word, bit: bool): Word {
    var out := r.w0 != bit;
    Word(r.w1, r.w2, r.w3, r.w4 != out, r.w5, r.w6, r.w7, r.w8,
         r.w9, r.w10, r.w11 != out, r.w12, r.w13, r.w14, r.w15, out)
  }

  function Run(r: Word, bits: seq<bool>): Word
    decreases |bits|
  {
    if bits == [] then r else Run(Clock(r, bits[0]), bits[1..])
  }

  /** The bits of a buffer in the order in which they go over the line. */
  function Bits(s: seq<Octet>): (bits: seq<bool>)
    ensures |bits| == 8 * |s|
  {
    if s == [] then [] else BitsOf(ByteOf(s[0])) + Bits(s[1..])
  }

  function BitsOf(b: Byte): (bits: seq<bool>)
    ensures |bits| == 8
  {
    [b.b0, b.b1, b.b2, b.b3, b.b4, b.b5, b.b6, b.b7]
  }

  // ---- A byte-wise step is eight clocks ----

  /** Four clocks at once: the bits that leave are spread over the three taps. */
  function ClockFour(r: Word, n0: bool, n1: bool, n2: bool, n3: bool): Word {
    Word(r.w4 != n0, r.w5 != n1, r.w6 != n2, r.w7 != n3, r.w8, r.w9, r.w10, r.w11 != n0,
         r.w12 != n1, r.w13 != n2, r.w14 != n3, r.w15, n0, n1, n2, n3)
  }

  lemma FourClocks(r: Word, s: bool, t: bool, u: bool, v: bool)
    ensures Clock(Clock(Clock(Clock(r, s), t), u), v) == ClockFour(r, r.w0 != s, r.w1 != t, r.w2 != u, r.w3 != v)
  {
  }

  lemma FoldedBits(b: Byte, c: Word)
    ensures var f := Folded(b, c);
            f.b0 == (c.w0 != b.b0) && f.b1 == (c.w1 != b.b1) && f.b2 == (c.w2 != b.b2) && f.b3 == (c.w3 != b.b3) &&
            f.b4 == ((c.w4 != f.b0) != b.b4) && f.b5 == ((c.w5 != f.b1) != b.b5) &&
            f.b6 == ((c.w6 != f.b2) != b.b6) && f.b7 == ((c.w7 != f.b3) != b.b7)
  {
  }

  lemma TwoNibbles(c: Word, f: Byte)
    ensures ClockFour(ClockFour(c, f.b0, f.b1, f.b2, f.b3), f.b4, f.b5, f.b6, f.b7) ==
            WordXor(WordXor(WordXor(WordRight8(c), Left8(f)), Left3(f)), Right4(f))
  {
  }

  lemma AccumulateIsTwoNibbles(c: Word, b: Byte, d: Word)
    requires d == ClockFour(c, c.w0 != b.b0, c.w1 != b.b1, c.w2 != b.b2, c.w3 != b.b3)
    ensures Accumulate(b, c) == ClockFour(d, d.w0 != b.b4, d.w1 != b.b5, d.w2 != b.b6, d.w3 != b.b7)
  {
    hide Folded, WordXor, WordRight8, Left8, Left3, Right4;
    FoldedBits(b, c);
    TwoNibbles(c, Folded(b, c));
  }

  lemma {:induction false} RunConcat(r: Word, s: seq<bool>, t: seq<bool>)
    ensures Run(r, s + t) == Run(Run(r, s), t)
    decreases |s|
  {
    hide Clock;
    if s == [] {
      assert s + t == t;
    } else {
      assert (s + t)[1..] == s[1..] + t;
      RunConcat(Clock(r, s[0]), s[1..], t);
    }
  }

  lemma RunFour(r: Word, s: bool, t: bool, u: bool, v: bool)
    ensures Run(r, [s, t, u, v]) == Clock(Clock(Clock(Clock(r, s), t), u), v)
  {
    hide Clock;
    assert [s, t, u, v][1..] == [t, u, v];
    assert [t, u, v][1..] == [u, v];
    assert [u, v][1..] == [v];
    assert Run(Clock(Clock(Clock(r, s), t), u), [v]) == Clock(Clock(Clock(Clock(r, s), t), u), v);
    assert Run(Clock(Clock(r, s), t), [u, v]) == Run(Clock(Clock(Clock(r, s), t), u), [v]);
    assert Run(Clock(r, s), [t, u, v]) == Run(Clock(Clock(r, s), t), [u, v]);
  }

  lemma AccumulateIsRun(c: Word, b: Byte)
    ensures Accumulate(b, c) == Run(c, BitsOf(b))
  {
    hide Accumulate, Clock, ClockFour;
    var lo, hi := [b.b0, b.b1, b.b2, b.b3], [b.b4, b.b5, b.b6, b.b7];
    assert BitsOf(b) == lo + hi;
    RunConcat(c, lo, hi);
    var d := Run(c, lo);
    RunFour(c, b.b0, b.b1, b.b2, b.b3);
    FourClocks(c, b.b0, b.b1, b.b2, b.b3);
    RunFour(d, b.b4, b.b5, b.b6, b.b7);
    FourClocks(d, b.b4, b.b5, b.b6, b.b7);
    AccumulateIsTwoNibbles(c, b, d);
  }

  /** The program's byte-wise sum is the clocked register, for buffers of any length. */
  lemma {:induction false} FoldIsRun(c: Word, s: seq<Octet>)
    ensures Fold(c, s) == Run(c, Bits(s))
    decreases |s|
  {
    hide Accumulate, ByteOf, Clock, BitsOf;
    if s != [] {
      AccumulateIsRun(c, ByteOf(s[0]));
      FoldIsRun(Accumulate(ByteOf(s[0]), c), s[1..]);
      RunConcat(c, BitsOf(ByteOf(s[0])), Bits(s[1..]));
    }
  }

  // ---- Bursts of up to sixteen bits ----

  /** The registers agree from position j upwards. */
  predicate Agree(p: Word, q: Word, j: int) {
    (j <= 0 ==> p.w0 == q.w0) && (j <= 1 ==> p.w1 == q.w1) && (j <= 2 ==> p.w2 == q.w2) && (j <= 3 ==> p.w3 == q.w3) &&
    (j <= 4 ==> p.w4 == q.w4) && (j <= 5 ==> p.w5 == q.w5) && (j <= 6 ==> p.w6 == q.w6) && (j <= 7 ==> p.w7 == q.w7) &&
    (j <= 8 ==> p.w8 == q.w8) && (j <= 9 ==> p.w9 == q.w9) && (j <= 10 ==> p.w10 == q.w10) &&
    (j <= 11 ==> p.w11 == q.w11) && (j <= 12 ==> p.w12 == q.w12) && (j <= 13 ==> p.w13 == q.w13) &&
    (j <= 14 ==> p.w14 == q.w14) && (j <= 15 ==> p.w15 == q.w15)
  }

  lemma SameAgree(p: Word, j: int)
    ensures Agree(p, p, j)
  {
  }

  /** Going back one clock loses sight of one more low position, and of nothing else. */
  lemma ClockApart(p: Word, q: Word, s: bool, t: bool, j: nat)
    requires j <= 15 && Agree(Clock(p, s), Clock(q, t), j)
    ensures Agree(p, q, j + 1)
    ensures p == q ==> s == t
  {
  }

  lemma {:induction false} RunApart(p: Word, q: Word, a: seq<bool>, b: seq<bool>)
    requires |a| == |b| <= 16 && Run(p, a) == Run(q, b)
    ensures Agree(p, q, |a|)
    decreases |a|
  {
    hide Clock, Agree;
    if a == [] {
      SameAgree(p, 0);
    } else {
      RunApart(Clock(p, a[0]), Clock(q, b[0]), a[1..], b[1..]);
      ClockApart(p, q, a[0], b[0], |a| - 1);
    }
  }

  /** From one register, different messages of up to sixteen bits lead to different registers. */
  lemma {:induction false} RunDecides(p: Word, a: seq<bool>, b: seq<bool>)
    requires |a| == |b| <= 16 && Run(p, a) == Run(p, b)
    ensures a == b
    decreases |a|
  {
    hide Clock, Agree;
    if a != [] {
      RunApart(Clock(p, a[0]), Clock(p, b[0]), a[1..], b[1..]);
      ClockApart(p, p, a[0], b[0], |a| - 1);
      RunDecides(Clock(p, a[0]), a[1..], b[1..]);
      assert a == [a[0]] + a[1..] && b == [b[0]] + b[1..];
    }
  }

  lemma ClockInjective(p: Word, q: Word, bit: bool)
    requires Clock(p, bit) == Clock(q, bit)
    ensures p == q
  {
  }

  /** Equal message bits keep different registers different. */
  lemma {:induction false} RunInjective(p: Word, q: Word, bits: seq<bool>)
    requires Run(p, bits) == Run(q, bits)
    ensures p == q
    decreases |bits|
  {
    hide Clock;
    if bits != [] {
      RunInjective(Clock(p, bits[0]), Clock(q, bits[0]), bits[1..]);
      ClockInjective(p, q, bits[0]);
    }
  }

  /** The messages differ, and only inside sixteen consecutive bits. */
  predicate Burst(a: seq<bool>, b: seq<bool>) {
    && |a| == |b|
    && a != b
    && exists p :: 0 <= p < |a| && DifferWithin(a, b, p)
  }

  predicate DifferWithin(a: seq<bool>, b: seq<bool>, p: nat)
    requires |a| == |b|
  {
    forall i :: 0 <= i < |a| && a[i] != b[i] ==> p <= i < p + 16
  }

  lemma RunInThree(r: Word, a: seq<bool>, p: nat, e: nat)
    requires p <= e <= |a|
    ensures Run(r, a) == Run(Run(Run(r, a[..p]), a[p..e]), a[e..])
  {
    hide Clock;
    assert a == a[..e] + a[e..];
    assert a[..e] == a[..p] + a[p..e];
    RunConcat(r, a[..e], a[e..]);
    RunConcat(r, a[..p], a[p..e]);
  }

  lemma BurstParts(a: seq<bool>, b: seq<bool>, p: nat, e: nat)
    requires |a| == |b| && a != b && DifferWithin(a, b, p)
    requires p <= e <= |a| && (e == p + 16 || e == |a|)
    ensures a[..p] == b[..p] && a[p..e] != b[p..e] && a[e..] == b[e..]
  {
    var i :| 0 <= i < |a| && a[i] != b[i];
    assert a[p..e][i - p] != b[p..e][i - p];
  }

  lemma BurstChangesRun(r: Word, a: seq<bool>, b: seq<bool>)
    requires Burst(a, b)
    ensures Run(r, a) != Run(r, b)
  {
    hide Clock, Run;
    var p: nat :| p < |a| && DifferWithin(a, b, p);
    var e := if p + 16 <= |a| then p + 16 else |a|;
    RunInThree(r, a, p, e);
    RunInThree(r, b, p, e);
    BurstParts(a, b, p, e);
    if Run(r, a) == Run(r, b) {
      RunInjective(Run(Run(r, a[..p]), a[p..e]), Run(Run(r, b[..p]), b[p..e]), a[e..]);
      RunDecides(Run(r, a[..p]), a[p..e], b[p..e]);
    }
  }

  /** Every burst of at most sixteen bits changes the checksum. */
  lemma BurstChangesSum(s: seq<Octet>, t: seq<Octet>)
    requires Burst(Bits(s), Bits(t))
    ensures Sum(s) != Sum(t)
  {
    FoldIsRun(X25_INIT_CRC, s);
    FoldIsRun(X25_INIT_CRC, t);
    BurstChangesRun(X25_INIT_CRC, Bits(s), Bits(t));
  }

  // ---- The checksum a message carries ----

  function HalfValue(s: bool, t: bool, u: bool, v: bool): (n: nat)
    ensures n < 16
  {
    (if s then 1 else 0) + (if t then 2 else 0) + (if u then 4 else 0) + (if v then 8 else 0)
  }

  function Value(b: Byte): Octet {
    HalfValue(b.b0, b.b1, b.b2, b.b3) + 16 * HalfValue(b.b4, b.b5, b.b6, b.b7)
  }

  lemma HalfOfValue(s: bool, t: bool, u: bool, v: bool)
    ensures ByteHalf(HalfValue(s, t, u, v)) == (s, t, u, v)
  {
  }

  lemma ValueOfHalf(n: nat)
    requires n < 16
    ensures var h := ByteHalf(n); HalfValue(h.0, h.1, h.2, h.3) == n
  {
  }

  lemma ByteOfValue(b: Byte)
    ensures ByteOf(Value(b)) == b
  {
    hide ByteHalf, HalfValue;
    HalfOfValue(b.b0, b.b1, b.b2, b.b3);
    HalfOfValue(b.b4, b.b5, b.b6, b.b7);
  }

  lemma ValueOfByte(x: Octet)
    ensures Value(ByteOf(x)) == x
  {
    hide ByteHalf, HalfValue;
    ValueOfHalf(x % 16);
    ValueOfHalf(x / 16);
  }

  function LowByte(c: Word): Octet {
    Value(Narrow(c))
  }

  function HighByte(c: Word): Octet {
    Value(Narrow(WordRight8(c)))
  }

  lemma AccumulateOwn(c: Word)
    ensures Accumulate(Narrow(c), c) == WordRight8(c)
    ensures Accumulate(Narrow(WordRight8(c)), WordRight8(c)) == ZERO
  {
  }

  lemma FoldTwo(c: Word, x: Octet, y: Octet)
    ensures Fold(c, [x, y]) == Accumulate(ByteOf(y), Accumulate(ByteOf(x), c))
  {
    hide Accumulate, ByteOf;
    assert [x, y] == [x] + [y];
    FoldConcat(c, [x], [y]);
    FoldOne(c, x);
    FoldOne(Accumulate(ByteOf(x), c), y);
  }

  lemma BitsOfInjective(a: Byte, b: Byte, s: seq<bool>, t: seq<bool>)
    requires BitsOf(a) + s == BitsOf(b) + t && |s| == |t|
    ensures a == b && s == t
  {
    assert forall i :: 0 <= i < 8 ==> BitsOf(a)[i] == (BitsOf(a) + s)[i] == BitsOf(b)[i];
    assert s == (BitsOf(a) + s)[8..] && t == (BitsOf(b) + t)[8..];
    assert BitsOf(a)[0] == a.b0 && BitsOf(a)[1] == a.b1 && BitsOf(a)[2] == a.b2 && BitsOf(a)[3] == a.b3;
    assert BitsOf(a)[4] == a.b4 && BitsOf(a)[5] == a.b5 && BitsOf(a)[6] == a.b6 && BitsOf(a)[7] == a.b7;
  }

  /** Different buffers of one length carry different bits. */
  lemma {:induction false} BitsInjective(s: seq<Octet>, t: seq<Octet>)
    requires Bits(s) == Bits(t)
    ensures s == t
  {
    hide ByteOf, BitsOf, Value;
    if s != [] {
      BitsOfInjective(ByteOf(s[0]), ByteOf(t[0]), Bits(s[1..]), Bits(t[1..]));
      BitsInjective(s[1..], t[1..]);
      ValueOfByte(s[0]);
      ValueOfByte(t[0]);
      assert s == [s[0]] + s[1..] && t == [t[0]] + t[1..];
    }
  }

  /** The two bytes that bring the register to zero are the register itself, low byte first. */
  lemma TrailerIsOwnSum(c: Word, x: Octet, y: Octet)
    ensures Fold(c, [x, y]) == ZERO <==> x == LowByte(c) && y == HighByte(c)
  {
    hide Accumulate, ByteOf, BitsOf, Bits, Value, Run, Fold, Narrow;
    var u, v := LowByte(c), HighByte(c);
    FoldTwo(c, u, v);
    ByteOfValue(Narrow(c));
    ByteOfValue(Narrow(WordRight8(c)));
    AccumulateOwn(c);
    if Fold(c, [x, y]) == ZERO {
      FoldIsRun(c, [x, y]);
      FoldIsRun(c, [u, v]);
      RunDecides(c, Bits([x, y]), Bits([u, v]));
      BitsInjective([x, y], [u, v]);
    }
  }

  /** Two received bytes as a word, low byte first. */
  function Join(lo: Byte, hi: Byte): Word {
    Word(lo.b0, lo.b1, lo.b2, lo.b3, lo.b4, lo.b5, lo.b6, lo.b7, hi.b0, hi.b1, hi.b2, hi.b3, hi.b4, hi.b5, hi.b6, hi.b7)
  }

  lemma JoinParts(c: Word)
    ensures Join(Narrow(c), Narrow(WordRight8(c))) == c
  {
  }

  lemma PartsOfJoin(lo: Byte, hi: Byte)
    ensures Narrow(Join(lo, hi)) == lo && Narrow(WordRight8(Join(lo, hi))) == hi
  {
  }

  /** Comparing received bytes as a word is comparing them one by one. */
  lemma JoinIsWord(x: Octet, y: Octet, c: Word)
    ensures Join(ByteOf(x), ByteOf(y)) == c <==> x == LowByte(c) && y == HighByte(c)
  {
    hide ByteOf, Value, Join, Narrow, WordRight8;
    JoinParts(c);
    PartsOfJoin(ByteOf(x), ByteOf(y));
    ValueOfByte(x);
    ValueOfByte(y);
    ByteOfValue(Narrow(c));
    ByteOfValue(Narrow(WordRight8(c)));
  }

  // ---- The register itself ----

  /** The sum is the register that starts with all bits set and is clocked once per bit of the buffer. */
  lemma SumIsRegister(s: seq<Octet>)
    ensures Sum(s) == Run(Word(true, true, true, true, true, true, true, true,
                               true, true, true, true, true, true, true, true), Bits(s))
  {
    FoldIsRun(X25_INIT_CRC, s);
  }

  const CHECK_STRING: seq<Octet> := [0x31, 0x32, 0x33, 0x34, 0x35, 0x36, 0x37, 0x38, 0x39]

  /** The register while it takes the check string. */
  function CheckRegister(i: nat): Word {
    match i
    case 0 => Word(true, true, true, true, true, true, true, true, true, true, true, true, true, true, true, true)
    case 1 => Word(true, false, true, true, false, false, false, true, true, true, true, true, false, true,
                   false, false)
    case 2 => Word(true, true, false, false, true, false, true, false, true, false, true, true, false, false,
                   true, false)
    case 3 => Word(true, true, false, true, false, false, true, false, true, true, false, false, false, true,
                   true, false)
    case 4 => Word(true, true, false, false, true, false, false, false, true, true, false, true, false, false,
                   false, true)
    case 5 => Word(true, true, true, true, true, true, false, true, false, false, true, false, false, false,
                   true, false)
    case 6 => Word(true, false, true, true, false, false, false, true, true, false, false, true, true, false,
                   false, false)
    case 7 => Word(false, false, false, true, false, false, true, true, false, true, false, true, true, false,
                   false, false)
    case 8 => Word(true, false, true, false, true, false, false, true, true, true, true, false, true, true, true, true)
    case 9 => Word(true, false, false, false, true, false, false, true, true, true, true, true, false, true,
                   true, false)
    case _ => ZERO
  }

  function CheckByte(i: nat): Byte {
    match i
    case 0 => Byte(true, false, false, false, true, true, false, false)
    case 1 => Byte(false, true, false, false, true, true, false, false)
    case 2 => Byte(true, true, false, false, true, true, false, false)
    case 3 => Byte(false, false, true, false, true, true, false, false)
    case 4 => Byte(true, false, true, false, true, true, false, false)
    case 5 => Byte(false, true, true, false, true, true, false, false)
    case 6 => Byte(true, true, true, false, true, true, false, false)
    case 7 => Byte(false, false, false, true, true, true, false, false)
    case 8 => Byte(true, false, false, true, true, true, false, false)
    case _ => Byte(false, false, false, false, false, false, false, false)
  }

  /** Two nibbles of a byte enter the register. */
  predicate Taken(c: Word, b: Byte, d: Word, e: Word) {
    && d == ClockFour(c, c.w0 != b.b0, c.w1 != b.b1, c.w2 != b.b2, c.w3 != b.b3)
    && e == ClockFour(d, d.w0 != b.b4, d.w1 != b.b5, d.w2 != b.b6, d.w3 != b.b7)
  }

  lemma TakenIsAccumulate(c: Word, b: Byte, d: Word, e: Word)
    requires Taken(c, b, d, e)
    ensures Accumulate(b, c) == e
  {
    hide Accumulate, ClockFour;
    AccumulateIsTwoNibbles(c, b, d);
  }

  ghost predicate Steps(i: nat)
    requires i < 9
  {
    var b, c := CheckByte(i), CheckRegister(i);
    Taken(c, b, ClockFour(c, c.w0 != b.b0, c.w1 != b.b1, c.w2 != b.b2, c.w3 != b.b3), CheckRegister(i + 1))
  }

  lemma FirstSteps(i: nat)
    requires 0 <= i < 3
    ensures Steps(i)
  {
  }

  lemma SecondSteps(i: nat)
    requires 3 <= i < 6
    ensures Steps(i)
  {
  }

  lemma ThirdSteps(i: nat)
    requires 6 <= i < 9
    ensures Steps(i)
  {
  }

  lemma CheckStep(i: nat)
    requires i < 9
    ensures Accumulate(CheckByte(i), CheckRegister(i)) == CheckRegister(i + 1)
  {
    hide Accumulate, CheckByte, CheckRegister, ClockFour, Taken;
    if i < 3 {
      FirstSteps(i);
    } else if i < 6 {
      SecondSteps(i);
    } else {
      ThirdSteps(i);
    }
    var b, c := CheckByte(i), CheckRegister(i);
    TakenIsAccumulate(c, b, ClockFour(c, c.w0 != b.b0, c.w1 != b.b1, c.w2 != b.b2, c.w3 != b.b3), CheckRegister(i + 1));
  }

  lemma CheckBytes(i: nat)
    requires i < 9
    ensures Value(CheckByte(i)) == CHECK_STRING[i]
  {
  }

  lemma {:induction false} CheckedSoFar(i: nat)
    requires i <= 9
    ensures Fold(CheckRegister(0), CHECK_STRING[..i]) == CheckRegister(i)
  {
    hide Fold, Accumulate, CheckRegister, CheckByte, ByteOf;
    if i == 0 {
      FoldNothing(CheckRegister(0));
    } else {
      CheckedSoFar(i - 1);
      assert CHECK_STRING[..i] == CHECK_STRING[..i - 1] + [CHECK_STRING[i - 1]];
      FoldConcat(CheckRegister(0), CHECK_STRING[..i - 1], [CHECK_STRING[i - 1]]);
      FoldOne(CheckRegister(i - 1), CHECK_STRING[i - 1]);
      CheckBytes(i - 1);
      ByteOfValue(CheckByte(i - 1));
      CheckStep(i - 1);
    }
  }

  /** The sum of the check string "123456789" is 0x6F91. */
  lemma CheckString()
    ensures LowByte(Sum(CHECK_STRING)) == 0x91 && HighByte(Sum(CHECK_STRING)) == 0x6F
  {
    hide Fold;
    CheckedSoFar(9);
    assert CHECK_STRING[..9] == CHECK_STRING;
  }

  lemma FoldNothing(c: Word)
    ensures Fold(c, []) == c
  {
  }

  /** Unlike a register that starts at zero, this one notices a zero byte in front. */
  lemma ZeroInFront(s: seq<Octet>)
    ensures Sum([0] + s) != Sum(s)
  {
    var c := Accumulate(ByteOf(0), X25_INIT_CRC);
    assert c != X25_INIT_CRC;
    hide Accumulate, ByteOf, Clock, BitsOf;
    FoldConcat(X25_INIT_CRC, [0], s);
    FoldOne(X25_INIT_CRC, 0);
    FoldIsRun(c, s);
    FoldIsRun(X25_INIT_CRC, s);
    if Sum([0] + s) == Sum(s) {
      RunInjective(c, X25_INIT_CRC, Bits(s));
    }
  }
}
