/**
 * The frame of the serial and network links. Two parts of the program build it (the network
 * codec in place, the upload path once per subscriber) and two check it; all four are compared
 * with one description of the frame as a sequence of bytes.
 */
module Frames {
  import opened Crc

  const MAGIC: Octet := 0xFD
  const HEADER_SIZE := 9
  const CHECKSUM_LEN := 8
  const NO_PAYLOAD_SIZE := 11
  const PAYLOAD_LIMIT := 0x1_0000
  const LENGTH_LIMIT := 0x1_0000

  // ---- The length field ----

  function LengthOf(lo: Octet, hi: Octet): (n: nat)
    ensures n < PAYLOAD_LIMIT
  {
    hi * 256 + lo
  }

  function LengthLow(n: nat): Octet {
    n % 256
  }

  function LengthHigh(n: nat): Octet {
    n / 256 % 256
  }

  lemma SixteenBits(n: nat, q: nat, r: nat)
    requires n == PAYLOAD_LIMIT * q + r && r < PAYLOAD_LIMIT
    ensures n % PAYLOAD_LIMIT == r
  {
  }

  /** Only sixteen bits of a length survive in the header. */
  lemma LengthRoundTrip(n: nat)
    ensures LengthOf(LengthLow(n), LengthHigh(n)) == n % PAYLOAD_LIMIT
  {
    var h := n / 256;
    var q := h / 256;
    assert n == 256 * h + LengthLow(n) && h == 256 * q + LengthHigh(n);
    SixteenBits(n, q, LengthOf(LengthLow(n), LengthHigh(n)));
  }

  lemma LengthUnique(lo: Octet, hi: Octet)
    ensures lo == LengthLow(LengthOf(lo, hi)) && hi == LengthHigh(LengthOf(lo, hi))
  {
  }

  // ---- The frame ----

  datatype Fields = Fields(seqNo: Octet, destId: Octet, sourceId: Octet, msgId: Octet, ans: Octet)

  function SumBytes(f: seq<Octet>, n: nat): Octet
    requires n <= |f|
  {
    if n == 0 then 0 else (SumBytes(f, n - 1) + f[n - 1]) % 256
  }

  lemma {:induction false} SumBytesPrefix(f: seq<Octet>, g: seq<Octet>, n: nat)
    requires n <= |f| && n <= |g| && f[..n] == g[..n]
    ensures SumBytes(f, n) == SumBytes(g, n)
  {
    if n > 0 {
      assert f[..n][n - 1] == g[..n][n - 1];
      assert f[..n - 1] == f[..n][..n - 1] && g[..n - 1] == g[..n][..n - 1];
      SumBytesPrefix(f, g, n - 1);
    }
  }

  /** The first eight bytes; the length is cut to sixteen bits. */
  function Head(a: Fields, payloadLen: nat): (h: seq<Octet>)
    ensures |h| == CHECKSUM_LEN
  {
    [MAGIC, LengthLow(payloadLen), LengthHigh(payloadLen), a.seqNo, a.destId, a.sourceId, a.msgId, a.ans]
  }

  function Header(a: Fields, payloadLen: nat): (h: seq<Octet>)
    ensures |h| == HEADER_SIZE
  {
    Head(a, payloadLen) + [SumBytes(Head(a, payloadLen), CHECKSUM_LEN)]
  }

  /** Appends the checksum of everything but the first byte, low byte first. */
  function Sealed(body: seq<Octet>): (f: seq<Octet>)
    requires |body| > 0
    ensures |f| == |body| + 2 && f[..|body|] == body
  {
    body + [LowByte(Sum(body[1..])), HighByte(Sum(body[1..]))]
  }

  function Package(a: Fields, payload: seq<Octet>): (f: seq<Octet>)
    ensures |f| == |payload| + NO_PAYLOAD_SIZE
  {
    Sealed(Header(a, |payload|) + payload)
  }

  function PackageSize(f: seq<Octet>): (size: nat)
    requires |f| >= 3
    ensures size >= NO_PAYLOAD_SIZE
  {
    LengthOf(f[1], f[2]) + NO_PAYLOAD_SIZE
  }

  function FieldsOf(f: seq<Octet>): Fields
    requires |f| >= HEADER_SIZE
  {
    Fields(f[3], f[4], f[5], f[6], f[7])
  }

  function PayloadOf(f: seq<Octet>): seq<Octet>
    requires |f| >= NO_PAYLOAD_SIZE
  {
    f[HEADER_SIZE..|f| - 2]
  }

  // ---- What the two receivers look at ----

  predicate HeaderOk(f: seq<Octet>)
    requires |f| >= HEADER_SIZE
  {
    f[CHECKSUM_LEN] == SumBytes(f, CHECKSUM_LEN)
  }

  predicate TrailerIs(f: seq<Octet>, c: Word)
    requires |f| >= 2
  {
    f[|f| - 2] == LowByte(c) && f[|f| - 1] == HighByte(c)
  }

  /** The serial link counts the bytes under the checksum in sixteen bits. */
  function Covered(size: nat): (n: nat)
    requires size >= 3
    ensures n <= size - 3
  {
    (size - 3) % LENGTH_LIMIT
  }

  /** The serial link's check of size and checksum. */
  predicate SizeAndCrcOk(f: seq<Octet>) {
    |f| >= NO_PAYLOAD_SIZE && PackageSize(f) == |f| && TrailerIs(f, Sum(f[1..1 + Covered(|f|)]))
  }

  /** The serial link's check of a whole package. */
  predicate AlinkAccepts(f: seq<Octet>) {
    |f| >= NO_PAYLOAD_SIZE && f[0] == MAGIC && HeaderOk(f) && SizeAndCrcOk(f)
  }

  /** The network codec's check, which counts in thirty-two bits. */
  predicate EthAccepts(f: seq<Octet>) {
    && |f| >= NO_PAYLOAD_SIZE
    && f[0] == MAGIC
    && PackageSize(f) == |f|
    && HeaderOk(f)
    && TrailerIs(f, Sum(f[1..|f| - 2]))
  }

  // ---- Acceptance and construction are inverse ----

  /** What can be read back from the bytes in front of the trailer. */
  lemma ReadBack(a: Fields, payload: seq<Octet>, f: seq<Octet>)
    requires |f| == |payload| + NO_PAYLOAD_SIZE && f[..|f| - 2] == Header(a, |payload|) + payload
    ensures f[0] == MAGIC && PackageSize(f) == |payload| % PAYLOAD_LIMIT + NO_PAYLOAD_SIZE
    ensures HeaderOk(f) && FieldsOf(f) == a && PayloadOf(f) == payload
    ensures f[1..|f| - 2] == (Header(a, |payload|) + payload)[1..]
  {
    hide SumBytes;
    var h := Head(a, |payload|);
    var body := Header(a, |payload|) + payload;
    assert forall i :: 0 <= i < |f| - 2 ==> f[i] == f[..|f| - 2][i] == body[i];
    assert f[..CHECKSUM_LEN] == h == h[..CHECKSUM_LEN];
    SumBytesPrefix(f, h, CHECKSUM_LEN);
    LengthRoundTrip(|payload|);
    assert f[HEADER_SIZE..|f| - 2] == body[HEADER_SIZE..] == payload;
    assert f[1..|f| - 2] == f[..|f| - 2][1..];
  }

  /** A built frame is accepted exactly when its payload's length fits the header, and reads back unchanged. */
  lemma PackageIsAccepted(a: Fields, payload: seq<Octet>)
    ensures EthAccepts(Package(a, payload)) <==> |payload| < PAYLOAD_LIMIT
    ensures FieldsOf(Package(a, payload)) == a && PayloadOf(Package(a, payload)) == payload
  {
    hide Sum, LowByte, HighByte, HeaderOk, PackageSize, Header;
    var f := Package(a, payload);
    var body := Header(a, |payload|) + payload;
    assert f[..|f| - 2] == body;
    ReadBack(a, payload, f);
  }

  function Total(f: seq<Octet>, n: nat): nat
    requires n <= |f|
  {
    if n == 0 then 0 else Total(f, n - 1) + f[n - 1]
  }

  lemma AddThenCut(x: nat, y: nat)
    ensures (x % 256 + y) % 256 == (x + y) % 256
  {
  }

  lemma {:induction false} SumIsTotal(f: seq<Octet>, n: nat)
    requires n <= |f|
    ensures SumBytes(f, n) == Total(f, n) % 256
  {
    if n > 0 {
      SumIsTotal(f, n - 1);
      AddThenCut(Total(f, n - 1), f[n - 1]);
    }
  }

  lemma LengthFits(n: nat)
    requires n < 65536
    ensures LengthLow(n) as int + 256 * LengthHigh(n) as int == n
  {
    LengthRoundTrip(n);
    SixteenBits(n, 0, n);
  }

  lemma HeaderLayout(a: Fields, n: nat)
    requires n < 65536
    ensures var h := Header(a, n);
            && h[0] == 0xFD && h[1] as int + 256 * h[2] as int == n
            && h[3..8] == [a.seqNo, a.destId, a.sourceId, a.msgId, a.ans] && h[8] == Total(h, 8) % 256
  {
    hide SumBytes, Total, LengthLow, LengthHigh;
    var h, head := Header(a, n), Head(a, n);
    LengthFits(n);
    SumIsTotal(h, 8);
    assert h[..8] == head == head[..8];
    SumBytesPrefix(h, head, 8);
  }

  /** The checksum behind a built frame is the register clocked over all its bytes but the first. */
  lemma TrailerLayout(body: seq<Octet>)
    requires body != []
    ensures var f := Sealed(body);
            Join(ByteOf(f[|body|]), ByteOf(f[|body| + 1])) ==
            Run(Word(true, true, true, true, true, true, true, true,
                     true, true, true, true, true, true, true, true), Bits(body[1..]))
  {
    hide Sum, LowByte, HighByte, Run, Bits, ByteOf, Join;
    SumIsRegister(body[1..]);
    JoinIsWord(LowByte(Sum(body[1..])), HighByte(Sum(body[1..])), Sum(body[1..]));
  }

  lemma {:induction false} TotalPrefix(f: seq<Octet>, g: seq<Octet>, n: nat)
    requires n <= |f| && n <= |g| && f[..n] == g[..n]
    ensures Total(f, n) == Total(g, n)
  {
    if n > 0 {
      assert f[..n][n - 1] == g[..n][n - 1];
      assert f[..n - 1] == f[..n][..n - 1] && g[..n - 1] == g[..n][..n - 1];
      TotalPrefix(f, g, n - 1);
    }
  }

  /** A built frame, byte by byte. */
  lemma FrameLayout(a: Fields, payload: seq<Octet>)
    requires |payload| < 65536
    ensures var f := Package(a, payload);
            && |f| == |payload| + 11 && f[0] == 0xFD && f[1] as int + 256 * f[2] as int == |payload|
            && f[3..8] == [a.seqNo, a.destId, a.sourceId, a.msgId, a.ans] && f[8] == Total(f, 8) % 256
            && f[9..|f| - 2] == payload
            && Join(ByteOf(f[|f| - 2]), ByteOf(f[|f| - 1])) ==
               Run(Word(true, true, true, true, true, true, true, true,
                        true, true, true, true, true, true, true, true), Bits(f[1..|f| - 2]))
  {
    hide Sum, LowByte, HighByte, Total, Run, Bits, ByteOf, Join, Header;
    var f, h := Package(a, payload), Header(a, |payload|);
    var body := h + payload;
    assert f[..|body|] == body;
    assert forall i :: 0 <= i < |body| ==> f[i] == f[..|body|][i] == body[i];
    HeaderLayout(a, |payload|);
    assert f[..8] == h[..8];
    TotalPrefix(f, h, 8);
    assert f[3..8] == h[3..8];
    assert f[1..|f| - 2] == body[1..];
    TrailerLayout(body);
  }

  lemma HeadFromFrame(f: seq<Octet>)
    requires |f| >= NO_PAYLOAD_SIZE && f[0] == MAGIC && PackageSize(f) == |f|
    ensures f[..CHECKSUM_LEN] == Head(FieldsOf(f), |f| - NO_PAYLOAD_SIZE)
  {
    LengthUnique(f[1], f[2]);
  }

  lemma BodyFromFrame(f: seq<Octet>, h: seq<Octet>)
    requires |f| >= NO_PAYLOAD_SIZE && |h| == CHECKSUM_LEN && f[..CHECKSUM_LEN] == h && HeaderOk(f)
    ensures f[..|f| - 2] == h + [SumBytes(h, CHECKSUM_LEN)] + PayloadOf(f)
  {
    hide SumBytes;
    assert h[..CHECKSUM_LEN] == h;
    SumBytesPrefix(f, h, CHECKSUM_LEN);
    assert f[..|f| - 2] == f[..CHECKSUM_LEN] + [f[CHECKSUM_LEN]] + f[HEADER_SIZE..|f| - 2];
  }

  lemma SealedAgain(f: seq<Octet>, body: seq<Octet>)
    requires |body| > 0 && |f| == |body| + 2 && f[..|f| - 2] == body && TrailerIs(f, Sum(f[1..|f| - 2]))
    ensures f == Sealed(body)
  {
    hide Sum, LowByte, HighByte;
    assert f[1..|f| - 2] == f[..|f| - 2][1..];
    assert f == f[..|f| - 2] + [f[|f| - 2], f[|f| - 1]];
  }

  /** An accepted frame is the one the builder makes of its own fields and payload. */
  lemma AcceptedIsPackage(f: seq<Octet>)
    requires EthAccepts(f)
    ensures f == Package(FieldsOf(f), PayloadOf(f)) && |PayloadOf(f)| < PAYLOAD_LIMIT
  {
    hide Sum, LowByte, HighByte, SumBytes, Head;
    HeadFromFrame(f);
    BodyFromFrame(f, Head(FieldsOf(f), |PayloadOf(f)|));
    SealedAgain(f, Header(FieldsOf(f), |PayloadOf(f)|) + PayloadOf(f));
  }

  // ---- Noise on the line ----

  /** The register comes to zero over an accepted frame, its trailer included. */
  lemma AcceptedResidue(f: seq<Octet>)
    requires |f| >= NO_PAYLOAD_SIZE
    ensures TrailerIs(f, Sum(f[1..|f| - 2])) <==> Sum(f[1..]) == ZERO
  {
    hide Fold, LowByte, HighByte;
    assert f[1..] == f[1..|f| - 2] + [f[|f| - 2], f[|f| - 1]];
    FoldConcat(X25_INIT_CRC, f[1..|f| - 2], [f[|f| - 2], f[|f| - 1]]);
    TrailerIsOwnSum(Sum(f[1..|f| - 2]), f[|f| - 2], f[|f| - 1]);
  }

  lemma BurstBehindFirst(f: seq<Octet>, g: seq<Octet>)
    requires |f| > 0 && |g| > 0 && f[0] == g[0] && Burst(Bits(f), Bits(g))
    ensures Burst(Bits(f[1..]), Bits(g[1..]))
  {
    hide ByteOf, BitsOf;
    var a, b := Bits(f), Bits(g);
    assert a[8..] == Bits(f[1..]) && b[8..] == Bits(g[1..]);
    assert a[..8] == b[..8] == BitsOf(ByteOf(f[0]));
    assert a == a[..8] + a[8..] && b == b[..8] + b[8..];
    var p :| 0 <= p < |a| && DifferWithin(a, b, p);
    var i :| 0 <= i < |a| && a[i] != b[i];
    assert forall k :: 0 <= k < 8 ==> a[k] == a[..8][k] == b[..8][k] == b[k];
    var q := if p < 8 then 0 else p - 8;
    assert DifferWithin(a[8..], b[8..], q);
    assert a[8..] != b[8..];
  }

  /** No burst of up to sixteen bits, anywhere in a frame, turns an accepted frame into another one. */
  lemma BurstIsRejected(f: seq<Octet>, g: seq<Octet>)
    requires EthAccepts(f) && Burst(Bits(f), Bits(g))
    ensures !EthAccepts(g)
  {
    if EthAccepts(g) {
      BurstBehindFirst(f, g);
      BurstChangesSum(f[1..], g[1..]);
      AcceptedResidue(f);
      AcceptedResidue(g);
    }
  }

  /** Up to 65538 bytes the two checks are one; beyond, the serial link sums only the first few bytes. */
  lemma ChecksAgree(f: seq<Octet>)
    requires |f| < LENGTH_LIMIT + 3
    ensures AlinkAccepts(f) <==> EthAccepts(f)
  {
    hide Sum, LowByte, HighByte, HeaderOk, PackageSize;
    if |f| >= NO_PAYLOAD_SIZE {
      assert 1 + Covered(|f|) == |f| - 2;
    }
  }

  /** Both receivers take whatever either builder makes, up to the longest payload the serial link sums in full. */
  lemma BuiltFramesPass(a: Fields, payload: seq<Octet>)
    requires |payload| + NO_PAYLOAD_SIZE < LENGTH_LIMIT + 3
    ensures EthAccepts(Package(a, payload)) && AlinkAccepts(Package(a, payload))
  {
    hide EthAccepts, AlinkAccepts, Package;
    PackageIsAccepted(a, payload);
    ChecksAgree(Package(a, payload));
  }

  /** A long frame passes the serial link exactly when the bytes it leaves out do not move the register. */
  lemma LongFrame(f: seq<Octet>)
    requires |f| >= LENGTH_LIMIT + 3 && EthAccepts(f)
    ensures var k := 1 + Covered(|f|);
            k <= 8 && (AlinkAccepts(f) <==> Fold(Sum(f[1..k]), f[k..|f| - 2]) == Sum(f[1..k]))
  {
    hide Fold, LowByte, HighByte, HeaderOk;
    var k := 1 + Covered(|f|);
    assert f[1..|f| - 2] == f[1..k] + f[k..|f| - 2];
    FoldConcat(X25_INIT_CRC, f[1..k], f[k..|f| - 2]);
    SameTrailer(Sum(f[1..k]), Sum(f[1..|f| - 2]));
  }

  lemma SameTrailer(c: Word, d: Word)
    ensures LowByte(c) == LowByte(d) && HighByte(c) == HighByte(d) <==> c == d
  {
    hide ByteOf, LowByte, HighByte;
    JoinIsWord(LowByte(c), HighByte(c), c);
    JoinIsWord(LowByte(c), HighByte(c), d);
  }

  // ---- Where the two checks part ----

  /** The last byte under a checksum decides it, whatever stands in front. */
  lemma LastByteDecides(s: seq<Octet>, x: Octet, y: Octet)
    requires Sum(s + [x]) == Sum(s + [y])
    ensures x == y
  {
    hide ByteOf, BitsOf, Accumulate;
    var c := Sum(s);
    FoldConcat(X25_INIT_CRC, s, [x]);
    FoldConcat(X25_INIT_CRC, s, [y]);
    FoldIsRun(c, [x]);
    FoldIsRun(c, [y]);
    RunDecides(c, Bits([x]), Bits([y]));
    BitsInjective([x], [y]);
    assert [x][0] == [y][0];
  }

  lemma OneTrailer(f: seq<Octet>, c: Word, d: Word)
    requires |f| >= 2 && TrailerIs(f, c) && TrailerIs(f, d)
    ensures c == d
  {
    hide LowByte, HighByte;
    SameTrailer(c, d);
  }

  /** The frames are equal up to their last payload byte, in which they differ. */
  predicate Twins(f: seq<Octet>, g: seq<Octet>) {
    |f| == |g| >= NO_PAYLOAD_SIZE && f[..|f| - 3] == g[..|f| - 3] && f[|f| - 3] != g[|f| - 3]
  }

  /** The two checks cannot both hold of both of two long twins, since only one of them reads the byte that tells
      the twins apart. */
  lemma LongTwins(f: seq<Octet>, g: seq<Octet>)
    requires |f| >= LENGTH_LIMIT + 3 && Twins(f, g)
    ensures !(EthAccepts(f) && AlinkAccepts(f) && EthAccepts(g) && AlinkAccepts(g))
  {
    hide Sum, HeaderOk, TrailerIs;
    if EthAccepts(f) && AlinkAccepts(f) && EthAccepts(g) && AlinkAccepts(g) {
      var n, k := |f|, 1 + Covered(|f|);
      assert k <= 8;
      assert f[1..k] == f[..n - 3][1..k];
      assert g[1..k] == g[..n - 3][1..k];
      OneTrailer(f, Sum(f[1..n - 2]), Sum(f[1..k]));
      OneTrailer(g, Sum(g[1..n - 2]), Sum(g[1..k]));
      var s := f[..n - 3][1..];
      assert f[1..n - 2] == s + [f[n - 3]];
      assert g[1..n - 2] == s + [g[n - 3]];
      LastByteDecides(s, f[n - 3], g[n - 3]);
    }
  }

  /** A frame whose trailer is the sum the serial link computes. */
  function ShortSealed(body: seq<Octet>): (f: seq<Octet>)
    requires |body| > 0
    ensures |f| == |body| + 2 && f[..|body|] == body
  {
    var c := Sum(body[1..1 + Covered(|body| + 2)]);
    body + [LowByte(c), HighByte(c)]
  }

  lemma ShortSealedAccepted(a: Fields, payload: seq<Octet>)
    requires |payload| < PAYLOAD_LIMIT
    ensures AlinkAccepts(ShortSealed(Header(a, |payload|) + payload))
  {
    hide Sum, LowByte, HighByte, HeaderOk, PackageSize, Header;
    var f := ShortSealed(Header(a, |payload|) + payload);
    ReadBack(a, payload, f);
    assert f[1..1 + Covered(|f|)] == f[..|f| - 2][1..1 + Covered(|f|)];
  }

  lemma TwinsFrom(a: Fields, p: seq<Octet>, f: seq<Octet>, g: seq<Octet>, x: Octet, y: Octet)
    requires |f| == |g| == |p| + 1 + NO_PAYLOAD_SIZE && x != y
    requires f[..|f| - 2] == Header(a, |p| + 1) + (p + [x]) && g[..|g| - 2] == Header(a, |p| + 1) + (p + [y])
    ensures Twins(f, g)
  {
    hide Header;
    var n := |f|;
    assert f[..n - 3] == f[..n - 2][..n - 3] == Header(a, |p| + 1) + p == g[..n - 2][..n - 3] == g[..n - 3];
    assert f[n - 3] == f[..n - 2][n - 3] == x && g[n - 3] == g[..n - 2][n - 3] == y;
  }

  predicate SameVerdict(f: seq<Octet>) { AlinkAccepts(f) <==> EthAccepts(f) }

  /** The two checks agree on all buffers of a length exactly outside eight lengths; at each of those the serial
      link rejects some good frame and accepts some bad one. */
  lemma WhereChecksAgree(n: nat)
    ensures LENGTH_LIMIT + 3 <= n < PAYLOAD_LIMIT + NO_PAYLOAD_SIZE ==>
              && (exists f: seq<Octet> :: |f| == n && EthAccepts(f) && !AlinkAccepts(f))
              && (exists f: seq<Octet> :: |f| == n && AlinkAccepts(f) && !EthAccepts(f))
    ensures (forall f: seq<Octet> :: |f| == n ==> SameVerdict(f)) <==>
              n < LENGTH_LIMIT + 3 || PAYLOAD_LIMIT + NO_PAYLOAD_SIZE <= n
  {
    hide EthAccepts, AlinkAccepts, ShortSealed, Header, Sealed, Twins;
    if LENGTH_LIMIT + 3 <= n < PAYLOAD_LIMIT + NO_PAYLOAD_SIZE {
      var a, p := Fields(0, 0, 0, 0, 0), seq<Octet>(n - NO_PAYLOAD_SIZE - 1, _ => 0);
      var f, g := Package(a, p + [0]), Package(a, p + [1]);
      PackageIsAccepted(a, p + [0]);
      PackageIsAccepted(a, p + [1]);
      TwinsFrom(a, p, f, g, 0, 1);
      LongTwins(f, g);
      var f', g' := ShortSealed(Header(a, |p| + 1) + (p + [0])), ShortSealed(Header(a, |p| + 1) + (p + [1]));
      ShortSealedAccepted(a, p + [0]);
      ShortSealedAccepted(a, p + [1]);
      TwinsFrom(a, p, f', g', 0, 1);
      LongTwins(f', g');
      assert !SameVerdict(f) || !SameVerdict(g);
    } else {
      forall f: seq<Octet> | |f| == n
        ensures SameVerdict(f)
      {
        if n < LENGTH_LIMIT + 3 {
          ChecksAgree(f);
        } else {
          TooLong(f);
        }
      }
    }
  }

  lemma TooLong(f: seq<Octet>)
    requires |f| >= PAYLOAD_LIMIT + NO_PAYLOAD_SIZE
    ensures !AlinkAccepts(f) && !EthAccepts(f)
  {
    hide HeaderOk, TrailerIs;
  }

  // ---- The serial link's receiver ----

  method HeaderChecksum(buffer: array<Octet>, at: nat) returns (checksum: Octet)
    requires at + CHECKSUM_LEN <= buffer.Length
    ensures checksum == SumBytes(buffer[at..at + CHECKSUM_LEN], CHECKSUM_LEN)
  {
    checksum := 0;
    var i := 0;
    while CHECKSUM_LEN > i
      invariant 0 <= i <= CHECKSUM_LEN && checksum == SumBytes(buffer[at..at + CHECKSUM_LEN], i)
    {
      checksum := (checksum + buffer[at + i]) % 256;
      i := i + 1;
    }
  }

  method CheckHeader(buffer: array<Octet>, at: nat, ghost f: seq<Octet>) returns (ok: bool)
    requires at + HEADER_SIZE <= buffer.Length && |f| >= HEADER_SIZE && f[..HEADER_SIZE] == buffer[at..at + HEADER_SIZE]
    ensures ok == HeaderOk(f)
  {
    var checksum := HeaderChecksum(buffer, at);
    assert f[CHECKSUM_LEN] == f[..HEADER_SIZE][CHECKSUM_LEN] == buffer[at + CHECKSUM_LEN];
    var h := buffer[at..at + CHECKSUM_LEN];
    assert f[..CHECKSUM_LEN] == f[..HEADER_SIZE][..CHECKSUM_LEN] == h == h[..CHECKSUM_LEN];
    SumBytesPrefix(f, h, CHECKSUM_LEN);
    ok := buffer[at + CHECKSUM_LEN] == checksum;
  }

  /** Whether the two bytes behind the first count + 1 hold their checksum. */
  method CheckTrailer(buffer: array<Octet>, at: nat, size: nat, count: nat) returns (ok: bool)
    requires 3 <= size && count <= size - 3 && at + size <= buffer.Length
    ensures ok == TrailerIs(buffer[at..at + size], Sum(buffer[at..at + size][1..1 + count]))
  {
    hide Sum, LowByte, HighByte, ByteOf;
    var crc := CrcCalculate(buffer, at + 1, count);
    assert buffer[at..at + size][1..1 + count] == buffer[at + 1..at + 1 + count];
    JoinIsWord(buffer[at + size - 2], buffer[at + size - 1], crc);
    ok := Join(ByteOf(buffer[at + size - 2]), ByteOf(buffer[at + size - 1])) == crc;
  }

  method AlinkCheckCrc(buffer: array<Octet>, at: nat, len: nat) returns (ok: bool)
    requires at + 3 <= buffer.Length && at + len <= buffer.Length
    ensures ok == SizeAndCrcOk(buffer[at..at + len])
  {
    hide Sum, TrailerIs;
    var size := LengthOf(buffer[at + 1], buffer[at + 2]) + NO_PAYLOAD_SIZE;
    ok := false;
    if size == len {
      ok := CheckTrailer(buffer, at, size, Covered(size));
    }
  }

  method AlinkCheckPackage(buffer: array<Octet>, len: nat) returns (ok: bool)
    requires len < LENGTH_LIMIT && len <= buffer.Length && 0 < buffer.Length
    ensures ok == AlinkAccepts(buffer[..len])
  {
    hide HeaderOk, SizeAndCrcOk;
    ok := buffer[0] == MAGIC;
    if !ok {
      return;
    }
    if NO_PAYLOAD_SIZE > len {
      ok := false;
      return;
    }
    assert buffer[..len] == buffer[0..0 + len] && buffer[..len][..HEADER_SIZE] == buffer[0..0 + HEADER_SIZE];
    ok := CheckHeader(buffer, 0, buffer[..len]);
    if !ok {
      return;
    }
    ok := AlinkCheckCrc(buffer, 0, len);
  }

  // ---- The network codec ----

  datatype Payload = NoPayload | Offset(at: nat)

  /** The length is looked at once the magic has been found, so three bytes must then be readable. */
  method EthProtocolAnalysis(msg: array<Octet>, len: nat) returns (data: Payload)
    requires len <= msg.Length && 1 <= msg.Length && (msg[0] == MAGIC ==> 3 <= msg.Length)
    ensures data == if EthAccepts(msg[..len]) then Offset(HEADER_SIZE) else NoPayload
  {
    hide HeaderOk, TrailerIs, Sum;
    data := NoPayload;
    if MAGIC != msg[0] {
      return;
    }
    var size := LengthOf(msg[1], msg[2]);
    if size + NO_PAYLOAD_SIZE != len {
      return;
    }
    assert msg[..len] == msg[0..0 + len] && msg[..len][..HEADER_SIZE] == msg[0..0 + HEADER_SIZE];
    var ok := CheckHeader(msg, 0, msg[..len]);
    if !ok {
      return;
    }
    ok := CheckTrailer(msg, 0, len, len - 3);
    if !ok {
      return;
    }
    data := Offset(HEADER_SIZE);
  }

  const DEV_ID_AGX: Octet := 0x07

  /** Writes the trailer behind size - 2 finished bytes. */
  method SealInPlace(buffer: array<Octet>, size: nat, count: nat)
    requires 3 <= size <= buffer.Length && count == size - 3
    modifies buffer
    ensures buffer[..size] == Sealed(old(buffer[..size - 2])) && buffer[size..] == old(buffer[size..])
  {
    hide Sum, LowByte, HighByte;
    var crc := CrcCalculate(buffer, 1, count);
    assert buffer[1..1 + count] == buffer[..size - 2][1..];
    ghost var body := buffer[..size - 2];
    buffer[size - 2] := LowByte(crc);
    buffer[size - 1] := HighByte(crc);
    assert buffer[..size - 2] == body;
    assert buffer[..size] == buffer[..size - 2] + [buffer[size - 2], buffer[size - 1]];
  }

  /** Turns a buffer whose payload stands behind the header's place into a finished frame. */
  method EthProtocolPackage(msgId: Octet, msg: array<Octet>, len: nat) returns (size: nat)
    requires len + NO_PAYLOAD_SIZE <= msg.Length
    modifies msg
    ensures size == len + NO_PAYLOAD_SIZE && msg[size..] == old(msg[size..])
    ensures msg[..size] == Package(Fields(0, 0xFF, 0x07, msgId, 0), old(msg[HEADER_SIZE..HEADER_SIZE + len]))
  {
    hide Sealed, SumBytes;
    ghost var payload := msg[HEADER_SIZE..HEADER_SIZE + len];
    ghost var a := Fields(0, 0xFF, DEV_ID_AGX, msgId, 0);
    size := len + NO_PAYLOAD_SIZE;
    msg[0] := MAGIC;
    msg[1] := LengthLow(len);
    msg[2] := LengthHigh(len);
    msg[3] := 0;
    msg[4] := 0xFF;
    msg[5] := DEV_ID_AGX;
    msg[6] := msgId;
    msg[7] := 0;
    var checksum := HeaderChecksum(msg, 0);
    assert msg[0..0 + CHECKSUM_LEN] == Head(a, len);
    msg[8] := checksum;
    assert msg[..CHECKSUM_LEN] == Head(a, len);
    assert msg[..HEADER_SIZE] == msg[..CHECKSUM_LEN] + [msg[CHECKSUM_LEN]];
    assert msg[HEADER_SIZE..HEADER_SIZE + len] == payload;
    assert msg[..size - 2] == msg[..HEADER_SIZE] + msg[HEADER_SIZE..HEADER_SIZE + len];
    SealInPlace(msg, size, len + NO_PAYLOAD_SIZE - 3);
  }
}
