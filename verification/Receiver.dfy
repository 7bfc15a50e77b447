/**
 * The streaming recogniser of the serial link. The bytes arrive in slices of one contiguous
 * buffer; the recogniser keeps a pointer to the start of the frame it is in and hands every
 * frame that passes the checks to a callback. The reference is a machine that takes one byte
 * at a time.
 */
module Receiver {
  import opened Crc
  import opened Frames

  datatype Phase = Hunting | InHead(start: nat) | InBody(start: nat, size: nat)

  /** A frame handed to the callback, by its place in the stream. */
  datatype Found = Found(start: nat, size: nat)

  datatype Run = Run(phase: Phase, found: seq<Found>)

  // ---- The byte-wise machine ----

  /** The machine takes byte k of the stream. */
  function Take(r: Run, s: seq<Octet>, k: nat): Run
    requires k < |s|
  {
    match r.phase
    case Hunting =>
      if s[k] == MAGIC then r.(phase := InHead(k)) else r
    case InHead(start) =>
      if k + 1 != start + HEADER_SIZE then r
      else
        var h := s[start..k + 1];
        r.(phase := if HeaderOk(h) then InBody(start, PackageSize(h)) else Hunting)
    case InBody(start, size) =>
      if k + 1 != start + size then r
      else Run(Hunting, if SizeAndCrcOk(s[start..k + 1]) then r.found + [Found(start, size)] else r.found)
  }

  function After(s: seq<Octet>, n: nat): Run
    requires n <= |s|
  {
    if n == 0 then Run(Hunting, []) else Take(After(s, n - 1), s, n - 1)
  }

  // ---- Whole runs ----

  /** A found frame lies in the first n bytes and passes every check. */
  predicate Sound(s: seq<Octet>, f: Found, n: nat)
    requires n <= |s|
  {
    f.start + f.size <= n && AlinkAccepts(s[f.start..f.start + f.size])
  }

  /** What is known about the frame the machine is in. */
  predicate Started(s: seq<Octet>, phase: Phase, n: nat)
    requires n <= |s|
  {
    match phase
    case Hunting => true
    case InHead(start) => start < n < start + HEADER_SIZE && s[start] == MAGIC
    case InBody(start, size) =>
      && start + HEADER_SIZE <= n < start + size
      && s[start] == MAGIC
      && HeaderOk(s[start..start + HEADER_SIZE])
      && size == PackageSize(s[start..start + HEADER_SIZE])
  }

  /** Frames are found one behind the other, and the one the machine is in lies behind them all. */
  predicate InOrder(r: Run, n: nat) {
    && (forall i :: 0 <= i < |r.found| ==> r.found[i].size > 0)
    && (forall i, j :: 0 <= i < j < |r.found| ==> r.found[i].start + r.found[i].size <= r.found[j].start)
    && (forall i :: 0 <= i < |r.found| ==> r.found[i].start + r.found[i].size <= Front(r.phase, n))
  }

  function Front(phase: Phase, n: nat): nat {
    match phase
    case Hunting => n
    case InHead(start) => start
    case InBody(start, _) => start
  }

  lemma WholeFrame(s: seq<Octet>, start: nat, size: nat)
    requires NO_PAYLOAD_SIZE <= size && start + size <= |s|
    requires s[start] == MAGIC && HeaderOk(s[start..start + HEADER_SIZE])
    ensures HeaderOk(s[start..start + size])
    ensures SizeAndCrcOk(s[start..start + size]) ==> AlinkAccepts(s[start..start + size])
  {
    hide SumBytes, TrailerIs;
    var f, h := s[start..start + size], s[start..start + HEADER_SIZE];
    assert f[..CHECKSUM_LEN] == h[..CHECKSUM_LEN];
    SumBytesPrefix(f, h, CHECKSUM_LEN);
  }

  lemma TakeStarted(r: Run, s: seq<Octet>, k: nat)
    requires k < |s| && Started(s, r.phase, k)
    ensures Started(s, Take(r, s, k).phase, k + 1)
  {
  }

  lemma TakeInOrder(r: Run, s: seq<Octet>, k: nat)
    requires k < |s| && Started(s, r.phase, k) && InOrder(r, k)
    ensures InOrder(Take(r, s, k), k + 1)
  {
    hide HeaderOk, PackageSize, SizeAndCrcOk;
  }

  lemma TakeSound(r: Run, s: seq<Octet>, k: nat)
    requires k < |s| && Started(s, r.phase, k) && forall f :: f in r.found ==> Sound(s, f, k)
    ensures forall f :: f in Take(r, s, k).found ==> Sound(s, f, k + 1)
  {
    hide HeaderOk, PackageSize, SizeAndCrcOk, AlinkAccepts;
    if r.phase.InBody? && k + 1 == r.phase.start + r.phase.size {
      WholeFrame(s, r.phase.start, r.phase.size);
    }
  }

  /** Over every run, whatever is found is a frame that passes all checks, and no two overlap. */
  lemma {:induction false} RunIsSound(s: seq<Octet>, n: nat)
    requires n <= |s|
    ensures var r := After(s, n);
            Started(s, r.phase, n) && InOrder(r, n) && forall f :: f in r.found ==> Sound(s, f, n)
  {
    hide Take, InOrder, Sound, Started;
    if n == 0 {
      assert Started(s, Hunting, 0) && InOrder(Run(Hunting, []), 0) by { StartIsSound(s); }
    } else {
      RunIsSound(s, n - 1);
      TakeStarted(After(s, n - 1), s, n - 1);
      TakeInOrder(After(s, n - 1), s, n - 1);
      TakeSound(After(s, n - 1), s, n - 1);
    }
  }

  lemma StartIsSound(s: seq<Octet>)
    ensures Started(s, Hunting, 0) && InOrder(Run(Hunting, []), 0)
  {
  }

  /** What the machine does up to byte n depends on those bytes only. */
  lemma {:induction false} AfterPrefix(s: seq<Octet>, t: seq<Octet>, n: nat)
    requires n <= |s| && n <= |t| && s[..n] == t[..n]
    ensures After(s, n) == After(t, n)
  {
    hide HeaderOk, PackageSize, SizeAndCrcOk;
    if n > 0 {
      assert s[..n - 1] == s[..n][..n - 1] && t[..n - 1] == t[..n][..n - 1];
      AfterPrefix(s, t, n - 1);
      assert s[n - 1] == s[..n][n - 1] == t[n - 1];
      var phase := After(s, n - 1).phase;
      if !phase.Hunting? && phase.start <= n {
        assert s[phase.start..n] == s[..n][phase.start..] == t[phase.start..n];
      }
    }
  }

  // ---- Runs within one frame ----

  /** Inside a header nothing happens before its ninth byte. */
  lemma {:induction false} StayInHead(s: seq<Octet>, n: nat, m: nat)
    requires n <= m <= |s| && After(s, n).phase.InHead? && m < After(s, n).phase.start + HEADER_SIZE
    ensures After(s, m) == After(s, n)
    decreases m
  {
    if n < m {
      StayInHead(s, n, m - 1);
    }
  }

  /** Behind a header nothing happens before the last byte of the package. */
  lemma {:induction false} StayInBody(s: seq<Octet>, n: nat, m: nat)
    requires n <= m <= |s| && After(s, n).phase.InBody? && m < After(s, n).phase.start + After(s, n).phase.size
    ensures After(s, m) == After(s, n)
    decreases m
  {
    if n < m {
      StayInBody(s, n, m - 1);
    }
  }

  lemma {:induction false} SkipFiller(s: seq<Octet>, n: nat, m: nat)
    requires n <= m <= |s| && After(s, n).phase == Hunting
    requires forall i :: n <= i < m ==> s[i] != MAGIC
    ensures After(s, m) == After(s, n)
    decreases m
  {
    if n < m {
      SkipFiller(s, n, m - 1);
    }
  }

  /** From a magic byte on, nine bytes decide whether a package begins here. */
  lemma ReadHead(s: seq<Octet>, n: nat)
    requires n + HEADER_SIZE <= |s| && After(s, n).phase == Hunting && s[n] == MAGIC
    ensures var h := s[n..n + HEADER_SIZE];
            After(s, n + HEADER_SIZE) ==
            After(s, n).(phase := if HeaderOk(h) then InBody(n, PackageSize(h)) else Hunting)
  {
    hide HeaderOk, PackageSize, SizeAndCrcOk;
    assert After(s, n + 1) == After(s, n).(phase := InHead(n));
    StayInHead(s, n + 1, n + HEADER_SIZE - 1);
  }

  lemma ReadBody(s: seq<Octet>, n: nat, r: Run, size: nat)
    requires n + size <= |s| && HEADER_SIZE < size
    requires After(s, n + HEADER_SIZE) == r && r.phase == InBody(n, size)
    ensures After(s, n + size) ==
            Run(Hunting, if SizeAndCrcOk(s[n..n + size]) then r.found + [Found(n, size)] else r.found)
  {
    hide HeaderOk, PackageSize, SizeAndCrcOk;
    StayInBody(s, n + HEADER_SIZE, n + size - 1);
  }

  // ---- Streams of whole pieces ----

  /**
   * What a line may carry: idle bytes without the magic, accepted frames, frames whose header
   * survived but whose checksum did not, and headers that did not survive.
   */
  datatype Piece = Filler(bytes: seq<Octet>) | Good(bytes: seq<Octet>) | Damaged(bytes: seq<Octet>)
                 | Headless(bytes: seq<Octet>)

  predicate Fits(p: Piece) {
    var b := p.bytes;
    match p
    case Filler(_) => MAGIC !in b
    case Good(_) => AlinkAccepts(b)
    case Damaged(_) =>
      |b| >= NO_PAYLOAD_SIZE && b[0] == MAGIC && HeaderOk(b) && PackageSize(b) == |b| && !SizeAndCrcOk(b)
    case Headless(_) => |b| == HEADER_SIZE && b[0] == MAGIC && !HeaderOk(b)
  }

  function Stream(ps: seq<Piece>): seq<Octet> {
    if ps == [] then [] else Stream(ps[..|ps| - 1]) + ps[|ps| - 1].bytes
  }

  function Expected(ps: seq<Piece>): seq<Found> {
    if ps == [] then []
    else
      var front, p := ps[..|ps| - 1], ps[|ps| - 1];
      Expected(front) + if p.Good? then [Found(|Stream(front)|, |p.bytes|)] else []
  }

  lemma HeadOfPiece(f: seq<Octet>, h: seq<Octet>)
    requires |f| >= HEADER_SIZE && h == f[..HEADER_SIZE]
    ensures HeaderOk(h) == HeaderOk(f) && PackageSize(h) == PackageSize(f)
  {
    hide SumBytes;
    assert f[..CHECKSUM_LEN] == h[..CHECKSUM_LEN];
    SumBytesPrefix(f, h, CHECKSUM_LEN);
  }

  lemma PieceRead(s: seq<Octet>, n: nat, p: Piece)
    requires Fits(p) && n + |p.bytes| <= |s| && s[n..n + |p.bytes|] == p.bytes && After(s, n).phase == Hunting
    ensures After(s, n + |p.bytes|) ==
            Run(Hunting, After(s, n).found + if p.Good? then [Found(n, |p.bytes|)] else [])
  {
    hide HeaderOk, PackageSize, SizeAndCrcOk, After;
    var b, size := p.bytes, |p.bytes|;
    if p.Filler? {
      assert forall i :: n <= i < n + size ==> s[i] == s[n..n + size][i - n];
      SkipFiller(s, n, n + size);
    } else {
      assert s[n] == b[0];
      assert s[n..n + HEADER_SIZE] == b[..HEADER_SIZE];
      ReadHead(s, n);
      HeadOfPiece(b, b[..HEADER_SIZE]);
      if p.Headless? {
        assert b[..HEADER_SIZE] == b;
      } else {
        PackageFits(b);
        ReadBody(s, n, After(s, n + HEADER_SIZE), size);
      }
    }
  }

  lemma PackageFits(b: seq<Octet>)
    ensures SizeAndCrcOk(b) ==> PackageSize(b) == |b|
  {
  }

  /** A line that carries whole pieces gives up exactly its good frames, in order, whatever was damaged between them. */
  lemma {:induction false} StreamIsRecognised(ps: seq<Piece>)
    requires forall p :: p in ps ==> Fits(p)
    ensures After(Stream(ps), |Stream(ps)|) == Run(Hunting, Expected(ps))
  {
    hide Fits, Take;
    if ps != [] {
      var front, p := ps[..|ps| - 1], ps[|ps| - 1];
      StreamIsRecognised(front);
      var s, n := Stream(ps), |Stream(front)|;
      assert s[..n] == Stream(front) == Stream(front)[..n];
      AfterPrefix(s, Stream(front), n);
      assert s[n..n + |p.bytes|] == p.bytes;
      PieceRead(s, n, p);
    }
  }

  /** The bytes of the good pieces, in order. */
  function GoodFrames(ps: seq<Piece>): seq<seq<Octet>> {
    if ps == [] then []
    else
      var before := GoodFrames(ps[..|ps| - 1]);
      if ps[|ps| - 1].Good? then before + [ps[|ps| - 1].bytes] else before
  }

  function BytesAt(s: seq<Octet>, f: Found): seq<Octet>
    requires f.start + f.size <= |s|
  {
    s[f.start..f.start + f.size]
  }

  lemma {:induction false} ExpectedAreFrames(ps: seq<Piece>)
    ensures |Expected(ps)| == |GoodFrames(ps)|
    ensures forall i :: 0 <= i < |Expected(ps)| ==>
              && Expected(ps)[i].start + Expected(ps)[i].size <= |Stream(ps)|
              && BytesAt(Stream(ps), Expected(ps)[i]) == GoodFrames(ps)[i]
  {
    if ps != [] {
      var front, p := ps[..|ps| - 1], ps[|ps| - 1];
      ExpectedAreFrames(front);
      forall i | 0 <= i < |Expected(front)|
        ensures BytesAt(Stream(ps), Expected(front)[i]) == GoodFrames(front)[i]
      {
        assert BytesAt(Stream(ps), Expected(front)[i]) == BytesAt(Stream(front), Expected(front)[i]);
      }
      if p.Good? {
        assert BytesAt(Stream(ps), Found(|Stream(front)|, |p.bytes|)) == p.bytes;
      }
    }
  }

  // ---- The recogniser ----

  datatype State = CheckMagic | CheckHead | CheckCrc

  const UINT32 := 0x1_0000_0000

  class AlinkRecv {
    const data: array<Octet>
    var state: State
    var start: nat
    var count: nat
    var size: nat
    var found: seq<Found>

    constructor (data: array<Octet>)
      requires data.Length < UINT32
      ensures this.data == data && At(0)
    {
      this.data := data;
      state := CheckMagic;
      start, count, size := 0, 0, 0;
      found := [];
    }

    ghost function Phase(): Phase
      reads this
    {
      match state
      case CheckMagic => Hunting
      case CheckHead => InHead(start)
      case CheckCrc => InBody(start, size)
    }

    /** The recogniser stands where the byte-wise machine stands after n bytes. */
    ghost predicate At(n: nat)
      reads this, data
    {
      && n <= data.Length < UINT32
      && After(data[..], n) == Run(Phase(), found)
      && Started(data[..], Phase(), n)
      && (state != CheckMagic ==> start + count == n)
    }

    method StateCheckMagic(from: nat, len: nat) returns (used: nat)
      requires At(from) && state == CheckMagic && 0 < len && from + len <= data.Length
      modifies this
      ensures 0 < used <= len && At(from + used)
    {
      hide HeaderOk, PackageSize, SizeAndCrcOk;
      used := 0;
      while len > used
        invariant 0 <= used <= len && state == CheckMagic && At(from + used)
      {
        if data[from + used] == MAGIC {
          start := from + used;
          count := 1;
          state := CheckHead;
          used := used + 1;
          return;
        }
        used := used + 1;
      }
    }

    method StateCheckHead(from: nat, len: nat) returns (used: nat)
      requires At(from) && state == CheckHead && 0 < len && from + len <= data.Length
      modifies this
      ensures 0 < used <= len && At(from + used)
    {
      hide HeaderOk, PackageSize, SizeAndCrcOk, After;
      if HEADER_SIZE - count > len {
        StayInHead(data[..], from, from + len);
        used := len;
        count := (count + len) % UINT32;
      } else {
        used := HEADER_SIZE - count;
        count := count + used;
        ghost var h := data[..][start..start + HEADER_SIZE];
        assert h == data[start..start + HEADER_SIZE] == h[..HEADER_SIZE];
        HeadEnds(data[..], from, start, found);
        var ok := CheckHeader(data, start, h);
        if ok {
          size := LengthOf(data[start + 1], data[start + 2]) + NO_PAYLOAD_SIZE;
          HeadSize(h);
          state := CheckCrc;
        } else {
          state := CheckMagic;
        }
      }
    }

    method StateCheckCrc(from: nat, len: nat) returns (used: nat)
      requires At(from) && state == CheckCrc && 0 < len && from + len <= data.Length
      modifies this
      ensures 0 < used <= len && At(from + used)
    {
      hide HeaderOk, SizeAndCrcOk, After;
      if size > (count + len) % UINT32 {
        StayInBody(data[..], from, from + len);
        used := len;
        count := (count + len) % UINT32;
      } else {
        used := size - count;
        count := count + used;
        BodyEnds(data[..], from, start, size, found);
        assert data[..][start..start + size] == data[start..start + size];
        var ok := AlinkCheckCrc(data, start, count);
        if ok {
          found := found + [Found(start, size)];
        }
        state := CheckMagic;
      }
    }

    /** Takes one slice; the state after it is the byte-wise machine's, so slices may be cut anywhere. */
    method Task(from: nat, len: nat)
      requires At(from) && from + len <= data.Length
      modifies this
      ensures At(from + len)
    {
      var p, left := from, len;
      while left != 0
        invariant from <= p && 0 <= left && p + left == from + len && At(p)
        decreases left
      {
        var used: nat;
        match state {
          case CheckMagic => used := StateCheckMagic(p, left);
          case CheckHead => used := StateCheckHead(p, left);
          case CheckCrc => used := StateCheckCrc(p, left);
        }
        left, p := left - used, p + used;
      }
    }
  }

  /**
   * Whatever the cuts between the slices were: once all of a line's bytes have been taken, the
   * callbacks made are its good frames, and the recogniser is ready for the next byte.
   */
  lemma LineRecognised(r: AlinkRecv, ps: seq<Piece>)
    requires forall p :: p in ps ==> Fits(p)
    requires r.data[..] == Stream(ps) && r.At(r.data.Length)
    ensures r.found == Expected(ps) && r.state == CheckMagic
  {
    StreamIsRecognised(ps);
  }

  datatype Message = Message(fields: Fields, payload: seq<Octet>)

  /**
   * From sender to callback: if the good frames on a line were built from these messages, the
   * callbacks read back exactly these messages, in order.
   */
  lemma MessagesArrive(r: AlinkRecv, ps: seq<Piece>, ms: seq<Message>)
    requires forall p :: p in ps ==> Fits(p)
    requires |GoodFrames(ps)| == |ms| && forall i :: 0 <= i < |ms| ==>
               GoodFrames(ps)[i] == Package(ms[i].fields, ms[i].payload)
    requires r.data[..] == Stream(ps) && r.At(r.data.Length)
    ensures |r.found| == |ms|
    ensures forall i :: 0 <= i < |ms| ==>
              && r.found[i].start + r.found[i].size <= r.data.Length
              && var f := BytesAt(r.data[..], r.found[i]);
                 |f| >= NO_PAYLOAD_SIZE && FieldsOf(f) == ms[i].fields && PayloadOf(f) == ms[i].payload
  {
    hide Package, Fits, FieldsOf, PayloadOf, After;
    LineRecognised(r, ps);
    ExpectedAreFrames(ps);
    forall i | 0 <= i < |ms|
      ensures FieldsOf(GoodFrames(ps)[i]) == ms[i].fields && PayloadOf(GoodFrames(ps)[i]) == ms[i].payload
    {
      PackageIsAccepted(ms[i].fields, ms[i].payload);
    }
  }

  /** Whatever the bytes were: every callback made so far was given a checked frame, and no two frames overlap. */
  lemma CallbacksAreSound(r: AlinkRecv, n: nat)
    requires r.At(n)
    ensures forall f :: f in r.found ==> Sound(r.data[..], f, n)
    ensures forall i, j :: 0 <= i < j < |r.found| ==> r.found[i].start + r.found[i].size <= r.found[j].start
  {
    RunIsSound(r.data[..], n);
  }

  lemma HeadSize(h: seq<Octet>)
    requires |h| >= 3
    ensures PackageSize(h) == LengthOf(h[1], h[2]) + NO_PAYLOAD_SIZE
  {
  }

  lemma HeadEnds(s: seq<Octet>, n: nat, start: nat, found: seq<Found>)
    requires n <= |s| && After(s, n) == Run(InHead(start), found) && start < n < start + HEADER_SIZE <= |s|
    ensures var h := s[start..start + HEADER_SIZE];
            After(s, start + HEADER_SIZE) == Run(if HeaderOk(h) then InBody(start, PackageSize(h)) else Hunting, found)
  {
    hide HeaderOk, PackageSize, SizeAndCrcOk;
    StayInHead(s, n, start + HEADER_SIZE - 1);
  }

  lemma BodyEnds(s: seq<Octet>, n: nat, start: nat, size: nat, found: seq<Found>)
    requires n <= |s| && After(s, n) == Run(InBody(start, size), found) && n < start + size <= |s|
    ensures After(s, start + size) ==
            Run(Hunting, if SizeAndCrcOk(s[start..start + size]) then found + [Found(start, size)] else found)
  {
    hide HeaderOk, PackageSize, SizeAndCrcOk;
    StayInBody(s, n, start + size - 1);
  }
}
