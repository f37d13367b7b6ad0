/** ADTS files (Annex 1.A of ISO/IEC 14496-3): the frame walk and the streaming of whole frames. */
module Adts {
  import opened Sequences

  type byte = b: nat | b < 256

  const SFTABLE: seq<nat> :=
    [96000, 88200, 64000, 48000, 44100, 32000, 24000, 22050, 16000, 12000, 11025, 8000, 7350, 0, 0, 0]
  const RATES := 13  // how many of them are rates
  const HEADER_SIZE := 7
  const MAX_FRAME := 5000
  const SEEK_BUFFER := 50000
  const SPF := 1024
  const BUF_SIZE := 100000  // what the player's stream buffer holds

  // ---------------------------------------------------------------- headers

  /** The twelve bits of the sync word; masks and shifts are remainders and quotients here. */
  predicate IsSync(h0: byte, h1: byte) {
    h0 == 0xFF && h1 / 16 == 0xF
  }

  function FrameLength(h3: byte, h4: byte, h5: byte): nat {
    h3 % 4 * 2048 + h4 * 8 + h5 / 32
  }

  function SamplingIndex(h2: byte): (i: nat)
    ensures i < |SFTABLE|
  {
    h2 / 4 % 16
  }

  /** The table is zero behind the rates. */
  lemma RateKnown(i: nat)
    requires i < |SFTABLE|
    ensures SFTABLE[i] != 0 <==> i < RATES
  {
  }

  predicate GoodStart(h0: byte, h1: byte, h2: byte) {
    IsSync(h0, h1) && h2 / 64 != 3 && SamplingIndex(h2) < RATES
  }

  /** What the bit expressions of the program compute. */
  lemma LengthBits(h: bv8)
    ensures (h & 0x03) as nat == h as nat % 4
    ensures ((h & 0xE0) >> 5) as nat == h as nat / 32
  {
    assert (h & 0xE0) >> 5 == h >> 5;
  }

  lemma SamplingBits(h: bv8)
    ensures (((h & 0x3C) >> 2) & 0x0F) as nat == h as nat / 4 % 16
  {
    var q := h >> 2;
    assert ((h & 0x3C) >> 2) & 0x0F == q & 0x0F;
    assert q as nat == h as nat / 4;
    assert (q & 0x0F) as nat == q as nat % 16;
  }

  lemma StartBits(h: bv8)
    ensures ((h & 0xC0) >> 6) as nat == h as nat / 64
    ensures ((h >> 4) & 0x0F) as nat == h as nat / 16
  {
    assert (h & 0xC0) >> 6 == h >> 6 && (h >> 4) & 0x0F == h >> 4;
  }

  /** The check of the walk; it lets lengths through that are shorter than a header. */
  predicate WalkHeader(h: seq<byte>, at: nat)
    requires at + HEADER_SIZE <= |h|
  {
    GoodStart(h[at], h[at + 1], h[at + 2]) && FrameLength(h[at + 3], h[at + 4], h[at + 5]) <= MAX_FRAME
  }

  /** The check of the streamer: the frame's length, 0 for an invalid header. */
  function StreamHeader(h: seq<byte>, at: nat): (length: nat)
    requires at + HEADER_SIZE <= |h|
    ensures length == 0 || HEADER_SIZE < length <= MAX_FRAME
  {
    var length := FrameLength(h[at + 3], h[at + 4], h[at + 5]);
    if !GoodStart(h[at], h[at + 1], h[at + 2]) || length <= HEADER_SIZE || length > MAX_FRAME then 0 else length
  }

  // ---------------------------------------------------------------- the header, bit by bit

  lemma LowBits(a: bv16, b: bv16, c: bv16)
    requires a < 4 && b < 256 && c < 8
    ensures ((b << 3) | c) as nat == b as nat * 8 + c as nat < 2048
    ensures ((a << 11) | ((b << 3) | c)) as nat == a as nat * 2048 + b as nat * 8 + c as nat
  {
    JoinThree(b, c);
    assert a == 0 || a == 1 || a == 2 || a == 3;
    JoinEleven(a << 11, 2048 * a as nat, (b << 3) | c);
  }

  lemma JoinThree(b: bv16, c: bv16)
    requires b < 256 && c < 8
    ensures ((b << 3) | c) as nat == b as nat * 8 + c as nat && (b << 3) | c < 2048
  {
    assert (b << 3) as nat == b as nat * 8;
    var x := b << 3;
    assert x & 7 == 0 && x < 2048;
    assert (x | c) as nat == x as nat + c as nat;
  }

  lemma HighOne(y: bv16)
    requires y < 2048
    ensures (0x800 | y) as nat == 2048 + y as nat
  {
  }

  lemma HighTwo(y: bv16)
    requires y < 2048
    ensures (0x1000 | y) as nat == 4096 + y as nat
  {
  }

  lemma HighThree(y: bv16)
    requires y < 2048
    ensures (0x1800 | y) as nat == 6144 + y as nat
  {
  }

  lemma JoinEleven(x: bv16, high: nat, y: bv16)
    requires || (x == 0 && high == 0) || (x == 0x800 && high == 2048)
             || (x == 0x1000 && high == 4096) || (x == 0x1800 && high == 6144)
    requires y < 2048
    ensures (x | y) as nat == high + y as nat
  {
    var z := x | y;
    if high == 0 {
      assert z == y;
    } else if high == 2048 {
      HighOne(y);
      assert z == 0x800 | y;
    } else if high == 4096 {
      HighTwo(y);
      assert z == 0x1000 | y;
    } else {
      HighThree(y);
      assert z == 0x1800 | y;
    }
  }

  /** The length is the field of thirteen bits, as the program's masks and shifts cut it out. */
  lemma LengthField(h3: bv8, h4: bv8, h5: bv8)
    ensures FrameLength(h3 as nat, h4 as nat, h5 as nat)
         == ((((h3 & 0x03) as bv16) << 11) | (((h4 as bv16) << 3) | (((h5 & 0xE0) >> 5) as bv16))) as nat
  {
    LengthBits(h3);
    LengthBits(h5);
    LowBits((h3 & 0x03) as bv16, h4 as bv16, ((h5 & 0xE0) >> 5) as bv16);
  }

  /** The sync word is the twelve bits that the program puts together. */
  lemma SyncField(h0: bv8, h1: bv8)
    ensures IsSync(h0 as nat, h1 as nat)
       <==> (((h0 as bv16) << 4) & 0xFF0) | (((h1 as bv16) >> 4) & 0x0F) == 0xFFF
  {
    var a, b := h0 as bv16, h1 as bv16;
    assert (((a << 4) & 0xFF0) | ((b >> 4) & 0x0F) == 0xFFF) <==> (h0 == 0xFF && h1 >> 4 == 0x0F);
    StartBits(h1);
    assert h1 >> 4 == (h1 >> 4) & 0x0F;
  }

  /** All fields of a header but sync word, rate and length. */
  datatype Fields = Fields(
    kind: nat,        // version, layer and protection: four bits
    profile: nat,     // two bits
    private: nat,     // one bit
    channels: nat,    // three bits
    marks: nat,       // original, home and copyright: four bits
    fullness: nat,    // eleven bits
    blocks: nat)      // two bits

  predicate FieldsOk(x: Fields) {
    && x.kind < 16 && x.profile < 4 && x.private < 2 && x.channels < 8
    && x.marks < 16 && x.fullness < 2048 && x.blocks < 4
  }

  /** The seven bytes of a header with rate number `i` that announces `length` bytes. */
  function Header(x: Fields, i: nat, length: nat): (h: seq<byte>)
    requires FieldsOk(x) && i < 16 && length < 8192
    ensures |h| == 7
  {
    [0xFF, 0xF0 + x.kind,
     x.profile * 64 + i * 4 + x.private * 2 + x.channels / 4,
     x.channels % 4 * 64 + x.marks * 4 + length / 2048,
     length / 8 % 256,
     length % 8 * 32 + x.fullness / 64,
     x.fullness % 64 * 4 + x.blocks]
  }

  lemma SecondFields(profile: nat, i: nat, low: nat)
    requires profile < 4 && i < 16 && low < 4
    ensures (profile * 64 + i * 4 + low) / 64 == profile && (profile * 64 + i * 4 + low) / 4 % 16 == i
  {
    assert profile * 64 + i * 4 + low == (profile * 16 + i) * 4 + low;
  }

  lemma LengthParts(length: nat, full: nat)
    requires length < 8192 && full < 32
    ensures length / 2048 * 2048 + length / 8 % 256 * 8 + (length % 8 * 32 + full) / 32 == length
  {
    assert length / 8 == length / 2048 * 256 + length / 8 % 256;
    assert length == length / 8 * 8 + length % 8;
  }

  lemma HeaderRead(x: Fields, i: nat, length: nat)
    requires FieldsOk(x) && i < 16 && length < 8192
    ensures var h := Header(x, i, length);
            && IsSync(h[0], h[1]) && h[2] / 64 == x.profile && SamplingIndex(h[2]) == i
            && FrameLength(h[3], h[4], h[5]) == length
  {
    SecondFields(x.profile, i, x.private * 2 + x.channels / 4);
    LengthParts(length, x.fullness / 64);
    ThirdLow(x.channels % 4, x.marks, length / 2048);
  }

  lemma ThirdLow(c: nat, marks: nat, l: nat)
    requires l < 4
    ensures (c * 64 + marks * 4 + l) % 4 == l
  {
    assert c * 64 + marks * 4 + l == 4 * (c * 16 + marks) + l;
  }

  /**
    Whatever its other fields, a header is good for streaming exactly with a profile other than 3, one of
    the thirteen rates, and a length from 8 to 5000, which is then the frame's; the walk asks for no least length.
    */
  lemma HeaderDecides(x: Fields, i: nat, length: nat)
    requires FieldsOk(x) && i < 16 && length < 8192
    ensures var h := Header(x, i, length);
            && StreamHeader(h, 0) == (if x.profile != 3 && i < 13 && 8 <= length <= 5000 then length else 0)
            && (WalkHeader(h, 0) <==> x.profile != 3 && i < 13 && length <= 5000)
            && LengthAt(h, 0) == length
  {
    HeaderRead(x, i, length);
  }

  /** Seven bytes that begin with twelve set bits are a header of some fields, and no others are good. */
  lemma HeaderOf(h: seq<byte>) returns (x: Fields, i: nat, length: nat)
    requires |h| == 7
    ensures FieldsOk(x) && i < 16 && length < 8192
    ensures h[0] == 0xFF && h[1] >= 0xF0 ==> h == Header(x, i, length)
    ensures !(h[0] == 0xFF && h[1] >= 0xF0) ==> StreamHeader(h, 0) == 0 && !WalkHeader(h, 0)
  {
    var b1: nat, b2: nat, b3: nat := h[1], h[2], h[3];
    var b4: nat, b5: nat, b6: nat := h[4], h[5], h[6];
    x := Fields(b1 % 16, b2 / 64, b2 / 2 % 2, b2 % 2 * 4 + b3 / 64, b3 / 4 % 16, b5 % 32 * 64 + b6 / 4, b6 % 4);
    i := b2 / 4 % 16;
    length := b3 % 4 * 2048 + b4 * 8 + b5 / 32;
    if h[0] == 0xFF && h[1] >= 0xF0 {
      ChannelParts(b2 % 2, b3 / 64, b3 % 4, b4, b5 / 32, b5 % 32, b6 / 4);
      ByteParts(b2, b3);
      var g := Header(x, i, length);
      assert g[1] == h[1] && g[2] == h[2] && g[3] == h[3];
      assert g[4] == h[4] && g[5] == h[5] && g[6] == h[6];
    }
  }

  lemma ChannelParts(a: nat, b: nat, l3: nat, l4: nat, l5: nat, f5: nat, f6: nat)
    requires a < 2 && b < 4 && l3 < 4 && l4 < 256 && l5 < 8 && f5 < 32 && f6 < 64
    ensures (a * 4 + b) / 4 == a && (a * 4 + b) % 4 == b
    ensures var length := l3 * 2048 + l4 * 8 + l5;
            length / 2048 == l3 && length / 8 % 256 == l4 && length % 8 == l5
    ensures (f5 * 64 + f6) / 64 == f5 && (f5 * 64 + f6) % 64 == f6
  {
    var length := l3 * 2048 + l4 * 8 + l5;
    assert length / 8 == l3 * 256 + l4;
  }

  lemma ByteParts(b2: nat, b3: nat)
    requires b2 < 256 && b3 < 256
    ensures b2 == b2 / 64 * 64 + b2 / 4 % 16 * 4 + b2 / 2 % 2 * 2 + b2 % 2
    ensures b3 == b3 / 64 * 64 + b3 / 4 % 16 * 4 + b3 % 4
  {
    assert b2 / 4 == b2 / 64 * 16 + b2 / 4 % 16 && b2 == b2 / 4 * 4 + (b2 / 2 % 2 * 2 + b2 % 2);
    assert b3 / 4 == b3 / 64 * 16 + b3 / 4 % 16;
  }

  // ---------------------------------------------------------------- frames in a file

  /** The length of the whole valid frame at `pos`, 0 without one. */
  function FrameAt(f: seq<byte>, pos: nat): (length: nat)
    ensures length != 0 ==> HEADER_SIZE < length <= MAX_FRAME && pos + length <= |f|
  {
    if pos + HEADER_SIZE > |f| then 0
    else
      var length := StreamHeader(f, pos);
      if pos + length > |f| then 0 else length
  }

  /** From `pos` on the file is a run of whole valid frames. */
  predicate AllFrames(f: seq<byte>, pos: nat)
    decreases |f| - pos
  {
    pos == |f| || (pos < |f| && FrameAt(f, pos) != 0 && AllFrames(f, pos + FrameAt(f, pos)))
  }

  function Count(f: seq<byte>, pos: nat): nat
    decreases |f| - pos
  {
    if FrameAt(f, pos) == 0 then 0 else 1 + Count(f, pos + FrameAt(f, pos))
  }

  /** Where up to `n` whole frames from `pos` end. */
  function EndOf(f: seq<byte>, pos: nat, n: nat): (end: nat)
    ensures pos <= end && (pos <= |f| ==> end <= |f|)
    decreases n
  {
    if n == 0 || FrameAt(f, pos) == 0 then pos else EndOf(f, pos + FrameAt(f, pos), n - 1)
  }

  function Taken(f: seq<byte>, pos: nat, n: nat): (k: nat)
    ensures k <= n
    decreases n
  {
    if n == 0 || FrameAt(f, pos) == 0 then 0 else 1 + Taken(f, pos + FrameAt(f, pos), n - 1)
  }

  /** A byte string that is one valid frame. */
  predicate IsFrame(b: seq<byte>) {
    HEADER_SIZE < |b| && StreamHeader(b, 0) == |b|
  }

  /** A concatenation of valid frames is all frames, as many as were put in. */
  lemma {:induction false} FramesOfFlat(before: seq<byte>, bs: seq<seq<byte>>)
    requires forall b :: b in bs ==> IsFrame(b)
    ensures AllFrames(before + Flat(bs), |before|) && Count(before + Flat(bs), |before|) == |bs|
    decreases bs
  {
    var f := before + Flat(bs);
    if bs != [] {
      var b := bs[0];
      assert b in bs;
      var rest := Flat(bs[1..]);
      assert (before + b) + rest == f;
      FramesOfFlat(before + b, bs[1..]);
    }
  }

  lemma {:induction false} EndKeepsFrames(f: seq<byte>, pos: nat, n: nat)
    requires AllFrames(f, pos)
    ensures AllFrames(f, EndOf(f, pos, n)) && Count(f, pos) == Taken(f, pos, n) + Count(f, EndOf(f, pos, n))
    ensures n > 0 && pos < |f| ==> EndOf(f, pos, n) > pos
    ensures Taken(f, pos, n) < n ==> EndOf(f, pos, n) == |f|
    decreases n
  {
    if n > 0 && pos < |f| {
      EndKeepsFrames(f, pos + FrameAt(f, pos), n - 1);
    }
  }

  /** A stretch of the file that is exactly `n` whole frames. */
  predicate WholeFrames(f: seq<byte>, from: nat, to: nat, n: nat)
    decreases n
  {
    if n == 0 then from == to
    else FrameAt(f, from) != 0 && WholeFrames(f, from + FrameAt(f, from), to, n - 1)
  }

  lemma {:induction false} TakenWhole(f: seq<byte>, pos: nat, n: nat)
    ensures WholeFrames(f, pos, EndOf(f, pos, n), Taken(f, pos, n))
    decreases n
  {
    if n > 0 && FrameAt(f, pos) != 0 {
      TakenWhole(f, pos + FrameAt(f, pos), n - 1);
    }
  }

  /** One frame more after whole frames. */
  lemma {:induction false} WholeStep(f: seq<byte>, from: nat, to: nat, k: nat)
    requires WholeFrames(f, from, to, k) && FrameAt(f, to) != 0
    ensures WholeFrames(f, from, to + FrameAt(f, to), k + 1)
    decreases k
  {
    if k > 0 {
      WholeStep(f, from + FrameAt(f, from), to, k - 1);
    }
  }

  /** Whole frames up to the number wanted, or to the first gap, are all that can be taken. */
  lemma {:induction false} WholeTaken(f: seq<byte>, from: nat, to: nat, k: nat, n: nat)
    requires k <= n && WholeFrames(f, from, to, k) && (k < n ==> FrameAt(f, to) == 0)
    ensures EndOf(f, from, n) == to && Taken(f, from, n) == k
    decreases k
  {
    if k > 0 {
      WholeTaken(f, from + FrameAt(f, from), to, k - 1, n - 1);
    }
  }

  // ---------------------------------------------------------------- what a chunk puts into the buffer

  /** The bytes of a cut-off frame at `e`: a valid header whose frame the file does not hold as a whole. */
  function Spill(f: seq<byte>, e: nat): (n: nat)
    ensures e + n <= |f| || n == 0
    ensures n <= MAX_FRAME && (FrameAt(f, e) != 0 ==> n == 0)
  {
    if e + HEADER_SIZE <= |f| && StreamHeader(f, e) != 0 && e + StreamHeader(f, e) > |f| then |f| - e else 0
  }

  /** Where the position stands when there was no whole valid frame at `e`. */
  function StopAt(f: seq<byte>, e: nat): (pos: nat)
    requires e <= |f|
    ensures e <= pos <= |f|
  {
    if e + HEADER_SIZE <= |f| && StreamHeader(f, e) == 0 then e + HEADER_SIZE else |f|
  }

  /** All bytes that the frame loop copies for up to `n` frames, a cut-off last one included. */
  function Copied(f: seq<byte>, pos: nat, n: nat): nat {
    EndOf(f, pos, n) - pos + if Taken(f, pos, n) < n then Spill(f, EndOf(f, pos, n)) else 0
  }

  function PosAfter(f: seq<byte>, pos: nat, n: nat): (p: nat)
    requires pos <= |f|
    ensures EndOf(f, pos, n) <= p <= |f|
  {
    if Taken(f, pos, n) < n then StopAt(f, EndOf(f, pos, n)) else EndOf(f, pos, n)
  }

  /** The frame behind `k` whole ones has its place in what is copied. */
  lemma {:induction false} NextCopied(f: seq<byte>, from: nat, to: nat, k: nat, n: nat)
    requires k < n && WholeFrames(f, from, to, k)
    ensures Copied(f, from, n) >= to - from + FrameAt(f, to) + Spill(f, to)
    decreases k
  {
    if k > 0 {
      NextCopied(f, from + FrameAt(f, from), to, k - 1, n - 1);
    } else if FrameAt(f, to) != 0 {
      assert EndOf(f, from, n) >= from + FrameAt(f, from);
    }
  }

  lemma {:induction false} CopiedBound(f: seq<byte>, pos: nat, n: nat)
    ensures EndOf(f, pos, n) - pos <= Taken(f, pos, n) * MAX_FRAME
    ensures Copied(f, pos, n) <= n * MAX_FRAME
    decreases n
  {
    if n > 0 && FrameAt(f, pos) != 0 {
      CopiedBound(f, pos + FrameAt(f, pos), n - 1);
    }
  }

  // ---------------------------------------------------------------- what a player sends

  /** How many frames the next chunk may have after `sent` of `total`. */
  function Quota(sent: nat, total: nat, n: nat): nat {
    if sent >= total then 0 else n
  }

  /** The chunks that are sent of any file, up to the first empty one. */
  function Chunks(f: seq<byte>, pos: nat, sent: nat, total: nat, n: nat): seq<seq<byte>>
    requires pos <= |f|
    decreases |f| - pos
  {
    var q := Quota(sent, total, n);
    var e := EndOf(f, pos, q);
    if e == pos then [] else [f[pos..e]] + Chunks(f, PosAfter(f, pos, q), sent + Taken(f, pos, q), total, n)
  }

  /** Every chunk's bytes fit into a buffer of `room` bytes, those of the empty last one included. */
  predicate InBounds(f: seq<byte>, pos: nat, sent: nat, total: nat, n: nat, room: nat)
    requires pos <= |f|
    decreases |f| - pos
  {
    var q := Quota(sent, total, n);
    && Copied(f, pos, q) <= room
    && (EndOf(f, pos, q) > pos ==> InBounds(f, PosAfter(f, pos, q), sent + Taken(f, pos, q), total, n, room))
  }

  /** A chunk that does not fit. */
  lemma ChunkLeaves(f: seq<byte>, pos: nat, sent: nat, total: nat, n: nat, room: nat)
    requires pos <= |f| && Copied(f, pos, Quota(sent, total, n)) > room
    ensures !InBounds(f, pos, sent, total, n, room)
  {
  }

  /** A chunk that ends where it begins is the last. */
  lemma ChunkNone(f: seq<byte>, pos: nat, sent: nat, total: nat, n: nat)
    requires pos <= |f| && EndOf(f, pos, Quota(sent, total, n)) == pos
    ensures Chunks(f, pos, sent, total, n) == []
  {
  }

  /** Any other one is followed by the chunks from the position and count it leaves. */
  lemma ChunkSome(f: seq<byte>, pos: nat, sent: nat, total: nat, n: nat, q: nat, e: nat, p: nat, k: nat)
    requires pos <= |f| && q == Quota(sent, total, n) && e == EndOf(f, pos, q) && e > pos
    requires p == PosAfter(f, pos, q) && k == sent + Taken(f, pos, q)
    ensures Chunks(f, pos, sent, total, n) == [f[pos..e]] + Chunks(f, p, k, total, n)
  {
  }

  /** A chunk of `size` bytes, with position and count as it leaves them. */
  lemma ChunkLinks(f: seq<byte>, pos: nat, sent: nat, total: nat, n: nat, size: nat, p: nat, k: nat)
    requires pos <= |f|
    requires pos + size == EndOf(f, pos, Quota(sent, total, n))
    requires p == PosAfter(f, pos, Quota(sent, total, n)) && k == sent + Taken(f, pos, Quota(sent, total, n))
    ensures size == 0 ==> Chunks(f, pos, sent, total, n) == []
    ensures size > 0 ==> Chunks(f, pos, sent, total, n) == [f[pos..pos + size]] + Chunks(f, p, k, total, n)
  {
    if size == 0 {
      ChunkNone(f, pos, sent, total, n);
    } else {
      ChunkSome(f, pos, sent, total, n, Quota(sent, total, n), pos + size, p, k);
    }
  }

  lemma BoundsLink(f: seq<byte>, pos: nat, sent: nat, total: nat, n: nat, room: nat, size: nat, p: nat, k: nat)
    requires pos <= |f| && Copied(f, pos, Quota(sent, total, n)) <= room
    requires pos + size == EndOf(f, pos, Quota(sent, total, n))
    requires p == PosAfter(f, pos, Quota(sent, total, n)) && k == sent + Taken(f, pos, Quota(sent, total, n))
    ensures size == 0 ==> InBounds(f, pos, sent, total, n, room)
    ensures size > 0 ==> InBounds(f, pos, sent, total, n, room) == InBounds(f, p, k, total, n, room)
  {
  }

  /** When nothing more is sent of a run of whole frames, nothing is left of it. */
  lemma NothingLeft(f: seq<byte>, pos: nat, sent: nat, total: nat, n: nat)
    requires pos <= |f| && AllFrames(f, pos) && sent + Count(f, pos) == total && n >= 1
    requires EndOf(f, pos, Quota(sent, total, n)) == pos
    ensures pos == |f|
  {
    EndKeepsFrames(f, pos, Quota(sent, total, n));
  }

  lemma ChunkJoins(f: seq<byte>, pos: nat, e: nat, all: seq<seq<byte>>, rest: seq<seq<byte>>)
    requires pos <= e <= |f| && all == [f[pos..e]] + rest && Flat(rest) == f[e..]
    ensures Flat(all) == f[pos..]
  {
    FlatFirst(f[pos..e], rest);
    SliceJoin(f, pos, e, |f|);
  }

  /** A run of whole frames is sent whole. */
  lemma {:induction false} ChunksOfFrames(f: seq<byte>, pos: nat, sent: nat, total: nat, n: nat)
    requires pos <= |f| && AllFrames(f, pos) && sent + Count(f, pos) == total && n >= 1
    ensures Flat(Chunks(f, pos, sent, total, n)) == f[pos..]
    decreases |f| - pos
  {
    var q := Quota(sent, total, n);
    var e, k := EndOf(f, pos, q), sent + Taken(f, pos, q);
    if e > pos {
      EndKeepsFrames(f, pos, q);
      FrameEnds(f, pos, q);
      ChunksOfFrames(f, e, k, total, n);
      ChunkSome(f, pos, sent, total, n, q, e, e, k);
      ChunkJoins(f, pos, e, Chunks(f, pos, sent, total, n), Chunks(f, e, k, total, n));
    } else {
      ChunkNone(f, pos, sent, total, n);
      NothingLeft(f, pos, sent, total, n);
    }
  }

  lemma FlatFirst(b: seq<byte>, bs: seq<seq<byte>>)
    ensures Flat([b] + bs) == b + Flat(bs)
  {
    assert ([b] + bs)[1..] == bs;
  }

  /** In a run of whole frames no chunk stops at a broken one. */
  lemma FrameEnds(f: seq<byte>, pos: nat, n: nat)
    requires pos <= |f| && AllFrames(f, pos)
    ensures PosAfter(f, pos, n) == EndOf(f, pos, n)
  {
    EndKeepsFrames(f, pos, n);
  }

  lemma {:induction false} FramesBefore(f: seq<byte>, pos: nat, n: nat)
    requires AllFrames(f, EndOf(f, pos, n))
    ensures AllFrames(f, pos)
    decreases n
  {
    if n > 0 && FrameAt(f, pos) != 0 {
      FramesBefore(f, pos + FrameAt(f, pos), n - 1);
    }
  }

  lemma JoinedSize(f: seq<byte>, pos: nat, e: nat, all: seq<seq<byte>>, rest: seq<seq<byte>>)
    requires pos <= e <= |f| && all == [f[pos..e]] + rest
    ensures |Flat(all)| == e - pos + |Flat(rest)|
  {
    FlatFirst(f[pos..e], rest);
  }

  /** Of no file is more sent than it holds, and all of it only of a run of whole frames. */
  lemma {:induction false} ChunksAtMost(f: seq<byte>, pos: nat, sent: nat, total: nat, n: nat)
    requires pos <= |f|
    ensures |Flat(Chunks(f, pos, sent, total, n))| <= |f| - pos
    ensures |Flat(Chunks(f, pos, sent, total, n))| == |f| - pos ==> AllFrames(f, pos)
    decreases |f| - pos
  {
    var q := Quota(sent, total, n);
    var e, p, k := EndOf(f, pos, q), PosAfter(f, pos, q), sent + Taken(f, pos, q);
    if e > pos {
      ChunksAtMost(f, p, k, total, n);
      ChunkSome(f, pos, sent, total, n, q, e, p, k);
      JoinedSize(f, pos, e, Chunks(f, pos, sent, total, n), Chunks(f, p, k, total, n));
      if |Flat(Chunks(f, pos, sent, total, n))| == |f| - pos {
        FramesBefore(f, pos, q);
      }
    } else {
      ChunkNone(f, pos, sent, total, n);
    }
  }

  /** With small chunks no file leaves the buffer. */
  lemma {:induction false} SmallChunksFit(f: seq<byte>, pos: nat, sent: nat, total: nat, n: nat, room: nat)
    requires pos <= |f| && n * MAX_FRAME <= room
    ensures InBounds(f, pos, sent, total, n, room)
    decreases |f| - pos
  {
    var q := Quota(sent, total, n);
    CopiedBound(f, pos, q);
    if EndOf(f, pos, q) > pos {
      SmallChunksFit(f, PosAfter(f, pos, q), sent + Taken(f, pos, q), total, n, room);
    }
  }

  // ---------------------------------------------------------------- the walk

  /** How the walk from header to header ends. */
  datatype Walk = Counted(frames: nat, rate: nat) | Broken(frames: nat) | Endless

  function LengthAt(f: seq<byte>, pos: nat): nat
    requires pos + HEADER_SIZE <= |f|
  {
    FrameLength(f[pos + 3], f[pos + 4], f[pos + 5])
  }

  function RateAt(f: seq<byte>, pos: nat): nat
    requires pos + HEADER_SIZE <= |f|
  {
    SFTABLE[SamplingIndex(f[pos + 2])]
  }

  function After(n: nat, walk: Walk): Walk {
    match walk
    case Counted(frames, rate) => Counted(n + frames, rate)
    case Broken(frames) => Broken(n + frames)
    case Endless => Endless
  }

  /** A length of zero leads back to the same header for ever. */
  function WalkFrom(f: seq<byte>, pos: nat): Walk
    decreases |f| - pos
  {
    if pos + HEADER_SIZE > |f| || !WalkHeader(f, pos) then Broken(0)
    else if LengthAt(f, pos) == 0 then Endless
    else if pos + LengthAt(f, pos) >= |f| then Counted(1, RateAt(f, pos))
    else After(1, WalkFrom(f, pos + LengthAt(f, pos)))
  }

  /** The loop goes on from the header at `pos`: it is valid, and the next one begins within the file. */
  predicate GoesOn(f: seq<byte>, pos: nat) {
    pos + HEADER_SIZE <= |f| && WalkHeader(f, pos) && pos + LengthAt(f, pos) < |f|
  }

  /** The loop goes on for `k` headers from `pos`. */
  predicate Walking(f: seq<byte>, pos: nat, k: nat)
    decreases k
  {
    k == 0 || (GoesOn(f, pos) && Walking(f, pos + LengthAt(f, pos), k - 1))
  }

  /** At a length of zero the loop stays where it is. */
  lemma {:induction false} StandsStill(f: seq<byte>, pos: nat, k: nat)
    requires GoesOn(f, pos) && LengthAt(f, pos) == 0
    ensures Walking(f, pos, k)
    decreases k
  {
    if k > 0 {
      StandsStill(f, pos, k - 1);
    }
  }

  lemma {:induction false} EndlessWalks(f: seq<byte>, pos: nat, k: nat)
    requires WalkFrom(f, pos) == Endless
    ensures Walking(f, pos, k)
    decreases k
  {
    if LengthAt(f, pos) == 0 {
      StandsStill(f, pos, k);
    } else if k > 0 {
      EndlessWalks(f, pos + LengthAt(f, pos), k - 1);
    }
  }

  /** A walk that does not go on for ever ends within as many headers as the file has bytes. */
  lemma {:induction false} WalkStops(f: seq<byte>, pos: nat, n: nat)
    requires pos <= |f| < pos + n && WalkFrom(f, pos) != Endless
    ensures !Walking(f, pos, n)
    decreases n
  {
    if GoesOn(f, pos) {
      WalkStops(f, pos + LengthAt(f, pos), n - 1);
    }
  }

  /** The walk is endless exactly when the loop is still going after any number of headers. */
  lemma EndlessExactly(f: seq<byte>)
    ensures WalkFrom(f, 0) == Endless <==> forall k: nat :: Walking(f, 0, k)
  {
    if WalkFrom(f, 0) == Endless {
      forall k: nat ensures Walking(f, 0, k) {
        EndlessWalks(f, 0, k);
      }
    } else {
      WalkStops(f, 0, |f| + 1);
    }
  }

  /** A header that announces no length is the last one the walk ever sees. */
  lemma ZeroLength(f: seq<byte>)
    requires GoesOn(f, 0) && LengthAt(f, 0) == 0
    ensures WalkFrom(f, 0) == Endless && forall k: nat :: Walking(f, 0, k)
  {
    EndlessExactly(f);
  }

  const ZERO_LENGTH: seq<byte> := [0xFF, 0xF1, 0, 0, 0, 0, 0, 0, 0, 0]

  lemma ZeroHeader(f: seq<byte>)
    requires f == ZERO_LENGTH
    ensures IsSync(f[0], f[1]) && GoesOn(f, 0) && LengthAt(f, 0) == 0
  {
  }

  /** Ten bytes that begin with such a header. */
  lemma EndlessFile(f: seq<byte>)
    requires f == ZERO_LENGTH
    ensures IsSync(f[0], f[1]) && WalkFrom(f, 0) == Endless && forall k: nat :: Walking(f, 0, k)
  {
    ZeroHeader(f);
    ZeroLength(f);
  }

  lemma {:induction false} WalkRate(f: seq<byte>, pos: nat)
    requires WalkFrom(f, pos).Counted?
    ensures WalkFrom(f, pos).frames > 0 && WalkFrom(f, pos).rate in SFTABLE && WalkFrom(f, pos).rate != 0
    decreases |f| - pos
  {
    RateKnown(SamplingIndex(f[pos + 2]));
    if pos + LengthAt(f, pos) < |f| {
      WalkRate(f, pos + LengthAt(f, pos));
    }
  }

  /** The walk and the streamer see the same length, unless it is too short or the frame is cut off. */
  lemma SameLength(f: seq<byte>, pos: nat)
    requires pos + HEADER_SIZE <= |f|
    ensures FrameAt(f, pos) != 0 ==>
              WalkHeader(f, pos) && FrameAt(f, pos) == LengthAt(f, pos)
    ensures WalkHeader(f, pos) && LengthAt(f, pos) > HEADER_SIZE && pos + LengthAt(f, pos) <= |f| ==>
              FrameAt(f, pos) == LengthAt(f, pos)
  {
  }

  /** A file of whole frames is walked to its end, and the walk counts its frames. */
  lemma {:induction false} WalkOfFrames(f: seq<byte>, pos: nat)
    requires AllFrames(f, pos) && pos < |f|
    ensures WalkFrom(f, pos).Counted? && WalkFrom(f, pos).frames == Count(f, pos)
    decreases |f| - pos
  {
    SameLength(f, pos);
    if pos + FrameAt(f, pos) < |f| {
      WalkOfFrames(f, pos + FrameAt(f, pos));
    }
  }

  /**
    Of a file that the walk accepts the streamer finds at most the frames counted, and all of them
    exactly when the file is a run of whole valid frames.
    */
  lemma {:induction false} WalkAgainstStream(f: seq<byte>, pos: nat)
    requires WalkFrom(f, pos).Counted?
    ensures Count(f, pos) <= WalkFrom(f, pos).frames
    ensures Count(f, pos) == WalkFrom(f, pos).frames <==> AllFrames(f, pos)
    decreases |f| - pos
  {
    SameLength(f, pos);
    WalkRate(f, pos);
    if FrameAt(f, pos) != 0 {
      if pos + FrameAt(f, pos) < |f| {
        WalkAgainstStream(f, pos + FrameAt(f, pos));
      }
    }
  }

  // ---------------------------------------------------------------- the player

  /** How many frames make a chunk of about a second: the rate by 1024, rounded. */
  function ChunkFrames(rate: nat): nat {
    (2 * rate + SPF) / (2 * SPF)
  }

  /** For every rate of the table a chunk lasts between 975 and 1100 milliseconds. */
  lemma ChunkDuration(i: nat)
    requires i < |SFTABLE| && SFTABLE[i] != 0
    ensures 975 * SFTABLE[i] < ChunkFrames(SFTABLE[i]) * SPF * 1000 < 1100 * SFTABLE[i]
  {
    var r := SFTABLE[i];
    assert r == 96000 || r == 88200 || r == 64000 || r == 48000 || r == 44100 || r == 32000 || r == 24000
        || r == 22050 || r == 16000 || r == 12000 || r == 11025 || r == 8000 || r == 7350;
  }

  /** A chunk is the rate by 1024, rounded to the nearest number of frames, halves up. */
  lemma ChunkNearest(rate: nat)
    ensures 1024 * ChunkFrames(rate) <= rate + 512 < 1024 * ChunkFrames(rate) + 1024
  {
  }

  lemma ChunkNotEmpty(rate: nat)
    requires rate in SFTABLE && rate != 0
    ensures ChunkFrames(rate) >= 1
  {
    var i :| 0 <= i < |SFTABLE| && SFTABLE[i] == rate;
    ChunkDuration(i);
  }

  /** The average bit rate, in kilobits a second, is between 32 and 320. */
  predicate BitRateOk(size: nat, frames: nat, rate: nat) {
    var playTime := SPF * frames;  // in 1/rate seconds
    0 < playTime && 32 * 1000 * playTime <= size * 8 * rate <= 320 * 1000 * playTime
  }

  /** The bit rate in kilobits a second: eight bits a byte over 1024 samples a frame at `rate` a second. */
  lemma BitRateRange(size: nat, frames: nat, rate: nat)
    ensures BitRateOk(size, frames, rate) <==>
              frames > 0 && 32.0 <= (size * 8 * rate) as real / (1024 * frames) as real / 1000.0 <= 320.0
  {
    if frames > 0 {
      Quotient(size * 8 * rate, 1024 * frames);
    }
  }

  lemma Quotient(bits: nat, time: nat)
    requires time > 0
    ensures 32.0 <= bits as real / time as real / 1000.0 <= 320.0 <==> 32000 * time <= bits <= 320000 * time
  {
    var q := bits as real / time as real;
    assert q * time as real == bits as real;
    Scale(32000.0, q, time as real);
    Scale(q, 320000.0, time as real);
    assert 32000.0 * time as real == (32000 * time) as real && 320000.0 * time as real == (320000 * time) as real;
  }

  lemma Scale(a: real, b: real, w: real)
    requires w > 0.0
    ensures a <= b <==> a * w <= b * w
  {
    if a <= b {
      assert (b - a) * w >= 0.0;
    } else {
      assert (a - b) * w > 0.0;
    }
  }

  /** Ten bytes or more, headers that lead to the end, and a bit rate in range. */
  predicate Playable(f: seq<byte>) {
    && |f| >= 10 && WalkFrom(f, 0).Counted?
    && BitRateOk(|f|, WalkFrom(f, 0).frames, WalkFrom(f, 0).rate)
  }

  class Taac {
    const file: seq<byte>
    var pos: nat
    var sendFrameNumber: nat
    var framesToRead: nat
    var totalFrames: nat

    constructor (file: seq<byte>)
      ensures this.file == file && pos == 0 && sendFrameNumber == 0 && framesToRead == 0 && totalFrames == 0
    {
      this.file := file;
      pos, sendFrameNumber, framesToRead, totalFrames := 0, 0, 0, 0;
    }

    /** `fread`: up to `n` bytes, and the position behind them. */
    method Read(n: nat) returns (bytes: seq<byte>)
      requires pos <= |file|
      modifies this`pos
      ensures pos == old(pos) + Min(n, |file| - old(pos)) && bytes == file[old(pos)..pos]
    {
      var end := pos + Min(n, |file| - pos);
      bytes := file[pos..end];
      pos := end;
    }

    /** The first sync word with ten bytes from it in the first 50000; the position is then the start. */
    method SeekTo1Frame() returns (found: bool, index: nat)
      modifies this`pos
      ensures pos == 0
      ensures found <==> exists i :: 0 <= i && i + 10 <= Min(50000, |file|) && IsSync(file[i], file[i + 1])
      ensures found ==> index + 10 <= |file| && IsSync(file[index], file[index + 1])
      ensures found ==> forall i :: 0 <= i < index ==> !IsSync(file[i], file[i + 1])
      ensures |file| >= 10 && IsSync(file[0], file[1]) ==> found && index == 0
    {
      var size := Min(SEEK_BUFFER, |file|);
      found, index := false, 0;
      pos := 0;
      while index < size
        invariant index <= size && !found
        invariant forall i :: 0 <= i < index && i + 1 < size ==>
                    !IsSync(file[i], file[i + 1]) || size - i < 10
      {
        if index + 1 < size && IsSync(file[index], file[index + 1]) && size - index >= 10 {
          found := true;
          break;
        }
        index := index + 1;
      }
    }

    /** One header of the walk; the position is behind it, or behind what is left of the file. */
    method WalkOne(ghost from: nat) returns (ok: bool, length: nat, rate: nat)
      requires pos == from <= |file|
      modifies this`pos
      ensures pos <= |file| && (ok ==> pos == from + HEADER_SIZE)
      ensures ok <==> from + HEADER_SIZE <= |file| && WalkHeader(file, from)
      ensures ok ==> length == LengthAt(file, from) && rate == RateAt(file, from)
    {
      ok, length, rate := false, 0, 0;
      var h := Read(HEADER_SIZE);
      if |h| == HEADER_SIZE {
        ok := WalkHeader(h, 0);
        length := FrameLength(h[3], h[4], h[5]);
        rate := SFTABLE[SamplingIndex(h[2])];
      }
    }

    /** The loop from header to header, where it ends; `rate` is that of the last frame. */
    method CountFrames() returns (ok: bool, frames: nat, rate: nat)
      requires pos == 0 && WalkFrom(file, 0) != Endless
      modifies this`pos
      ensures WalkFrom(file, 0) == if ok then Counted(frames, rate) else Broken(frames)
    {
      ok, frames, rate := true, 0, 0;
      var nextFilePos := 0;
      while true
        invariant ok && pos == nextFilePos <= |file|
        invariant After(frames, WalkFrom(file, pos)) == WalkFrom(file, 0)
        decreases |file| - pos
      {
        var length: nat;
        ok, length, rate := WalkOne(pos);
        if !ok {
          break;
        }
        frames := frames + 1;
        nextFilePos := nextFilePos + length;
        if nextFilePos < |file| {
          pos := nextFilePos;
        } else {
          break;
        }
      }
    }

    /**
      The walk over any file on which it ends: it accepts exactly the files of ten bytes and more
      whose headers lead to the end and whose average bit rate is in range, counts their frames and
      sets the chunk size from the rate of the last one.
      */
    method WalkFrames() returns (ok: bool, frames: nat, rate: nat)
      requires WalkFrom(file, 0) != Endless
      modifies this`pos, this`totalFrames, this`framesToRead
      ensures ok <==> Playable(file)
      ensures ok ==> WalkFrom(file, 0) == Counted(frames, rate)
      ensures ok ==> totalFrames == frames && framesToRead == ChunkFrames(rate) >= 1
    {
      frames, rate := 0, 0;
      var index: nat;
      ok, index := SeekTo1Frame();
      if !ok {
        if |file| >= 10 {
          StartsWithSync(file);
        }
        return;
      }
      ok, frames, rate := CountFrames();
      if ok {
        WalkRate(file, 0);
        framesToRead := ChunkFrames(rate);
        ChunkNotEmpty(rate);
        ok := BitRateOk(|file|, frames, rate);
      }
      totalFrames := frames;
    }

    static lemma StartsWithSync(f: seq<byte>)
      requires |f| >= 10
      ensures WalkFrom(f, 0).Counted? ==> IsSync(f[0], f[1])
    {
    }

    method StartPlay() returns (ok: bool)
      modifies this`pos, this`sendFrameNumber
      ensures pos == 0 && sendFrameNumber == 0
      ensures |file| >= 10 && IsSync(file[0], file[1]) ==> ok
    {
      sendFrameNumber := 0;
      var index: nat;
      ok, index := SeekTo1Frame();
    }

    /** Copies into the buffer, if there is room. */
    static method PutBytes(sbuf: array<byte>, at: nat, bytes: seq<byte>) returns (fits: bool)
      requires at <= sbuf.Length
      modifies sbuf
      ensures fits <==> at + |bytes| <= sbuf.Length
      ensures fits ==> sbuf[..at + |bytes|] == old(sbuf[..at]) + bytes
      ensures sbuf[..at] == old(sbuf[..at])
    {
      fits := at + |bytes| <= sbuf.Length;
      if fits {
        forall i | 0 <= i < |bytes| {
          sbuf[at + i] := bytes[i];
        }
      }
    }

    /** Reads the next header; `wanted` is the length it announces, 0 without a valid one. */
    method ReadHeader(ghost from: nat) returns (h: seq<byte>, wanted: nat)
      requires pos == from <= |file|
      modifies this`pos
      ensures from <= pos <= |file| && pos == from + |h| && h == file[from..pos]
      ensures wanted == 0 || (|h| == HEADER_SIZE && HEADER_SIZE < wanted <= MAX_FRAME)
      ensures wanted == if from + HEADER_SIZE <= |file| then StreamHeader(file, from) else 0
      ensures wanted == 0 ==> pos == StopAt(file, from)
    {
      h := Read(HEADER_SIZE);
      wanted := 0;
      if |h| == HEADER_SIZE {
        wanted := StreamHeader(h, 0);
      }
    }

    /** The next frame goes to `at` in the buffer; without a whole valid one there nothing is gained. */
    method CopyFrame(sbuf: array<byte>, at: nat, ghost before: seq<byte>, ghost from: nat)
      returns (fits: bool, length: nat)
      requires pos == from <= |file| && at <= sbuf.Length && sbuf[..at] == before
      modifies this`pos, sbuf
      ensures fits <==> at + FrameAt(file, from) + Spill(file, from) <= sbuf.Length
      ensures fits ==> length == FrameAt(file, from) && from + length <= |file| && at + length <= sbuf.Length
      ensures fits ==> sbuf[..at + length] == before + file[from..from + length]
      ensures fits ==> pos == if length != 0 then from + length else StopAt(file, from)
    {
      fits, length := true, 0;
      var h, wanted := ReadHeader(from);
      if wanted != 0 {
        fits := PutBytes(sbuf, at, h);
        if fits {
          fits, length := CopyBody(sbuf, at, wanted, h, before, from);
        }
      }
    }

    /** The rest of a frame whose header is in place. */
    method CopyBody(sbuf: array<byte>, at: nat, wanted: nat, ghost h: seq<byte>, ghost before: seq<byte>,
                    ghost from: nat)
      returns (fits: bool, length: nat)
      requires |h| == HEADER_SIZE < wanted <= MAX_FRAME && at + HEADER_SIZE <= sbuf.Length && |before| == at
      requires pos == from + HEADER_SIZE <= |file| && h == file[from..pos] && sbuf[..at + HEADER_SIZE] == before + h
      modifies this`pos, sbuf
      ensures fits <==> at + Min(wanted, |file| - from) <= sbuf.Length
      ensures fits ==> length == (if from + wanted <= |file| then wanted else 0)
      ensures fits ==> at + length <= sbuf.Length && sbuf[..at + length] == before + file[from..from + length]
      ensures fits ==> pos == from + Min(wanted, |file| - from)
    {
      length := 0;
      var body := Read(wanted - HEADER_SIZE);
      fits := PutBytes(sbuf, at + HEADER_SIZE, body);
      if fits {
        assert sbuf[..at] == sbuf[..at + HEADER_SIZE][..at] == before;
        if |body| == wanted - HEADER_SIZE {
          length := wanted;
          assert before + file[from..from + length] == (before + h) + body;
        }
      }
    }

    /** The frame behind what the buffer holds. */
    method NextFrame(sbuf: array<byte>, size: nat, ghost from: nat, ghost to: nat) returns (fits: bool, length: nat)
      requires to == from + size && pos == to <= |file|
      requires size <= sbuf.Length && sbuf[..size] == file[from..to]
      modifies this`pos, sbuf
      ensures fits <==> size + FrameAt(file, to) + Spill(file, to) <= sbuf.Length
      ensures fits ==> length == FrameAt(file, to) && to + length <= |file| && size + length <= sbuf.Length
      ensures fits ==> pos == if length > 0 then to + length else StopAt(file, to)
      ensures fits ==> sbuf[..size + length] == file[from..to + length]
    {
      ghost var before := sbuf[..size];
      fits, length := CopyFrame(sbuf, size, before, to);
      if fits {
        SliceJoin(file, from, to, to + length);
      }
    }

    /** The frame loop: `k` whole frames, and there are `n` of them, or none follows, or the next does not fit. */
    method CollectFrames(sbuf: array<byte>, n: nat, ghost from: nat) returns (fits: bool, size: nat, k: nat)
      requires pos == from <= |file|
      modifies this`pos, sbuf
      ensures k <= n && WholeFrames(file, from, from + size, k) && from + size <= |file|
      ensures fits ==> size <= sbuf.Length && sbuf[..size] == file[from..from + size]
      ensures fits && k == n ==> pos == from + size
      ensures fits && k < n ==> var to := from + size;
                FrameAt(file, to) == 0 && size + Spill(file, to) <= sbuf.Length && pos == StopAt(file, to)
      ensures !fits ==> k < n && size + FrameAt(file, from + size) + Spill(file, from + size) > sbuf.Length
    {
      fits, size, k := true, 0, 0;
      ghost var to := from;
      while k < n
        invariant fits && k <= n && to == from + size && size <= sbuf.Length
        invariant WholeFrames(file, from, to, k) && pos == to <= |file|
        invariant sbuf[..size] == file[from..to]
      {
        var length: nat;
        fits, length := NextFrame(sbuf, size, from, to);
        if !fits || length == 0 {
          return;
        }
        WholeStep(file, from, to, k);
        size, to, k := size + length, to + length, k + 1;
      }
    }

    /** It stays in the buffer exactly when all it copies fits, and then takes all whole frames there are, up to `n`. */
    method TakeFrames(sbuf: array<byte>, n: nat, ghost from: nat) returns (fits: bool, size: nat, k: nat)
      requires pos == from <= |file|
      modifies this`pos, sbuf
      ensures fits <==> Copied(file, from, n) <= sbuf.Length
      ensures fits ==> from + size == EndOf(file, from, n) && k == Taken(file, from, n)
      ensures fits ==> pos == PosAfter(file, from, n)
      ensures fits ==> size <= sbuf.Length && sbuf[..size] == file[from..from + size]
    {
      fits, size, k := CollectFrames(sbuf, n, from);
      if fits {
        WholeTaken(file, from, from + size, k, n);
      } else {
        NextCopied(file, from, from + size, k, n);
      }
    }

    /**
      Up to a chunk of whole frames into the buffer; 0 when all frames were sent or none follows. The
      buffer's size is not looked at: `fits` tells whether the copying stayed in it.
      */
    method GetFrames(sbuf: array<byte>, ghost from: nat) returns (fits: bool, size: nat)
      requires pos == from <= |file|
      modifies this`pos, this`sendFrameNumber, sbuf
      ensures var q := Quota(old(sendFrameNumber), totalFrames, framesToRead);
              && (fits <==> Copied(file, from, q) <= sbuf.Length)
              && (fits ==> && from + size == EndOf(file, from, q) && pos == PosAfter(file, from, q)
                           && size <= sbuf.Length && sbuf[..size] == file[from..from + size]
                           && sendFrameNumber == old(sendFrameNumber) + Taken(file, from, q))
      ensures fits && old(sendFrameNumber) >= totalFrames ==> size == 0 && pos == from
      ensures fits ==> WholeFrames(file, from, from + size, sendFrameNumber - old(sendFrameNumber))
      ensures fits ==> sendFrameNumber - old(sendFrameNumber) <= framesToRead
    {
      var q := if sendFrameNumber >= totalFrames then 0 else framesToRead;
      var k: nat;
      fits, size, k := TakeFrames(sbuf, q, from);
      sendFrameNumber := sendFrameNumber + k;
      TakenWhole(file, from, q);
    }

    /**
      A whole track of any file, chunk after chunk until none comes. It stays in the buffer exactly when
      every chunk fits.
      */
    method PlayAll(sbuf: array<byte>) returns (fits: bool, chunks: seq<seq<byte>>)
      requires |file| >= 10 && IsSync(file[0], file[1])
      modifies this`pos, this`sendFrameNumber, sbuf
      ensures fits <==> InBounds(file, 0, 0, totalFrames, framesToRead, sbuf.Length)
      ensures fits ==> chunks == Chunks(file, 0, 0, totalFrames, framesToRead)
    {
      var ok := StartPlay();
      fits, chunks := true, [];
      var more := true;
      ghost var rest := Chunks(file, 0, 0, totalFrames, framesToRead);
      ghost var bounded := InBounds(file, 0, 0, totalFrames, framesToRead, sbuf.Length);
      ghost var all, allBounded := rest, bounded;
      while more
        invariant pos <= |file| && fits
        invariant more ==> rest == Chunks(file, pos, sendFrameNumber, totalFrames, framesToRead)
        invariant more ==> bounded == InBounds(file, pos, sendFrameNumber, totalFrames, framesToRead, sbuf.Length)
        invariant chunks + rest == all && bounded == allBounded
        invariant !more ==> rest == [] && bounded
        decreases more, |file| - pos
      {
        ghost var before := rest;
        var chunk;
        fits, more, chunk, rest := NextChunk(sbuf, pos, rest, bounded);
        if !fits {
          return;
        }
        if more {
          Regroup(chunks, [chunk], rest);
          chunks := chunks + [chunk];
        }
      }
    }

    /** One turn of the send loop, of which `rest` and `bounded` say what it leads to. */
    method NextChunk(sbuf: array<byte>, ghost from: nat, ghost rest: seq<seq<byte>>, ghost bounded: bool)
      returns (fits: bool, more: bool, chunk: seq<byte>, ghost after: seq<seq<byte>>)
      requires pos == from <= |file|
      requires rest == Chunks(file, from, sendFrameNumber, totalFrames, framesToRead)
      requires bounded == InBounds(file, from, sendFrameNumber, totalFrames, framesToRead, sbuf.Length)
      modifies this`pos, this`sendFrameNumber, sbuf
      ensures !fits ==> !bounded
      ensures fits ==> rest == (if more then [chunk] + after else after) && pos <= |file|
      ensures fits && !more ==> bounded && after == []
      ensures fits && more ==> from < pos && after == Chunks(file, pos, sendFrameNumber, totalFrames, framesToRead)
      ensures fits && more ==>
                bounded == InBounds(file, pos, sendFrameNumber, totalFrames, framesToRead, sbuf.Length)
    {
      ghost var sent := sendFrameNumber;
      var size: nat;
      fits, size := GetFrames(sbuf, from);
      more, chunk, after := size > 0, [], [];
      if fits {
        chunk := sbuf[..size];
        ChunkLinks(file, from, sent, totalFrames, framesToRead, size, pos, sendFrameNumber);
        BoundsLink(file, from, sent, totalFrames, framesToRead, sbuf.Length, size, pos, sendFrameNumber);
        if more {
          after := Chunks(file, pos, sendFrameNumber, totalFrames, framesToRead);
        }
      } else {
        ChunkLeaves(file, from, sent, totalFrames, framesToRead, sbuf.Length);
      }
    }

    /**
      A file from its walk to its last chunk, through the player's buffer: the walk decides whether it is
      played at all; the copying stays in the buffer exactly when every chunk fits; and then what is
      sent is the file exactly when the file is a run of whole valid frames.
      */
    method PlayFile() returns (ok: bool, fits: bool, chunks: seq<seq<byte>>)
      requires WalkFrom(file, 0) != Endless
      modifies this
      ensures ok <==> Playable(file)
      ensures ok ==> (fits <==> StaysInBuffer(file, 100000))
      ensures ok ==> (fits && Flat(chunks) == file <==> StaysInBuffer(file, 100000) && AllFrames(file, 0))
    {
      fits, chunks := false, [];
      var frames, rate;
      ok, frames, rate := WalkFrames();
      if ok {
        StartsWithSync(file);
        SentWhole(file);
        var sbuf := new byte[BUF_SIZE];
        fits, chunks := PlayAll(sbuf);
      }
    }
  }

  // ---------------------------------------------------------------- what is played

  /** The frame count and chunk size of a file that is played. */
  predicate StaysInBuffer(f: seq<byte>, room: nat)
    requires Playable(f)
  {
    InBounds(f, 0, 0, WalkFrom(f, 0).frames, ChunkFrames(WalkFrom(f, 0).rate), room)
  }

  /** A played file is sent as it is exactly when it is a run of whole valid frames. */
  lemma SentWhole(f: seq<byte>)
    requires Playable(f)
    ensures var walk := WalkFrom(f, 0);
            Flat(Chunks(f, 0, 0, walk.frames, ChunkFrames(walk.rate))) == f <==> AllFrames(f, 0)
  {
    var walk := WalkFrom(f, 0);
    WalkRate(f, 0);
    ChunkNotEmpty(walk.rate);
    ChunksAtMost(f, 0, 0, walk.frames, ChunkFrames(walk.rate));
    if AllFrames(f, 0) {
      WalkOfFrames(f, 0);
      ChunksOfFrames(f, 0, 0, walk.frames, ChunkFrames(walk.rate));
      assert f[0..] == f;
    }
  }

  /** Valid frames one behind the other are walked and counted. */
  lemma FramesWalk(frames: seq<seq<byte>>)
    requires (forall b :: b in frames ==> IsFrame(b)) && frames != []
    ensures AllFrames(Flat(frames), 0) && Count(Flat(frames), 0) == |frames|
    ensures WalkFrom(Flat(frames), 0).Counted? && WalkFrom(Flat(frames), 0).frames == |frames|
  {
    FramesOfFlat([], frames);
    assert [] + Flat(frames) == Flat(frames);
    assert IsFrame(frames[0]);
    WalkOfFrames(Flat(frames), 0);
  }

  /** Whatever valid frames a file is made of: its bit rate decides if it is played, and in bounds it is sent whole. */
  method StreamBack(frames: seq<seq<byte>>) returns (ok: bool, fits: bool, chunks: seq<seq<byte>>)
    requires (forall b :: b in frames ==> IsFrame(b)) && |Flat(frames)| >= 10
    ensures var walk := WalkFrom(Flat(frames), 0);
            walk.Counted? && (ok <==> BitRateOk(|Flat(frames)|, |frames|, walk.rate))
    ensures ok ==> Playable(Flat(frames)) && (fits <==> StaysInBuffer(Flat(frames), 100000))
    ensures ok && fits ==> Flat(chunks) == Flat(frames)
  {
    FramesWalk(frames);
    var player := new Taac(Flat(frames));
    ok, fits, chunks := player.PlayFile();
  }

  // ---------------------------------------------------------------- which rates fit the buffer

  /** A valid frame of `length` bytes at rate number `i`. */
  function Frame(i: nat, length: nat): (b: seq<byte>)
    requires i < RATES && HEADER_SIZE < length <= MAX_FRAME
    ensures |b| == length
  {
    [0xFF, 0xF1, i * 4, length / 2048, length / 8 % 256, length % 8 * 32, 0] + seq(length - HEADER_SIZE, _ => 0)
  }

  predicate IsRated(b: seq<byte>, rate: nat) {
    IsFrame(b) && SFTABLE[SamplingIndex(b[2])] == rate
  }

  lemma FrameRated(i: nat, length: nat)
    requires i < RATES && HEADER_SIZE < length <= MAX_FRAME
    ensures IsRated(Frame(i, length), SFTABLE[i])
  {
    var b := Frame(i, length);
    assert b[3] == length / 2048 && b[4] == length / 8 % 256 && b[5] == length % 8 * 32;
    assert FrameLength(b[3], b[4], b[5]) == length;
    assert SamplingIndex(i * 4) == i;
  }

  function Repeat(b: seq<byte>, n: nat): (bs: seq<seq<byte>>)
    ensures |bs| == n && forall x :: x in bs ==> x == b
  {
    if n == 0 then [] else [b] + Repeat(b, n - 1)
  }

  lemma {:induction false} RepeatSize(b: seq<byte>, n: nat)
    ensures |Flat(Repeat(b, n))| == n * |b|
  {
    if n > 0 {
      RepeatSize(b, n - 1);
      FlatFirst(b, Repeat(b, n - 1));
    }
  }

  /** A frame within a file is found by walk and streamer. */
  lemma FrameWithin(before: seq<byte>, b: seq<byte>, rest: seq<byte>, f: seq<byte>, rate: nat)
    requires IsRated(b, rate) && f == (before + b) + rest
    ensures FrameAt(f, |before|) == |b| && WalkHeader(f, |before|)
    ensures LengthAt(f, |before|) == |b| && RateAt(f, |before|) == rate
  {
    var at := |before|;
    assert forall i :: 0 <= i < |b| ==> f[at + i] == b[i];
    SameLength(f, at);
  }

  lemma FlatSplits(before: seq<byte>, bs: seq<seq<byte>>)
    requires bs != []
    ensures before + Flat(bs) == (before + bs[0]) + Flat(bs[1..])
  {
    Regroup(before, bs[0], Flat(bs[1..]));
  }

  /** One header of the walk. */
  lemma WalkOn(f: seq<byte>, pos: nat, length: nat, rate: nat)
    requires pos + HEADER_SIZE <= |f| && WalkHeader(f, pos)
    requires LengthAt(f, pos) == length > 0 && RateAt(f, pos) == rate
    ensures WalkFrom(f, pos) == if pos + length >= |f| then Counted(1, rate) else After(1, WalkFrom(f, pos + length))
  {
  }

  /** The walk over one frame and those behind it. */
  lemma RatedStep(f: seq<byte>, pos: nat, length: nat, rate: nat, count: nat)
    requires pos + HEADER_SIZE <= |f| && WalkHeader(f, pos) && count > 0
    requires LengthAt(f, pos) == length > 0 && RateAt(f, pos) == rate
    requires if count == 1 then pos + length >= |f|
             else pos + length < |f| && WalkFrom(f, pos + length) == Counted(count - 1, rate)
    ensures WalkFrom(f, pos) == Counted(count, rate)
  {
    WalkOn(f, pos, length, rate);
  }

  lemma FlatSize(bs: seq<seq<byte>>, rate: nat)
    requires forall b :: b in bs ==> IsRated(b, rate)
    ensures bs != [] ==> |Flat(bs)| > 0
  {
    if bs != [] {
      assert IsRated(bs[0], rate);
    }
  }

  /** The walk over frames of one rate. */
  lemma {:induction false} RatedWalk(before: seq<byte>, bs: seq<seq<byte>>, rate: nat)
    requires bs != [] && forall b :: b in bs ==> IsRated(b, rate)
    ensures WalkFrom(before + Flat(bs), |before|) == Counted(|bs|, rate)
    decreases bs
  {
    var f, b := before + Flat(bs), bs[0];
    assert b in bs;
    FlatSplits(before, bs);
    FrameWithin(before, b, Flat(bs[1..]), f, rate);
    FlatSize(bs[1..], rate);
    if |bs| > 1 {
      RatedWalk(before + b, bs[1..], rate);
    }
    RatedStep(f, |before|, |b|, rate, |bs|);
  }

  lemma EndOne(f: seq<byte>, pos: nat, n: nat, length: nat)
    requires n > 0 && FrameAt(f, pos) == length != 0
    ensures EndOf(f, pos, n) == EndOf(f, pos + length, n - 1)
  {
  }

  lemma FlatTake(bs: seq<seq<byte>>, n: nat)
    requires 0 < n <= |bs|
    ensures |Flat(bs[..n])| == |bs[0]| + |Flat(bs[1..][..n - 1])|
  {
    assert bs[..n] == [bs[0]] + bs[1..][..n - 1];
    FlatFirst(bs[0], bs[1..][..n - 1]);
  }

  /** The first `n` frames are what the first `n` take. */
  lemma {:induction false} FlatEnd(before: seq<byte>, bs: seq<seq<byte>>, n: nat, rate: nat)
    requires n <= |bs| && forall b :: b in bs ==> IsRated(b, rate)
    ensures EndOf(before + Flat(bs), |before|, n) == |before| + |Flat(bs[..n])|
    decreases n
  {
    if n > 0 {
      var f, b := before + Flat(bs), bs[0];
      assert b in bs;
      FlatSplits(before, bs);
      FrameWithin(before, b, Flat(bs[1..]), f, rate);
      EndOne(f, |before|, n, |b|);
      FlatEnd(before + b, bs[1..], n - 1, rate);
      FlatTake(bs, n);
    }
  }

  /** A chunk of largest frames, then so many of the smallest that the bit rate is in range. */
  function Uneven(i: nat): seq<seq<byte>>
    requires i < RATES
  {
    var n := ChunkFrames(SFTABLE[i]);
    Repeat(Frame(i, MAX_FRAME), n) + Repeat(Frame(i, HEADER_SIZE + 1), 13 * n)
  }

  lemma UnevenSize(i: nat)
    requires i < RATES
    ensures |Uneven(i)| == 14 * ChunkFrames(SFTABLE[i]) && |Flat(Uneven(i))| == 5104 * ChunkFrames(SFTABLE[i])
    ensures forall b :: b in Uneven(i) ==> IsRated(b, SFTABLE[i])
    ensures |Flat(Uneven(i)[..ChunkFrames(SFTABLE[i])])| == MAX_FRAME * ChunkFrames(SFTABLE[i])
  {
    var n := ChunkFrames(SFTABLE[i]);
    var large, small := Repeat(Frame(i, MAX_FRAME), n), Repeat(Frame(i, HEADER_SIZE + 1), 13 * n);
    FlatConcat(large, small);
    RepeatSize(Frame(i, MAX_FRAME), n);
    RepeatSize(Frame(i, HEADER_SIZE + 1), 13 * n);
    FrameRated(i, MAX_FRAME);
    FrameRated(i, HEADER_SIZE + 1);
    assert (large + small)[..n] == large;
  }

  predicate HighRate(r: nat) {
    r == 96000 || r == 88200 || r == 64000 || r == 48000 || r == 44100 || r == 32000 || r == 24000 || r == 22050
  }

  lemma HighRates(i: nat)
    requires i < RATES && SFTABLE[i] > 16000
    ensures HighRate(SFTABLE[i])
  {
  }

  lemma UnevenBitRate(r: nat)
    requires HighRate(r)
    ensures BitRateOk(5104 * ChunkFrames(r), 14 * ChunkFrames(r), r)
    ensures MAX_FRAME * ChunkFrames(r) > 100000
  {
  }

  /** A file that is played and does not stay in the buffer, for every rate above 16000. */
  lemma UnevenLeaves(i: nat)
    requires i < RATES && SFTABLE[i] > 16000
    ensures var f := Flat(Uneven(i));
            && Playable(f) && WalkFrom(f, 0).rate == SFTABLE[i] && AllFrames(f, 0)
            && !StaysInBuffer(f, 100000)
  {
    var f, n := Flat(Uneven(i)), ChunkFrames(SFTABLE[i]);
    UnevenSize(i);
    HighRates(i);
    UnevenBitRate(SFTABLE[i]);
    assert [] + f == f;
    RatedWalk([], Uneven(i), SFTABLE[i]);
    FramesOfFlat([], Uneven(i));
    FlatEnd([], Uneven(i), n, SFTABLE[i]);
    ChunkLeaves(f, 0, 0, 14 * n, n, BUF_SIZE);
  }

  lemma RateFits(f: seq<byte>)
    requires Playable(f) && WalkFrom(f, 0).rate <= 16000
    ensures StaysInBuffer(f, 100000)
  {
    SmallChunksFit(f, 0, 0, WalkFrom(f, 0).frames, ChunkFrames(WalkFrom(f, 0).rate), BUF_SIZE);
  }

  /** The rates at which no file can leave the buffer are exactly those up to 16000 Hz. */
  lemma SafeRates(i: nat)
    requires i < |SFTABLE| && SFTABLE[i] != 0
    ensures SFTABLE[i] <= 16000
       <==> (forall f :: Playable(f) && WalkFrom(f, 0).rate == SFTABLE[i] ==> StaysInBuffer(f, 100000))
  {
    if SFTABLE[i] <= 16000 {
      forall f | Playable(f) && WalkFrom(f, 0).rate == SFTABLE[i] ensures StaysInBuffer(f, BUF_SIZE) {
        RateFits(f);
      }
    } else {
      UnevenLeaves(i);
    }
  }

  lemma SliceJoin(f: seq<byte>, a: nat, b: nat, c: nat)
    requires a <= b <= c <= |f|
    ensures f[a..b] + f[b..c] == f[a..c]
  {
  }
}
