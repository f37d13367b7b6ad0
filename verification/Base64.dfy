/** Base64 (section 4 of RFC 4648) as byte loops; texts are sequences of ASCII codes. */
module Base64 {
  import opened Sequences

  type byte = bv8

  const PAD: byte := 61
  const NPOS: byte := 255  // what a failed table search leaves in a byte

  // ---------------------------------------------------------------- the alphabet

  /** The table entry of a six-bit value. */
  function Char(v: byte): byte {
    if v < 26 then v + 65          // A..Z
    else if v < 52 then v + 71     // a..z
    else if v < 62 then v - 4      // 0..9
    else if v == 62 then 43 else 47
  }

  predicate IsBase64(c: byte) {
    65 <= c <= 90 || 97 <= c <= 122 || 48 <= c <= 57 || c == 43 || c == 47
  }

  /** The position of a character in the table. */
  function Find(c: byte): byte {
    if 65 <= c <= 90 then c - 65
    else if 97 <= c <= 122 then c - 71
    else if 48 <= c <= 57 then c + 4
    else if c == 43 then 62
    else if c == 47 then 63
    else NPOS
  }

  lemma FindChar(v: byte)
    requires v < 64
    ensures Decoded(Char(v)) && Find(Char(v)) == v
  {
  }

  // ---------------------------------------------------------------- groups

  function Sextet0(a: byte): byte { (a & 0xfc) >> 2 }
  function Sextet1(a: byte, b: byte): byte { ((a & 0x03) << 4) + ((b & 0xf0) >> 4) }
  function Sextet2(b: byte, c: byte): byte { ((b & 0x0f) << 2) + ((c & 0xc0) >> 6) }
  function Sextet3(c: byte): byte { c & 0x3f }

  function Octet0(p: byte, q: byte): byte { (p << 2) + ((q & 0x30) >> 4) }
  function Octet1(q: byte, r: byte): byte { ((q & 0xf) << 4) + ((r & 0x3c) >> 2) }
  function Octet2(r: byte, s: byte): byte { ((r & 0x3) << 6) + s }

  lemma SextetsSmall(a: byte, b: byte)
    ensures Sextet0(a) < 64 && Sextet1(a, b) < 64 && Sextet2(a, b) < 64 && Sextet3(a) < 64
  {
  }

  lemma OctetsBack(a: byte, b: byte, c: byte)
    ensures Octet0(Sextet0(a), Sextet1(a, b)) == a
    ensures Octet1(Sextet1(a, b), Sextet2(b, c)) == b
    ensures Octet2(Sextet2(b, c), Sextet3(c)) == c
  {
  }

  /** Three bytes become four characters; of a rest of one or two bytes two or three, the others pads. */
  function EncodeGroup(x: seq<byte>): (e: seq<byte>)
    requires 1 <= |x| <= 3
    ensures |e| == 4
  {
    var a, b, c := x[0], if |x| > 1 then x[1] else 0, if |x| > 2 then x[2] else 0;
    [Char(Sextet0(a)), Char(Sextet1(a, b)),
     if |x| > 1 then Char(Sextet2(b, c)) else PAD, if |x| > 2 then Char(Sextet3(c)) else PAD]
  }

  function Encode(x: seq<byte>): (e: seq<byte>)
    ensures |e| == 4 * ((|x| + 2) / 3)
    decreases |x|
  {
    if x == [] then [] else if |x| <= 3 then EncodeGroup(x) else EncodeGroup(x[..3]) + Encode(x[3..])
  }

  predicate Decoded(c: byte) {
    c != PAD && IsBase64(c)
  }

  /** The leading characters of a text that are decoded at all. */
  function Body(t: seq<byte>): seq<byte> {
    if t != [] && Decoded(t[0]) then [t[0]] + Body(t[1..]) else []
  }

  /** Up to four characters become one byte less; a missing one counts as a failed search. */
  function DecodeGroup(t: seq<byte>): (x: seq<byte>)
    requires 1 <= |t| <= 4
    ensures |x| == |t| - 1
  {
    var p, q := Find(t[0]), if |t| > 1 then Find(t[1]) else NPOS;
    var r, s := if |t| > 2 then Find(t[2]) else NPOS, if |t| > 3 then Find(t[3]) else NPOS;
    [Octet0(p, q), Octet1(q, r), Octet2(r, s)][..|t| - 1]
  }

  function DecodeBody(t: seq<byte>): seq<byte>
    decreases |t|
  {
    if t == [] then [] else if |t| <= 4 then DecodeGroup(t) else DecodeGroup(t[..4]) + DecodeBody(t[4..])
  }

  function Decode(t: seq<byte>): seq<byte> {
    DecodeBody(Body(t))
  }

  // ---------------------------------------------------------------- the round trip

  /** The characters of an encoded group before its pads. */
  function Unpadded(x: seq<byte>): (u: seq<byte>)
    requires 1 <= |x| <= 3
    ensures |u| == |x| + 1
  {
    EncodeGroup(x)[..|x| + 1]
  }

  lemma GroupChars(x: seq<byte>, i: nat)
    requires 1 <= |x| <= 3 && i < 4
    ensures if i <= |x| then Decoded(EncodeGroup(x)[i]) else EncodeGroup(x)[i] == PAD
  {
    var a, b, c := x[0], if |x| > 1 then x[1] else 0, if |x| > 2 then x[2] else 0;
    SextetsSmall(a, b);
    SextetsSmall(b, c);
    SextetsSmall(c, c);
    FindChar(Sextet0(a));
    FindChar(Sextet1(a, b));
    FindChar(Sextet2(b, c));
    FindChar(Sextet3(c));
  }

  /** A group comes back, also from behind pads, whose places hold a garbage sextet. */
  lemma GroupBack(x: seq<byte>)
    requires 1 <= |x| <= 3
    ensures DecodeGroup(Unpadded(x)) == x
  {
    var a, b, c := x[0], if |x| > 1 then x[1] else 0, if |x| > 2 then x[2] else 0;
    SextetsSmall(a, b);
    SextetsSmall(b, c);
    SextetsSmall(c, c);
    FindChar(Sextet0(a));
    FindChar(Sextet1(a, b));
    FindChar(Sextet2(b, c));
    FindChar(Sextet3(c));
    OctetsBack(a, b, c);
  }

  lemma {:induction false} BodyAppend(t: seq<byte>, rest: seq<byte>)
    requires forall i :: 0 <= i < |t| ==> Decoded(t[i])
    ensures Body(t + rest) == t + Body(rest)
  {
    if t == [] {
      assert t + rest == rest;
    } else {
      assert (t + rest)[1..] == t[1..] + rest;
      BodyAppend(t[1..], rest);
    }
  }

  lemma GroupBody(x: seq<byte>, rest: seq<byte>)
    requires 1 <= |x| <= 3
    ensures Body(Unpadded(x) + rest) == Unpadded(x) + Body(rest)
  {
    forall i | 0 <= i < |x| + 1 ensures Decoded(Unpadded(x)[i]) {
      GroupChars(x, i);
    }
    BodyAppend(Unpadded(x), rest);
  }

  /** The last group decodes by itself: its pads end the text. */
  lemma TailBack(x: seq<byte>)
    requires 1 <= |x| <= 3
    ensures Body(EncodeGroup(x)) == Unpadded(x)
  {
    var pads := EncodeGroup(x)[|x| + 1..];
    assert EncodeGroup(x) == Unpadded(x) + pads;
    if |x| < 3 { GroupChars(x, |x| + 1); }
    GroupBody(x, pads);
    assert Body(pads) == [] && Unpadded(x) + [] == Unpadded(x);
  }

  /** Decoding an encoding gives the bytes back, for every byte string. */
  lemma {:induction false} RoundTrip(x: seq<byte>)
    ensures Decode(Encode(x)) == x
    decreases |x|
  {
    if x != [] {
      if |x| <= 3 {
        TailBack(x);
        GroupBack(x);
      } else {
        var g, rest := x[..3], Encode(x[3..]);
        assert Unpadded(g) == EncodeGroup(g);
        GroupBody(g, rest);
        DecodeNext(Unpadded(g) + Body(rest), 4);
        assert (Unpadded(g) + Body(rest))[0..] == Unpadded(g) + Body(rest);
        assert (Unpadded(g) + Body(rest))[0..4] == Unpadded(g) && (Unpadded(g) + Body(rest))[4..] == Body(rest);
        GroupBack(g);
        RoundTrip(x[3..]);
      }
    }
  }

  // ---------------------------------------------------------------- the standard's table

  const UPPER: string := "ABCDEFGHIJKLMNOPQRSTUVWXYZ"
  const LOWER: string := "abcdefghijklmnopqrstuvwxyz"
  const DIGITS: string := "0123456789"

  /** The table's 64 characters. */
  function Table(): (t: string)
    ensures |t| == 64
  {
    UPPER + LOWER + DIGITS + "+/"
  }

  lemma UpperAt(k: nat)
    requires k < 26
    ensures UPPER[k] as int == 65 + k
  {
  }

  lemma LowerAt(k: nat)
    requires k < 26
    ensures LOWER[k] as int == 97 + k
  {
  }

  lemma DigitAt(k: nat)
    requires k < 10
    ensures DIGITS[k] as int == 48 + k
  {
  }

  lemma TableAt(k: nat)
    requires k < 64
    ensures Table()[k] as int == if k < 26 then 65 + k else if k < 52 then 71 + k else if k < 62 then k - 4
                                 else if k == 62 then 43 else 47
  {
    if k < 26 {
      UpperAt(k);
    } else if k < 52 {
      LowerAt(k - 26);
    } else if k < 62 {
      DigitAt(k - 52);
    }
  }

  lemma CharValue(v: byte)
    requires v < 64
    ensures Char(v) as int == if v as int < 26 then 65 + v as int else if v as int < 52 then 71 + v as int
                              else if v as int < 62 then v as int - 4 else if v as int == 62 then 43 else 47
  {
  }

  /** A six-bit value stands for the table's character at that place. */
  lemma CharIsTable(v: byte)
    requires v < 64
    ensures Char(v) as int == Table()[v as nat] as int
  {
    TableAt(v as nat);
    CharValue(v);
  }

  /** The search finds the place of every character of the table, and takes no other for one of it. */
  lemma FindIsPlace(c: byte)
    ensures IsBase64(c) <==> exists k :: 0 <= k < 64 && Table()[k] as int == c as int
    ensures IsBase64(c) ==> Find(c) < 64 && Table()[Find(c) as nat] as int == c as int
    ensures !IsBase64(c) ==> Find(c) == NPOS
  {
    if IsBase64(c) {
      assert Find(c) < 64 && Char(Find(c)) == c;
      CharIsTable(Find(c));
    } else {
      forall k | 0 <= k < 64 ensures Table()[k] as int != c as int {
        TableAt(k);
        ForeignCode(c, k);
      }
    }
  }

  lemma ForeignCode(c: byte, k: nat)
    requires k < 64 && !IsBase64(c)
    ensures c as int != if k < 26 then 65 + k else if k < 52 then 71 + k else if k < 62 then k - 4
                        else if k == 62 then 43 else 47
  {
  }

  // ---------------------------------------------------------------- bit by bit

  /** Bit `p` of a byte, the highest first. */
  function BitAt(b: byte, p: nat): byte
    requires p < 8
  {
    if p == 0 then b >> 7 else if p == 1 then (b >> 6) & 1 else if p == 2 then (b >> 5) & 1
    else if p == 3 then (b >> 4) & 1 else if p == 4 then (b >> 3) & 1 else if p == 5 then (b >> 2) & 1
    else if p == 6 then (b >> 1) & 1 else b & 1
  }

  /** Bit `j` of a byte string, zero behind its end. */
  function Bit(x: seq<byte>, j: nat): byte {
    if j / 8 < |x| then BitAt(x[j / 8], j % 8) else 0
  }

  function Six(a: byte, b: byte, c: byte, d: byte, e: byte, f: byte): byte {
    (a << 5) | (b << 4) | (c << 3) | (d << 2) | (e << 1) | f
  }

  /** Bits 6k to 6k + 5. */
  function SixBits(x: seq<byte>, k: nat): byte {
    Six(Bit(x, 6 * k), Bit(x, 6 * k + 1), Bit(x, 6 * k + 2), Bit(x, 6 * k + 3), Bit(x, 6 * k + 4), Bit(x, 6 * k + 5))
  }

  lemma Sextet0Bits(a: byte)
    ensures Sextet0(a) == Six(a >> 7, (a >> 6) & 1, (a >> 5) & 1, (a >> 4) & 1, (a >> 3) & 1, (a >> 2) & 1)
  {
  }

  lemma Sextet1Bits(a: byte, b: byte)
    ensures Sextet1(a, b) == Six((a >> 1) & 1, a & 1, b >> 7, (b >> 6) & 1, (b >> 5) & 1, (b >> 4) & 1)
  {
  }

  lemma Sextet2Bits(a: byte, b: byte)
    ensures Sextet2(a, b) == Six((a >> 3) & 1, (a >> 2) & 1, (a >> 1) & 1, a & 1, b >> 7, (b >> 6) & 1)
  {
  }

  lemma Sextet3Bits(b: byte)
    ensures Sextet3(b) == Six((b >> 5) & 1, (b >> 4) & 1, (b >> 3) & 1, (b >> 2) & 1, (b >> 1) & 1, b & 1)
  {
  }

  lemma ZeroBits(p: nat)
    requires p < 8
    ensures BitAt(0, p) == 0
  {
  }

  /** A byte of a group of up to three, zero when it is missing. */
  function At(x: seq<byte>, i: nat): byte {
    if i < |x| then x[i] else 0
  }

  /** The sextets of a group of up to three bytes. */
  lemma GroupBits(x: seq<byte>, k: nat)
    requires 1 <= |x| <= 3 && k < 4
    ensures SixBits(x, k) == if k == 0 then Sextet0(At(x, 0)) else if k == 1 then Sextet1(At(x, 0), At(x, 1))
                             else if k == 2 then Sextet2(At(x, 1), At(x, 2)) else Sextet3(At(x, 2))
  {
    if k == 0 {
      FirstSix(x);
    } else if k == 1 {
      SecondSix(x);
    } else if k == 2 {
      ThirdSix(x);
    } else {
      FourthSix(x);
    }
  }

  lemma FirstSix(x: seq<byte>)
    ensures SixBits(x, 0) == Sextet0(At(x, 0))
  {
    PlaceOf(x, 0);
    PlaceOf(x, 1);
    PlaceOf(x, 2);
    PlaceOf(x, 3);
    PlaceOf(x, 4);
    PlaceOf(x, 5);
    Sextet0Bits(At(x, 0));
  }

  lemma SecondSix(x: seq<byte>)
    ensures SixBits(x, 1) == Sextet1(At(x, 0), At(x, 1))
  {
    PlaceOf(x, 6);
    PlaceOf(x, 7);
    PlaceOf(x, 8);
    PlaceOf(x, 9);
    PlaceOf(x, 10);
    PlaceOf(x, 11);
    Sextet1Bits(At(x, 0), At(x, 1));
  }

  lemma ThirdSix(x: seq<byte>)
    ensures SixBits(x, 2) == Sextet2(At(x, 1), At(x, 2))
  {
    PlaceOf(x, 12);
    PlaceOf(x, 13);
    PlaceOf(x, 14);
    PlaceOf(x, 15);
    PlaceOf(x, 16);
    PlaceOf(x, 17);
    Sextet2Bits(At(x, 1), At(x, 2));
  }

  lemma FourthSix(x: seq<byte>)
    ensures SixBits(x, 3) == Sextet3(At(x, 2))
  {
    PlaceOf(x, 18);
    PlaceOf(x, 19);
    PlaceOf(x, 20);
    PlaceOf(x, 21);
    PlaceOf(x, 22);
    PlaceOf(x, 23);
    Sextet3Bits(At(x, 2));
  }

  lemma PlaceOf(x: seq<byte>, j: nat)
    ensures Bit(x, j) == BitAt(At(x, j / 8), j % 8)
  {
    ZeroBits(j % 8);
  }

  lemma BitsBehind(x: seq<byte>, j: nat)
    requires |x| >= 3 && j >= 24
    ensures Bit(x, j) == Bit(x[3..], j - 24)
  {
    assert j / 8 == (j - 24) / 8 + 3 && j % 8 == (j - 24) % 8;
  }

  lemma SixBehind(x: seq<byte>, k: nat)
    requires |x| >= 3 && k >= 4
    ensures SixBits(x, k) == SixBits(x[3..], k - 4)
  {
    BitsBehind(x, 6 * k);
    BitsBehind(x, 6 * k + 1);
    BitsBehind(x, 6 * k + 2);
    BitsBehind(x, 6 * k + 3);
    BitsBehind(x, 6 * k + 4);
    BitsBehind(x, 6 * k + 5);
  }

  lemma BitsBefore(x: seq<byte>, j: nat)
    requires |x| >= 3 && j < 24
    ensures Bit(x, j) == Bit(x[..3], j)
  {
  }

  lemma SixBefore(x: seq<byte>, k: nat)
    requires |x| >= 3 && k < 4
    ensures SixBits(x, k) == SixBits(x[..3], k)
  {
    BitsBefore(x, 6 * k);
    BitsBefore(x, 6 * k + 1);
    BitsBefore(x, 6 * k + 2);
    BitsBefore(x, 6 * k + 3);
    BitsBefore(x, 6 * k + 4);
    BitsBefore(x, 6 * k + 5);
  }

  lemma GroupEncodes(x: seq<byte>, k: nat)
    requires 1 <= |x| <= 3 && k < 4
    ensures EncodeGroup(x)[k] == if 6 * k < 8 * |x| then Char(SixBits(x, k)) else PAD
  {
    GroupBits(x, k);
  }

  lemma SixSmall(x: seq<byte>, k: nat)
    ensures SixBits(x, k) < 64
  {
    forall j: nat ensures Bit(x, j) < 2 {
      if j / 8 < |x| {
        BitSmall(x[j / 8], j % 8);
      }
    }
    SixOfBits(Bit(x, 6 * k), Bit(x, 6 * k + 1), Bit(x, 6 * k + 2),
              Bit(x, 6 * k + 3), Bit(x, 6 * k + 4), Bit(x, 6 * k + 5));
  }

  lemma BitSmall(b: byte, p: nat)
    requires p < 8
    ensures BitAt(b, p) < 2
  {
  }

  lemma SixOfBits(a: byte, b: byte, c: byte, d: byte, e: byte, f: byte)
    requires a < 2 && b < 2 && c < 2 && d < 2 && e < 2 && f < 2
    ensures Six(a, b, c, d, e, f) < 64
  {
  }

  lemma {:induction false} EncodeAt(x: seq<byte>, k: nat)
    requires k < |Encode(x)|
    ensures Encode(x)[k] == if 6 * k < 8 * |x| then Char(SixBits(x, k)) else PAD
    decreases |x|
  {
    if |x| <= 3 {
      GroupEncodes(x, k);
    } else if k < 4 {
      GroupEncodes(x[..3], k);
      SixBefore(x, k);
    } else {
      EncodeAt(x[3..], k - 4);
      SixBehind(x, k);
    }
  }

  /**
    Character `k` of an encoding is the table's character for bits 6k to 6k + 5 of the input, padded with
    zero bits; behind them it is the equals sign.
    */
  lemma EncodesBits(x: seq<byte>, k: nat)
    requires k < |Encode(x)|
    ensures SixBits(x, k) < 64
    ensures Encode(x)[k] as int
         == (if 6 * k < 8 * |x| then Table()[SixBits(x, k) as nat] else '=') as int
  {
    EncodeAt(x, k);
    SixSmall(x, k);
    CharIsTable(SixBits(x, k));
  }

  /** Bit `j` of the six-bit values of a text, the highest of each first. */
  function ValueBit(t: seq<byte>, j: nat): byte {
    if j / 6 < |t| then BitAt(Find(t[j / 6]), j % 6 + 2) else 0
  }

  function Eight(a: byte, b: byte, c: byte, d: byte, e: byte, f: byte, g: byte, h: byte): byte {
    (a << 7) | (b << 6) | (c << 5) | (d << 4) | (e << 3) | (f << 2) | (g << 1) | h
  }

  function EightFrom(t: seq<byte>, m: nat): byte {
    Eight(ValueBit(t, m), ValueBit(t, m + 1), ValueBit(t, m + 2), ValueBit(t, m + 3),
          ValueBit(t, m + 4), ValueBit(t, m + 5), ValueBit(t, m + 6), ValueBit(t, m + 7))
  }

  /** Bits 8k to 8k + 7. */
  function EightBits(t: seq<byte>, k: nat): byte {
    EightFrom(t, 8 * k)
  }

  predicate InTable(t: seq<byte>) {
    forall i :: 0 <= i < |t| ==> IsBase64(t[i])
  }

  lemma Octet0Bits(p: byte, q: byte)
    requires p < 64 && q < 64
    ensures Octet0(p, q) == Eight((p >> 5) & 1, (p >> 4) & 1, (p >> 3) & 1, (p >> 2) & 1, (p >> 1) & 1, p & 1,
                                  (q >> 5) & 1, (q >> 4) & 1)
  {
  }

  lemma Octet1Bits(q: byte, r: byte)
    requires q < 64 && r < 64
    ensures Octet1(q, r) == Eight((q >> 3) & 1, (q >> 2) & 1, (q >> 1) & 1, q & 1,
                                  (r >> 5) & 1, (r >> 4) & 1, (r >> 3) & 1, (r >> 2) & 1)
  {
  }

  lemma Octet2Bits(r: byte, s: byte)
    requires r < 64 && s < 64
    ensures Octet2(r, s) == Eight((r >> 1) & 1, r & 1, (s >> 5) & 1, (s >> 4) & 1,
                                  (s >> 3) & 1, (s >> 2) & 1, (s >> 1) & 1, s & 1)
  {
  }

  lemma ValuePlace(t: seq<byte>, j: nat)
    requires j / 6 < |t|
    ensures ValueBit(t, j) == BitAt(Find(t[j / 6]), j % 6 + 2)
  {
  }

  lemma FindSmall(c: byte)
    requires IsBase64(c)
    ensures Find(c) < 64
  {
  }

  lemma FirstEight(t: seq<byte>)
    requires 2 <= |t| && InTable(t)
    ensures EightBits(t, 0) == Octet0(Find(t[0]), Find(t[1]))
  {
    ValuePlace(t, 0);
    ValuePlace(t, 1);
    ValuePlace(t, 2);
    ValuePlace(t, 3);
    ValuePlace(t, 4);
    ValuePlace(t, 5);
    ValuePlace(t, 6);
    ValuePlace(t, 7);
    FindSmall(t[0]);
    FindSmall(t[1]);
    Octet0Bits(Find(t[0]), Find(t[1]));
  }

  lemma SecondEight(t: seq<byte>)
    requires 3 <= |t| && InTable(t)
    ensures EightBits(t, 1) == Octet1(Find(t[1]), Find(t[2]))
  {
    ValuePlace(t, 8);
    ValuePlace(t, 9);
    ValuePlace(t, 10);
    ValuePlace(t, 11);
    ValuePlace(t, 12);
    ValuePlace(t, 13);
    ValuePlace(t, 14);
    ValuePlace(t, 15);
    FindSmall(t[1]);
    FindSmall(t[2]);
    Octet1Bits(Find(t[1]), Find(t[2]));
  }

  lemma ThirdEight(t: seq<byte>)
    requires 4 <= |t| && InTable(t)
    ensures EightBits(t, 2) == Octet2(Find(t[2]), Find(t[3]))
  {
    ValuePlace(t, 16);
    ValuePlace(t, 17);
    ValuePlace(t, 18);
    ValuePlace(t, 19);
    ValuePlace(t, 20);
    ValuePlace(t, 21);
    ValuePlace(t, 22);
    ValuePlace(t, 23);
    FindSmall(t[2]);
    FindSmall(t[3]);
    Octet2Bits(Find(t[2]), Find(t[3]));
  }

  lemma ValuesBehind(t: seq<byte>, j: nat)
    requires |t| >= 4 && j >= 24
    ensures ValueBit(t, j) == ValueBit(t[4..], j - 24)
  {
    assert j / 6 == (j - 24) / 6 + 4 && j % 6 == (j - 24) % 6;
  }

  lemma FromBehind(t: seq<byte>, m: nat)
    requires |t| >= 4 && m >= 24
    ensures EightFrom(t, m) == EightFrom(t[4..], m - 24)
  {
    var u := t[4..];
    forall j | m <= j < m + 8 ensures ValueBit(t, j) == ValueBit(u, j - 24) {
      ValuesBehind(t, j);
    }
  }

  lemma EightBehind(t: seq<byte>, k: nat)
    requires |t| >= 4 && k >= 3
    ensures EightBits(t, k) == EightBits(t[4..], k - 3)
  {
    FromBehind(t, 8 * k);
    assert 8 * (k - 3) == 8 * k - 24;
  }

  /** A group of up to four characters becomes the bytes that its values fill. */
  lemma GroupDecodes(t: seq<byte>, k: nat)
    requires 1 <= |t| && InTable(t) && k < 3 && k + 1 < |t|
    ensures DecodeGroup(if |t| > 4 then t[..4] else t)[k] == EightBits(t, k)
  {
    if k == 0 {
      FirstEight(t);
    } else if k == 1 {
      SecondEight(t);
    } else {
      ThirdEight(t);
    }
  }

  lemma {:induction false} DecodeBodyAt(t: seq<byte>, k: nat)
    requires InTable(t)
    ensures |DecodeBody(t)| == 3 * |t| / 4
    ensures k < |DecodeBody(t)| ==> DecodeBody(t)[k] == EightBits(t, k)
    decreases |t|
  {
    if 1 <= |t| <= 4 {
      if k + 1 < |t| {
        GroupDecodes(t, k);
      }
    } else if |t| > 4 {
      DecodeBodyAt(t[4..], if k >= 3 then k - 3 else 0);
      if k < 3 {
        GroupDecodes(t, k);
      } else {
        EightBehind(t, k);
      }
    }
  }

  /**
    Of any text the leading characters of the table are decoded, up to the first other one: byte `k` is
    bits 8k to 8k + 7 of their places in it, and bits that fill no byte are dropped.
    */
  lemma DecodesBits(t: seq<byte>, k: nat)
    ensures Body(t) <= t && InTable(Body(t)) && (|Body(t)| < |t| ==> !IsBase64(t[|Body(t)|]))
    ensures |Decode(t)| == 3 * |Body(t)| / 4
    ensures k < |Decode(t)| ==> Decode(t)[k] == EightBits(Body(t), k)
  {
    BodyIsPrefix(t);
    DecodeBodyAt(Body(t), k);
  }

  // ---------------------------------------------------------------- the loops

  lemma EncodeNext(x: seq<byte>)
    requires |x| >= 3
    ensures Encode(x) == EncodeGroup(x[..3]) + Encode(x[3..])
  {
    if |x| == 3 {
      assert x[..3] == x && x[3..] == [];
    }
  }

  /** The four sextets of the three bytes in `three`. */
  method Sextets(three: array<byte>, four: array<byte>)
    requires three.Length == 3 && four.Length == 4 && three != four
    modifies four
    ensures four[0] == Sextet0(three[0]) && four[1] == Sextet1(three[0], three[1])
    ensures four[2] == Sextet2(three[1], three[2]) && four[3] == Sextet3(three[2])
  {
    four[0] := (three[0] & 0xfc) >> 2;
    four[1] := ((three[0] & 0x03) << 4) + ((three[1] & 0xf0) >> 4);
    four[2] := ((three[1] & 0x0f) << 2) + ((three[2] & 0xc0) >> 6);
    four[3] := three[2] & 0x3f;
  }

  /** What is left over at the end of the input: `i` bytes in `three`. */
  method EncodeTail(three: array<byte>, four: array<byte>, i: nat) returns (tail: seq<byte>)
    requires three.Length == 3 && four.Length == 4 && three != four && 1 <= i < 3
    modifies three, four
    ensures tail == EncodeGroup(old(three[..i]))
  {
    ghost var x := three[..i];
    for j := i to 3
      invariant three[..i] == x && forall k :: i <= k < j ==> three[k] == 0
    {
      three[j] := 0;
    }
    assert three[0] == x[0] && (i == 2 ==> three[1] == x[1]);
    Sextets(three, four);
    tail := [];
    for j := 0 to i + 1
      invariant |tail| == j && forall k :: 0 <= k < j ==> tail[k] == Char(four[k])
    {
      tail := tail + [Char(four[j])];
    }
    for j := i to 3
      invariant |tail| == j + 1 && forall k :: 0 <= k < |tail| ==> tail[k] == if k <= i then Char(four[k]) else PAD
    {
      tail := tail + [PAD];
    }
    assert tail == EncodeGroup(x);
  }

  /** One more byte of a group. */
  method Put(a: array<byte>, i: nat, c: byte)
    requires i < a.Length
    modifies a
    ensures a[..i + 1] == old(a[..i]) + [c]
  {
    a[i] := c;
  }

  lemma SliceSnoc(s: seq<byte>, from: nat, k: nat)
    requires from <= k < |s|
    ensures s[from..k + 1] == s[from..k] + [s[k]]
  {
  }

  /** A full group of three is encoded and appended. */
  method AddQuartet(three: array<byte>, four: array<byte>, before: seq<byte>, ghost bytes: seq<byte>, ghost k: nat)
    returns (ret: seq<byte>)
    requires three.Length == 3 && four.Length == 4 && three != four
    requires 3 <= k <= |bytes| && three[..3] == bytes[k - 3..k]
    modifies four
    ensures ret + Encode(bytes[k..]) == before + Encode(bytes[k - 3..])
  {
    ghost var rest := bytes[k - 3..];
    EncodeNext(rest);
    assert three[..3] == rest[..3] && rest[3..] == bytes[k..];
    assert three[0] == rest[0] && three[1] == rest[1] && three[2] == rest[2];
    Sextets(three, four);
    var group := [Char(four[0]), Char(four[1]), Char(four[2]), Char(four[3])];
    assert group == EncodeGroup(rest[..3]);
    Regroup(before, group, Encode(bytes[k..]));
    ret := before + group;
  }

  /** The encoding loop, a byte at a time. */
  method Base64Encode(bytes: seq<byte>) returns (ret: seq<byte>)
    ensures ret == Encode(bytes)
  {
    ret := [];
    var three, four := new byte[3], new byte[4];
    var i := 0;
    ghost var start := 0;  // where the group in `three` begins
    assert bytes[0..] == bytes;
    for k := 0 to |bytes|
      invariant 0 <= i < 3 && 0 <= start == k - i
      invariant three[..i] == bytes[start..k]
      invariant ret + Encode(bytes[start..]) == Encode(bytes)
    {
      Put(three, i, bytes[k]);
      SliceSnoc(bytes, start, k);
      i := i + 1;
      if i == 3 {
        ret := AddQuartet(three, four, ret, bytes, k + 1);
        i, start := 0, k + 1;
      }
    }
    if i != 0 {
      assert bytes[start..|bytes|] == bytes[start..];
      var tail := EncodeTail(three, four, i);
      ret := ret + tail;
    }
  }

  lemma {:induction false} BodyIsPrefix(t: seq<byte>)
    ensures Body(t) <= t && (|Body(t)| < |t| ==> !Decoded(t[|Body(t)|]))
    ensures forall i :: 0 <= i < |Body(t)| ==> Decoded(t[i])
  {
    if t != [] && Decoded(t[0]) {
      BodyIsPrefix(t[1..]);
    }
  }

  lemma BodyGoesOn(t: seq<byte>, k: nat)
    requires k <= |Body(t)|
    ensures k < |t| && Decoded(t[k]) <==> k < |Body(t)|
    ensures k < |Body(t)| ==> t[k] == Body(t)[k]
  {
    BodyIsPrefix(t);
  }

  lemma DecodeNext(t: seq<byte>, k: nat)
    requires 4 <= k <= |t|
    ensures DecodeBody(t[k - 4..]) == DecodeGroup(t[k - 4..k]) + DecodeBody(t[k..])
  {
    var rest := t[k - 4..];
    assert rest[..4] == t[k - 4..k] && rest[4..] == t[k..];
    if |rest| == 4 {
      assert rest[..4] == rest && rest[4..] == [];
    }
  }

  /** The three octets of the four characters in `four`. */
  method Octets(four: array<byte>) returns (three: seq<byte>)
    requires four.Length == 4
    modifies four
    ensures three == DecodeGroup(old(four[..]))
  {
    for i := 0 to 4
      invariant forall k :: 0 <= k < i ==> four[k] == Find(old(four[k]))
      invariant forall k :: i <= k < 4 ==> four[k] == old(four[k])
    {
      four[i] := Find(four[i]);
    }
    three := [(four[0] << 2) + ((four[1] & 0x30) >> 4),
              ((four[1] & 0xf) << 4) + ((four[2] & 0x3c) >> 2),
              ((four[2] & 0x3) << 6) + four[3]];
  }

  /** Characters past the end of the text act as zeros, which no search finds. */
  lemma ZerosUnfound(t: seq<byte>, padded: seq<byte>)
    requires 1 <= |t| < 4 == |padded| && t == padded[..|t|]
    requires forall m :: |t| <= m < 4 ==> padded[m] == 0
    ensures DecodeGroup(padded)[..|t| - 1] == DecodeGroup(t)
  {
    assert Find(0) == NPOS;
    assert forall m :: 0 <= m < |t| ==> padded[m] == t[m];
  }

  /** What is left over at the end of the text: `i` characters in `four`. */
  method DecodeTail(four: array<byte>, i: nat) returns (tail: seq<byte>)
    requires four.Length == 4 && 1 <= i < 4
    modifies four
    ensures tail == DecodeGroup(old(four[..i]))
  {
    ghost var t := four[..i];
    for j := i to 4
      invariant four[..i] == t && forall m :: i <= m < j ==> four[m] == 0
    {
      four[j] := 0;
    }
    ZerosUnfound(t, four[..]);
    var three := Octets(four);
    tail := three[..i - 1];
  }

  /** A full group of four is decoded and appended. */
  method AddGroup(four: array<byte>, before: seq<byte>, ghost body: seq<byte>, ghost k: nat) returns (ret: seq<byte>)
    requires four.Length == 4 && 4 <= k <= |body| && four[..4] == body[k - 4..k]
    modifies four
    ensures ret + DecodeBody(body[k..]) == before + DecodeBody(body[k - 4..])
  {
    DecodeNext(body, k);
    assert four[..] == four[..4];
    var three := Octets(four);
    Regroup(before, three, DecodeBody(body[k..]));
    ret := before + three;
  }

  /** One more character; the fourth completes a group. */
  method TakeChar(four: array<byte>, i: nat, c: byte, before: seq<byte>,
                  ghost body: seq<byte>, ghost k: nat, ghost start: nat)
    returns (j: nat, ret: seq<byte>, ghost begin: nat)
    requires four.Length == 4 && i < 4 && start + i == k < |body| && c == body[k] && four[..i] == body[start..k]
    modifies four
    ensures j < 4 && begin + j == k + 1 && four[..j] == body[begin..k + 1]
    ensures ret + DecodeBody(body[begin..]) == before + DecodeBody(body[start..])
  {
    Put(four, i, c);
    SliceSnoc(body, start, k);
    j, ret, begin := i + 1, before, start;
    if j == 4 {
      ret := AddGroup(four, before, body, k + 1);
      j, begin := 0, k + 1;
    }
  }

  /** The loop guard: there is a next character, and it is in the alphabet. */
  method GoesOn(text: seq<byte>, k: nat, ghost body: seq<byte>) returns (more: bool)
    requires body == Body(text) && k <= |body|
    ensures more <==> k < |body|
    ensures more ==> k < |text| && text[k] == body[k]
  {
    BodyGoesOn(text, k);
    more := k < |text| && text[k] != PAD && IsBase64(text[k]);
  }

  /** The decoding loop, a character at a time, up to the first pad or foreign character. */
  method Base64Decode(text: seq<byte>) returns (ret: seq<byte>)
    ensures ret == Decode(text)
  {
    ghost var body := Body(text);
    ret := [];
    var four := new byte[4];
    var i, k := 0, 0;
    ghost var start := 0;  // where the group in `four` begins
    assert body[0..] == body;
    var more := GoesOn(text, 0, body);
    while more
      invariant 0 <= i < 4 && 0 <= start == k - i && k <= |body|
      invariant more <==> k < |body|
      invariant more ==> k < |text| && text[k] == body[k]
      invariant four[..i] == body[start..k]
      invariant ret + DecodeBody(body[start..]) == DecodeBody(body)
      decreases |body| - k
    {
      i, ret, start := TakeChar(four, i, text[k], ret, body, k, start);
      k := k + 1;
      more := GoesOn(text, k, body);
    }
    if i != 0 {
      assert body[start..k] == body[start..];
      var tail := DecodeTail(four, i);
      ret := ret + tail;
    }
  }
}
