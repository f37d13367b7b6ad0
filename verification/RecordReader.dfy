/** Reading the local log back: a chunked reader of records with a two-byte length. */
module RecordReader {
  import opened Sequences

  newtype byte = x: int | 0 <= x < 256

  const MSG_SIZE := 2
  const MAX_PAYLOAD := 65535

  /** The length field, low byte first. */
  function Size(b0: byte, b1: byte): (n: nat)
    ensures n <= MAX_PAYLOAD
  {
    b0 as int + 256 * b1 as int
  }

  /** The record at the start of `f`, if it is all there. */
  predicate HasRecord(f: seq<byte>) {
    |f| > MSG_SIZE && |f| >= MSG_SIZE + Size(f[0], f[1])
  }

  function RecordLength(f: seq<byte>): (n: nat)
    requires HasRecord(f)
    ensures MSG_SIZE <= n <= |f| && n <= MSG_SIZE + MAX_PAYLOAD
  {
    MSG_SIZE + Size(f[0], f[1])
  }

  /** Whole-file parse: complete records, length field included, up to the first incomplete one. */
  function Parse(f: seq<byte>): (rs: seq<seq<byte>>)
    decreases |f|
  {
    if HasRecord(f) then [f[..RecordLength(f)]] + Parse(f[RecordLength(f)..]) else []
  }

  /** How much of `f` the whole-file parse covers. */
  function Covered(f: seq<byte>): (n: nat)
    ensures n <= |f|
    decreases |f|
  {
    if HasRecord(f) then RecordLength(f) + Covered(f[RecordLength(f)..]) else 0
  }

  /** No record the parse meets is empty. */
  predicate NoEmpty(f: seq<byte>)
    decreases |f|
  {
    HasRecord(f) ==> RecordLength(f) > MSG_SIZE && NoEmpty(f[RecordLength(f)..])
  }

  // ---------------------------------------------------------------- writing and parsing

  predicate Payload(p: seq<byte>) {
    0 < |p| <= MAX_PAYLOAD
  }

  function Encode(p: seq<byte>): seq<byte>
    requires |p| <= MAX_PAYLOAD
  {
    [(|p| % 256) as byte, (|p| / 256) as byte] + p
  }

  /** A record is its length in two bytes, the low one first, and the payload. */
  lemma EncodeLayout(p: seq<byte>)
    requires |p| <= 65535
    ensures var f := Encode(p);
            && |f| == |p| + 2 && f[2..] == p && f[0] as int + 256 * f[1] as int == |p|
            && Size(f[0], f[1]) == |p|
  {
  }

  function EncodeAll(ps: seq<seq<byte>>): seq<seq<byte>>
    requires forall p :: p in ps ==> Payload(p)
  {
    if ps == [] then [] else assert Payload(ps[0]); [Encode(ps[0])] + EncodeAll(ps[1..])
  }

  /** The file of the written payloads parses into exactly them. */
  lemma {:induction false} ParseEncoded(ps: seq<seq<byte>>)
    requires forall p :: p in ps ==> Payload(p)
    ensures Parse(Flat(EncodeAll(ps))) == EncodeAll(ps)
    ensures NoEmpty(Flat(EncodeAll(ps))) && Covered(Flat(EncodeAll(ps))) == |Flat(EncodeAll(ps))|
  {
    if ps != [] {
      assert Payload(ps[0]);
      var r, rest := Encode(ps[0]), Flat(EncodeAll(ps[1..]));
      assert EncodeAll(ps)[1..] == EncodeAll(ps[1..]);
      var f := Flat(EncodeAll(ps));
      assert f == r + rest && Size(f[0], f[1]) == |ps[0]|;
      assert f[..RecordLength(f)] == r && f[RecordLength(f)..] == rest;
      ParseEncoded(ps[1..]);
    }
  }

  // ---------------------------------------------------------------- parsing in pieces

  /** Position `n` of `f` is the end of some of its leading records. */
  ghost predicate Boundary(f: seq<byte>, n: int)
    decreases |f|
  {
    n == 0 || (HasRecord(f) && RecordLength(f) <= n <= |f| && Boundary(f[RecordLength(f)..], n - RecordLength(f)))
  }

  /** The record that ends at boundary `n`, if there is one, has a payload. */
  ghost predicate EndsFull(f: seq<byte>, n: int)
    requires Boundary(f, n)
    decreases |f|
  {
    n == 0 || (if n == RecordLength(f) then n > MSG_SIZE else EndsFull(f[RecordLength(f)..], n - RecordLength(f)))
  }

  lemma FirstRecord(f: seq<byte>, n: nat)
    requires n <= |f| && Boundary(f, n) && n != 0
    ensures HasRecord(f) && RecordLength(f) <= n
    ensures f[n..] == f[RecordLength(f)..][n - RecordLength(f)..]
    ensures n > MSG_SIZE ==> HasRecord(f[..n]) && RecordLength(f[..n]) == RecordLength(f)
    ensures f[..n][RecordLength(f)..] == f[RecordLength(f)..][..n - RecordLength(f)]
    ensures f[..n][..RecordLength(f)] == f[..RecordLength(f)]
  {
    assert n > MSG_SIZE ==> f[..n][0] == f[0] && f[..n][1] == f[1];
  }

  /** What a cut at boundary `n` does to the parse. */
  ghost predicate LosesRight(f: seq<byte>, n: nat)
    requires n <= |f| && Boundary(f, n)
  {
    && |Parse(f)| == |Parse(f[..n])| + |Parse(f[n..])| + (if EndsFull(f, n) then 0 else 1)
    && (EndsFull(f, n) ==> Parse(f) == Parse(f[..n]) + Parse(f[n..]))
  }

  /** A cut behind more than one record is a cut behind all but the first. */
  lemma CutDeeper(f: seq<byte>, n: nat, k: nat)
    requires n <= |f| && Boundary(f, n) && HasRecord(f) && k == RecordLength(f) < n
    requires Boundary(f[k..], n - k) && LosesRight(f[k..], n - k)
    ensures LosesRight(f, n)
  {
    FirstRecord(f, n);
    ParseFirst(f, n, k);
    Regroup([f[..k]], Parse(f[k..][..n - k]), Parse(f[n..]));
  }

  /** A cut at a boundary loses the record before it exactly when that record is empty. */
  lemma {:induction false} CutLoses(f: seq<byte>, n: nat)
    requires n <= |f| && Boundary(f, n)
    ensures LosesRight(f, n)
    decreases |f|
  {
    if n == 0 {
      assert f[0..] == f && Parse(f[..0]) == [];
    } else {
      var k := RecordLength(f);
      FirstRecord(f, n);
      if n == k {
        OneRecord(f);
      } else {
        CutLoses(f[k..], n - k);
        CutDeeper(f, n, k);
      }
    }
  }

  /** A record by itself: its parse is empty if it is. */
  lemma OneRecord(f: seq<byte>)
    requires HasRecord(f)
    ensures var k := RecordLength(f);
            && Parse(f[..k]) == (if k > MSG_SIZE then [f[..k]] else [])
            && Parse(f) == [f[..k]] + Parse(f[k..])
  {
    var r := f[..RecordLength(f)];
    assert r[0] == f[0] && r[1] == f[1];
    if |r| > MSG_SIZE {
      assert r[|r|..] == [] && r[..|r|] == r;
    }
  }

  lemma ParseFirst(f: seq<byte>, n: nat, k: nat)
    requires n <= |f| && Boundary(f, n) && n != 0 && HasRecord(f) && k == RecordLength(f) < n
    ensures Parse(f[..n]) == [f[..k]] + Parse(f[k..][..n - k])
    ensures Parse(f) == [f[..k]] + Parse(f[k..])
  {
    FirstRecord(f, n);
  }

  /** A parse may be cut at a boundary exactly when no empty record ends there. */
  lemma CutParse(f: seq<byte>, n: nat)
    requires n <= |f| && Boundary(f, n)
    ensures Parse(f) == Parse(f[..n]) + Parse(f[n..]) <==> EndsFull(f, n)
  {
    CutLoses(f, n);
  }

  lemma {:induction false} CutCovered(f: seq<byte>, n: nat)
    requires n <= |f| && Boundary(f, n)
    ensures Covered(f) == n + Covered(f[n..])
    decreases |f|
  {
    if n == 0 {
      assert f[0..] == f;
    } else {
      FirstRecord(f, n);
      CutCovered(f[RecordLength(f)..], n - RecordLength(f));
    }
  }

  /** Without empty records every boundary will do. */
  lemma {:induction false} FullEverywhere(f: seq<byte>, n: nat)
    requires n <= |f| && Boundary(f, n) && NoEmpty(f)
    ensures EndsFull(f, n) && NoEmpty(f[n..])
    decreases |f|
  {
    if n == 0 {
      assert f[0..] == f;
    } else {
      FirstRecord(f, n);
      FullEverywhere(f[RecordLength(f)..], n - RecordLength(f));
    }
  }

  /** The records of a parse, put together again, are the part it covers. */
  lemma {:induction false} FlatParse(f: seq<byte>)
    ensures Flat(Parse(f)) == f[..Covered(f)]
    decreases |f|
  {
    if HasRecord(f) {
      FlatParse(f[RecordLength(f)..]);
      assert Parse(f)[1..] == Parse(f[RecordLength(f)..]);
    }
  }

  lemma {:induction false} BoundaryNext(f: seq<byte>, n: nat)
    requires n <= |f| && Boundary(f, n) && HasRecord(f[n..])
    ensures Boundary(f, n + RecordLength(f[n..]))
    decreases |f|
  {
    if n == 0 {
      assert f[0..] == f;
    } else {
      var k := RecordLength(f);
      assert f[k..][n - k..] == f[n..];
      BoundaryNext(f[k..], n - k);
    }
  }

  lemma {:induction false} BoundaryTrans(f: seq<byte>, n: nat, m: nat)
    requires n <= |f| && Boundary(f, n) && m <= |f| - n && Boundary(f[n..], m)
    ensures Boundary(f, n + m)
    decreases |f|
  {
    if n == 0 {
      assert f[0..] == f;
    } else {
      var k := RecordLength(f);
      assert f[k..][n - k..] == f[n..];
      BoundaryTrans(f[k..], n - k, m);
    }
  }

  /** Boundaries of a prefix are boundaries of the whole. */
  lemma {:induction false} BoundaryOfPrefix(f: seq<byte>, m: nat, n: nat)
    requires n <= m <= |f| && Boundary(f[..m], n)
    ensures Boundary(f, n)
    decreases |f|
  {
    if n != 0 {
      var k := RecordLength(f[..m]);
      assert f[..m][k..] == f[k..][..m - k];
      BoundaryOfPrefix(f[k..], m - k, n - k);
    }
  }

  // ---------------------------------------------------------------- transfers

  /** What one transfer from the start of `rest` reads. */
  function Transfer(rest: seq<byte>, max: nat): seq<byte> {
    if |rest| <= max then rest else rest[..max]
  }

  /** How much of `rest` goes into the buffer: the whole records of one transfer. */
  function Taken(rest: seq<byte>, max: nat): (n: nat)
    ensures n <= |rest|
  {
    Covered(Transfer(rest, max))
  }

  /** What the reader yields of `rest`, transfer by transfer. */
  function ReadFrom(rest: seq<byte>, max: nat): seq<seq<byte>>
    decreases |rest|
  {
    var n := Taken(rest, max);
    if n == 0 then [] else Parse(rest[..n]) + ReadFrom(rest[n..], max)
  }

  /** How many transfers end on an empty record. */
  ghost function Losses(rest: seq<byte>, max: nat): nat
    decreases |rest|
  {
    var n := Taken(rest, max);
    if n == 0 then 0
    else
      TakenBoundary(rest, max);
      (if EndsFull(rest, n) then 0 else 1) + Losses(rest[n..], max)
  }

  lemma {:induction false} CoveredBoundary(f: seq<byte>)
    ensures Boundary(f, Covered(f)) && !HasRecord(f[Covered(f)..])
    decreases |f|
  {
    if HasRecord(f) {
      var k := RecordLength(f);
      CoveredBoundary(f[k..]);
      assert f[k..][Covered(f[k..])..] == f[Covered(f)..];
    } else {
      assert f[0..] == f;
    }
  }

  /** A boundary behind which no record follows is all that is covered. */
  lemma {:induction false} CoveredAt(f: seq<byte>, n: nat)
    requires n <= |f| && Boundary(f, n) && !HasRecord(f[n..])
    ensures Covered(f) == n
  {
    CutCovered(f, n);
  }

  lemma TakenBoundary(rest: seq<byte>, max: nat)
    ensures Boundary(rest, Taken(rest, max))
  {
    var t := Transfer(rest, max);
    CoveredBoundary(t);
    if |rest| > max {
      BoundaryOfPrefix(rest, max, Covered(t));
    }
  }

  /** A transfer that may hold a largest record takes something whenever there is something. */
  lemma TakesSome(rest: seq<byte>, max: nat)
    requires max >= MSG_SIZE + MAX_PAYLOAD
    ensures Taken(rest, max) == 0 <==> !HasRecord(rest)
  {
    var t := Transfer(rest, max);
    assert HasRecord(t) == HasRecord(rest);
  }

  /**
    The reader yields every record but one for each transfer that ends on an empty record, and so
    agrees with the whole-file parse exactly when no transfer does.
    */
  lemma {:induction false} ReadExactly(rest: seq<byte>, max: nat)
    requires max >= MSG_SIZE + MAX_PAYLOAD
    ensures |Parse(rest)| == |ReadFrom(rest, max)| + Losses(rest, max)
    ensures ReadFrom(rest, max) == Parse(rest) <==> Losses(rest, max) == 0
    decreases |rest|
  {
    var n := Taken(rest, max);
    TakesSome(rest, max);
    if n != 0 {
      TakenBoundary(rest, max);
      CutLoses(rest, n);
      ReadExactly(rest[n..], max);
    }
  }

  /** Files without empty records are read as they are parsed. */
  lemma {:induction false} NothingLost(rest: seq<byte>, max: nat)
    requires NoEmpty(rest)
    ensures Losses(rest, max) == 0
    decreases |rest|
  {
    var n := Taken(rest, max);
    if n != 0 {
      TakenBoundary(rest, max);
      FullEverywhere(rest, n);
      NothingLost(rest[n..], max);
    }
  }

  // ---------------------------------------------------------------- the reader

  class LocalFile {
    const file: seq<byte>
    const maxTransferSize: nat
    const plocalfilebuffer: array<byte>
    var lastFilePos: nat
    var bufferSize: nat
    var localFileBufferPos: nat
    var messageSize: nat

    /** What is still to be drained from the buffer. */
    ghost function Pending(): seq<byte>
      requires bufferSize <= plocalfilebuffer.Length
      reads this, plocalfilebuffer
    {
      if localFileBufferPos + messageSize <= bufferSize
      then plocalfilebuffer[localFileBufferPos + messageSize..bufferSize] else []
    }

    ghost predicate Valid()
      reads this, plocalfilebuffer
    {
      && plocalfilebuffer.Length == maxTransferSize >= MSG_SIZE + MAX_PAYLOAD
      && lastFilePos <= |file| && Boundary(file, lastFilePos)
      && bufferSize <= maxTransferSize
    }

    constructor (file: seq<byte>, maxTransferSize: nat)
      requires maxTransferSize >= MSG_SIZE + MAX_PAYLOAD
      ensures Valid() && this.file == file && lastFilePos == 0 && bufferSize == 0
      ensures this.maxTransferSize == maxTransferSize && fresh(plocalfilebuffer)
    {
      this.file, this.maxTransferSize := file, maxTransferSize;
      plocalfilebuffer := new byte[maxTransferSize];
      lastFilePos, bufferSize, localFileBufferPos, messageSize := 0, 0, 0, 0;
    }

    /** How many leading bytes of a transfer are whole records. */
    static method ScanRecords(fbuf: seq<byte>) returns (shift: nat)
      requires |fbuf| > MSG_SIZE
      ensures shift <= |fbuf| && Boundary(fbuf, shift) && !HasRecord(fbuf[shift..])
    {
      shift := 0;
      while |fbuf| - shift > 2
        invariant 0 <= shift <= |fbuf| && Boundary(fbuf, shift)
      {
        var sz := Size(fbuf[shift], fbuf[shift + 1]);
        assert fbuf[shift..][0] == fbuf[shift] && fbuf[shift..][1] == fbuf[shift + 1];
        if |fbuf| - (shift + sz + MSG_SIZE) < 0 {
          break;
        }
        BoundaryNext(fbuf, shift);
        shift := shift + sz + MSG_SIZE;
      }
    }

    /** One transfer from `lastFilePos`: the bytes read, and how many of them are whole records. */
    method ReadTransfer(ghost pos: nat, ghost rest: seq<byte>) returns (fbuf: seq<byte>, shift: nat)
      requires Valid() && pos == lastFilePos && rest == file[pos..]
      ensures fbuf == Transfer(rest, maxTransferSize) && shift == Taken(rest, maxTransferSize) <= |fbuf|
      ensures shift > 0 ==> |fbuf| > MSG_SIZE
    {
      var length := if |file| - lastFilePos < maxTransferSize then |file| - lastFilePos else maxTransferSize;
      fbuf, shift := file[lastFilePos..lastFilePos + length], 0;
      assert fbuf == rest[..length];
      if length > MSG_SIZE {
        shift := ScanRecords(fbuf);
        CoveredAt(fbuf, shift);
      }
    }

    /** The whole records go into the cleared buffer, and the position moves behind them. */
    method TakeIn(fbuf: seq<byte>, shift: nat)
      requires shift <= |fbuf| <= maxTransferSize == plocalfilebuffer.Length
      modifies this`lastFilePos, this`bufferSize, this`localFileBufferPos, this`messageSize, plocalfilebuffer
      ensures bufferSize == shift && lastFilePos == old(lastFilePos) + shift
      ensures Pending() == fbuf[..shift]
    {
      forall i | 0 <= i < maxTransferSize {
        plocalfilebuffer[i] := if i < shift then fbuf[i] else 0;
      }
      bufferSize := shift;
      localFileBufferPos, messageSize := 0, 0;
      lastFilePos := lastFilePos + shift;
      assert plocalfilebuffer[0..shift] == fbuf[..shift];
    }

    /** Behind what a transfer takes the position is again at a boundary of the file. */
    static lemma BoundaryBehind(file: seq<byte>, pos: nat, max: nat)
      requires pos <= |file| && Boundary(file, pos)
      ensures Boundary(file, pos + Taken(file[pos..], max))
    {
      TakenBoundary(file[pos..], max);
      BoundaryTrans(file, pos, Taken(file[pos..], max));
    }

    /**
      Fills the buffer with the whole records that one transfer from `lastFilePos` holds, and moves
      the position behind them; false when there is none.
      */
    method GetNextBuffer(ghost pos: nat, ghost rest: seq<byte>) returns (more: bool)
      requires Valid() && pos == lastFilePos && rest == file[pos..]
      modifies this`lastFilePos, this`bufferSize, this`localFileBufferPos, this`messageSize, plocalfilebuffer
      ensures Valid() && bufferSize == Taken(rest, maxTransferSize) && lastFilePos == pos + bufferSize
      ensures more <==> HasRecord(rest)
      ensures more <==> 0 < bufferSize
      ensures more ==> Pending() == rest[..bufferSize]
    {
      more := false;
      bufferSize := 0;
      var fbuf, shift := ReadTransfer(pos, rest);
      TakesSome(rest, maxTransferSize);
      BoundaryBehind(file, pos, maxTransferSize);
      if |fbuf| > MSG_SIZE {
        TakeIn(fbuf, shift);
        more := bufferSize > 0;
        assert fbuf[..shift] == rest[..shift];
      }
    }

    /** The record at `lo` of the buffer is the first record of what is between `lo` and `hi`. */
    static lemma RecordOfSlice(buf: seq<byte>, lo: nat, hi: nat, pending: seq<byte>)
      requires lo + MSG_SIZE < hi <= |buf| && pending == buf[lo..hi]
      ensures var sz := MSG_SIZE + Size(buf[lo], buf[lo + 1]);
              && (HasRecord(pending) <==> lo + sz <= hi)
              && (HasRecord(pending) ==>
                    && RecordLength(pending) == sz
                    && pending[..sz] == buf[lo..lo + sz] && pending[sz..] == buf[lo + sz..hi])
    {
      assert pending[0] == buf[lo] && pending[1] == buf[lo + 1];
    }

    /** The next record of the buffer, length field included; none when it is drained. */
    method Getlocalfilebuffer(ghost pending: seq<byte>) returns (found: bool, record: seq<byte>)
      requires Valid() && pending == Pending()
      modifies this`localFileBufferPos, this`messageSize
      ensures Valid()
      ensures found <==> HasRecord(pending)
      ensures found ==> record == pending[..RecordLength(pending)] && Pending() == pending[RecordLength(pending)..]
    {
      found, record := false, [];
      localFileBufferPos := localFileBufferPos + messageSize;
      if localFileBufferPos + MSG_SIZE < bufferSize {
        var sz := MSG_SIZE + Size(plocalfilebuffer[localFileBufferPos], plocalfilebuffer[localFileBufferPos + 1]);
        RecordOfSlice(plocalfilebuffer[..], localFileBufferPos, bufferSize, pending);
        if localFileBufferPos + sz <= bufferSize {
          messageSize := sz;
          found := true;
          record := plocalfilebuffer[localFileBufferPos..localFileBufferPos + sz];
        } else {
          messageSize := 0;
        }
      }
    }

    /** Takes every record out of the buffer. */
    method Drain(ghost pending: seq<byte>) returns (records: seq<seq<byte>>)
      requires Valid() && pending == Pending()
      modifies this`localFileBufferPos, this`messageSize
      ensures Valid() && records == Parse(pending)
    {
      records := [];
      ghost var left := pending;
      var found, record := Getlocalfilebuffer(left);
      while found
        invariant Valid()
        invariant found <==> HasRecord(left)
        invariant found ==> record == left[..RecordLength(left)] && Pending() == left[RecordLength(left)..]
        invariant records + Parse(left) == Parse(pending)
        decreases |left|
      {
        ParseStep(records, left);
        records := records + [record];
        left := left[RecordLength(left)..];
        found, record := Getlocalfilebuffer(left);
      }
    }

    /** Drains the buffer and fills it again; `after` is the file behind what the buffer held. */
    method DrainAndFill(ghost rest: seq<byte>, ghost after: seq<byte>) returns (part: seq<seq<byte>>, more: bool)
      requires Valid() && after == file[lastFilePos..]
      requires bufferSize <= |rest| && Pending() == rest[..bufferSize]
      modifies this`lastFilePos, this`bufferSize, this`localFileBufferPos, this`messageSize, plocalfilebuffer
      ensures Valid() && part == Parse(rest[..old(bufferSize)])
      ensures bufferSize == Taken(after, maxTransferSize) && lastFilePos == old(lastFilePos) + bufferSize
      ensures more <==> HasRecord(after)
      ensures more <==> 0 < bufferSize
      ensures more ==> Pending() == after[..bufferSize]
    {
      part := Drain(Pending());
      more := GetNextBuffer(lastFilePos, after);
    }

    method FillAndDrain() returns (records: seq<seq<byte>>)
      requires Valid() && lastFilePos == 0
      modifies this`lastFilePos, this`bufferSize, this`localFileBufferPos, this`messageSize, plocalfilebuffer
      ensures Valid() && records == ReadFrom(file, maxTransferSize) && lastFilePos == Covered(file)
    {
      records := [];
      ghost var pos, rest, max := 0, file, maxTransferSize;
      assert file[0..] == file;
      var more := GetNextBuffer(0, rest);
      while more
        invariant Valid() && Progress(file, max, records, pos) && rest == file[pos..]
        invariant lastFilePos == pos + bufferSize && bufferSize == Taken(rest, max)
        invariant more <==> HasRecord(rest)
        invariant more <==> 0 < bufferSize
        invariant more ==> Pending() == rest[..bufferSize]
        decreases |file| - pos, more
      {
        ghost var next := records + Parse(rest[..bufferSize]);
        ReadOn(file, max, records, pos, next, lastFilePos);
        pos := lastFilePos;
        ghost var after := file[pos..];
        var part;
        part, more := DrainAndFill(rest, after);
        records := records + part;
        rest := after;
      }
      ReadEnds(rest, max);
    }

    /**
      The reading protocol, on any file: fill the buffer and drain it until nothing more comes. It ends
      behind the last whole record, and yields what the whole-file parse does exactly when no transfer
      ends on an empty record.
      */
    method ReadAll() returns (records: seq<seq<byte>>)
      requires Valid() && lastFilePos == 0
      modifies this`lastFilePos, this`bufferSize, this`localFileBufferPos, this`messageSize, plocalfilebuffer
      ensures Valid() && records == ReadFrom(file, maxTransferSize) && lastFilePos == Covered(file)
      ensures records == Parse(file) <==> Losses(file, maxTransferSize) == 0
    {
      records := FillAndDrain();
      ReadExactly(file, maxTransferSize);
    }
  }

  /** `records` were read of the file before `pos`. */
  ghost predicate Progress(file: seq<byte>, max: nat, records: seq<seq<byte>>, pos: nat) {
    && pos <= |file| && pos + Covered(file[pos..]) == Covered(file)
    && records + ReadFrom(file[pos..], max) == ReadFrom(file, max)
  }

  lemma ReadEnds(rest: seq<byte>, max: nat)
    requires !HasRecord(rest) && max >= MSG_SIZE + MAX_PAYLOAD
    ensures ReadFrom(rest, max) == [] && Covered(rest) == 0
  {
    TakesSome(rest, max);
  }

  lemma SliceSlice(f: seq<byte>, pos: nat, n: nat)
    requires pos + n <= |f|
    ensures f[pos..][n..] == f[pos + n..]
  {
  }

  lemma ReadStep(rest: seq<byte>, max: nat, after: seq<byte>)
    requires Taken(rest, max) > 0 && after == rest[Taken(rest, max)..]
    ensures ReadFrom(rest, max) == Parse(rest[..Taken(rest, max)]) + ReadFrom(after, max)
    ensures Covered(rest) == Taken(rest, max) + Covered(after)
  {
    TakenBoundary(rest, max);
    CutCovered(rest, Taken(rest, max));
  }

  /** One buffer's worth read. */
  lemma ReadOn(file: seq<byte>, max: nat, records: seq<seq<byte>>, pos: nat, next: seq<seq<byte>>, end: nat)
    requires Progress(file, max, records, pos) && Taken(file[pos..], max) > 0
    requires end == pos + Taken(file[pos..], max) && next == records + Parse(file[pos..][..end - pos])
    ensures Progress(file, max, next, end)
  {
    SliceSlice(file, pos, end - pos);
    ReadStep(file[pos..], max, file[end..]);
    Regroup(records, Parse(file[pos..][..end - pos]), ReadFrom(file[end..], max));
  }

  lemma ParseStep(before: seq<seq<byte>>, left: seq<byte>)
    requires HasRecord(left)
    ensures (before + [left[..RecordLength(left)]]) + Parse(left[RecordLength(left)..]) == before + Parse(left)
  {
  }

  /** A file of written records is read back record by record, to its end, whatever the transfer size. */
  method ReadBack(payloads: seq<seq<byte>>, maxTransferSize: nat) returns (records: seq<seq<byte>>)
    requires forall p :: p in payloads ==> Payload(p)
    requires maxTransferSize >= 65537
    ensures records == EncodeAll(payloads)
  {
    ParseEncoded(payloads);
    NothingLost(Flat(EncodeAll(payloads)), maxTransferSize);
    var reader := new LocalFile(Flat(EncodeAll(payloads)), maxTransferSize);
    records := reader.ReadAll();
  }

  /** With empty records the reader may lose one: of two of them it yields none, where the parse has the first. */
  method EmptyRecordLost(maxTransferSize: nat) returns (file: seq<byte>, records: seq<seq<byte>>)
    requires maxTransferSize >= MSG_SIZE + MAX_PAYLOAD
    ensures file == [0, 0, 0, 0] && Parse(file) == [[0, 0]] && records == []
  {
    file := [0, 0, 0, 0];
    assert file[2..] == [0, 0] && file[..2] == [0, 0];
    assert Parse(file[2..]) == [] && Covered(file[2..]) == 0;
    assert Parse(file[..2]) == [] && Taken(file, maxTransferSize) == 2 && Taken(file[2..], maxTransferSize) == 0;
    var reader := new LocalFile(file, maxTransferSize);
    records := reader.ReadAll();
  }
}
