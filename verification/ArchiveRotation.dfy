/** Log rotation: a delete-and-rename loop over the directory that acts as a bounded queue. */
module ArchiveRotation {
  import opened CText
  import opened Sequences

  /** A file of one log: a numbered archive, or the live file. */
  datatype FileId = Archive(n: nat) | Live

  // ---------------------------------------------------------------- names and their order

  /** A number as `%05lu` prints it. */
  function Format05(n: nat): string {
    var s := Decimal(n);
    if |s| < 5 then Zeros(5 - |s|) + s else s
  }

  function FileName(base: string, ext: string, id: FileId): string {
    match id
    case Archive(n) => base + "." + Format05(n) + "." + ext
    case Live => base + "." + ext
  }

  /** Exactly `k` digits, leading zeros included. */
  function Pad(n: nat, k: nat): string {
    if k == 0 then "" else Pad(n / 10, k - 1) + [Digit(n % 10)]
  }

  function Pow10(k: nat): nat {
    if k == 0 then 1 else 10 * Pow10(k - 1)
  }

  lemma {:induction false} PadZero(k: nat)
    ensures Pad(0, k) == Zeros(k)
  {
    if k > 0 {
      PadZero(k - 1);
      ZerosEnd(k - 1);
    }
  }

  lemma {:induction false} ZerosEnd(k: nat)
    ensures Zeros(k) + "0" == "0" + Zeros(k) && |Zeros(k)| == k
  {
    if k > 0 {
      ZerosEnd(k - 1);
      assert ("0" + Zeros(k - 1)) + "0" == "0" + (Zeros(k - 1) + "0");
    }
  }

  lemma {:induction false} PadDecimal(n: nat, k: nat)
    requires 0 < k && n < Pow10(k)
    ensures |Decimal(n)| <= k && Pad(n, k) == Zeros(k - |Decimal(n)|) + Decimal(n)
  {
    if n < 10 {
      PadZero(k - 1);
    } else {
      PadDecimal(n / 10, k - 1);
    }
  }

  lemma {:induction false} BeforeTails(a: string, b: string, u: string, v: string)
    requires |a| == |b| && Before(a, b)
    ensures Before(a + u, b + v)
  {
    if a != "" {
      assert (a + u)[1..] == a[1..] + u && (b + v)[1..] == b[1..] + v;
      if a[0] == b[0] {
        BeforeTails(a[1..], b[1..], u, v);
      }
    }
  }

  lemma {:induction false} BeforeHeads(p: string, a: string, b: string)
    ensures Before(p + a, p + b) <==> Before(a, b)
  {
    if p == "" {
      assert p + a == a && p + b == b;
    } else {
      assert (p + a)[1..] == p[1..] + a && (p + b)[1..] == p[1..] + b;
      BeforeHeads(p[1..], a, b);
    }
  }

  lemma {:induction false} PadLength(n: nat, k: nat)
    ensures |Pad(n, k)| == k
  {
    if k > 0 {
      PadLength(n / 10, k - 1);
    }
  }

  lemma {:induction false} PadBefore(a: nat, b: nat, k: nat)
    requires a < b < Pow10(k)
    ensures Before(Pad(a, k), Pad(b, k))
  {
    if k > 0 {
      PadLength(a / 10, k - 1);
      PadLength(b / 10, k - 1);
      if a / 10 < b / 10 {
        PadBefore(a / 10, b / 10, k - 1);
        BeforeTails(Pad(a / 10, k - 1), Pad(b / 10, k - 1), [Digit(a % 10)], [Digit(b % 10)]);
      } else {
        BeforeHeads(Pad(a / 10, k - 1), [Digit(a % 10)], [Digit(b % 10)]);
      }
    }
  }

  lemma FormatIsPad(n: nat)
    requires n < 100000
    ensures Format05(n) == Pad(n, 5) && |Format05(n)| == 5
  {
    assert Pow10(5) == 100000 by { assert Pow10(2) == 100; }
    PadDecimal(n, 5);
    PadLength(n, 5);
    ZerosEnd(0);
  }

  /** Archives numbered below 100000 sort by number. */
  lemma ArchivesSort(base: string, ext: string, a: nat, b: nat)
    requires a < b < 100000
    ensures Before(FileName(base, ext, Archive(a)), FileName(base, ext, Archive(b)))
  {
    FormatIsPad(a);
    FormatIsPad(b);
    assert Pow10(5) == 100000 by { assert Pow10(2) == 100; }
    PadBefore(a, b, 5);
    TailsAndHeads(base + ".", Format05(a), Format05(b), "." + ext);
    NameParts(base, ext, a);
    NameParts(base, ext, b);
  }

  lemma NameParts(base: string, ext: string, n: nat)
    ensures FileName(base, ext, Archive(n)) == (base + ".") + (Format05(n) + ("." + ext))
  {
  }

  lemma TailsAndHeads(p: string, a: string, b: string, t: string)
    requires |a| == |b| && Before(a, b)
    ensures Before(p + (a + t), p + (b + t))
  {
    BeforeTails(a, b, t, t);
    BeforeHeads(p, a + t, b + t);
  }

  lemma DigitFirst(p: string, s: string, ext: string)
    requires s != "" && ext != "" && s[0] < ext[0]
    ensures Before(p + s, p + ext)
  {
    BeforeHeads(p, s, ext);
  }

  /** The live file sorts behind them when its extension begins after the digits. */
  lemma LiveSortsLast(base: string, ext: string, a: nat)
    requires a < 100000 && ext != "" && ext[0] > '9'
    ensures Before(FileName(base, ext, Archive(a)), FileName(base, ext, Live))
  {
    FormatIsPad(a);
    PadDigits(a, 5);
    var digits := Format05(a);
    assert IsDigit(digits[0]);
    DigitFirst(base + ".", digits + ("." + ext), ext);
    NameParts(base, ext, a);
    assert FileName(base, ext, Live) == (base + ".") + ext;
  }

  lemma {:induction false} PadDigits(n: nat, k: nat)
    ensures forall i :: 0 <= i < |Pad(n, k)| ==> IsDigit(Pad(n, k)[i])
  {
    if k > 0 {
      PadDigits(n / 10, k - 1);
    }
  }

  // ---------------------------------------------------------------- the directory

  /** What `scandir` with `alphasort` returns: every file of the log once, sorted by name. */
  ghost predicate Listing<C>(base: string, ext: string, entry: seq<FileId>, files: map<FileId, C>) {
    && Covers(entry, files)
    && (forall i, j :: 0 <= i < j < |entry| ==> Before(FileName(base, ext, entry[i]), FileName(base, ext, entry[j])))
  }

  ghost predicate NamesOk<C>(ext: string, files: map<FileId, C>) {
    && ext != "" && ext[0] > '9'
    && forall id: FileId :: id in files && id.Archive? ==> id.n < 100000
  }

  /** By number, the live file last. */
  ghost predicate Lower(a: FileId, b: FileId) {
    a.Archive? && (b.Archive? ==> a.n < b.n)
  }

  /** Sorted by name is sorted by number, the live file last. */
  lemma NamesDecide(base: string, ext: string, a: FileId, b: FileId)
    requires ext != "" && ext[0] > '9'
    requires (a.Archive? ==> a.n < 100000) && (b.Archive? ==> b.n < 100000)
    requires Before(FileName(base, ext, a), FileName(base, ext, b))
    ensures Lower(a, b)
  {
    BeforeIrreflexive(FileName(base, ext, a), FileName(base, ext, b));
    if b.Archive? {
      if a.Live? {
        LiveSortsLast(base, ext, b.n);
      } else if b.n < a.n {
        ArchivesSort(base, ext, b.n, a.n);
      }
    }
  }

  /** Archives by increasing number, then the live file if there is one. */
  ghost predicate Numbered(entry: seq<FileId>) {
    forall i, j :: 0 <= i < j < |entry| ==> Lower(entry[i], entry[j])
  }

  lemma ListingNumbered<C>(base: string, ext: string, entry: seq<FileId>, files: map<FileId, C>)
    requires Listing(base, ext, entry, files) && NamesOk(ext, files)
    ensures Numbered(entry)
  {
    forall i, j | 0 <= i < j < |entry|
      ensures Lower(entry[i], entry[j])
    {
      assert entry[i] in files && entry[j] in files;
      NamesDecide(base, ext, entry[i], entry[j]);
    }
  }

  /** So the archive at position `j` has a number of at least `j`. */
  lemma {:induction false} NumberAtLeast(entry: seq<FileId>, j: nat)
    requires Numbered(entry) && j < |entry|
    ensures entry[j].Archive? ==> entry[j].n >= j
  {
    if j > 0 {
      NumberAtLeast(entry, j - 1);
      assert Lower(entry[j - 1], entry[j]);
    }
  }

  ghost predicate Distinct(entry: seq<FileId>) {
    forall i, j :: 0 <= i < j < |entry| ==> entry[i] != entry[j]
  }

  /** How many of `n` files go before the renaming begins. */
  function Surplus(n: nat, maxArchiveCount: nat): nat {
    if n < maxArchiveCount then 0 else n - maxArchiveCount
  }

  /**
    No archive is to get a greater number than it has: a smaller one that it had would have been given
    away before its turn.
    */
  ghost predicate Clear(entry: seq<FileId>, index: nat) {
    forall j :: 0 <= j < |entry| && entry[j].Archive? ==> index + entry[j].n >= j
  }

  lemma ListingDistinct<C>(base: string, ext: string, entry: seq<FileId>, files: map<FileId, C>)
    requires Listing(base, ext, entry, files)
    ensures Distinct(entry)
  {
    forall i, j | 0 <= i < j < |entry| ensures entry[i] != entry[j] {
      BeforeIrreflexive(FileName(base, ext, entry[i]), FileName(base, ext, entry[j]));
    }
  }

  /** By number there is never such a file. */
  lemma NumberedClear(entry: seq<FileId>, index: nat)
    requires Numbered(entry)
    ensures Clear(entry, index)
  {
    forall j | 0 <= j < |entry| && entry[j].Archive? ensures index + entry[j].n >= j {
      NumberAtLeast(entry, j);
    }
  }

  ghost predicate Covers<C>(entry: seq<FileId>, files: map<FileId, C>) {
    && (forall i :: 0 <= i < |entry| ==> entry[i] in files)
    && (forall id :: id in files ==> id in entry)
  }

  function Contents<C>(entry: seq<FileId>, files: map<FileId, C>): (q: seq<C>)
    requires forall i :: 0 <= i < |entry| ==> entry[i] in files
    ensures |q| == |entry|
  {
    seq(|entry|, i requires 0 <= i < |entry| => files[entry[i]])
  }

  /** The last `n` elements. */
  function Last<C>(q: seq<C>, n: nat): seq<C> {
    if |q| <= n then q else q[|q| - n..]
  }

  /** Exactly the archives 0, 1, .., with the contents of `q` in order. */
  ghost predicate Holds<C>(files: map<FileId, C>, q: seq<C>) {
    && (forall k :: 0 <= k < |q| ==> Archive(k) in files && files[Archive(k)] == q[k])
    && (forall id: FileId :: id in files ==> id.Archive? && id.n < |q|)
  }

  /** The entries from `i` on are still as they were. */
  ghost predicate Untouched<C>(was: map<FileId, C>, entry: seq<FileId>, i: int, files: map<FileId, C>)
    requires forall j :: 0 <= j < |entry| ==> entry[j] in was
  {
    forall j :: 0 <= i <= j < |entry| ==> entry[j] in files && files[entry[j]] == was[entry[j]]
  }

  /** The entries from `index` to `i` have become the archives 0, 1, .. */
  ghost predicate Renumbered<C>(was: map<FileId, C>, entry: seq<FileId>, index: int, i: int, files: map<FileId, C>)
    requires 0 <= index && i <= |entry| && forall j :: 0 <= j < |entry| ==> entry[j] in was
  {
    forall k :: 0 <= k < i - index ==> Archive(k) in files && files[Archive(k)] == was[entry[index + k]]
  }

  ghost predicate NothingElse<C>(entry: seq<FileId>, index: int, i: int, files: map<FileId, C>)
    requires 0 <= i <= |entry|
  {
    forall id: FileId :: id in files ==> (id.Archive? && id.n < i - index) || id in entry[i..]
  }

  /** The directory when the loop stands at entry `i`: a gapless head, and the entries still to come untouched. */
  ghost predicate Halfway<C>(was: map<FileId, C>, entry: seq<FileId>, index: int, i: int, files: map<FileId, C>)
    requires forall j :: 0 <= j < |entry| ==> entry[j] in was
  {
    && 0 <= index <= |entry| && 0 <= i <= |entry|
    && Untouched(was, entry, i, files) && Renumbered(was, entry, index, i, files) && NothingElse(entry, index, i, files)
  }

  /** The entries from `i` on are there. */
  ghost predicate Present<C>(entry: seq<FileId>, i: int, files: map<FileId, C>) {
    forall j :: 0 <= i <= j < |entry| ==> entry[j] in files
  }

  /** A name that was given to one entry and then found as another is free again. */
  ghost predicate Gaps<C>(entry: seq<FileId>, index: nat, i: int, files: map<FileId, C>) {
    forall b :: 0 <= b < i && b < |entry| && entry[b].Archive? && index + entry[b].n < b ==> entry[b] !in files
  }

  /** The directory when the loop stands at entry `i`, collisions or not. */
  ghost predicate Rotating<C>(was: map<FileId, C>, entry: seq<FileId>, index: nat, i: nat, files: map<FileId, C>) {
    && Covers(entry, was) && Distinct(entry) && index <= |entry| && i <= |entry|
    && Present(entry, i, files) && Gaps(entry, index, i, files)
    && (Clear(entry, index) ==> Halfway(was, entry, index, i, files))
  }

  class LogDirectory<C> {
    const base: string
    const ext: string
    var files: map<FileId, C>

    constructor (base: string, ext: string, files: map<FileId, C>)
      ensures this.base == base && this.ext == ext && this.files == files
    {
      this.base, this.ext, this.files := base, ext, files;
    }

    method FileDelete(id: FileId)
      modifies this
      ensures files == old(files) - {id}
    {
      files := files - {id};
    }

    /** `rename` replaces a file of the new name. */
    method Rename(from: FileId, to: FileId)
      requires from in files
      modifies this
      ensures files == Moved(old(files), from, to)
    {
      var content := files[from];
      files := (files - {from})[to := content];
    }

    /**
      The loop itself: the first `n - max` files go, the others are renamed to 0, 1, .. in order. It does
      what it is for exactly when no archive is to get a greater number than it has.
      */
    method RotateEntries(entry: seq<FileId>, maxArchiveCount: nat)
      requires Covers(entry, files) && Distinct(entry)
      modifies this
      ensures Holds(files, Last(Contents(entry, old(files)), maxArchiveCount))
         <==> Clear(entry, Surplus(|entry|, maxArchiveCount))
    {
      var n := |entry|;
      var index := if n < maxArchiveCount then 0 else n - maxArchiveCount;
      ghost var was := files;
      for i := 0 to n
        invariant Rotating(was, entry, index, i, files)
      {
        if i < index {
          StepDeletes(was, entry, index, i, files);
          FileDelete(entry[i]);
        } else {
          StepRenames(was, entry, index, i, files);
          Rename(entry[i], Archive(i - index));
        }
      }
      Rotated(was, entry, index, maxArchiveCount, files);
    }

    /**
      Rotation over the sorted listing of the directory: what is left are the archives 0, 1, .. with the
      last `maxArchiveCount` contents in the order of the names, if and only if no archive is to get a
      greater number than it has; for numbers of five digits and an extension behind the digits that is
      always so, and the order is that of the numbers, the live file last.
      */
    method RecreateFileList(entry: seq<FileId>, maxArchiveCount: nat)
      requires Listing(base, ext, entry, files)
      modifies this
      ensures Holds(files, Last(Contents(entry, old(files)), maxArchiveCount))
         <==> Clear(entry, Surplus(|entry|, maxArchiveCount))
      ensures NamesOk(ext, old(files)) ==>
                Numbered(entry) && Holds(files, Last(Contents(entry, old(files)), maxArchiveCount))
    {
      ListingDistinct(base, ext, entry, files);
      if NamesOk(ext, files) {
        ListingNumbered(base, ext, entry, files);
        NumberedClear(entry, Surplus(|entry|, maxArchiveCount));
      }
      RotateEntries(entry, maxArchiveCount);
    }

    /** The sorted listing of a directory without gaps. */
    method ScanDir(ghost count: nat) returns (entry: seq<FileId>)
      requires Live in files && NamesOk(ext, files) && count < 100000
      requires forall k :: 0 <= k < count ==> Archive(k) in files
      requires forall id: FileId :: id in files && id.Archive? ==> id.n < count
      ensures Listing(base, ext, entry, files)
      ensures |entry| == count + 1 && entry[count] == Live
      ensures forall k :: 0 <= k < count ==> entry[k] == Archive(k)
    {
      entry := [];
      var k := 0;
      while Archive(k) in files
        invariant 0 <= k <= count && |entry| == k
        invariant forall i :: 0 <= i < k ==> entry[i] == Archive(i)
        decreases count - k
      {
        entry := entry + [Archive(k)];
        k := k + 1;
      }
      entry := entry + [Live];
      forall id | id in files ensures id in entry {
        if id.Archive? { assert entry[id.n] == id; } else { assert entry[count] == id; }
      }
      forall i, j | 0 <= i < j < |entry|
        ensures Before(FileName(base, ext, entry[i]), FileName(base, ext, entry[j]))
      {
        if j < count { ArchivesSort(base, ext, i, j); } else { LiveSortsLast(base, ext, i); }
      }
    }

    /** The live file has grown too large: it joins the archives. */
    method Rollover(content: C, maxArchiveCount: nat, ghost q: seq<C>)
      requires Holds(files, q) && |q| < 100000 && ext != "" && ext[0] > '9'
      modifies this
      ensures Holds(files, Last(q + [content], maxArchiveCount))
    {
      files := files[Live := content];
      var entry := ScanDir(|q|);
      ContentsOf(entry, files, q, content);
      RecreateFileList(entry, maxArchiveCount);
    }

    /** Over any run of rotations the directory is a queue that keeps its last `maxArchiveCount` elements. */
    method RolloverAll(contents: seq<C>, maxArchiveCount: nat, ghost q: seq<C>)
      requires Holds(files, q) && |q| < 100000 && maxArchiveCount < 100000 && ext != "" && ext[0] > '9'
      modifies this
      ensures Holds(files, if contents == [] then q else Last(q + contents, maxArchiveCount))
    {
      ghost var now := q;
      for i := 0 to |contents|
        invariant Holds(files, now) && |now| < 100000
        invariant now == if i == 0 then q else Last(q + contents[..i], maxArchiveCount)
      {
        Rollover(contents[i], maxArchiveCount, now);
        QueueStep(q, contents, i, maxArchiveCount, now);
        now := Last(now + [contents[i]], maxArchiveCount);
      }
      assert contents[..|contents|] == contents;
    }
  }

  lemma ContentsOf<C>(entry: seq<FileId>, files: map<FileId, C>, q: seq<C>, content: C)
    requires |entry| == |q| + 1 && Covers(entry, files) && entry[|q|] == Live && files[Live] == content
    requires forall k :: 0 <= k < |q| ==> entry[k] == Archive(k) && files[Archive(k)] == q[k]
    ensures Contents(entry, files) == q + [content]
  {
  }

  /** Trimming early changes nothing. */
  lemma LastLast<C>(q: seq<C>, x: C, n: nat)
    ensures Last(Last(q, n) + [x], n) == Last(q + [x], n)
  {
  }

  lemma QueueStep<C>(q: seq<C>, contents: seq<C>, i: nat, n: nat, now: seq<C>)
    requires i < |contents| && now == if i == 0 then q else Last(q + contents[..i], n)
    ensures Last(now + [contents[i]], n) == Last(q + contents[..i + 1], n)
  {
    var was := q + contents[..i];
    assert q + contents[..i + 1] == was + [contents[i]];
    if i == 0 {
      assert was == q;
    } else {
      LastLast(was, contents[i], n);
    }
  }

  /** Once entry `i` is dealt with, only its new name and the entries behind it remain of what was there. */
  lemma RestBehind(entry: seq<FileId>, i: nat, id: FileId)
    requires i < |entry| && id in entry[i..] && id != entry[i]
    ensures id in entry[i + 1..]
  {
    assert entry[i..] == [entry[i]] + entry[i + 1..];
  }

  lemma DeleteKeeps<C>(was: map<FileId, C>, entry: seq<FileId>, index: int, i: nat, before: map<FileId, C>)
    requires Covers(entry, was) && Distinct(entry) && i < |entry| && i < index && Halfway(was, entry, index, i, before)
    ensures Halfway(was, entry, index, i + 1, before - {entry[i]})
  {
    forall id: FileId | id in before - {entry[i]} ensures id in entry[i + 1..] {
      RestBehind(entry, i, id);
    }
  }

  lemma StepDeletes<C>(was: map<FileId, C>, entry: seq<FileId>, index: nat, i: nat, before: map<FileId, C>)
    requires i < |entry| && i < index && Rotating(was, entry, index, i, before)
    ensures Rotating(was, entry, index, i + 1, before - {entry[i]})
  {
    if Clear(entry, index) {
      DeleteKeeps(was, entry, index, i, before);
    }
  }

  /** The directory after a file has been renamed. */
  function Moved<C>(before: map<FileId, C>, from: FileId, to: FileId): map<FileId, C>
    requires from in before
  {
    (before - {from})[to := before[from]]
  }

  lemma RenameLeaves<C>(was: map<FileId, C>, entry: seq<FileId>, index: int, i: nat, before: map<FileId, C>)
    requires Covers(entry, was) && Distinct(entry) && 0 <= index <= i < |entry| && Clear(entry, index)
    requires Untouched(was, entry, i, before)
    ensures Untouched(was, entry, i + 1, Moved(before, entry[i], Archive(i - index)))
  {
  }

  lemma RenameNumbers<C>(was: map<FileId, C>, entry: seq<FileId>, index: int, i: nat, before: map<FileId, C>)
    requires Covers(entry, was) && 0 <= index <= i < |entry| && Clear(entry, index)
    requires Untouched(was, entry, i, before) && Renumbered(was, entry, index, i, before)
    ensures Renumbered(was, entry, index, i + 1, Moved(before, entry[i], Archive(i - index)))
  {
  }

  lemma RenameOnly<C>(entry: seq<FileId>, index: int, i: nat, before: map<FileId, C>)
    requires 0 <= index <= i < |entry| && entry[i] in before && NothingElse(entry, index, i, before)
    ensures NothingElse(entry, index, i + 1, Moved(before, entry[i], Archive(i - index)))
  {
    forall id: FileId |
        id in Moved(before, entry[i], Archive(i - index)) && id in entry[i..] && id != Archive(i - index)
      ensures id in entry[i + 1..]
    {
      RestBehind(entry, i, id);
    }
  }

  lemma RenameGaps<C>(entry: seq<FileId>, index: nat, i: nat, before: map<FileId, C>)
    requires Distinct(entry) && index <= i < |entry| && Present(entry, i, before) && Gaps(entry, index, i, before)
    ensures Present(entry, i + 1, Moved(before, entry[i], Archive(i - index)))
    ensures Gaps(entry, index, i + 1, Moved(before, entry[i], Archive(i - index)))
  {
  }

  lemma StepRenames<C>(was: map<FileId, C>, entry: seq<FileId>, index: nat, i: nat, before: map<FileId, C>)
    requires index <= i < |entry| && Rotating(was, entry, index, i, before)
    ensures Rotating(was, entry, index, i + 1, Moved(before, entry[i], Archive(i - index)))
  {
    RenameGaps(entry, index, i, before);
    if Clear(entry, index) {
      RenameLeaves(was, entry, index, i, before);
      RenameNumbers(was, entry, index, i, before);
      RenameOnly(entry, index, i, before);
    }
  }

  lemma Rotated<C>(was: map<FileId, C>, entry: seq<FileId>, index: nat, max: nat, files: map<FileId, C>)
    requires Rotating(was, entry, index, |entry|, files) && index == Surplus(|entry|, max)
    ensures Holds(files, Last(Contents(entry, was), max)) <==> Clear(entry, index)
  {
    assert Last(Contents(entry, was), max) == Last(Contents(entry, was), |entry| - index);
    if Clear(entry, index) {
      Finished(was, entry, index, files);
    } else {
      NotFinished(was, entry, index, files);
    }
  }

  /** A collision leaves a gap among the archives. */
  lemma NotFinished<C>(was: map<FileId, C>, entry: seq<FileId>, index: nat, files: map<FileId, C>)
    requires Covers(entry, was) && index <= |entry| && !Clear(entry, index) && Gaps(entry, index, |entry|, files)
    ensures !Holds(files, Last(Contents(entry, was), |entry| - index))
  {
    var b :| 0 <= b < |entry| && entry[b].Archive? && index + entry[b].n < b;
    assert entry[b] == Archive(entry[b].n) && entry[b] !in files;
    assert |Last(Contents(entry, was), |entry| - index)| == |entry| - index;
  }

  lemma Finished<C>(was: map<FileId, C>, entry: seq<FileId>, index: int, files: map<FileId, C>)
    requires Covers(entry, was) && Halfway(was, entry, index, |entry|, files)
    ensures Holds(files, Last(Contents(entry, was), |entry| - index))
  {
  }

  // ---------------------------------------------------------------- numbers of six digits

  lemma SixDigits()
    ensures Format05(100000) == Format05(10000) + "0" && |Format05(10000)| == 5 && Format05(100000)[0] == '1'
  {
    assert Decimal(1) == "1" && Decimal(10) == "10" && Decimal(100) == "100";
    assert Decimal(1000) == "1000" && Decimal(10000) == "10000";
  }

  /** 100000 sorts between 10000 and 10001. */
  lemma SixDigitsSort(base: string, ext: string, a: nat)
    requires a < 100000
    ensures a <= 10000 ==> Before(FileName(base, ext, Archive(a)), FileName(base, ext, Archive(100000)))
    ensures a > 10000 ==> Before(FileName(base, ext, Archive(100000)), FileName(base, ext, Archive(a)))
  {
    var short, dot := Format05(10000), "." + ext;
    SixDigits();
    NameParts(base, ext, a);
    NameParts(base, ext, 100000);
    assert Format05(100000) + dot == short + ("0" + dot);
    assert Pow10(5) == 100000 by { assert Pow10(2) == 100; }
    FormatIsPad(a);
    FormatIsPad(10000);
    if a < 10000 {
      PadBefore(a, 10000, 5);
      BeforeTails(Format05(a), short, dot, "0" + dot);
      BeforeHeads(base + ".", Format05(a) + dot, short + ("0" + dot));
    } else if a == 10000 {
      BeforeHeads(short, dot, "0" + dot);
      BeforeHeads(base + ".", short + dot, short + ("0" + dot));
    } else {
      PadBefore(10000, a, 5);
      BeforeTails(short, Format05(a), "0" + dot, dot);
      BeforeHeads(base + ".", short + ("0" + dot), Format05(a) + dot);
    }
  }

  lemma SixDigitsLive(base: string, ext: string)
    requires ext != "" && ext[0] > '9'
    ensures Before(FileName(base, ext, Archive(100000)), FileName(base, ext, Live))
  {
    SixDigits();
    NameParts(base, ext, 100000);
    DigitFirst(base + ".", Format05(100000) + ("." + ext), ext);
    assert FileName(base, ext, Live) == (base + ".") + ext;
  }

  /** Archives 0 to 10001 and 100000, and the live file, in the order of their names. */
  function Crowded(): (entry: seq<FileId>)
    ensures |entry| == 10004
  {
    seq(10004, i requires 0 <= i < 10004 => if i <= 10000 then Archive(i) else if i == 10001 then Archive(100000)
                    else if i == 10002 then Archive(10001) else Live)
  }

  /** There rotation fails: 100000 is renamed to 10001 while the file of that name is still to come. */
  lemma CrowdedCollides<C>(base: string, ext: string, files: map<FileId, C>, maxArchiveCount: nat)
    requires ext != "" && ext[0] > '9' && Covers(Crowded(), files) && maxArchiveCount >= 10004
    ensures Listing(base, ext, Crowded(), files) && !Clear(Crowded(), Surplus(|Crowded()|, maxArchiveCount))
  {
    var entry := Crowded();
    forall i, j | 0 <= i < j < |entry| ensures Before(FileName(base, ext, entry[i]), FileName(base, ext, entry[j])) {
      if j == 10003 {
        if i == 10001 { SixDigitsLive(base, ext); } else { LiveSortsLast(base, ext, entry[i].n); }
      } else if j == 10001 {
        SixDigitsSort(base, ext, i);
      } else if i == 10001 {
        SixDigitsSort(base, ext, 10001);
      } else {
        ArchivesSort(base, ext, entry[i].n, entry[j].n);
      }
    }
    assert entry[10002] == Archive(10001);
  }
}
