/** Runs for a length of time that never end, and the exact condition on a folder order under which all do. */
module RotatorEndless {
  import opened CText
  import opened PlayClock
  import opened RotatorModel
  import opened RotatorRun
  import opened RotatorTermination
  import opened RotatorEndings
  import opened RotatorBehind

  // ---------------------------------------------------------------- a folder that feeds the run for nothing

  /** Service folder `g` has one playable track, number `k`, of no length if one is wanted; no other is playable. */
  ghost predicate Feeds(c: Settings, fs: Shelf, g: string, k: nat) {
    && g in fs && fs[g].service && AllRecords(fs[g])
    && k < |fs[g].tracks| && Playable(fs[g].tracks[k])
    && (c.hasGeneralDuration ==> Length(fs[g].tracks[k], c.defaultDuration) == 0)
    && forall n, j :: n in c.order && n in fs && 0 <= j < |fs[n].tracks| && Playable(fs[n].tracks[j]) ==>
         n == g && j == k
  }

  /** The next visit to the folder comes to its playable track. */
  ghost predicate Ripe(f: Folder, k: nat) {
    f.index <= k || f.index == |f.tracks|
  }

  /**
    A run without a count, short of its length if it has one, with the feeding folder's first slot `q` not
    behind the first largest one: when a round goes by in vain, the folder is ripe for the next one.
    */
  ghost predicate Fed(c: Settings, s: Run, g: string, k: nat, q: nat) {
    && RunOk(c, s) && c.special && c.maxTracks <= 0 && !s.complete
    && (c.hasGeneralDuration ==> s.state.duration < c.generalDuration)
    && Feeds(c, s.state.folders, g, k)
    && q <= LargestSlot(c, s.state.folders) && c.order[q] == g && (forall j :: 0 <= j < q ==> c.order[j] != g)
    && s.state.increaseCounter <= 1 && (|s.state.playlist| > s.previous ==> s.state.increaseCounter == 0)
    && (var f := s.state.folders[g];
        if s.pos <= q then s.state.increaseCounter == 1 ==> Ripe(f, k)
        else |s.state.playlist| > s.previous || (s.state.increaseCounter == 0 && f.index == |f.tracks|))
  }

  /** A visit adds the one playable track or nothing; a ripe folder adds it, an unripe one comes to its end. */
  lemma FedVisit(c: Settings, s: Run, g: string, k: nat, q: nat, v: Visited)
    requires Fed(c, s, g, k, q) && VisitDid(c, s.state, c.order[s.pos], v)
    ensures g in v.state.folders && (c.hasGeneralDuration ==> v.state.duration == s.state.duration)
    ensures Barren(s.state, v.state)
         || (c.order[s.pos] == g && |v.state.playlist| == |s.state.playlist| + 1 && v.state.increaseCounter == 0)
    ensures c.order[s.pos] == g && Ripe(s.state.folders[g], k) ==> !Barren(s.state, v.state)
    ensures Barren(s.state, v.state) && c.order[s.pos] == g ==>
              v.state.folders[g].index == |v.state.folders[g].tracks|
    ensures c.order[s.pos] != g ==> v.state.folders[g] == s.state.folders[g]
  {
    var name := c.order[s.pos];
    var f := v.state.folders[name];
    if Barren(s.state, v.state) {
      if name == g && Ripe(s.state.folders[g], k) {
        FedRefuses(c, s, g, k, v);
      }
    } else {
      var t :| AddedTrack(c, s.state, v.state, name, f, t);
      assert s.state.folders[name].tracks[f.index - 1] == t;
    }
  }

  /** A ripe folder cannot have been walked in vain. */
  lemma FedRefuses(c: Settings, s: Run, g: string, k: nat, v: Visited)
    requires RunOk(c, s) && Feeds(c, s.state.folders, g, k) && Ripe(s.state.folders[g], k)
    requires c.order[s.pos] == g && VisitDid(c, s.state, g, v)
    ensures !Barren(s.state, v.state)
  {
    var f := v.state.folders[g];
    assert Accepts(s.state.history, c.rules, f, f.tracks[k]);
  }

  lemma FeedsStays(c: Settings, a: Shelf, b: Shelf, g: string, k: nat)
    requires Feeds(c, a, g, k) && SameShelves(a, b)
    ensures Feeds(c, b, g, k)
  {
  }

  lemma FedGoes(c: Settings, s: Run, g: string, k: nat, q: nat, v: Visited)
    requires Fed(c, s, g, k, q) && VisitDid(c, s.state, c.order[s.pos], v)
    ensures AfterVisit(c, s.(state := v.state), v.toNext).Going?
    ensures var t := AfterVisit(c, s.(state := v.state), v.toNext).next;
            && !t.complete && g in t.state.folders
            && (c.hasGeneralDuration ==> t.state.duration == s.state.duration)
            && 0 <= t.state.increaseCounter <= 1
            && (|t.state.playlist| > t.previous ==> t.state.increaseCounter == 0)
            && (var f := t.state.folders[g];
                if t.pos <= q then t.state.increaseCounter == 1 ==> Ripe(f, k)
                else |t.state.playlist| > t.previous || (t.state.increaseCounter == 0 && f.index == |f.tracks|))
  {
    FedVisit(c, s, g, k, q, v);
    assert FolderOk(s.state.folders[c.order[s.pos]]);
  }

  /** The run goes on, and is fed again. */
  lemma FedTurn(c: Settings, s: Run, g: string, k: nat, q: nat)
    requires Fed(c, s, g, k, q)
    ensures Turn(c, s).Going? && Fed(c, Turn(c, s).next, g, k, q)
  {
    var v := Visit(c, s.state, c.order[s.pos]);
    VisitEffect(c, s.state, c.order[s.pos]);
    FedGoes(c, s, g, k, q, v);
    TurnKeeps(c, s);
    LargestSlotStays(c, s.state.folders, Turn(c, s).next.state.folders);
    FeedsStays(c, s.state.folders, Turn(c, s).next.state.folders, g, k);
  }

  /** However many turns it has had, such a run is still going. */
  lemma {:induction false} FedForEver(c: Settings, s: Run, g: string, k: nat, q: nat, n: nat)
    requires Fed(c, s, g, k, q)
    ensures !StopsIn(c, s, n)
    decreases n
  {
    FedTurn(c, s, g, k, q);
    if n > 0 {
      FedForEver(c, Turn(c, s).next, g, k, q, n - 1);
    }
  }

  /** One service folder with one song of unknown length, and an hour wanted. */
  lemma HourOfNothing() returns (c: Settings, s: Run)
    ensures c == Settings(Rules(0, 0), ["S"], 1, 0, true, 3600, true, 180)
    ensures s.state.folders == map["S" := Folder([Record("Y", "T", "")], true, 0, 1)] && s.state.history == []
    ensures RunOk(c, s) && Fresh(s) && Pristine(s)
    ensures forall n: nat :: !StopsIn(c, s, n)
  {
    c := Settings(Rules(0, 0), ["S"], 1, 0, true, 3600, true, 180);
    s := Run(State([], [], [], map["S" := Folder([Record("Y", "T", "")], true, 0, 1)], 0, 0), 0, 0, false);
    assert |s.state.folders[c.order[0]].tracks| == 1;
    NeverReturns(c, s, "S", 0, 0);
  }

  // ---------------------------------------------------------------- the exact condition

  function Sizes(lengths: map<string, seq<int>>): map<string, nat> {
    map n | n in lengths :: |lengths[n]|
  }

  /** A run begun from nothing over this order, for a length of time, with records of these lengths. */
  ghost predicate LengthRun(c: Settings, s: Run, order: seq<string>, lengths: map<string, seq<int>>) {
    && RunOk(c, s) && Fresh(s) && c.order == order
    && c.special && c.maxTracks <= 0 && c.hasGeneralDuration && c.generalDuration > 0
    && forall n :: n in order ==>
         n in s.state.folders && n in lengths && HasLengths(s.state.folders[n], lengths[n], c.defaultDuration)
  }

  ghost predicate HasLengths(f: Folder, ls: seq<int>, default: int) {
    && AllRecords(f) && |f.tracks| == |ls|
    && forall k :: 0 <= k < |ls| ==> Length(f.tracks[k], default) == ls[k]
  }

  /** The tracks of every folder with a slot up to `p` take time. */
  ghost predicate NearPositive(order: seq<string>, lengths: map<string, seq<int>>, p: nat) {
    forall n :: n in order && Near(order, p, n) && n in lengths ==> AllPositive(lengths[n])
  }

  predicate AllPositive(ls: seq<int>) {
    forall k :: 0 <= k < |ls| ==> ls[k] >= 1
  }

  predicate NoneNegative(ls: seq<int>) {
    forall k :: 0 <= k < |ls| ==> ls[k] >= 0
  }

  ghost predicate AlwaysEnds(order: seq<string>, lengths: map<string, seq<int>>) {
    forall c, s :: LengthRun(c, s, order, lengths) ==> Ends(c, s)
  }

  lemma LengthOf(f: Folder, ls: seq<int>, default: int, t: TrackData, least: int)
    requires HasLengths(f, ls, default) && t in f.tracks
    requires forall k :: 0 <= k < |ls| ==> ls[k] >= least
    ensures Length(t, default) >= least
  {
    var k :| 0 <= k < |f.tracks| && f.tracks[k] == t;
  }

  lemma SlotAt(c: Settings, fs: Shelf, sizes: map<string, nat>, p: nat)
    requires OrderOk(c, fs) && OrderSizes(c.order, sizes) && FirstLargestAt(c.order, sizes, p)
    requires forall n :: n in c.order ==> |fs[n].tracks| == sizes[n]
    ensures LargestSlot(c, fs) == p
  {
    var l := LargestSlot(c, fs);
    assert c.order[p] in c.order && c.order[l] in c.order;
  }

  /** With positive lengths near, such a run ends. */
  lemma PositiveEnds(c: Settings, s: Run, order: seq<string>, lengths: map<string, seq<int>>, p: nat)
    requires OrderSizes(order, Sizes(lengths)) && FirstLargestAt(order, Sizes(lengths), p)
    requires forall n :: n in order ==> NoneNegative(lengths[n])
    requires LengthRun(c, s, order, lengths) && NearPositive(order, lengths, p)
    ensures Ends(c, s)
  {
    var fs := s.state.folders;
    SlotAt(c, fs, Sizes(lengths), p);
    assert order[p] in order;
    forall n, t | n in order && n in fs && t in fs[n].tracks
      ensures Length(t, c.defaultDuration) >= if Near(order, p, n) then 1 else 0
    {
      LengthOf(fs[n], lengths[n], c.defaultDuration, t, if Near(order, p, n) then 1 else 0);
    }
    LengthEnds(c, s);
  }

  // ---------------------------------------------------------------- texts of given lengths

  /** A duration text for so many seconds; none for no time. */
  function Text(seconds: int): string {
    if seconds > 0 then "0:0:" + Decimal(seconds) else ""
  }

  lemma ZeroField(rest: string)
    ensures var s := "0:" + rest; ':' in s && Atoi(s) == 0 && PlayClock.After(s, ':') == rest
  {
    var s := "0:" + rest;
    assert s[0] == '0' && s[1] == ':' && s[1..][0] == ':' && s[1..][1..] == rest && s[2..] == rest;
    assert SkipSpaces(s) == s;
    assert ReadDigits(s, 0) == ReadDigits(s[1..], 0) == 0;
  }

  lemma TextLength(t: TrackData, seconds: int, default: int)
    requires seconds >= 0 && t.Record? && t.duration == Text(seconds)
    ensures t.duration != "" ==> IsTimeText(t.duration)
    ensures Length(t, default) == seconds
  {
    if seconds > 0 {
      var last := Decimal(seconds);
      assert Text(seconds) == "0:" + ("0:" + last);
      ZeroField("0:" + last);
      ZeroField(last);
      AtoiDecimal(seconds);
    }
  }

  // ---------------------------------------------------------------- the failing run

  /** Only track `k` of the feeding folder can be played. */
  ghost function TracksFor(ls: seq<int>, feeding: bool, k: nat): (ts: seq<TrackData>)
    ensures |ts| == |ls|
  {
    seq(|ls|, i requires 0 <= i < |ls| =>
      Record(if feeding && i == k then "Y" else "", if feeding && i == k then "T" else "", Text(ls[i])))
  }

  ghost function ShelvesFor(order: seq<string>, lengths: map<string, seq<int>>, g: string, k: nat): Shelf
    requires forall n :: n in order ==> n in lengths
  {
    map n | n in order :: Folder(TracksFor(lengths[n], n == g, k), n == g, 0, 1)
  }

  lemma ShelfHas(ls: seq<int>, feeding: bool, k: nat, default: int)
    requires ls != [] && NoneNegative(ls)
    ensures var f := Folder(TracksFor(ls, feeding, k), feeding, 0, 1);
            && FolderOk(f) && HasLengths(f, ls, default)
            && forall j :: 0 <= j < |ls| ==> (Playable(f.tracks[j]) <==> feeding && j == k)
  {
    var f := Folder(TracksFor(ls, feeding, k), feeding, 0, 1);
    forall j | 0 <= j < |ls|
      ensures Length(f.tracks[j], default) == ls[j] && f.tracks[j].Record?
      ensures f.tracks[j].duration != "" ==> IsTimeText(f.tracks[j].duration)
    {
      TextLength(f.tracks[j], ls[j], default);
    }
  }

  /** The first slot of a near folder is near. */
  lemma FirstSlot(order: seq<string>, p: nat, g: string) returns (q: nat)
    requires Near(order, p, g)
    ensures q <= p && q < |order| && order[q] == g && forall j :: 0 <= j < q ==> order[j] != g
  {
    q := 0;
    while order[q] != g
      invariant q <= p && q < |order| && forall j :: 0 <= j < q ==> order[j] != g
      invariant exists i :: q <= i <= p && i < |order| && order[i] == g
      decreases p - q
    {
      q := q + 1;
    }
  }

  lemma NeverReturns(c: Settings, s: Run, g: string, k: nat, q: nat)
    requires Fed(c, s, g, k, q)
    ensures forall n: nat :: !StopsIn(c, s, n)
  {
    forall n: nat ensures !StopsIn(c, s, n) {
      FedForEver(c, s, g, k, q, n);
    }
  }

  lemma FailingRun(order: seq<string>, lengths: map<string, seq<int>>, p: nat, g: string, k: nat, timed: bool)
    returns (c: Settings, s: Run)
    requires OrderSizes(order, Sizes(lengths)) && FirstLargestAt(order, Sizes(lengths), p)
    requires forall n :: n in order ==> NoneNegative(lengths[n])
    requires g in order && Near(order, p, g) && k < |lengths[g]| && (timed ==> lengths[g][k] == 0)
    ensures c.order == order && RunOk(c, s) && Fresh(s) && Pristine(s) && forall n: nat :: !StopsIn(c, s, n)
    ensures if timed then LengthRun(c, s, order, lengths) else c.maxTracks == -1 && !c.hasGeneralDuration
    ensures forall n :: n in order ==> n in s.state.folders && HasLengths(s.state.folders[n], lengths[n], 180)
  {
    var fs := ShelvesFor(order, lengths, g, k);
    c := Settings(Rules(0, 0), order, |lengths[order[p]]|, if timed then 0 else -1, timed, 3600, true, 180);
    s := Run(State([], [], [], fs, 0, 0), 0, 0, false);
    forall n | n in order
      ensures FolderOk(fs[n]) && HasLengths(fs[n], lengths[n], 180)
      ensures forall j :: 0 <= j < |lengths[n]| ==> (Playable(fs[n].tracks[j]) <==> n == g && j == k)
    {
      ShelfHas(lengths[n], n == g, k, 180);
    }
    ShelvesOk(c, fs, order, lengths, p);
    SlotAt(c, fs, Sizes(lengths), p);
    var q := FirstSlot(order, p, g);
    NeverReturns(c, s, g, k, q);
  }

  lemma ShelvesOk(c: Settings, fs: Shelf, order: seq<string>, lengths: map<string, seq<int>>, p: nat)
    requires OrderSizes(order, Sizes(lengths)) && FirstLargestAt(order, Sizes(lengths), p)
    requires c.order == order && c.maxHtSize == Sizes(lengths)[order[p]]
    requires forall n :: n in order ==> n in fs && |fs[n].tracks| == |lengths[n]|
    ensures OrderOk(c, fs)
  {
    assert forall q :: 0 <= q < |order| ==> order[q] in order;
    assert |fs[order[p]].tracks| == c.maxHtSize;
  }

  lemma FeedingFolder(order: seq<string>, lengths: map<string, seq<int>>, p: nat) returns (g: string, k: nat)
    requires !NearPositive(order, lengths, p) && forall n :: n in order ==> n in lengths && NoneNegative(lengths[n])
    ensures g in order && Near(order, p, g) && k < |lengths[g]| && lengths[g][k] == 0
  {
    g :| g in order && Near(order, p, g) && g in lengths && !AllPositive(lengths[g]);
    k :| 0 <= k < |lengths[g]| && lengths[g][k] < 1;
  }

  lemma NotAlwaysEnds(c: Settings, s: Run, order: seq<string>, lengths: map<string, seq<int>>)
    requires LengthRun(c, s, order, lengths) && forall n: nat :: !StopsIn(c, s, n)
    ensures !AlwaysEnds(order, lengths)
  {
  }

  /**
    The exact condition for a wanted length of time: every run begun from nothing over this order, with
    records of these lengths, ends if and only if each track of each folder with a slot up to the first
    largest one takes time; else already a new rotator, with some tracks unplayable, never returns.
    */
  lemma EndsExactly(order: seq<string>, lengths: map<string, seq<int>>, p: nat)
    requires OrderSizes(order, Sizes(lengths)) && FirstLargestAt(order, Sizes(lengths), p)
    requires forall n :: n in order ==> NoneNegative(lengths[n])
    ensures NearPositive(order, lengths, p) <==> AlwaysEnds(order, lengths)
    ensures !NearPositive(order, lengths, p) ==>
              exists c, s :: LengthRun(c, s, order, lengths) && Pristine(s) && !Ends(c, s)
  {
    if NearPositive(order, lengths, p) {
      forall c, s | LengthRun(c, s, order, lengths) ensures Ends(c, s) {
        PositiveEnds(c, s, order, lengths, p);
      }
    } else {
      var g, k := FeedingFolder(order, lengths, p);
      var c, s := FailingRun(order, lengths, p, g, k, true);
      NotAlwaysEnds(c, s, order, lengths);
    }
  }

  /** A negative count and no length make no order safe: whatever the lengths, some new rotator never returns. */
  lemma NoTargetFails(order: seq<string>, lengths: map<string, seq<int>>, p: nat) returns (c: Settings, s: Run)
    requires OrderSizes(order, Sizes(lengths)) && FirstLargestAt(order, Sizes(lengths), p)
    requires forall n :: n in order ==> NoneNegative(lengths[n])
    ensures c.order == order && c.maxTracks == -1 && !c.hasGeneralDuration
    ensures RunOk(c, s) && Fresh(s) && Pristine(s) && forall n: nat :: !StopsIn(c, s, n)
    ensures forall n :: n in order ==> n in s.state.folders && HasLengths(s.state.folders[n], lengths[n], 180)
  {
    assert order[0] in order && Near(order, p, order[0]);
    c, s := FailingRun(order, lengths, p, order[0], 0, false);
  }
}
