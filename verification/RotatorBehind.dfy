/** Giving up and the folders behind the first largest slot: where the justification ends, exactly. */
module RotatorBehind {
  import opened RotatorModel
  import opened RotatorRun
  import opened RotatorTermination
  import opened RotatorEndings

  // ---------------------------------------------------------------- folders up to the slot

  /** Every folder of the order has a slot not behind slot `p`. */
  ghost predicate AllNear(order: seq<string>, p: nat) {
    forall n :: n in order ==> Near(order, p, n)
  }

  /** When the run gives up, every folder of the order is exhausted. */
  ghost predicate GivesUpWell(c: Settings, s: Run)
    requires RunOk(c, s) && Ends(c, s)
  {
    var o := Outcome(c, s);
    o.why.GaveUp? ==> forall n :: n in c.order ==>
      n in o.last.state.folders && Exhausted(c.rules, o.last.state.history, o.last.state.folders[n])
  }

  lemma NearExhausted(c: Settings, st: State, n: string)
    requires AllExhausted(c, st) && AllNear(c.order, LargestSlot(c, st.folders)) && n in c.order
    ensures n in st.folders && Exhausted(c.rules, st.history, st.folders[n])
  {
    assert Near(c.order, LargestSlot(c, st.folders), n);
  }

  /** With all folders up to the first largest slot, giving up leaves nothing acceptable anywhere in the order. */
  lemma GivingUpEverywhere(c: Settings, s: Run)
    requires RunOk(c, s) && Ends(c, s) && Fresh(s) && RecordsUpTo(c, s.state.folders)
    requires AllNear(c.order, LargestSlot(c, s.state.folders))
    ensures GivesUpWell(c, s)
  {
    var last := Outcome(c, s).last.state;
    FreshGivingUp(c, s);
    OutcomeKeeps(c, s);
    LargestSlotStays(c, s.state.folders, last.folders);
    if Outcome(c, s).why.GaveUp? {
      forall n | n in c.order ensures n in last.folders && Exhausted(c.rules, last.history, last.folders[n]) {
        NearExhausted(c, last, n);
      }
    }
  }

  // ---------------------------------------------------------------- runs that never get behind it

  /** No track is accepted at any weight. */
  ghost predicate NeverTaken(h: seq<Entry>, r: Rules, tracks: seq<TrackData>, service: bool) {
    forall w: int, t :: t in tracks ==> !Accepts(h, r, Folder(tracks, service, 0, w), t)
  }

  lemma RefusedSo(h: seq<Entry>, r: Rules, f: Folder, t: TrackData)
    requires NeverTaken(h, r, f.tracks, f.service)
    ensures t in f.tracks ==> !Accepts(h, r, f, t)
  {
    assert Accepts(h, r, f, t) == Accepts(h, r, Folder(f.tracks, f.service, 0, f.statistics), t);
  }

  lemma NothingTaken(c: Settings, st: State, name: string, v: Visited)
    requires name in st.folders && VisitDid(c, st, name, v)
    requires NeverTaken(st.history, c.rules, st.folders[name].tracks, st.folders[name].service)
    ensures Barren(st, v.state)
  {
    var f := v.state.folders[name];
    forall t ensures !AddedTrack(c, st, v.state, name, f, t) {
      RefusedSo(st.history, c.rules, f, t);
    }
  }

  /**
    The first largest folder is at its end, and it and the folders before it are refused as a whole: every
    round ends at its slot.
    */
  ghost predicate Trapped(c: Settings, s: Run) {
    && RunOk(c, s) && c.special && !s.complete && !IsCompleted(c, s.state)
    && (var p := LargestSlot(c, s.state.folders);
        var fs := s.state.folders;
        && s.pos <= p && fs[c.order[p]].index == |fs[c.order[p]].tracks| && AllRecords(fs[c.order[p]])
        && forall q :: 0 <= q <= p ==>
             NeverTaken(s.state.history, c.rules, fs[c.order[q]].tracks, fs[c.order[q]].service))
  }

  /** Nothing was added, and folders without a slot up to `p` were not visited. */
  ghost predicate Unchanged(c: Settings, p: nat, a: State, b: State) {
    && b.history == a.history && b.playlist == a.playlist && b.duration == a.duration
    && a.folders.Keys == b.folders.Keys
    && forall n :: n in a.folders && (forall q :: 0 <= q <= p && q < |c.order| ==> c.order[q] != n) ==>
         b.folders[n] == a.folders[n]
  }

  lemma TrappedVisit(c: Settings, s: Run, v: Visited)
    requires Trapped(c, s) && VisitDid(c, s.state, c.order[s.pos], v)
    ensures Barren(s.state, v.state) && (v.toNext <==> s.pos < LargestSlot(c, s.state.folders))
    ensures var m := c.order[LargestSlot(c, s.state.folders)];
            m in v.state.folders && v.state.folders[m].index == |v.state.folders[m].tracks|
  {
    NothingTaken(c, s.state, c.order[s.pos], v);
    assert FolderOk(s.state.folders[c.order[s.pos]]);
  }

  lemma TrappedStays(c: Settings, s: Run, t: Run)
    requires Trapped(c, s) && RunOk(c, t) && SameShelves(s.state.folders, t.state.folders)
    requires Unchanged(c, LargestSlot(c, s.state.folders), s.state, t.state)
    requires !t.complete && t.pos <= LargestSlot(c, s.state.folders)
    requires var m := c.order[LargestSlot(c, s.state.folders)];
             t.state.folders[m].index == |t.state.folders[m].tracks|
    ensures Trapped(c, t)
  {
    LargestSlotStays(c, s.state.folders, t.state.folders);
    forall q | 0 <= q <= LargestSlot(c, t.state.folders)
      ensures var f := t.state.folders[c.order[q]]; NeverTaken(t.state.history, c.rules, f.tracks, f.service)
    {
      var f := s.state.folders[c.order[q]];
      assert NeverTaken(s.state.history, c.rules, f.tracks, f.service);
    }
  }

  lemma TrappedTurn(c: Settings, s: Run)
    requires Trapped(c, s)
    ensures Unchanged(c, LargestSlot(c, s.state.folders), s.state, After(Turn(c, s)).state)
    ensures if Turn(c, s).Going? then Trapped(c, Turn(c, s).next) else Turn(c, s).why.GaveUp?
  {
    var v := Visit(c, s.state, c.order[s.pos]);
    VisitEffect(c, s.state, c.order[s.pos]);
    TrappedVisit(c, s, v);
    TurnKeeps(c, s);
    if Turn(c, s).Going? {
      TrappedStays(c, s, Turn(c, s).next);
    }
  }

  lemma UnchangedTrans(c: Settings, p: nat, x: State, y: State, z: State)
    requires Unchanged(c, p, x, y) && Unchanged(c, p, y, z)
    ensures Unchanged(c, p, x, z)
  {
  }

  lemma SlotStays(c: Settings, s: Run)
    requires RunOk(c, s) && Turn(c, s).Going?
    ensures RunOk(c, Turn(c, s).next)
    ensures LargestSlot(c, s.state.folders) == LargestSlot(c, Turn(c, s).next.state.folders)
  {
    TurnKeeps(c, s);
    LargestSlotStays(c, s.state.folders, Turn(c, s).next.state.folders);
  }

  /** Such a run gives up, and nothing behind the slot has been looked at. */
  lemma {:induction false} TrappedGivesUp(c: Settings, s: Run)
    requires Trapped(c, s) && Ends(c, s)
    ensures Outcome(c, s).why.GaveUp?
    ensures Unchanged(c, LargestSlot(c, s.state.folders), s.state, Outcome(c, s).last.state)
    decreases Turns(c, s)
  {
    TrappedTurn(c, s);
    RunSteps(c, s);
    if Turn(c, s).Going? {
      var next := Turn(c, s).next;
      SlotStays(c, s);
      TrappedGivesUp(c, next);
      UnchangedTrans(c, LargestSlot(c, s.state.folders), s.state, next.state, Outcome(c, next).last.state);
    }
  }

  // ---------------------------------------------------------------- an example

  const SONG_A := Record("Y", "A", "")
  const SONG_B := Record("Z", "B", "")

  ghost function TwoShelves(mi: nat, fi: nat): Shelf {
    map["M" := Folder([SONG_U, SONG_U], false, mi, 1), "F" := Folder([SONG_A, SONG_B], false, fi, 1)]
  }

  /** Five tracks wanted, and ten entries between two of one title. */
  ghost function FiveWanted(): Settings {
    Settings(Rules(0, 10), ["M", "F"], 2, 5, false, 0, true, 180)
  }

  ghost function AtFirst(mi: nat): State {
    State([Entry("X", "U", 1)], [Initial], [], TwoShelves(mi, 0), 0, 0)
  }

  ghost function WithA(): State {
    State([Entry("X", "U", 1), Entry("Y", "A", 2)], [Initial, Ruled("F", 1)], [SONG_A], TwoShelves(2, 1), 0, 0)
  }

  lemma ExampleOk(st: State, pos: nat)
    requires st == AtFirst(0) || st == AtFirst(2) || st == WithA()
    requires pos < 2
    ensures RunOk(FiveWanted(), Run(st, pos, 0, false)) && Ends(FiveWanted(), Run(st, pos, 0, false))
    ensures LargestSlot(FiveWanted(), st.folders) == 0
  {
    assert |st.folders[FiveWanted().order[0]].tracks| == 2;
    assert FiveWanted().order[1] == "F" && FiveWanted().order[0] == "M";
    BoundedEnds(FiveWanted(), Run(st, pos, 0, false));
  }

  lemma TooCloseU(h: seq<Entry>)
    requires h == AtFirst(0).history || h == WithA().history
    ensures NeverTaken(h, Rules(0, 10), [SONG_U, SONG_U], false)
  {
    assert h[0].singer == "X" && h[0].title == "U";
  }

  /** A barren visit from within a folder of records walks it to its end. */
  lemma WalkedToEnd(c: Settings, st: State, name: string, v: Visited)
    requires name in st.folders && VisitDid(c, st, name, v) && Barren(st, v.state)
    requires var f := st.folders[name]; AllRecords(f) && f.index < |f.tracks|
    ensures var f := st.folders[name];
            v.state == st.(folders := st.folders[name := f.(index := |f.tracks|)]) && v.toNext
  {
    var f := st.folders[name];
    assert v.state.folders[name] == f.(index := |f.tracks|);
    assert v.state.folders == st.folders[name := f.(index := |f.tracks|)];
  }

  lemma VisitM(c: Settings, st: State)
    requires c == FiveWanted() && st == AtFirst(0)
    ensures FoldersOk(st.folders) && "M" in st.folders
    ensures Visit(c, st, "M").state == AtFirst(2) && Visit(c, st, "M").toNext
  {
    ExampleOk(st, 0);
    TooCloseU(st.history);
    VisitEffect(c, st, "M");
    var v := Visit(c, st, "M");
    NothingTaken(c, st, "M", v);
    WalkedToEnd(c, st, "M", v);
    assert st.folders["M" := st.folders["M"].(index := 2)] == TwoShelves(2, 0);
  }

  lemma FirstVisitM(c: Settings, st: State)
    requires c == FiveWanted() && st == AtFirst(0)
    ensures RunOk(c, Run(st, 0, 0, false))
    ensures Turn(c, Run(st, 0, 0, false)) == Going(Run(AtFirst(2), 1, 0, false))
  {
    ExampleOk(st, 0);
    VisitM(c, st);
  }

  lemma FirstVisitF(c: Settings, st: State)
    requires c == FiveWanted() && st == AtFirst(2)
    ensures RunOk(c, Run(st, 1, 0, false))
    ensures Turn(c, Run(st, 1, 0, false)) == Going(Run(WithA(), 0, 0, false))
  {
    ExampleOk(st, 1);
    var f := st.folders["F"];
    assert st.history[0].singer == "X" && Accepts(st.history, c.rules, f, SONG_A);
    assert st.folders["F" := f.(index := 1)] == TwoShelves(2, 1);
    assert Offer(c, st, "F").done && Offer(c, st, "F").state == WithA();
  }

  lemma ThenTrapped(c: Settings, st: State)
    requires c == FiveWanted() && st == WithA()
    ensures Trapped(c, Run(st, 0, 0, false)) && Ends(c, Run(st, 0, 0, false)) && LargestSlot(c, st.folders) == 0
  {
    ExampleOk(st, 0);
    TooCloseU(st.history);
  }

  /** A run that is trapped after two turns. */
  lemma SoonTrapped(c: Settings, a: Run, b: Run, d: Run, g: string)
    requires RunOk(c, a) && Ends(c, a) && RunOk(c, b) && Turn(c, a) == Going(b) && Turn(c, b) == Going(d)
    requires Trapped(c, d) && g in d.state.folders
    requires forall q :: 0 <= q <= LargestSlot(c, d.state.folders) ==> c.order[q] != g
    ensures var o := Outcome(c, a);
            && o.why.GaveUp? && o.last.state.playlist == d.state.playlist && o.last.state.history == d.state.history
            && g in o.last.state.folders && o.last.state.folders[g] == d.state.folders[g]
  {
    RunSteps(c, a);
    RunSteps(c, b);
    TrappedGivesUp(c, d);
  }

  lemma ExampleTurns() returns (c: Settings, a: Run, b: Run, d: Run)
    ensures c == FiveWanted() && a == Run(AtFirst(0), 0, 0, false)
    ensures RunOk(c, a) && Ends(c, a) && Pristine(a) && Fresh(a)
    ensures RunOk(c, b) && Turn(c, a) == Going(b) && Turn(c, b) == Going(d)
    ensures Trapped(c, d) && LargestSlot(c, d.state.folders) == 0 && d.state == WithA()
  {
    c, a := FiveWanted(), Run(AtFirst(0), 0, 0, false);
    b, d := Run(AtFirst(2), 1, 0, false), Run(WithA(), 0, 0, false);
    ExampleOk(a.state, 0);
    FirstVisitM(c, a.state);
    FirstVisitF(c, b.state);
    ThenTrapped(c, d.state);
  }

  lemma AcceptsB(h: seq<Entry>, f: Folder)
    requires h == WithA().history
    ensures Accepts(h, Rules(0, 10), f, SONG_B)
  {
    assert h[0].singer == "X" && h[1].singer == "Y";
  }

  /**
    The first track of "F" is added, then "M" at its end ends every round: the run gives up with four
    tracks wanting although the next track of "F", never offered, is acceptable at the folder's weight.
    */
  lemma GivesUpTooSoonBehind() returns (c: Settings, s: Run)
    ensures c == FiveWanted() && s == Run(AtFirst(0), 0, 0, false)
    ensures RunOk(c, s) && Ends(c, s) && Pristine(s) && Fresh(s)
    ensures var o := Outcome(c, s);
            && o.why.GaveUp? && o.last.state.playlist == [SONG_A] && "F" in o.last.state.folders
            && o.last.state.folders["F"] == Folder([SONG_A, SONG_B], false, 1, 1)
            && Accepts(o.last.state.history, c.rules, o.last.state.folders["F"], SONG_B)
  {
    var b, d;
    c, s, b, d := ExampleTurns();
    assert c.order[0] == "M" && "F" in d.state.folders;
    SoonTrapped(c, s, b, d, "F");
    AcceptsB(d.state.history, d.state.folders["F"]);
  }

  // ---------------------------------------------------------------- and where it fails

  const SONG_U := Record("X", "U", "")
  const SONG_T := Record("Y", "T", "")
  const BLANK := Record("", "", "")

  /** A folder order as it can be given: names with their numbers of tracks. */
  ghost predicate OrderSizes(order: seq<string>, sizes: map<string, nat>) {
    order != [] && forall n :: n in order ==> n in sizes && sizes[n] > 0
  }

  ghost predicate FirstLargestAt(order: seq<string>, sizes: map<string, nat>, p: nat)
    requires OrderSizes(order, sizes)
  {
    && p < |order|
    && (forall q :: 0 <= q < p ==> sizes[order[q]] < sizes[order[p]])
    && (forall q :: 0 <= q < |order| ==> sizes[order[q]] <= sizes[order[p]])
  }

  /** `g` has slots, but only behind `p`. */
  ghost predicate OnlyBehind(order: seq<string>, p: nat, g: string) {
    g in order && forall q :: 0 <= q <= p && q < |order| ==> order[q] != g
  }

  /** The given history: "U" twice by one executor, then "T" by another. */
  function Given(): seq<Entry> {
    [Entry("X", "U", 2), Entry("X", "U", 2), Entry("Y", "T", 1)]
  }

  /** Folder `g` holds "T" only, folder `m` ends with "U", and no other track can be played. */
  ghost function TracksOf(n: string, m: string, g: string, size: nat): (ts: seq<TrackData>)
    requires size > 0
    ensures |ts| == size
  {
    if n == g then seq(size, _ => SONG_T)
    else if n == m then seq(size - 1, _ => BLANK) + [SONG_U]
    else seq(size, _ => BLANK)
  }

  ghost function ShelfFor(order: seq<string>, sizes: map<string, nat>, m: string, g: string): Shelf
    requires OrderSizes(order, sizes)
  {
    map n | n in order :: Folder(TracksOf(n, m, g, sizes[n]), false, 0, 1)
  }

  ghost function SettingsFor(order: seq<string>, sizes: map<string, nat>, p: nat): Settings
    requires OrderSizes(order, sizes) && p < |order|
  {
    Settings(Rules(1, 0), order, sizes[order[p]], 2, false, 0, true, 180)
  }

  ghost function RunFor(order: seq<string>, sizes: map<string, nat>, p: nat, g: string): Run
    requires OrderSizes(order, sizes) && p < |order|
  {
    Run(State(Given(), [Initial, Initial, Initial], [], ShelfFor(order, sizes, order[p], g), 0, 0), 0, 0, false)
  }

  /** The folders hold what the example puts in them. */
  ghost predicate Stocked(c: Settings, fs: Shelf, p: nat, g: string)
    requires p < |c.order|
  {
    forall n :: n in c.order ==>
      && n in fs && !fs[n].service && |fs[n].tracks| > 0
      && fs[n].tracks == TracksOf(n, c.order[p], g, |fs[n].tracks|)
  }

  /** Before anything is added. */
  ghost predicate Waiting(c: Settings, s: Run, g: string) {
    && RunOk(c, s) && c.rules == Rules(1, 0) && c.special && c.maxTracks == 2 && !c.hasGeneralDuration
    && !s.complete && s.previous == 0 && s.state.playlist == [] && s.state.history == Given()
    && (var p := LargestSlot(c, s.state.folders);
        var m := s.state.folders[c.order[p]];
        && OnlyBehind(c.order, p, g) && Stocked(c, s.state.folders, p, g)
        && m.statistics == 1
        && (m.index == |m.tracks| || (m.index == 0 && s.pos <= p && s.state.increaseCounter == 0))
        && (s.state.increaseCounter == 0 || (s.state.increaseCounter == 1 && s.pos <= p)))
  }

  /** "T" was heard last, so its executor is too close. */
  lemma RefusedT(size: nat, m: string, g: string)
    requires size > 0
    ensures NeverTaken(Given(), Rules(1, 0), TracksOf(g, m, g, size), false)
  {
    assert Given()[2].singer == "Y";
  }

  lemma RefusedBlank(h: seq<Entry>, n: string, m: string, g: string, size: nat)
    requires size > 0 && n != g && n != m
    ensures NeverTaken(h, Rules(1, 0), TracksOf(n, m, g, size), false)
  {
  }

  /** "U" outweighs a folder of weight 1 and no folder that is heavier. */
  lemma WeightU(f: Folder)
    requires !f.service
    ensures Accepts(Given(), Rules(1, 0), f, SONG_U) <==> f.statistics >= 2
  {
    var h := Given();
    assert h[0].singer == "X" && h[1].singer == "X" && h[2].singer == "Y" && h[1].title == "U" && h[2].title == "T";
    assert Newest(h, "U", 1);
  }

  /** Just after "U" was added its executor is too close, and that of "T" no longer is. */
  lemma AfterU(f: Folder)
    requires !f.service && f.statistics >= 1
    ensures !Accepts(Given() + [Entry("X", "U", 3)], Rules(1, 0), f, SONG_U)
    ensures Accepts(Given() + [Entry("X", "U", 3)], Rules(1, 0), f, SONG_T)
  {
    var h := Given() + [Entry("X", "U", 3)];
    assert h[3].singer == "X" && h[2].singer == "Y" && h[2].title == "T" && h[0].title == "U" && h[1].title == "U";
    forall i | Newest(h, "T", i) ensures h[i].statistics == 1 {
      assert i == 2;
    }
  }

  function HistoryAfter(): seq<Entry> {
    Given() + [Entry("X", "U", 3)]
  }

  lemma OnlyU(size: nat, m: string, g: string, t: TrackData)
    requires size > 0 && m != g && t in TracksOf(m, m, g, size) && Playable(t)
    ensures t == SONG_U
  {
  }

  /** The heaviest slot, visited at its end, adds "U" and is at its end again. */
  lemma AddsU(c: Settings, st: State, m: string, g: string, v: Visited)
    requires FoldersOk(st.folders) && m in st.folders && VisitDid(c, st, m, v) && m != g
    requires st.history == Given() && c.rules == Rules(1, 0) && st.playlist == []
    requires var f := st.folders[m];
             f.index == |f.tracks| && f.statistics == 1 && !f.service && f.tracks == TracksOf(m, m, g, |f.tracks|)
    ensures v.state.history == HistoryAfter() && |v.state.playlist| == 1
    ensures v.state.folders[m].index == |v.state.folders[m].tracks| && v.state.increaseCounter == 0
  {
    var f := v.state.folders[m];
    assert f.statistics == 2;
    WeightU(f);
    assert f.tracks[|f.tracks| - 1] == SONG_U;
    assert OneAdded(c, st, v.state, m);
    var t :| AddedTrack(c, st, v.state, m, f, t);
    OnlyU(|f.tracks|, m, g, t);
    LastIsU(|f.tracks|, m, g, f.index - 1);
  }

  lemma LastIsU(size: nat, m: string, g: string, k: nat)
    requires k < size && m != g && TracksOf(m, m, g, size)[k] == SONG_U
    ensures k == size - 1
  {
  }

  /** Before that every visit is barren. */
  lemma WaitingVisit(c: Settings, s: Run, g: string, v: Visited)
    requires Waiting(c, s, g) && VisitDid(c, s.state, c.order[s.pos], v)
    requires var m := c.order[LargestSlot(c, s.state.folders)];
             c.order[s.pos] == m ==> s.state.folders[m].index == 0
    ensures Barren(s.state, v.state)
  {
    var p, n := LargestSlot(c, s.state.folders), c.order[s.pos];
    var m, size := c.order[p], |s.state.folders[n].tracks|;
    if n == g {
      RefusedT(size, m, g);
      NothingTaken(c, s.state, n, v);
    } else if n != m {
      RefusedBlank(Given(), n, m, g, size);
      NothingTaken(c, s.state, n, v);
    } else {
      forall t ensures !AddedTrack(c, s.state, v.state, n, v.state.folders[n], t) {
        WeightU(v.state.folders[n]);
        if t in v.state.folders[n].tracks && Playable(t) {
          OnlyU(size, m, g, t);
        }
      }
    }
  }

  lemma StockedStays(c: Settings, a: Shelf, b: Shelf, p: nat, g: string)
    requires p < |c.order| && Stocked(c, a, p, g) && SameShelves(a, b)
    ensures Stocked(c, b, p, g)
  {
  }

  /** What a barren step before that leaves of the heaviest folder, and where it goes. */
  lemma BarrenGoes(c: Settings, s: Run, g: string, v: Visited)
    requires Waiting(c, s, g) && VisitDid(c, s.state, c.order[s.pos], v) && Barren(s.state, v.state)
    requires var m := c.order[LargestSlot(c, s.state.folders)];
             AllRecords(s.state.folders[m]) && (c.order[s.pos] == m ==> s.state.folders[m].index == 0)
    ensures var p := LargestSlot(c, s.state.folders);
            var t, m := AfterVisit(c, s.(state := v.state), v.toNext), v.state.folders[c.order[p]];
            && t.Going? && t.next.state == v.state.(increaseCounter := t.next.state.increaseCounter)
            && t.next.previous == 0 && !t.next.complete
            && m.statistics == 1
            && (m.index == |m.tracks| || (m.index == 0 && t.next.pos <= p && t.next.state.increaseCounter == 0))
            && (t.next.state.increaseCounter == 0 || (t.next.state.increaseCounter == 1 && t.next.pos <= p))
  {
    assert FolderOk(s.state.folders[c.order[s.pos]]);
  }

  lemma BarrenWaits(c: Settings, s: Run, g: string)
    requires Waiting(c, s, g)
    requires var m := c.order[LargestSlot(c, s.state.folders)];
             c.order[s.pos] == m ==> s.state.folders[m].index == 0
    ensures Turn(c, s).Going? && Waiting(c, Turn(c, s).next, g)
  {
    var v := Visit(c, s.state, c.order[s.pos]);
    var p := LargestSlot(c, s.state.folders);
    VisitEffect(c, s.state, c.order[s.pos]);
    WaitingVisit(c, s, g, v);
    AllTextsRecords(|s.state.folders[c.order[p]].tracks|, c.order[p], c.order[p], g);
    BarrenGoes(c, s, g, v);
    TurnKeeps(c, s);
    LargestSlotStays(c, s.state.folders, Turn(c, s).next.state.folders);
    StockedStays(c, s.state.folders, Turn(c, s).next.state.folders, p, g);
  }

  lemma AllTextsRecords(size: nat, n: string, m: string, g: string)
    requires size > 0
    ensures forall t :: t in TracksOf(n, m, g, size) ==> t.Record?
  {
  }

  lemma FullShelf(c: Settings, h: seq<Entry>, fs: Shelf, p: nat, g: string)
    requires p < |c.order| && Stocked(c, fs, p, g) && OnlyBehind(c.order, p, g) && h == HistoryAfter()
    ensures forall q :: 0 <= q <= p ==>
              NeverTaken(h, Rules(1, 0), fs[c.order[q]].tracks, fs[c.order[q]].service)
  {
    forall q | 0 <= q <= p ensures NeverTaken(h, Rules(1, 0), fs[c.order[q]].tracks, fs[c.order[q]].service) {
      var n, tracks := c.order[q], fs[c.order[q]].tracks;
      if n == c.order[p] {
        forall w: int, t | t in tracks ensures !Accepts(h, Rules(1, 0), Folder(tracks, false, 0, w), t) {
          if Playable(t) {
            OnlyU(|tracks|, n, g, t);
            RefusedAfterU(h, Folder(tracks, false, 0, w));
          }
        }
      } else {
        RefusedBlank(h, n, c.order[p], g, |tracks|);
      }
    }
  }

  lemma RefusedAfterU(h: seq<Entry>, f: Folder)
    requires h == HistoryAfter() && !f.service
    ensures !Accepts(h, Rules(1, 0), f, SONG_U)
  {
    assert h[3].singer == "X";
  }

  lemma AddingTraps(c: Settings, s: Run, g: string)
    requires Waiting(c, s, g)
    requires var m := c.order[LargestSlot(c, s.state.folders)];
             c.order[s.pos] == m && s.state.folders[m].index != 0
    ensures Turn(c, s).Going? && Trapped(c, Turn(c, s).next)
    ensures Turn(c, s).next.state.history == HistoryAfter()
  {
    var p := LargestSlot(c, s.state.folders);
    var v := Visit(c, s.state, c.order[s.pos]);
    VisitEffect(c, s.state, c.order[s.pos]);
    AddsU(c, s.state, c.order[s.pos], g, v);
    TurnKeeps(c, s);
    var t := After(Turn(c, s));
    LargestSlotStays(c, s.state.folders, t.state.folders);
    StockedStays(c, s.state.folders, t.state.folders, p, g);
    AllTextsRecords(|s.state.folders[c.order[p]].tracks|, c.order[p], c.order[p], g);
    FullShelf(c, t.state.history, t.state.folders, p, g);
  }

  /** From there the run gives up while "T" is acceptable. */
  lemma TrappedMisses(c: Settings, s: Run, g: string)
    requires Trapped(c, s) && Ends(c, s) && c.rules == Rules(1, 0) && s.state.history == HistoryAfter()
    requires g in s.state.folders && !s.state.folders[g].service && SONG_T in s.state.folders[g].tracks
    ensures Misses(c, s, g)
  {
    TrappedGivesUp(c, s);
    OutcomeKeeps(c, s);
    AfterU(Outcome(c, s).last.state.folders[g]);
  }

  /** The run gives up although folder `g` holds a track acceptable at its present weight. */
  ghost predicate Misses(c: Settings, s: Run, g: string)
    requires RunOk(c, s) && Ends(c, s)
  {
    var o := Outcome(c, s);
    o.why.GaveUp? && g in o.last.state.folders
    && exists t :: t in o.last.state.folders[g].tracks
         && Accepts(o.last.state.history, c.rules, o.last.state.folders[g], t)
  }

  lemma {:induction false} WaitingMisses(c: Settings, s: Run, g: string)
    requires Waiting(c, s, g) && Ends(c, s)
    ensures Misses(c, s, g)
    decreases Turns(c, s)
  {
    var m := c.order[LargestSlot(c, s.state.folders)];
    RunSteps(c, s);
    if c.order[s.pos] == m && s.state.folders[m].index != 0 {
      AddingTraps(c, s, g);
      TurnKeeps(c, s);
      HoldsT(|s.state.folders[g].tracks|, m, g);
      TrappedMisses(c, Turn(c, s).next, g);
    } else {
      BarrenWaits(c, s, g);
      WaitingMisses(c, Turn(c, s).next, g);
    }
  }

  lemma HoldsT(size: nat, m: string, g: string)
    requires size > 0
    ensures SONG_T in TracksOf(g, m, g, size)
  {
    assert TracksOf(g, m, g, size)[0] == SONG_T;
  }

  lemma Misfit(c: Settings, s: Run, g: string)
    requires RunOk(c, s) && Ends(c, s) && Misses(c, s, g) && g in c.order
    ensures !GivesUpWell(c, s)
  {
  }

  // ---------------------------------------------------------------- the exact condition

  /** A fresh run over this order, with folders of these sizes that hold records only. */
  ghost predicate Suits(c: Settings, s: Run, order: seq<string>, sizes: map<string, nat>) {
    && RunOk(c, s) && Ends(c, s) && Fresh(s) && c.order == order
    && forall n :: n in order ==>
         n in s.state.folders && n in sizes && |s.state.folders[n].tracks| == sizes[n] && AllRecords(s.state.folders[n])
  }

  /** As a new rotator begins: every folder at its first track with weight 1. */
  ghost predicate Pristine(s: Run) {
    && !s.complete
    && forall n :: n in s.state.folders ==> s.state.folders[n].index == 0 && s.state.folders[n].statistics == 1
  }

  lemma SlotOf(c: Settings, s: Run, order: seq<string>, sizes: map<string, nat>, p: nat)
    requires OrderSizes(order, sizes) && FirstLargestAt(order, sizes, p) && Suits(c, s, order, sizes)
    ensures LargestSlot(c, s.state.folders) == p
  {
    var l := LargestSlot(c, s.state.folders);
    assert order[p] in order && order[l] in order;
  }

  lemma Behind(order: seq<string>, p: nat) returns (g: string)
    requires !AllNear(order, p)
    ensures OnlyBehind(order, p, g)
  {
    g :| g in order && !Near(order, p, g);
  }

  lemma ExampleSuits(order: seq<string>, sizes: map<string, nat>, p: nat, g: string)
    requires OrderSizes(order, sizes) && FirstLargestAt(order, sizes, p) && OnlyBehind(order, p, g)
    ensures var c, s := SettingsFor(order, sizes, p), RunFor(order, sizes, p, g);
            Suits(c, s, order, sizes) && Pristine(s) && Waiting(c, s, g)
  {
    var c, s := SettingsFor(order, sizes, p), RunFor(order, sizes, p, g);
    forall n | n in order ensures forall t :: t in TracksOf(n, order[p], g, sizes[n]) ==> t.Record? {
      AllTextsRecords(sizes[n], n, order[p], g);
    }
    assert forall q :: 0 <= q < |order| ==> order[q] in order;
    assert forall n :: n in order ==> FolderOk(s.state.folders[n]);
    assert |s.state.folders[order[p]].tracks| == c.maxHtSize;
    BoundedEnds(c, s);
    SlotOf(c, s, order, sizes, p);
  }

  ghost predicate AlwaysGivesUpWell(order: seq<string>, sizes: map<string, nat>) {
    forall c, s :: Suits(c, s, order, sizes) ==> GivesUpWell(c, s)
  }

  lemma NearOne(c: Settings, s: Run, order: seq<string>, sizes: map<string, nat>, p: nat)
    requires OrderSizes(order, sizes) && FirstLargestAt(order, sizes, p) && AllNear(order, p)
    requires Suits(c, s, order, sizes)
    ensures GivesUpWell(c, s)
  {
    SlotOf(c, s, order, sizes, p);
    forall q | 0 <= q <= p ensures AllRecords(s.state.folders[c.order[q]]) {
      assert c.order[q] in order;
    }
    GivingUpEverywhere(c, s);
  }

  lemma NearGivesUpWell(order: seq<string>, sizes: map<string, nat>, p: nat)
    requires OrderSizes(order, sizes) && FirstLargestAt(order, sizes, p) && AllNear(order, p)
    ensures AlwaysGivesUpWell(order, sizes)
  {
    forall c, s | Suits(c, s, order, sizes) ensures GivesUpWell(c, s) {
      NearOne(c, s, order, sizes, p);
    }
  }

  lemma NotAlways(c: Settings, s: Run, order: seq<string>, sizes: map<string, nat>)
    requires Suits(c, s, order, sizes) && !GivesUpWell(c, s)
    ensures !AlwaysGivesUpWell(order, sizes)
  {
  }

  /**
    The exact condition on a folder order: giving up is justified for all its folders, in every run begun
    from nothing, if and only if each of them has a slot up to the first largest one; else it already
    fails for a new rotator, with some content of the folders, some history and some rules.
    */
  lemma GivesUpWellExactly(order: seq<string>, sizes: map<string, nat>, p: nat)
    requires OrderSizes(order, sizes) && FirstLargestAt(order, sizes, p)
    ensures AllNear(order, p) <==> AlwaysGivesUpWell(order, sizes)
    ensures !AllNear(order, p) ==>
              exists c, s, g :: Suits(c, s, order, sizes) && Pristine(s) && OnlyBehind(order, p, g) && Misses(c, s, g)
  {
    if AllNear(order, p) {
      NearGivesUpWell(order, sizes, p);
    } else {
      var c, s, g := BehindMisses(order, sizes, p);
      NotAlways(c, s, order, sizes);
    }
  }

  lemma BehindMisses(order: seq<string>, sizes: map<string, nat>, p: nat) returns (c: Settings, s: Run, g: string)
    requires OrderSizes(order, sizes) && FirstLargestAt(order, sizes, p) && !AllNear(order, p)
    ensures Suits(c, s, order, sizes) && Pristine(s) && OnlyBehind(order, p, g) && Misses(c, s, g)
    ensures !GivesUpWell(c, s)
  {
    g := Behind(order, p);
    c, s := SettingsFor(order, sizes, p), RunFor(order, sizes, p, g);
    ExampleSuits(order, sizes, p, g);
    WaitingMisses(c, s, g);
    Misfit(c, s, g);
  }
}
