/** What one visit does, why a run ends, and the run itself. */
module RotatorRun {
  import opened RotatorModel

  /** Only the cursor and the weight of folder `name` may differ. */
  ghost predicate OnlyCursor(a: State, b: State, name: string) {
    && name in a.folders && a.folders.Keys == b.folders.Keys
    && (forall n :: n in a.folders && n != name ==> b.folders[n] == a.folders[n])
    && b.folders[name].tracks == a.folders[name].tracks
    && b.folders[name].service == a.folders[name].service
  }

  /** Nothing was added. */
  ghost predicate Barren(a: State, b: State) {
    && b.history == a.history && b.origin == a.origin && b.playlist == a.playlist
    && b.duration == a.duration && b.increaseCounter == a.increaseCounter
  }

  /** Track `t`, the one before the cursor of folder `f`, was added, and the history before it accepted it. */
  ghost predicate AddedTrack(c: Settings, a: State, b: State, name: string, f: Folder, t: TrackData) {
    && 0 < f.index <= |f.tracks| && t == f.tracks[f.index - 1] && Accepts(a.history, c.rules, f, t)
    && b.history == a.history + [Entry(t.singer, t.title, f.statistics + 1)]
    && b.origin == a.origin + [OriginOf(name, f)]
    && b.playlist == a.playlist + [t]
    && b.duration == a.duration + Length(t, c.defaultDuration)
    && b.increaseCounter == 0
  }

  ghost predicate OneAdded(c: Settings, a: State, b: State, name: string) {
    name in b.folders && exists t :: AddedTrack(c, a, b, name, b.folders[name], t)
  }

  /** Tracks `lo..` of the folder exist and are refused at the folder's present weight. */
  ghost predicate RefusedFrom(h: seq<Entry>, r: Rules, f: Folder, lo: int) {
    forall k :: 0 <= lo <= k < |f.tracks| ==> !Accepts(h, r, f, f.tracks[k])
  }

  /** Tracks `lo..hi` of the folder are refused at the folder's present weight. */
  ghost predicate Passed(h: seq<Entry>, r: Rules, f: Folder, lo: int, hi: int) {
    forall k :: 0 <= lo <= k < hi && k < |f.tracks| ==> !Accepts(h, r, f, f.tracks[k])
  }

  ghost predicate AllRecords(f: Folder) {
    forall t :: t in f.tracks ==> t.Record?
  }

  /**
    A visit adds at most one track, the last it came to, and all before it are refused; it wraps the
    folder exactly when it began at its end, and a barren visit to a folder of records refuses
    everything from its first offer to the end.
    */
  ghost predicate VisitDid(c: Settings, st: State, name: string, v: Visited)
    requires name in st.folders
  {
    var f := st.folders[name];
    && FoldersOk(v.state.folders) && OnlyCursor(st, v.state, name)
    && (Barren(st, v.state) || OneAdded(c, st, v.state, name))
    && v.state.folders[name].statistics == Rewound(f).statistics
    && v.state.folders[name].index > Rewound(f).index
    && (v.toNext <==> f.index < |f.tracks| || f.index < c.maxHtSize)
    && (var g := v.state.folders[name];
        Passed(st.history, c.rules, g, Rewound(f).index, if Barren(st, v.state) then g.index else g.index - 1))
    && (Barren(st, v.state) && AllRecords(f) ==>
          && v.state.folders[name].index == |f.tracks|
          && RefusedFrom(st.history, c.rules, v.state.folders[name], Rewound(f).index))
  }

  lemma OfferDone(c: Settings, st: State, name: string)
    requires FoldersOk(st.folders) && name in st.folders && Offer(c, st, name).done
    ensures VisitDid(c, st, name, Offer(c, st, name))
  {
    var f := Rewound(st.folders[name]);
    var t := f.tracks[f.index];
    var v := Offer(c, st, name);
    var g := v.state.folders[name];
    assert g == f.(index := f.index + 1);
    assert Accepts(st.history, c.rules, f, t) == Accepts(st.history, c.rules, g, t);
    if Accepts(st.history, c.rules, f, t) {
      assert AddedTrack(c, st, v.state, name, g, t);
      assert |v.state.playlist| == |st.playlist| + 1;
      assert !Barren(st, v.state);
    } else if t.Record? {
      RefusedLast(st.history, c.rules, g);
    } else {
      assert t in st.folders[name].tracks;
    }
  }

  /** With the cursor at the end only the last track was left to refuse. */
  lemma RefusedLast(h: seq<Entry>, r: Rules, f: Folder)
    requires f.index == |f.tracks| > 0 && !Accepts(h, r, f, f.tracks[|f.tracks| - 1])
    ensures RefusedFrom(h, r, f, |f.tracks| - 1)
  {
  }

  /** After a refused offer the rest of the visit is a visit. */
  lemma OfferThenVisit(c: Settings, st: State, name: string, w: Visited)
    requires FoldersOk(st.folders) && name in st.folders && !Offer(c, st, name).done
    requires VisitDid(c, Offer(c, st, name).state, name, w)
    ensures VisitDid(c, st, name, Visited(w.state, Offer(c, st, name).toNext && w.toNext, true))
  {
    var f := Rewound(st.folders[name]);
    var v := Offer(c, st, name);
    var z := w.state.folders[name];
    assert v.state == st.(folders := st.folders[name := f.(index := f.index + 1)]);
    assert OnlyCursor(st, w.state, name);
    if OneAdded(c, v.state, w.state, name) {
      var u :| AddedTrack(c, v.state, w.state, name, z, u);
      assert AddedTrack(c, st, w.state, name, z, u);
    }
    assert Accepts(st.history, c.rules, z, z.tracks[f.index]) == Accepts(st.history, c.rules, f, f.tracks[f.index]);
  }

  lemma {:induction false} VisitEffect(c: Settings, st: State, name: string)
    requires FoldersOk(st.folders) && name in st.folders
    ensures VisitDid(c, st, name, Visit(c, st, name))
    decreases |st.folders[name].tracks| - Rewound(st.folders[name]).index
  {
    var v := Offer(c, st, name);
    if v.done {
      OfferDone(c, st, name);
    } else {
      VisitEffect(c, v.state, name);
      OfferThenVisit(c, st, name, Visit(c, v.state, name));
    }
  }

  /** Track `k` of the folder, as it is offered, ends a visit: it is no record, or it is accepted. */
  ghost predicate EndsVisit(c: Settings, st: State, f: Folder, k: nat)
    requires k < |f.tracks|
  {
    f.tracks[k].NotRecord? || Accepts(st.history, c.rules, f, f.tracks[k])
  }

  /** The visit comes to track `k`, or to the folder's end if `k` is its size. */
  ghost predicate ComesTo(c: Settings, st: State, name: string, k: nat)
    requires FoldersOk(st.folders) && name in st.folders
  {
    var f := Rewound(st.folders[name]);
    && f.index <= k <= |f.tracks|
    && (forall j :: f.index <= j < k ==> !EndsVisit(c, st, f, j))
    && (k < |f.tracks| ==> EndsVisit(c, st, f, k))
  }

  /** The state after a visit that came to track `k`: the cursor behind it, and the track on the list if accepted. */
  ghost function Left(c: Settings, st: State, name: string, k: nat): State
    requires FoldersOk(st.folders) && name in st.folders && k <= |st.folders[name].tracks|
  {
    var f := Rewound(st.folders[name]);
    var moved := st.(folders := st.folders[name := f.(index := if k < |f.tracks| then k + 1 else k)]);
    if k == |f.tracks| || f.tracks[k].NotRecord? then moved
    else moved.(
           history := st.history + [Entry(f.tracks[k].singer, f.tracks[k].title, f.statistics + 1)],
           origin := st.origin + [OriginOf(name, f)],
           playlist := st.playlist + [f.tracks[k]],
           increaseCounter := 0,
           duration := st.duration + Length(f.tracks[k], c.defaultDuration))
  }

  /** An offer that does not end the visit leaves one that comes to the same track, to the same effect. */
  lemma OfferPasses(c: Settings, st: State, name: string, k: nat)
    requires FoldersOk(st.folders) && name in st.folders && ComesTo(c, st, name, k)
    requires var f := Rewound(st.folders[name]); f.index + 1 < |f.tracks| && k > f.index
    ensures var v := Offer(c, st, name);
            && !v.done && FoldersOk(v.state.folders) && name in v.state.folders
            && ComesTo(c, v.state, name, k) && Left(c, v.state, name, k) == Left(c, st, name, k)
  {
    var f, v := Rewound(st.folders[name]), Offer(c, st, name);
    assert !EndsVisit(c, st, f, f.index);
    var g := f.(index := f.index + 1);
    assert v.state == st.(folders := st.folders[name := g]) && Rewound(g) == g;
    forall j | 0 <= j < |f.tracks| ensures EndsVisit(c, v.state, g, j) == EndsVisit(c, st, f, j) {
    }
    assert v.state.folders[name := g.(index := if k < |f.tracks| then k + 1 else k)]
        == st.folders[name := f.(index := if k < |f.tracks| then k + 1 else k)];
  }

  /**
    A visit ends at the first track from the cursor on that is no record or is accepted, or at the folder's
    end, and its whole effect is that of this track.
    */
  lemma {:induction false} VisitEndsAt(c: Settings, st: State, name: string, k: nat)
    requires FoldersOk(st.folders) && name in st.folders && ComesTo(c, st, name, k)
    ensures Visit(c, st, name).state == Left(c, st, name, k)
    decreases |st.folders[name].tracks| - Rewound(st.folders[name]).index
  {
    var f := Rewound(st.folders[name]);
    if k > f.index && f.index + 1 < |f.tracks| {
      OfferPasses(c, st, name, k);
      VisitEndsAt(c, Offer(c, st, name).state, name, k);
    } else if k > f.index {
      assert !EndsVisit(c, st, f, f.index);
    }
  }

  // ---------------------------------------------------------------- slots and shelves

  /** The first slot that holds a folder of the largest size. */
  ghost function LargestSlot(c: Settings, fs: Shelf): (p: nat)
    requires OrderOk(c, fs)
    ensures p < |c.order| && |fs[c.order[p]].tracks| == c.maxHtSize
    ensures forall q :: 0 <= q < p ==> |fs[c.order[q]].tracks| < c.maxHtSize
  {
    FirstLargest(c, fs, 0)
  }

  ghost function FirstLargest(c: Settings, fs: Shelf, from: nat): (p: nat)
    requires OrderOk(c, fs)
    requires forall q :: 0 <= q < from ==> q < |c.order| && |fs[c.order[q]].tracks| < c.maxHtSize
    ensures p < |c.order| && |fs[c.order[p]].tracks| == c.maxHtSize
    ensures forall q :: 0 <= q < p ==> |fs[c.order[q]].tracks| < c.maxHtSize
    decreases |c.order| - from
  {
    var q0 :| 0 <= q0 < |c.order| && |fs[c.order[q0]].tracks| == c.maxHtSize;
    assert from <= q0;
    if |fs[c.order[from]].tracks| == c.maxHtSize then from else FirstLargest(c, fs, from + 1)
  }

  /** The folder has a slot not behind slot `p`. */
  ghost predicate Near(order: seq<string>, p: nat, n: string) {
    exists q :: 0 <= q <= p && q < |order| && order[q] == n
  }

  /** The shelves, as opposed to the cursors on them; weights only grow. */
  ghost predicate SameShelves(a: Shelf, b: Shelf) {
    && a.Keys == b.Keys
    && forall n :: n in a ==>
         b[n].tracks == a[n].tracks && b[n].service == a[n].service && b[n].statistics >= a[n].statistics
  }

  lemma LargestSlotStays(c: Settings, a: Shelf, b: Shelf)
    requires OrderOk(c, a) && SameShelves(a, b)
    ensures OrderOk(c, b) && LargestSlot(c, a) == LargestSlot(c, b)
  {
    var q0 :| 0 <= q0 < |c.order| && |a[c.order[q0]].tracks| == c.maxHtSize;
    assert |b[c.order[q0]].tracks| == c.maxHtSize;
    var p, q := LargestSlot(c, a), LargestSlot(c, b);
    assert |b[c.order[p]].tracks| == c.maxHtSize && |a[c.order[q]].tracks| == c.maxHtSize;
  }

  ghost function After(v: Verdict): Run {
    if v.Going? then v.next else v.last
  }

  lemma VisitKeeps(c: Settings, s: Run, v: Visited)
    requires RunOk(c, s) && VisitDid(c, s.state, c.order[s.pos], v)
    ensures FoldersOk(v.state.folders) && SameShelves(s.state.folders, v.state.folders) && OrderOk(c, v.state.folders)
    ensures |s.state.playlist| <= |v.state.playlist| <= |s.state.playlist| + 1
    ensures 0 <= v.state.increaseCounter <= MAX_INCREASE_COUNTER
  {
    LargestSlotStays(c, s.state.folders, v.state.folders);
  }

  lemma AtStartKeeps(c: Settings, fs: Shelf)
    requires FoldersOk(fs) && OrderOk(c, fs)
    ensures FoldersOk(AtStart(fs)) && SameShelves(fs, AtStart(fs)) && OrderOk(c, AtStart(fs))
  {
    LargestSlotStays(c, fs, AtStart(fs));
  }

  lemma EndRoundKeeps(c: Settings, s: Run)
    requires FoldersOk(s.state.folders) && OrderOk(c, s.state.folders) && s.previous <= |s.state.playlist|
    requires 0 <= s.state.increaseCounter <= MAX_INCREASE_COUNTER
    ensures var t := EndRound(s);
            && SameShelves(s.state.folders, After(t).state.folders)
            && FoldersOk(After(t).state.folders) && OrderOk(c, After(t).state.folders)
            && (t.Going? ==> RunOk(c, t.next))
  {
    AtStartKeeps(c, s.state.folders);
  }

  /** A step keeps the run well formed and the shelves as they are. */
  lemma StepKeeps(c: Settings, s: Run, v: Visited)
    requires RunOk(c, s) && VisitDid(c, s.state, c.order[s.pos], v)
    ensures var t := AfterVisit(c, s.(state := v.state), v.toNext);
            && SameShelves(s.state.folders, After(t).state.folders)
            && FoldersOk(After(t).state.folders) && OrderOk(c, After(t).state.folders)
            && (t.Going? ==> RunOk(c, t.next))
  {
    VisitKeeps(c, s, v);
    EndRoundKeeps(c, s.(state := v.state));
  }

  lemma TurnKeeps(c: Settings, s: Run)
    requires RunOk(c, s)
    ensures SameShelves(s.state.folders, After(Turn(c, s)).state.folders)
    ensures FoldersOk(After(Turn(c, s)).state.folders) && OrderOk(c, After(Turn(c, s)).state.folders)
    ensures Turn(c, s).Going? ==> RunOk(c, Turn(c, s).next)
  {
    VisitEffect(c, s.state, c.order[s.pos]);
    StepKeeps(c, s, Visit(c, s.state, c.order[s.pos]));
  }

  // ---------------------------------------------------------------- the run

  /** The run stops within `n` more turns after the next one. */
  ghost predicate StopsIn(c: Settings, s: Run, n: nat)
    requires RunOk(c, s)
    decreases n
  {
    Turn(c, s).Stopped? || (n > 0 && (TurnKeeps(c, s); StopsIn(c, Turn(c, s).next, n - 1)))
  }

  /** The run stops at all. */
  ghost predicate Ends(c: Settings, s: Run)
    requires RunOk(c, s)
  {
    exists n: nat :: StopsIn(c, s, n)
  }

  /** How a run that stops in time ends, and after how many turns. */
  ghost function Finish(c: Settings, s: Run, n: nat): (r: (Verdict, nat))
    requires RunOk(c, s) && StopsIn(c, s, n)
    ensures r.0.Stopped?
    decreases n
  {
    TurnKeeps(c, s);
    if Turn(c, s).Stopped? then (Turn(c, s), 1)
    else
      var rest := Finish(c, Turn(c, s).next, n - 1);
      (rest.0, rest.1 + 1)
  }

  /** More time changes nothing. */
  lemma {:induction false} FinishOnce(c: Settings, s: Run, m: nat, n: nat)
    requires RunOk(c, s) && StopsIn(c, s, m) && StopsIn(c, s, n)
    ensures Finish(c, s, m) == Finish(c, s, n)
    decreases m
  {
    if Turn(c, s).Going? {
      TurnKeeps(c, s);
      FinishOnce(c, Turn(c, s).next, m - 1, n - 1);
    }
  }

  /** The verdict on a run that ends. */
  ghost function Outcome(c: Settings, s: Run): (v: Verdict)
    requires RunOk(c, s) && Ends(c, s)
    ensures v.Stopped?
  {
    var n: nat :| StopsIn(c, s, n);
    Finish(c, s, n).0
  }

  /** How many turns it takes. */
  ghost function Turns(c: Settings, s: Run): (n: nat)
    requires RunOk(c, s) && Ends(c, s)
  {
    var n: nat :| StopsIn(c, s, n);
    Finish(c, s, n).1
  }

  lemma OutcomeIn(c: Settings, s: Run, n: nat)
    requires RunOk(c, s) && StopsIn(c, s, n)
    ensures Ends(c, s) && Outcome(c, s) == Finish(c, s, n).0 && Turns(c, s) == Finish(c, s, n).1
  {
    var m: nat :| StopsIn(c, s, m) && Outcome(c, s) == Finish(c, s, m).0;
    FinishOnce(c, s, m, n);
    var k: nat :| StopsIn(c, s, k) && Turns(c, s) == Finish(c, s, k).1;
    FinishOnce(c, s, k, n);
  }

  /** A run goes on with its next turn. */
  lemma RunSteps(c: Settings, s: Run)
    requires RunOk(c, s) && Ends(c, s)
    ensures Turn(c, s).Stopped? ==> Outcome(c, s) == Turn(c, s)
    ensures Turn(c, s).Going? ==>
              var next := Turn(c, s).next;
              && RunOk(c, next) && Ends(c, next)
              && Outcome(c, s) == Outcome(c, next) && Turns(c, next) < Turns(c, s)
  {
    var n: nat :| StopsIn(c, s, n);
    OutcomeIn(c, s, n);
    TurnKeeps(c, s);
    if Turn(c, s).Going? {
      OutcomeIn(c, Turn(c, s).next, n - 1);
    }
  }

  /** A run whose next turn leads to one that ends, ends. */
  lemma EndsAfter(c: Settings, s: Run)
    requires RunOk(c, s)
    requires Turn(c, s).Going? ==> RunOk(c, Turn(c, s).next) && Ends(c, Turn(c, s).next)
    ensures Ends(c, s)
  {
    if Turn(c, s).Going? {
      var n: nat :| StopsIn(c, Turn(c, s).next, n);
      assert StopsIn(c, s, n + 1);
    } else {
      assert StopsIn(c, s, 0);
    }
  }

  /** A run leaves the folders' lists and the order as they were. */
  lemma {:induction false} OutcomeKeeps(c: Settings, s: Run)
    requires RunOk(c, s) && Ends(c, s)
    ensures var fs := Outcome(c, s).last.state.folders;
            FoldersOk(fs) && SameShelves(s.state.folders, fs) && OrderOk(c, fs)
    decreases Turns(c, s)
  {
    TurnKeeps(c, s);
    RunSteps(c, s);
    if Turn(c, s).Going? {
      OutcomeKeeps(c, Turn(c, s).next);
    }
  }
}
