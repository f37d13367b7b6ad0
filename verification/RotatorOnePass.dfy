/** Lists without special conditions: one pass, which ends when a largest folder comes to its end again. */
module RotatorOnePass {
  import opened RotatorModel
  import opened RotatorRun
  import opened RotatorTermination
  import opened RotatorLaws

  /** Since `a` the track was offered at this weight: it is on the list, or the history of some moment refused it. */
  ghost predicate Tried(c: Settings, a: State, b: State, f: Folder, weight: int, t: TrackData) {
    || t in b.playlist
    || exists m :: |a.history| <= m <= |b.history|
         && !Accepts(b.history[..m], c.rules, Folder(f.tracks, f.service, 0, weight), t)
  }

  lemma TriedStays(c: Settings, a: State, b: State, d: State, f: Folder, weight: int, t: TrackData)
    requires Tried(c, a, b, f, weight, t) && b.playlist <= d.playlist && b.history <= d.history
    ensures Tried(c, a, d, f, weight, t)
  {
    if t !in b.playlist {
      var m :| |a.history| <= m <= |b.history|
        && !Accepts(b.history[..m], c.rules, Folder(f.tracks, f.service, 0, weight), t);
      assert d.history[..m] == b.history[..m];
    }
  }

  /** The folder is as it was but for its cursor, and what lies before the cursor was tried. */
  ghost predicate TriedTo(c: Settings, a: State, b: State, n: string, hi: int) {
    && n in a.folders && n in b.folders
    && forall k :: 0 <= k < hi && k < |a.folders[n].tracks| ==>
         Tried(c, a, b, a.folders[n], a.folders[n].statistics, a.folders[n].tracks[k])
  }

  /** Within the pass: the largest folders still have their first weight. */
  ghost predicate InPass(c: Settings, a: State, s: Run) {
    && RunOk(c, s) && !c.special && SameShelves(a.folders, s.state.folders) && |a.history| <= |s.state.history|
    && forall n :: n in c.order && n in a.folders && |a.folders[n].tracks| == c.maxHtSize ==>
         && s.state.folders[n].statistics == a.folders[n].statistics
         && TriedTo(c, a, s.state, n, s.state.folders[n].index)
  }

  /** What a visit within the folder comes to is tried. */
  lemma VisitTries(c: Settings, a: State, s: Run, v: Visited)
    requires InPass(c, a, s) && VisitDid(c, s.state, c.order[s.pos], v)
    requires |a.folders[c.order[s.pos]].tracks| == c.maxHtSize && v.toNext
    ensures TriedTo(c, a, v.state, c.order[s.pos], v.state.folders[c.order[s.pos]].index)
  {
    var n := c.order[s.pos];
    var f, g := a.folders[n], v.state.folders[n];
    VisitGrows(c, s.state, n, v);
    forall k | 0 <= k < g.index && k < |f.tracks| ensures Tried(c, a, v.state, f, f.statistics, f.tracks[k]) {
      if k < s.state.folders[n].index {
        TriedStays(c, a, s.state, v.state, f, f.statistics, f.tracks[k]);
      } else {
        NewlyTried(c, a, s, v, k);
      }
    }
  }

  lemma NewlyTried(c: Settings, a: State, s: Run, v: Visited, k: nat)
    requires InPass(c, a, s) && VisitDid(c, s.state, c.order[s.pos], v) && v.toNext
    requires var n := c.order[s.pos];
             && |a.folders[n].tracks| == c.maxHtSize
             && s.state.folders[n].index <= k < v.state.folders[n].index && k < |a.folders[n].tracks|
    ensures var f := a.folders[c.order[s.pos]]; Tried(c, a, v.state, f, f.statistics, f.tracks[k])
  {
    var n := c.order[s.pos];
    var f, g := a.folders[n], v.state.folders[n];
    VisitGrows(c, s.state, n, v);
    if !Barren(s.state, v.state) && k == g.index - 1 {
      var t :| AddedTrack(c, s.state, v.state, n, g, t);
      assert v.state.playlist[|s.state.playlist|] == t;
    } else {
      var h, m := v.state.history, |s.state.history|;
      assert h[..m] == s.state.history;
      assert Accepts(h[..m], c.rules, Folder(f.tracks, f.service, 0, f.statistics), f.tracks[k])
          == Accepts(s.state.history, c.rules, g, g.tracks[k]);
    }
  }

  lemma OthersTried(c: Settings, a: State, s: Run, v: Visited, n: string)
    requires InPass(c, a, s) && VisitDid(c, s.state, c.order[s.pos], v) && n != c.order[s.pos]
    requires n in c.order && n in a.folders && |a.folders[n].tracks| == c.maxHtSize
    ensures TriedTo(c, a, v.state, n, v.state.folders[n].index)
  {
    var f := a.folders[n];
    VisitGrows(c, s.state, c.order[s.pos], v);
    forall k | 0 <= k < v.state.folders[n].index && k < |f.tracks|
      ensures Tried(c, a, v.state, f, f.statistics, f.tracks[k])
    {
      TriedStays(c, a, s.state, v.state, f, f.statistics, f.tracks[k]);
    }
  }

  lemma PassGoesOn(c: Settings, a: State, s: Run)
    requires InPass(c, a, s) && Turn(c, s).Going?
    ensures InPass(c, a, Turn(c, s).next)
  {
    var v := Visit(c, s.state, c.order[s.pos]);
    VisitEffect(c, s.state, c.order[s.pos]);
    TurnKeeps(c, s);
    VisitGrows(c, s.state, c.order[s.pos], v);
    forall n | n in c.order && n in a.folders && |a.folders[n].tracks| == c.maxHtSize
      ensures v.state.folders[n].statistics == a.folders[n].statistics
      ensures TriedTo(c, a, v.state, n, v.state.folders[n].index)
    {
      if n == c.order[s.pos] {
        VisitTries(c, a, s, v);
      } else {
        OthersTried(c, a, s, v, n);
      }
    }
  }

  /** Where the pass ended: at a largest folder, now one heavier, all of whose tracks had been tried. */
  ghost predicate Delivered(c: Settings, a: State, last: Run) {
    && last.pos < |c.order|
    && (var n := c.order[last.pos];
        && n in a.folders && n in last.state.folders && |a.folders[n].tracks| == c.maxHtSize
        && last.state.folders[n].statistics == a.folders[n].statistics + 1
        && TriedTo(c, a, last.state, n, c.maxHtSize))
  }

  lemma PassEnds(c: Settings, a: State, s: Run)
    requires InPass(c, a, s) && Turn(c, s).Stopped? && Turn(c, s).why.Wrapped?
    ensures Delivered(c, a, Turn(c, s).last)
  {
    var n := c.order[s.pos];
    var v := Visit(c, s.state, n);
    VisitEffect(c, s.state, n);
    VisitGrows(c, s.state, n, v);
    var f := a.folders[n];
    assert n in c.order && FolderOk(s.state.folders[n]);
    forall k | 0 <= k < c.maxHtSize && k < |f.tracks| ensures Tried(c, a, v.state, f, f.statistics, f.tracks[k]) {
      TriedStays(c, a, s.state, v.state, f, f.statistics, f.tracks[k]);
    }
  }

  lemma {:induction false} PassDelivers(c: Settings, a: State, s: Run)
    requires InPass(c, a, s) && Ends(c, s)
    ensures Outcome(c, s).why.Wrapped? ==> Delivered(c, a, Outcome(c, s).last)
    decreases Turns(c, s)
  {
    RunSteps(c, s);
    if Turn(c, s).Going? {
      PassGoesOn(c, a, s);
      PassDelivers(c, a, Turn(c, s).next);
    } else if Turn(c, s).why.Wrapped? {
      PassEnds(c, a, s);
    }
  }

  /**
    Without special conditions a run always ends; from largest folders at their first track it ends, unless a
    limit completes it, with a largest folder that has been offered as a whole at its weight and has begun
    again one heavier.
    */
  lemma OnePass(c: Settings, s: Run)
    requires RunOk(c, s) && !c.special
    requires forall n :: n in c.order && |s.state.folders[n].tracks| == c.maxHtSize ==> s.state.folders[n].index == 0
    ensures Ends(c, s)
    ensures Outcome(c, s).why.Wrapped? ==> Delivered(c, s.state, Outcome(c, s).last)
  {
    BoundedEnds(c, s);
    PassDelivers(c, s.state, s);
  }
}
