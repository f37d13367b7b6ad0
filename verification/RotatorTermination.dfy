/** When the walk over the folders ends: the measure of a run. */
module RotatorTermination {
  import opened RotatorModel
  import opened RotatorRun

  /** Bound to end: one pass only, a track target, or a length target with real lengths everywhere in the order. */
  ghost predicate Bounded(c: Settings, st: State) {
    || !c.special
    || c.maxTracks > 0
    || (c.hasGeneralDuration && AllReal(c, st.folders))
  }

  /** Every playable track of the folders of the order has a positive length. */
  ghost predicate AllReal(c: Settings, fs: Shelf) {
    forall n, t :: n in c.order && n in fs && t in fs[n].tracks && Playable(t) ==> Length(t, c.defaultDuration) >= 1
  }

  ghost function Max0(x: int): nat {
    if x < 0 then 0 else x
  }

  /** Tracks, or seconds, still wanted. */
  ghost function Wanted(c: Settings, s: Run): nat {
    if !c.special then 0
    else if c.maxTracks > 0 then Max0(c.maxTracks - |s.state.playlist|)
    else Max0(c.generalDuration - s.state.duration)
  }

  /** What the list has grown since its size was last written down. */
  ghost function Unrecorded(c: Settings, s: Run): int {
    if !c.special then 0 else |s.state.playlist| - s.previous
  }

  ghost function RetriesLeft(c: Settings, s: Run): int {
    if !c.special then 0 else MAX_INCREASE_COUNTER + 1 - s.state.increaseCounter
  }

  /** What the largest folder still has to be offered before it can wrap. */
  ghost function Unoffered(c: Settings, fs: Shelf): int
    requires OrderOk(c, fs)
  {
    var f := fs[c.order[LargestSlot(c, fs)]];
    |f.tracks| - f.index
  }

  /** Slots to go from `pos` until the largest folder is visited again. */
  ghost function Ahead(c: Settings, fs: Shelf, pos: int): int
    requires OrderOk(c, fs)
  {
    var p := LargestSlot(c, fs);
    if pos <= p then p - pos else |c.order| - pos + p
  }

  // The measure of a run, most significant first: the one re-arming still due, what is wanted, what is
  // not yet written down, the retries left, and the way of the largest folder to its next wrap.
  ghost predicate Lower(c: Settings, a: Run, b: Run)
    requires RunOk(c, a) && RunOk(c, b)
  {
    var fa, fb := a.state.folders, b.state.folders;
    || (!a.complete && b.complete)
    || (a.complete == b.complete &&
          (|| Wanted(c, a) < Wanted(c, b)
           || (Wanted(c, a) == Wanted(c, b) &&
                 (|| Unrecorded(c, a) < Unrecorded(c, b)
                  || (Unrecorded(c, a) == Unrecorded(c, b) &&
                        (|| RetriesLeft(c, a) < RetriesLeft(c, b)
                         || (RetriesLeft(c, a) == RetriesLeft(c, b) &&
                               (|| Unoffered(c, fa) < Unoffered(c, fb)
                                || (Unoffered(c, fa) == Unoffered(c, fb)
                                    && Ahead(c, fa, a.pos) < Ahead(c, fb, b.pos))))))))))
  }

  /** An added track brings a bounded run closer to its target. */
  lemma AddedCloser(c: Settings, s: Run, v: Visited)
    requires RunOk(c, s) && VisitDid(c, s.state, c.order[s.pos], v) && Bounded(c, s.state)
    requires c.special && !Barren(s.state, v.state) && !IsCompleted(c, v.state)
    ensures Wanted(c, s.(state := v.state)) < Wanted(c, s)
  {
    var name := c.order[s.pos];
    assert OneAdded(c, s.state, v.state, name);
    var t :| AddedTrack(c, s.state, v.state, name, v.state.folders[name], t);
    assert t in s.state.folders[name].tracks && Playable(t);
  }

  /** A step that stays in the round moves the largest folder on, or comes closer to it. */
  lemma StepOn(c: Settings, s: Run, v: Visited)
    requires RunOk(c, s) && VisitDid(c, s.state, c.order[s.pos], v) && v.toNext
    requires OrderOk(c, v.state.folders)
    ensures var pos := if s.pos + 1 < |c.order| then s.pos + 1 else 0;
            || Unoffered(c, v.state.folders) < Unoffered(c, s.state.folders)
            || (Unoffered(c, v.state.folders) == Unoffered(c, s.state.folders)
                && Ahead(c, v.state.folders, pos) < Ahead(c, s.state.folders, s.pos))
  {
    VisitKeeps(c, s, v);
    LargestSlotStays(c, s.state.folders, v.state.folders);
    var p := LargestSlot(c, s.state.folders);
    assert FolderOk(s.state.folders[c.order[p]]);
  }

  lemma RoundStepLower(c: Settings, s: Run, v: Visited)
    requires RunOk(c, s) && VisitDid(c, s.state, c.order[s.pos], v) && Bounded(c, s.state)
    requires v.toNext && AfterVisit(c, s.(state := v.state), v.toNext).Going?
    requires RunOk(c, AfterVisit(c, s.(state := v.state), v.toNext).next)
    ensures Lower(c, AfterVisit(c, s.(state := v.state), v.toNext).next, s)
  {
    if c.special && !Barren(s.state, v.state) {
      AddedCloser(c, s, v);
    }
    StepOn(c, s, v);
  }

  lemma WrapLower(c: Settings, s: Run, v: Visited)
    requires RunOk(c, s) && VisitDid(c, s.state, c.order[s.pos], v) && Bounded(c, s.state)
    requires !v.toNext && AfterVisit(c, s.(state := v.state), v.toNext).Going?
    requires RunOk(c, AfterVisit(c, s.(state := v.state), v.toNext).next)
    ensures Lower(c, AfterVisit(c, s.(state := v.state), v.toNext).next, s)
  {
    var next := AfterVisit(c, s.(state := v.state), v.toNext).next;
    if s.complete {
      assert !next.complete;
    } else if !Barren(s.state, v.state) {
      AddedCloser(c, s, v);
      assert Wanted(c, next) == Wanted(c, s.(state := v.state));
    } else {
      assert Wanted(c, next) == Wanted(c, s);
    }
  }

  /** Every turn that does not stop the run lowers the measure. */
  lemma TurnLower(c: Settings, s: Run)
    requires RunOk(c, s) && Bounded(c, s.state) && Turn(c, s).Going?
    ensures RunOk(c, Turn(c, s).next) && Lower(c, Turn(c, s).next, s) && Bounded(c, Turn(c, s).next.state)
  {
    VisitEffect(c, s.state, c.order[s.pos]);
    TurnKeeps(c, s);
    var v := Visit(c, s.state, c.order[s.pos]);
    if v.toNext {
      RoundStepLower(c, s, v);
    } else {
      WrapLower(c, s, v);
    }
    BoundedStays(c, s.state, Turn(c, s).next.state);
  }

  lemma BoundedStays(c: Settings, a: State, b: State)
    requires SameShelves(a.folders, b.folders) && Bounded(c, a)
    ensures Bounded(c, b)
  {
    forall n, t | n in c.order && n in b.folders && t in b.folders[n].tracks
      ensures n in a.folders && t in a.folders[n].tracks
    {
      assert b.folders[n].tracks == a.folders[n].tracks;
    }
  }

  /** A bounded run ends. */
  lemma {:induction false} BoundedEnds(c: Settings, s: Run)
    requires RunOk(c, s) && Bounded(c, s.state)
    ensures Ends(c, s)
    decreases s.complete, Wanted(c, s), Unrecorded(c, s), RetriesLeft(c, s),
              Unoffered(c, s.state.folders), Ahead(c, s.state.folders, s.pos)
  {
    if Turn(c, s).Going? {
      TurnLower(c, s);
      BoundedEnds(c, Turn(c, s).next);
    }
    EndsAfter(c, s);
  }

  // ---------------------------------------------------------------- positive lengths up to the largest folder

  /**
    Tracks of folders up to the first largest one take time, no track of the order takes time back, and
    that largest folder is walked to its end in one barren visit.
    */
  ghost predicate NearReal(c: Settings, fs: Shelf)
    requires OrderOk(c, fs)
  {
    var p := LargestSlot(c, fs);
    && AllRecords(fs[c.order[p]])
    && forall n, t :: n in c.order && n in fs && t in fs[n].tracks && Playable(t) ==>
         Length(t, c.defaultDuration) >= if Near(c.order, p, n) then 1 else 0
  }

  /**
    How far a run without near additions is from the state in which it no longer gets behind the first
    largest slot: its folder at the end, and the position not behind it.
    */
  ghost function ToGo(c: Settings, s: Run): int
    requires RunOk(c, s)
  {
    var p, m := LargestSlot(c, s.state.folders), Unoffered(c, s.state.folders);
    if m == 0 then (if s.pos <= p then 0 else |c.order| - s.pos)
    else if s.pos <= p then |c.order| - s.pos else 2 * |c.order| - s.pos
  }

  ghost predicate Closer(c: Settings, a: Run, b: Run)
    requires RunOk(c, a) && RunOk(c, b)
  {
    || (!a.complete && b.complete)
    || (a.complete == b.complete &&
          (|| Wanted(c, a) < Wanted(c, b)
           || (Wanted(c, a) == Wanted(c, b) && CloserRound(c, a, b))))
  }

  ghost predicate CloserRound(c: Settings, a: Run, b: Run)
    requires RunOk(c, a) && RunOk(c, b)
  {
    || ToGo(c, a) < ToGo(c, b)
    || (ToGo(c, a) == ToGo(c, b) == 0 &&
          (|| Unrecorded(c, a) < Unrecorded(c, b)
           || (Unrecorded(c, a) == Unrecorded(c, b) &&
                 (|| RetriesLeft(c, a) < RetriesLeft(c, b)
                  || (RetriesLeft(c, a) == RetriesLeft(c, b) && a.pos > b.pos)))))
  }

  /** A track from a near folder takes time off what is wanted, and no other gives it back. */
  lemma AddedLength(c: Settings, s: Run, v: Visited)
    requires RunOk(c, s) && VisitDid(c, s.state, c.order[s.pos], v) && NearReal(c, s.state.folders)
    requires c.special && c.maxTracks <= 0 && c.hasGeneralDuration && !IsCompleted(c, v.state)
    ensures Wanted(c, s.(state := v.state)) <= Wanted(c, s)
    ensures !Barren(s.state, v.state) && Near(c.order, LargestSlot(c, s.state.folders), c.order[s.pos]) ==>
              Wanted(c, s.(state := v.state)) < Wanted(c, s)
  {
    var name := c.order[s.pos];
    if !Barren(s.state, v.state) {
      var t :| AddedTrack(c, s.state, v.state, name, v.state.folders[name], t);
      assert t in s.state.folders[name].tracks && Playable(t);
    }
  }

  /** Only the visited folder moves; the largest one, visited in vain, stands at its end. */
  lemma LargestAfter(c: Settings, s: Run, v: Visited)
    requires RunOk(c, s) && VisitDid(c, s.state, c.order[s.pos], v) && NearReal(c, s.state.folders)
    ensures OrderOk(c, v.state.folders) && LargestSlot(c, v.state.folders) == LargestSlot(c, s.state.folders)
    ensures var m := c.order[LargestSlot(c, s.state.folders)];
            if c.order[s.pos] != m then Unoffered(c, v.state.folders) == Unoffered(c, s.state.folders)
            else Barren(s.state, v.state) ==> Unoffered(c, v.state.folders) == 0
  {
    VisitKeeps(c, s, v);
    LargestSlotStays(c, s.state.folders, v.state.folders);
  }

  /** A step within the round that adds nothing near. */
  lemma StepCloser(c: Settings, s: Run, v: Visited, t: Run)
    requires RunOk(c, s) && VisitDid(c, s.state, c.order[s.pos], v) && NearReal(c, s.state.folders) && c.special
    requires RunOk(c, t) && v.toNext && t.state == v.state && t.previous == s.previous
    requires t.pos == if s.pos + 1 < |c.order| then s.pos + 1 else 0
    requires Barren(s.state, v.state) || !Near(c.order, LargestSlot(c, s.state.folders), c.order[s.pos])
    ensures CloserRound(c, t, s)
  {
    var p := LargestSlot(c, s.state.folders);
    LargestAfter(c, s, v);
    assert FolderOk(s.state.folders[c.order[p]]);
    if s.pos <= p {
      assert Near(c.order, p, c.order[s.pos]);
    }
    assert Near(c.order, p, c.order[p]);
  }

  /** The end of a round in which the last visit added nothing near. */
  lemma WrapCloser(c: Settings, s: Run, v: Visited, t: Run)
    requires RunOk(c, s) && VisitDid(c, s.state, c.order[s.pos], v) && NearReal(c, s.state.folders) && c.special
    requires RunOk(c, t) && !v.toNext && !s.complete && EndRound(s.(state := v.state)) == Going(t)
    requires Barren(s.state, v.state) || !Near(c.order, LargestSlot(c, s.state.folders), c.order[s.pos])
    ensures CloserRound(c, t, s)
  {
    var p := LargestSlot(c, s.state.folders);
    LargestAfter(c, s, v);
    assert FolderOk(s.state.folders[c.order[p]]) && FolderOk(s.state.folders[c.order[s.pos]]);
    if s.pos <= p {
      assert Near(c.order, p, c.order[s.pos]);
    }
    assert Near(c.order, p, c.order[p]);
  }

  lemma NearRealStays(c: Settings, a: Shelf, b: Shelf)
    requires OrderOk(c, a) && SameShelves(a, b) && NearReal(c, a)
    ensures OrderOk(c, b) && NearReal(c, b)
  {
    LargestSlotStays(c, a, b);
    forall n, t | n in c.order && n in b && t in b[n].tracks ensures n in a && t in a[n].tracks {
      assert b[n].tracks == a[n].tracks;
    }
  }

  lemma TurnKeepsReal(c: Settings, s: Run)
    requires RunOk(c, s) && NearReal(c, s.state.folders) && Turn(c, s).Going?
    ensures RunOk(c, Turn(c, s).next) && NearReal(c, Turn(c, s).next.state.folders)
  {
    TurnKeeps(c, s);
    NearRealStays(c, s.state.folders, Turn(c, s).next.state.folders);
  }

  lemma VisitCloser(c: Settings, s: Run, v: Visited, t: Run)
    requires RunOk(c, s) && VisitDid(c, s.state, c.order[s.pos], v) && NearReal(c, s.state.folders)
    requires c.special && c.maxTracks <= 0 && c.hasGeneralDuration
    requires AfterVisit(c, s.(state := v.state), v.toNext) == Going(t) && RunOk(c, t)
    ensures Closer(c, t, s)
  {
    AddedLength(c, s, v);
    if v.toNext || !s.complete {
      assert t.complete == s.complete && Wanted(c, t) == Wanted(c, s.(state := v.state));
      if Barren(s.state, v.state) || !Near(c.order, LargestSlot(c, s.state.folders), c.order[s.pos]) {
        if v.toNext {
          StepCloser(c, s, v, t);
        } else {
          WrapCloser(c, s, v, t);
        }
      }
    }
  }

  lemma TurnCloser(c: Settings, s: Run)
    requires RunOk(c, s) && NearReal(c, s.state.folders) && Turn(c, s).Going?
    requires c.special && c.maxTracks <= 0 && c.hasGeneralDuration
    ensures RunOk(c, Turn(c, s).next) && NearReal(c, Turn(c, s).next.state.folders) && Closer(c, Turn(c, s).next, s)
  {
    VisitEffect(c, s.state, c.order[s.pos]);
    TurnKeepsReal(c, s);
    VisitCloser(c, s, Visit(c, s.state, c.order[s.pos]), Turn(c, s).next);
  }

  /** A run for a length ends when every track up to the first largest folder takes time. */
  lemma {:induction false} LengthEnds(c: Settings, s: Run)
    requires RunOk(c, s) && NearReal(c, s.state.folders)
    requires c.special && c.maxTracks <= 0 && c.hasGeneralDuration
    ensures Ends(c, s)
    decreases s.complete, Wanted(c, s), ToGo(c, s), if ToGo(c, s) == 0 then Unrecorded(c, s) else 0,
              if ToGo(c, s) == 0 then RetriesLeft(c, s) else 0, |c.order| - s.pos
  {
    if Turn(c, s).Going? {
      TurnCloser(c, s);
      LengthEnds(c, Turn(c, s).next);
    }
    EndsAfter(c, s);
  }
}
