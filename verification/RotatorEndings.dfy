/** How a run ends: exactly at its target, or by giving up with good reason. */
module RotatorEndings {
  import opened RotatorModel
  import opened RotatorRun
  import opened RotatorTermination
  import opened Sequences

  // ---------------------------------------------------------------- stopping at the target

  /** The clock passed the target with the last track, not before it. */
  ghost predicate JustOver(c: Settings, st: State) {
    st.playlist != [] && st.duration - Length(st.playlist[|st.playlist| - 1], c.defaultDuration) < c.generalDuration
  }

  lemma CompletedNow(c: Settings, s: Run, v: Visited)
    requires RunOk(c, s) && VisitDid(c, s.state, c.order[s.pos], v)
    requires s.state.duration < c.generalDuration <= v.state.duration
    ensures JustOver(c, v.state)
  {
    var name := c.order[s.pos];
    var t :| AddedTrack(c, s.state, v.state, name, v.state.folders[name], t);
    assert v.state.playlist[|s.state.playlist|] == t;
  }

  ghost predicate RoomLeft(c: Settings, s: Run) {
    && (c.maxTracks > 0 ==> |s.state.playlist| < c.maxTracks)
    && (c.hasGeneralDuration ==> s.state.duration < c.generalDuration && (s.complete ==> 0 < c.generalDuration))
  }

  /** The limits kept by every state after room was left: the count is not passed, the length only just. */
  ghost predicate InLimits(c: Settings, st: State) {
    && (c.maxTracks > 0 ==> |st.playlist| <= c.maxTracks)
    && (c.hasGeneralDuration && st.duration >= c.generalDuration ==> JustOver(c, st))
  }

  lemma StepStops(c: Settings, s: Run, v: Visited)
    requires RunOk(c, s) && VisitDid(c, s.state, c.order[s.pos], v) && RoomLeft(c, s)
    ensures var t := AfterVisit(c, s.(state := v.state), v.toNext);
            if t.Going? then RoomLeft(c, t.next) else InLimits(c, t.last.state)
  {
    VisitKeeps(c, s, v);
    if s.state.duration < c.generalDuration <= v.state.duration {
      CompletedNow(c, s, v);
    }
  }

  /**
    A run with room for more never exceeds `maxTracks`, so that it has exactly that many tracks when
    the count completes it; a run for a length overshoots by less than its last track.
    */
  lemma {:induction false} RunStops(c: Settings, s: Run)
    requires RunOk(c, s) && Ends(c, s) && RoomLeft(c, s)
    ensures InLimits(c, Outcome(c, s).last.state)
    decreases Turns(c, s)
  {
    VisitEffect(c, s.state, c.order[s.pos]);
    StepStops(c, s, Visit(c, s.state, c.order[s.pos]));
    RunSteps(c, s);
    if Turn(c, s).Going? {
      RunStops(c, Turn(c, s).next);
    }
  }

  lemma TurnReason(c: Settings, s: Run)
    requires RunOk(c, s) && Turn(c, s).Stopped?
    ensures var o := Turn(c, s);
            && (o.why.Completed? <==> IsCompleted(c, o.last.state))
            && (o.why.GaveUp? ==> c.special && o.last.state.increaseCounter == MAX_INCREASE_COUNTER + 1)
            && (o.why.Wrapped? ==> !c.special)
  {
    VisitEffect(c, s.state, c.order[s.pos]);
    VisitKeeps(c, s, Visit(c, s.state, c.order[s.pos]));
  }

  /** The reason a run reports is the true one. */
  lemma {:induction false} ReasonTrue(c: Settings, s: Run)
    requires RunOk(c, s) && Ends(c, s)
    ensures var o := Outcome(c, s);
            && (o.why.Completed? <==> IsCompleted(c, o.last.state))
            && (o.why.GaveUp? ==> c.special && o.last.state.increaseCounter == MAX_INCREASE_COUNTER + 1)
            && (o.why.Wrapped? ==> !c.special)
    decreases Turns(c, s)
  {
    RunSteps(c, s);
    if Turn(c, s).Going? {
      ReasonTrue(c, Turn(c, s).next);
    } else {
      TurnReason(c, s);
    }
  }

  // ---------------------------------------------------------------- giving up

  /** The cursor is at the end and no track of the folder is acceptable at its present weight. */
  ghost predicate Exhausted(r: Rules, h: seq<Entry>, f: Folder) {
    f.index == |f.tracks| && RefusedFrom(h, r, f, 0)
  }

  /** How far a folder is towards being exhausted: not walked, walked to its end, refused as a whole. */
  ghost function Level(r: Rules, h: seq<Entry>, f: Folder): int {
    if f.index != |f.tracks| then 0 else if RefusedFrom(h, r, f, 0) then 2 else 1
  }

  ghost predicate RecordsUpTo(c: Settings, fs: Shelf)
    requires OrderOk(c, fs)
  {
    forall q :: 0 <= q <= LargestSlot(c, fs) ==> AllRecords(fs[c.order[q]])
  }

  /** Slots up to the first largest one are at least at `base`, and one further below `reached`. */
  ghost predicate Levels(c: Settings, st: State, base: int, reached: int)
    requires OrderOk(c, st.folders)
  {
    forall q :: 0 <= q <= LargestSlot(c, st.folders) ==>
      Level(c.rules, st.history, st.folders[c.order[q]]) >= Min(2, if q < reached then base + 1 else base)
  }

  /**
    Within a round that began at the first slot, `reached` leading slots have been visited; as long as
    nothing is added, each round lifts every slot up to the first largest one by a level.
    */
  ghost predicate Rounds(c: Settings, s: Run, reached: int)
    requires RunOk(c, s)
  {
    var p := LargestSlot(c, s.state.folders);
    && (reached > p || reached == s.pos)
    && (s.complete ==> s.state.increaseCounter == 0)
    && (|s.state.playlist| == s.previous ==> Levels(c, s.state, s.state.increaseCounter - 1, reached))
  }

  lemma BarrenLifts(c: Settings, st: State, name: string, v: Visited, n: string)
    requires FoldersOk(st.folders) && name in st.folders && VisitDid(c, st, name, v) && n in st.folders
    requires Barren(st, v.state) && (n == name ==> AllRecords(st.folders[name]))
    ensures Level(c.rules, st.history, v.state.folders[n])
         >= Min(2, Level(c.rules, st.history, st.folders[n]) + if n == name then 1 else 0)
  {
  }

  lemma BarrenRaisesSlot(c: Settings, s: Run, v: Visited, reached: int, q: int)
    requires RunOk(c, s) && VisitDid(c, s.state, c.order[s.pos], v)
    requires RecordsUpTo(c, s.state.folders) && Rounds(c, s, reached) && 0 <= q <= LargestSlot(c, s.state.folders)
    requires Barren(s.state, v.state) && |s.state.playlist| == s.previous
    ensures Level(c.rules, v.state.history, v.state.folders[c.order[q]])
         >= Min(2, if q < (if reached == s.pos then s.pos + 1 else reached) then s.state.increaseCounter
                   else s.state.increaseCounter - 1)
  {
    BarrenLifts(c, s.state, c.order[s.pos], v, c.order[q]);
  }

  lemma BarrenRaises(c: Settings, s: Run, v: Visited, reached: int)
    requires RunOk(c, s) && VisitDid(c, s.state, c.order[s.pos], v) && OrderOk(c, v.state.folders)
    requires RecordsUpTo(c, s.state.folders) && Rounds(c, s, reached)
    requires Barren(s.state, v.state) && |s.state.playlist| == s.previous
    ensures Levels(c, v.state, s.state.increaseCounter - 1, if reached == s.pos then s.pos + 1 else reached)
  {
    VisitKeeps(c, s, v);
    LargestSlotStays(c, s.state.folders, v.state.folders);
    var base := s.state.increaseCounter - 1;
    forall q | 0 <= q <= LargestSlot(c, v.state.folders)
      ensures Level(c.rules, v.state.history, v.state.folders[c.order[q]])
           >= Min(2, if q < (if reached == s.pos then s.pos + 1 else reached) then base + 1 else base)
    {
      BarrenRaisesSlot(c, s, v, reached, q);
    }
  }

  /** The slot at which a round ends is not before the first largest one. */
  lemma RoundEnds(c: Settings, s: Run, v: Visited)
    requires RunOk(c, s) && VisitDid(c, s.state, c.order[s.pos], v) && !v.toNext
    ensures s.pos >= LargestSlot(c, s.state.folders)
  {
    assert FolderOk(s.state.folders[c.order[s.pos]]);
  }

  lemma RoundGoesOn(c: Settings, s: Run, v: Visited, reached: int)
    requires RunOk(c, s) && VisitDid(c, s.state, c.order[s.pos], v)
    requires RecordsUpTo(c, s.state.folders) && Rounds(c, s, reached)
    requires v.toNext && AfterVisit(c, s.(state := v.state), true).Going?
    requires RunOk(c, AfterVisit(c, s.(state := v.state), true).next)
    ensures Rounds(c, AfterVisit(c, s.(state := v.state), true).next, if reached == s.pos then s.pos + 1 else reached)
  {
    VisitKeeps(c, s, v);
    LargestSlotStays(c, s.state.folders, v.state.folders);
    if Barren(s.state, v.state) && |s.state.playlist| == s.previous {
      BarrenRaises(c, s, v, reached);
    }
  }

  /** At the end of a round every slot up to the first largest one has been visited in it. */
  ghost predicate RoundDone(c: Settings, s: Run)
    requires OrderOk(c, s.state.folders)
  {
    && (s.complete ==> s.state.increaseCounter == 0)
    && (|s.state.playlist| == s.previous ==>
          Levels(c, s.state, s.state.increaseCounter - 1, LargestSlot(c, s.state.folders) + 1))
  }

  lemma RoundFinishes(c: Settings, s: Run, v: Visited, reached: int)
    requires RunOk(c, s) && VisitDid(c, s.state, c.order[s.pos], v) && !v.toNext
    requires RecordsUpTo(c, s.state.folders) && Rounds(c, s, reached)
    ensures OrderOk(c, v.state.folders) && RoundDone(c, s.(state := v.state))
  {
    VisitKeeps(c, s, v);
    LargestSlotStays(c, s.state.folders, v.state.folders);
    RoundEnds(c, s, v);
    if Barren(s.state, v.state) && |s.state.playlist| == s.previous {
      BarrenRaises(c, s, v, reached);
    }
  }

  lemma NextRoundBegins(c: Settings, s: Run)
    requires OrderOk(c, s.state.folders) && RoundDone(c, s) && s.previous <= |s.state.playlist|
    requires EndRound(s).Going? && RunOk(c, EndRound(s).next)
    ensures Rounds(c, EndRound(s).next, 0)
  {
    var t := EndRound(s).next;
    if s.complete || |s.state.playlist| > s.previous {
      assert t.state.increaseCounter <= 1;
    }
  }

  lemma RecordsStay(c: Settings, a: Shelf, b: Shelf)
    requires OrderOk(c, a) && SameShelves(a, b) && RecordsUpTo(c, a)
    ensures OrderOk(c, b) && RecordsUpTo(c, b)
  {
    LargestSlotStays(c, a, b);
  }

  /** Every slot up to the first largest one holds an exhausted folder. */
  ghost predicate AllExhausted(c: Settings, st: State) {
    && OrderOk(c, st.folders)
    && forall q :: 0 <= q <= LargestSlot(c, st.folders) ==> Exhausted(c.rules, st.history, st.folders[c.order[q]])
  }

  lemma GivesUpExhausted(c: Settings, s: Run)
    requires OrderOk(c, s.state.folders) && RoundDone(c, s)
    requires EndRound(s).Stopped? && s.previous <= |s.state.playlist|
    ensures AllExhausted(c, EndRound(s).last.state)
  {
  }

  /** One turn: the rounds go on, or the run gives up with everything exhausted. */
  lemma RoundsTurn(c: Settings, s: Run, reached: int) returns (next: int)
    requires RunOk(c, s) && RecordsUpTo(c, s.state.folders) && Rounds(c, s, reached)
    ensures Turn(c, s).Going? ==>
              RunOk(c, Turn(c, s).next) && RecordsUpTo(c, Turn(c, s).next.state.folders)
              && Rounds(c, Turn(c, s).next, next)
    ensures Turn(c, s).Stopped? && Turn(c, s).why.GaveUp? ==> AllExhausted(c, Turn(c, s).last.state)
  {
    var v := Visit(c, s.state, c.order[s.pos]);
    VisitEffect(c, s.state, c.order[s.pos]);
    StepKeeps(c, s, v);
    next := if !v.toNext then 0 else if reached == s.pos then s.pos + 1 else reached;
    if AfterVisit(c, s.(state := v.state), v.toNext).Going? {
      RecordsStay(c, s.state.folders, AfterVisit(c, s.(state := v.state), v.toNext).next.state.folders);
    }
    if v.toNext {
      if AfterVisit(c, s.(state := v.state), v.toNext).Going? {
        RoundGoesOn(c, s, v, reached);
      }
    } else {
      VisitKeeps(c, s, v);
      RoundFinishes(c, s, v, reached);
      var after := s.(state := v.state);
      if AfterVisit(c, s.(state := v.state), v.toNext).Going? {
        NextRoundBegins(c, after);
      } else if AfterVisit(c, s.(state := v.state), v.toNext).why.GaveUp? {
        GivesUpExhausted(c, after);
      }
    }
  }

  /**
    Giving up is justified: when a run from the first slot gives up, every folder up to and including
    the first one of the largest size has been walked to its end and holds no track that the present
    history would accept at the folder's present weight.
    */
  lemma {:induction false} GivingUpJustified(c: Settings, s: Run, reached: int)
    requires RunOk(c, s) && Ends(c, s) && RecordsUpTo(c, s.state.folders) && Rounds(c, s, reached)
    ensures Outcome(c, s).why.GaveUp? ==> AllExhausted(c, Outcome(c, s).last.state)
    decreases Turns(c, s)
  {
    var next := RoundsTurn(c, s, reached);
    RunSteps(c, s);
    if Turn(c, s).Going? {
      GivingUpJustified(c, Turn(c, s).next, next);
    }
  }

  /** What is refused at one weight was refused at every lower one. */
  lemma RefusedBelow(h: seq<Entry>, r: Rules, f: Folder, t: TrackData, w: int)
    requires !Accepts(h, r, f, t) && w <= f.statistics
    ensures !Accepts(h, r, f.(statistics := w), t)
  {
  }

  ghost predicate Fresh(s: Run) {
    s.pos == 0 && s.previous == 0 && s.state.playlist == [] && s.state.increaseCounter == 0
  }

  /** A list begun from nothing is justified in giving up. */
  lemma FreshGivingUp(c: Settings, s: Run)
    requires RunOk(c, s) && Ends(c, s) && Fresh(s) && RecordsUpTo(c, s.state.folders)
    ensures Outcome(c, s).why.GaveUp? ==> AllExhausted(c, Outcome(c, s).last.state)
  {
    GivingUpJustified(c, s, 0);
  }

  /** A list begun from nothing and wanted by count alone has exactly that count when completed. */
  lemma FreshCount(c: Settings, s: Run)
    requires RunOk(c, s) && Fresh(s) && c.maxTracks > 0 && !c.hasGeneralDuration
    ensures Ends(c, s)
    ensures |Outcome(c, s).last.state.playlist| <= c.maxTracks
    ensures Outcome(c, s).why.Completed? <==> |Outcome(c, s).last.state.playlist| == c.maxTracks
  {
    BoundedEnds(c, s);
    RunStops(c, s);
    ReasonTrue(c, s);
  }
}
