/** How many barren rounds a run is given, counted out. */
module RotatorRetries {
  import opened RotatorModel
  import opened RotatorRun
  import opened RotatorTermination
  import opened RotatorEndings
  import opened RotatorBehind

  // ---------------------------------------------------------------- four rounds

  /** The first largest folder of a run. */
  ghost function Largest(c: Settings, fs: Shelf): Folder
    requires OrderOk(c, fs)
  {
    fs[c.order[LargestSlot(c, fs)]]
  }

  /** In a trapped run each turn that counts a round makes the largest folder heavier by one, and no other does. */
  lemma TrappedCounts(c: Settings, s: Run)
    requires Trapped(c, s) && |s.state.playlist| == s.previous
    ensures var t := After(Turn(c, s));
            && OrderOk(c, t.state.folders) && |t.state.playlist| == t.previous
            && Largest(c, t.state.folders).statistics - t.state.increaseCounter
               == Largest(c, s.state.folders).statistics - s.state.increaseCounter
    ensures Turn(c, s).Stopped? ==> Turn(c, s).last.state.increaseCounter == 4
  {
    var v := Visit(c, s.state, c.order[s.pos]);
    VisitEffect(c, s.state, c.order[s.pos]);
    TrappedVisit(c, s, v);
    TurnKeeps(c, s);
    LargestSlotStays(c, s.state.folders, After(Turn(c, s)).state.folders);
  }

  /**
    A trapped run whose list has not grown since its size was written down gives up after its fourth barren
    round: its largest folder is then four heavier, less the rounds already counted.
    */
  lemma {:induction false} FourRounds(c: Settings, s: Run)
    requires Trapped(c, s) && Ends(c, s) && |s.state.playlist| == s.previous
    ensures var fs := Outcome(c, s).last.state.folders;
            && Outcome(c, s).why.GaveUp? && OrderOk(c, fs)
            && Largest(c, fs).statistics == Largest(c, s.state.folders).statistics + 4 - s.state.increaseCounter
    decreases Turns(c, s)
  {
    TrappedTurn(c, s);
    TrappedCounts(c, s);
    RunSteps(c, s);
    if Turn(c, s).Going? {
      FourRounds(c, Turn(c, s).next);
    }
  }

  // ---------------------------------------------------------------- one song

  /**
    One folder with one song, one track wanted, and a history that the limits do not touch, in which the
    newest copy of the song weighs `n`.
    */
  ghost predicate OneSong(c: Settings, s: Run, g: string, t: TrackData, n: int) {
    && RunOk(c, s) && c.order == [g] && c.special && c.maxTracks == 1 && !c.hasGeneralDuration
    && !s.complete && s.state.playlist == [] && s.previous == 0
    && Playable(t) && g in s.state.folders && s.state.folders[g].tracks == [t] && !s.state.folders[g].service
    && SingerKnown(s.state.history, t.singer)
    && SingerClear(s.state.history, t.singer, c.rules.singerLimit)
    && TitleClear(s.state.history, t.title, c.rules.trackLimit)
    && exists i :: Newest(s.state.history, t.title, i) && s.state.history[i].statistics == n
  }

  lemma SongAccepted(c: Settings, s: Run, g: string, t: TrackData, n: int, f: Folder)
    requires OneSong(c, s, g, t, n) && !f.service && f.statistics >= 1
    ensures Accepts(s.state.history, c.rules, f, t) <==> n <= f.statistics
  {
    var i :| Newest(s.state.history, t.title, i) && s.state.history[i].statistics == n;
    forall j | Newest(s.state.history, t.title, j) ensures j == i {
    }
  }

  /** A visit to the folder: the song at the weight it is offered at, or nothing. */
  lemma SongVisit(c: Settings, s: Run, g: string, t: TrackData, n: int, v: Visited)
    requires OneSong(c, s, g, t, n) && VisitDid(c, s.state, g, v)
    ensures v.state.folders[g] == s.state.folders[g].(index := 1, statistics := Rewound(s.state.folders[g]).statistics)
    ensures v.toNext <==> s.state.folders[g].index == 0
    ensures if n <= Rewound(s.state.folders[g]).statistics then v.state.playlist == [t] else Barren(s.state, v.state)
  {
    var f, h := v.state.folders[g], s.state.folders[g];
    assert FolderOk(f) && FolderOk(h);
    SongAccepted(c, s, g, t, n, f);
    assert forall u :: u in h.tracks ==> u == t;
    assert Rewound(h).index == 0;
    forall u ensures AddedTrack(c, s.state, v.state, g, f, u) ==> u == t && n <= f.statistics {
    }
    assert f.tracks[0] == t;
  }

  /** The wrong half of the run: refused at every weight up to five, and then no more rounds. */
  lemma {:induction false} SongWaits(c: Settings, s: Run, g: string, t: TrackData, n: int)
    requires OneSong(c, s, g, t, n) && s.state.folders[g].index == 1 && n > s.state.folders[g].statistics
    requires s.state.folders[g].statistics == s.state.increaseCounter + 1
    ensures Ends(c, s)
    ensures n <= 5 ==> Outcome(c, s).why.Completed? && Outcome(c, s).last.state.playlist == [t]
    ensures n >= 6 ==> Outcome(c, s).why.GaveUp? && Outcome(c, s).last.state.playlist == []
    decreases 4 - s.state.increaseCounter
  {
    var v := Visit(c, s.state, g);
    VisitEffect(c, s.state, g);
    SongVisit(c, s, g, t, n, v);
    TurnKeeps(c, s);
    if Turn(c, s).Going? {
      SongWaits(c, Turn(c, s).next, g, t, n);
    }
    EndsAfter(c, s);
    RunSteps(c, s);
  }

  /**
    A new rotator with one song at weight 1 delivers it when the newest copy weighs no more than five, and
    gives up with an empty list when it weighs six or more.
    */
  lemma SixIsTooHeavy(c: Settings, s: Run, g: string, t: TrackData, n: int)
    requires OneSong(c, s, g, t, n) && s.state.increaseCounter == 0
    requires s.state.folders[g].index == 0 && s.state.folders[g].statistics == 1
    ensures Ends(c, s)
    ensures n <= 5 ==> Outcome(c, s).why.Completed? && Outcome(c, s).last.state.playlist == [t]
    ensures n >= 6 ==> Outcome(c, s).why.GaveUp? && Outcome(c, s).last.state.playlist == []
  {
    var v := Visit(c, s.state, g);
    VisitEffect(c, s.state, g);
    SongVisit(c, s, g, t, n, v);
    TurnKeeps(c, s);
    if Turn(c, s).Going? {
      SongWaits(c, Turn(c, s).next, g, t, n);
    }
    EndsAfter(c, s);
    RunSteps(c, s);
  }
}
