/** The laws of the air: spacing, weights, conservation, stopping and giving up. */
module RotatorLaws {
  import opened RotatorModel
  import opened RotatorRun

  // ---------------------------------------------------------------- what is accepted, entry by entry

  /** Without the names of an executor and a title nothing is accepted. */
  lemma NamelessRefused(h: seq<Entry>, r: Rules, f: Folder, t: TrackData)
    requires t.NotRecord? || t.singer == "" || t.title == ""
    ensures !Accepts(h, r, f, t)
  {
  }

  /** A service folder's track needs no more than the names. */
  lemma ServiceAccepted(h: seq<Entry>, r: Rules, f: Folder, t: TrackData)
    requires t.Record? && t.singer != "" && t.title != "" && f.service
    ensures Accepts(h, r, f, t)
  {
  }

  /** A new executor is accepted with any title, at any weight, under any rules. */
  lemma NewExecutorAccepted(h: seq<Entry>, r: Rules, f: Folder, t: TrackData)
    requires t.Record? && t.singer != "" && t.title != ""
    requires forall k :: 0 <= k < |h| ==> h[k].singer != t.singer
    ensures Accepts(h, r, f, t)
  {
  }

  /**
    With the executor's newest entry at `i` and no copy of the title, only the executor limit counts: at
    least so many entries behind `i`.
    */
  lemma NewTitleAccepted(h: seq<Entry>, r: Rules, f: Folder, t: TrackData, i: nat)
    requires t.Record? && t.singer != "" && t.title != "" && !f.service
    requires i < |h| && h[i].singer == t.singer && forall k :: i < k < |h| ==> h[k].singer != t.singer
    requires forall k :: 0 <= k < |h| ==> h[k].title != t.title
    ensures Accepts(h, r, f, t) <==> |h| - 1 - i >= r.singerLimit
  {
  }

  /**
    With the executor's newest entry at `i` and the newest copy of the title at `j`, whoever played it: at
    least the limits' numbers of entries behind each, and a copy that is no heavier than the folder.
    */
  lemma KnownTitleAccepted(h: seq<Entry>, r: Rules, f: Folder, t: TrackData, i: nat, j: nat)
    requires t.Record? && t.singer != "" && t.title != "" && !f.service && f.statistics >= 1
    requires i < |h| && h[i].singer == t.singer && forall k :: i < k < |h| ==> h[k].singer != t.singer
    requires j < |h| && h[j].title == t.title && forall k :: j < k < |h| ==> h[k].title != t.title
    ensures Accepts(h, r, f, t) <==>
              |h| - 1 - i >= r.singerLimit && |h| - 1 - j >= r.trackLimit && h[j].statistics <= f.statistics
  {
    assert Newest(h, t.title, j);
    forall k | Newest(h, t.title, k) ensures k == j {
    }
  }

  // ---------------------------------------------------------------- admission laws

  /** Every entry that went through the rules was admitted by the history before it. */
  ghost predicate Justified(r: Rules, h: seq<Entry>, o: seq<Origin>) {
    && |o| == |h|
    && forall j :: 0 <= j < |h| && o[j].Ruled? ==>
         && 1 <= o[j].weight && h[j].statistics == o[j].weight + 1
         && Admits(h[..j], r, h[j].singer, h[j].title, o[j].weight)
  }

  /** At least `singerLimit` entries lie between a ruled entry and any earlier one of its executor. */
  lemma ExecutorSpacing(r: Rules, h: seq<Entry>, o: seq<Origin>, i: nat, j: nat)
    requires Justified(r, h, o) && i < j < |h| && o[j].Ruled? && h[i].singer == h[j].singer
    ensures j - i - 1 >= r.singerLimit
  {
    assert h[..j][i] == h[i];
  }

  /** Between two entries of the same executor and title lie as many as the stricter limit asks. */
  lemma PairSpacing(r: Rules, h: seq<Entry>, o: seq<Origin>, i: nat, j: nat)
    requires Justified(r, h, o) && i < j < |h| && o[j].Ruled?
    requires h[i].singer == h[j].singer && h[i].title == h[j].title
    ensures j - i - 1 >= r.singerLimit && j - i - 1 >= r.trackLimit
  {
    assert h[..j][i] == h[i];
  }

  /** The title has one executor and never came from a service folder. */
  ghost predicate OneVoice(h: seq<Entry>, o: seq<Origin>, title: string) {
    && |o| == |h|
    && (forall i, j :: 0 <= i < |h| && 0 <= j < |h| && h[i].title == title && h[j].title == title ==>
          h[i].singer == h[j].singer)
    && (forall i :: 0 <= i < |h| && h[i].title == title ==> !o[i].Service?)
  }

  ghost predicate InitialFirst(o: seq<Origin>) {
    forall i, j :: 0 <= i < j < |o| && o[j].Initial? ==> o[i].Initial?
  }

  ghost function LastCopy(h: seq<Entry>, title: string, j: nat): (i: nat)
    requires j <= |h| && exists k :: 0 <= k < j && h[k].title == title
    ensures i < j && Newest(h[..j], title, i)
  {
    if h[j - 1].title == title then j - 1 else LastCopy(h, title, j - 1)
  }

  /** An admitted copy outweighs the copy before it. */
  lemma NextCopyHeavier(r: Rules, h: seq<Entry>, o: seq<Origin>, i: nat, j: nat)
    requires Justified(r, h, o) && j < |h| && o[j].Ruled? && Newest(h[..j], h[j].title, i)
    requires exists k :: 0 <= k < j && h[k].singer == h[j].singer
    ensures h[i].statistics < h[j].statistics
  {
    var k :| 0 <= k < j && h[k].singer == h[j].singer;
    assert h[..j][k] == h[k] && h[..j][i] == h[i];
  }

  /** So for a title of one voice the weights of admitted copies strictly increase. */
  lemma {:induction false} WeightsIncrease(r: Rules, h: seq<Entry>, o: seq<Origin>, i: nat, j: nat)
    requires Justified(r, h, o) && InitialFirst(o) && i < j < |h| && o[i].Ruled? && o[j].Ruled?
    requires h[i].title == h[j].title && OneVoice(h, o, h[j].title)
    ensures h[i].statistics < h[j].statistics
    decreases j
  {
    var k := LastCopy(h, h[j].title, j);
    assert h[..j][k] == h[k];
    assert h[..j][i] == h[i];
    NextCopyHeavier(r, h, o, k, j);
    if i < k {
      WeightsIncrease(r, h, o, i, k);
    }
  }

  /** One pass over a folder never places a title of one voice twice, even if it is listed twice. */
  lemma OncePerPass(r: Rules, h: seq<Entry>, o: seq<Origin>, i: nat, j: nat)
    requires Justified(r, h, o) && InitialFirst(o) && i < j < |h| && o[i].Ruled? && o[j].Ruled?
    requires h[i].title == h[j].title && OneVoice(h, o, h[j].title)
    ensures !(o[i].folder == o[j].folder && o[i].weight == o[j].weight)
  {
    WeightsIncrease(r, h, o, i, j);
  }

  // ---------------------------------------------------------------- conservation

  ghost function TotalLength(ts: seq<TrackData>, default: int): int {
    if ts == [] then 0 else TotalLength(ts[..|ts| - 1], default) + Length(ts[|ts| - 1], default)
  }

  /** Entry `e` is the trace of track `t`. */
  ghost predicate TraceOf(e: Entry, t: TrackData) {
    Playable(t) && e.singer == t.singer && e.title == t.title
  }

  ghost predicate Traces(h: seq<Entry>, ts: seq<TrackData>) {
    |h| == |ts| && forall k :: 0 <= k < |h| ==> TraceOf(h[k], ts[k])
  }

  /** From `a` to `b` the playlist, history and origins grew together, by admitted tracks only. */
  ghost predicate Grown(c: Settings, a: State, b: State) {
    && a.playlist <= b.playlist && a.history <= b.history && a.origin <= b.origin
    && |b.history| - |a.history| == |b.playlist| - |a.playlist| == |b.origin| - |a.origin|
    && Traces(b.history[|a.history|..], b.playlist[|a.playlist|..])
    && (forall k :: |a.origin| <= k < |b.origin| ==> !b.origin[k].Initial?)
    && (Justified(c.rules, a.history, a.origin) ==> Justified(c.rules, b.history, b.origin))
  }

  ghost predicate ClockRight(c: Settings, a: State, b: State)
    requires |a.playlist| <= |b.playlist|
  {
    b.duration == a.duration + TotalLength(b.playlist[|a.playlist|..], c.defaultDuration)
  }

  lemma JustifiedGrows(c: Settings, a: State, b: State, name: string, f: Folder, t: TrackData)
    requires FolderOk(f) && AddedTrack(c, a, b, name, f, t) && Justified(c.rules, a.history, a.origin)
    ensures Justified(c.rules, b.history, b.origin)
  {
    forall j | 0 <= j < |b.history| && b.origin[j].Ruled?
      ensures 1 <= b.origin[j].weight && b.history[j].statistics == b.origin[j].weight + 1
      ensures Admits(b.history[..j], c.rules, b.history[j].singer, b.history[j].title, b.origin[j].weight)
    {
      if j < |a.history| {
        assert b.history[..j] == a.history[..j] && b.history[j] == a.history[j] && b.origin[j] == a.origin[j];
      } else {
        assert b.history[..j] == a.history;
      }
    }
  }

  lemma VisitGrows(c: Settings, st: State, name: string, v: Visited)
    requires name in st.folders && VisitDid(c, st, name, v)
    ensures Grown(c, st, v.state) && ClockRight(c, st, v.state)
  {
    if Barren(st, v.state) {
      assert v.state.playlist[|st.playlist|..] == [] && v.state.history[|st.history|..] == [];
    } else {
      var t :| AddedTrack(c, st, v.state, name, v.state.folders[name], t);
      var last := v.state.playlist[|st.playlist|..];
      assert last == [t] && last[..0] == [];
      assert v.state.history[|st.history|..] == [Entry(t.singer, t.title, v.state.folders[name].statistics + 1)];
      if Justified(c.rules, st.history, st.origin) {
        JustifiedGrows(c, st, v.state, name, v.state.folders[name], t);
      }
    }
  }

  lemma {:induction false} TotalAppend(a: seq<TrackData>, b: seq<TrackData>, d: int)
    ensures TotalLength(a + b, d) == TotalLength(a, d) + TotalLength(b, d)
    decreases |b|
  {
    if b == [] {
      assert a + b == a;
    } else {
      var n := |b| - 1;
      assert (a + b)[..|a + b| - 1] == a + b[..n];
      TotalAppend(a, b[..n], d);
    }
  }

  lemma GrownTrans(c: Settings, x: State, y: State, z: State)
    requires Grown(c, x, y) && Grown(c, y, z)
    ensures Grown(c, x, z)
  {
    assert z.playlist[|x.playlist|..] == y.playlist[|x.playlist|..] + z.playlist[|y.playlist|..];
    assert z.history[|x.history|..] == y.history[|x.history|..] + z.history[|y.history|..];
  }

  lemma ClockTrans(c: Settings, x: State, y: State, z: State)
    requires x.playlist <= y.playlist <= z.playlist && ClockRight(c, x, y) && ClockRight(c, y, z)
    ensures ClockRight(c, x, z)
  {
    var n := |x.playlist|;
    assert z.playlist[n..] == y.playlist[n..] + z.playlist[|y.playlist|..];
    TotalAppend(y.playlist[n..], z.playlist[|y.playlist|..], c.defaultDuration);
  }

  lemma TurnGrows(c: Settings, s: Run)
    requires RunOk(c, s)
    ensures Grown(c, s.state, After(Turn(c, s)).state)
    ensures !s.complete ==> !After(Turn(c, s)).complete && ClockRight(c, s.state, After(Turn(c, s)).state)
  {
    var name := c.order[s.pos];
    VisitEffect(c, s.state, name);
    var v := Visit(c, s.state, name);
    VisitGrows(c, s.state, name, v);
    StepShows(c, s, v);
  }

  /** A step changes neither the list nor the history the visit left; only re-arming touches the clock. */
  lemma StepShows(c: Settings, s: Run, v: Visited)
    ensures var r := After(AfterVisit(c, s.(state := v.state), v.toNext));
            && r.state.playlist == v.state.playlist && r.state.history == v.state.history
            && r.state.origin == v.state.origin
            && (!s.complete ==> !r.complete && r.state.duration == v.state.duration)
  {
  }

  /** Over a whole run: what was there stays, and everything new is an admitted track with its trace. */
  lemma {:induction false} RunConserves(c: Settings, s: Run)
    requires RunOk(c, s) && Ends(c, s)
    ensures Grown(c, s.state, Outcome(c, s).last.state)
    ensures !s.complete ==> ClockRight(c, s.state, Outcome(c, s).last.state)
    decreases Turns(c, s)
  {
    TurnGrows(c, s);
    RunSteps(c, s);
    var t := Turn(c, s);
    if t.Going? {
      RunConserves(c, t.next);
      GrownTrans(c, s.state, t.next.state, Outcome(c, t.next).last.state);
      if !s.complete {
        ClockTrans(c, s.state, t.next.state, Outcome(c, t.next).last.state);
      }
    }
  }
}
