/**
  The playlist rotator as a function from states to states: when a track is admitted, what one
  visit to a folder does, and what a whole run over the folder order does.
  */
module RotatorModel {
  import opened PlayClock

  const MAX_INCREASE_COUNTER := 3

  datatype Rules = Rules(singerLimit: int, trackLimit: int)

  /** One played title; `statistics` is the weight it was given. */
  datatype Entry = Entry(singer: string, title: string, statistics: int)

  /**
    One element of a folder's track list. A missing or non-text field is "", as the source
    treats both alike.
    */
  datatype TrackData = NotRecord | Record(singer: string, title: string, duration: string)

  datatype Folder = Folder(tracks: seq<TrackData>, service: bool, index: nat, statistics: int)

  /** Where a history entry comes from; a reading aid the source has no field for. */
  datatype Origin = Initial | Service | Ruled(folder: string, weight: int)

  datatype State = State(
    history: seq<Entry>,
    origin: seq<Origin>,
    playlist: seq<TrackData>,
    folders: Shelf,
    increaseCounter: int,
    duration: int)

  datatype Settings = Settings(
    rules: Rules,
    order: seq<string>,
    maxHtSize: int,
    maxTracks: int,
    hasGeneralDuration: bool,
    generalDuration: int,
    special: bool,
    defaultDuration: int)

  // ---------------------------------------------------------------- admission

  predicate Playable(t: TrackData) {
    t.Record? && t.singer != "" && t.title != ""
  }

  /** Every entry of this executor has at least `limit` entries after it. */
  ghost predicate SingerClear(h: seq<Entry>, singer: string, limit: int) {
    forall i :: 0 <= i < |h| && h[i].singer == singer ==> |h| - 1 - i >= limit
  }

  ghost predicate TitleClear(h: seq<Entry>, title: string, limit: int) {
    forall i :: 0 <= i < |h| && h[i].title == title ==> |h| - 1 - i >= limit
  }

  /** Entry `i` is the newest one with this title. */
  ghost predicate Newest(h: seq<Entry>, title: string, i: int) {
    0 <= i < |h| && h[i].title == title && forall k :: i < k < |h| ==> h[k].title != title
  }

  /** The newest copy does not outweigh the folder; weights that are not positive do not count. */
  ghost predicate WeightClear(h: seq<Entry>, title: string, weight: int) {
    forall i :: Newest(h, title, i) && h[i].statistics > 0 ==> h[i].statistics <= weight
  }

  ghost predicate SingerKnown(h: seq<Entry>, singer: string) {
    exists i :: 0 <= i < |h| && h[i].singer == singer
  }

  /** The admission rule; titles are looked at only when the executor has been heard before. */
  ghost predicate Admits(h: seq<Entry>, r: Rules, singer: string, title: string, weight: int) {
    SingerKnown(h, singer) ==>
      && SingerClear(h, singer, r.singerLimit)
      && TitleClear(h, title, r.trackLimit)
      && WeightClear(h, title, weight)
  }

  ghost predicate Accepts(h: seq<Entry>, r: Rules, f: Folder, t: TrackData) {
    Playable(t) && (f.service || Admits(h, r, t.singer, t.title, f.statistics))
  }

  // ---------------------------------------------------------------- one track, one visit

  ghost predicate FolderOk(f: Folder) {
    && 0 < |f.tracks| && f.index <= |f.tracks| && 1 <= f.statistics
    && forall t :: t in f.tracks && t.Record? && t.duration != "" ==> IsTimeText(t.duration)
  }

  type Shelf = map<string, Folder>

  ghost predicate FoldersOk(fs: Shelf) {
    forall n :: n in fs ==> FolderOk(fs[n])
  }

  /** What a track adds to the length of the playlist. */
  ghost function Length(t: TrackData, default: int): int {
    if t.Record? && t.duration != "" && IsTimeText(t.duration) then Worth(t.duration, default) else 0
  }

  ghost function OriginOf(name: string, f: Folder): Origin {
    if f.service then Service else Ruled(name, f.statistics)
  }

  /** `add_to_playlist` in order mode: the list, the history and the clock grow together. */
  ghost function Add(c: Settings, st: State, name: string, f: Folder, t: TrackData): State
    requires t.Record?
  {
    st.(history := st.history + [Entry(t.singer, t.title, f.statistics + 1)],
        origin := st.origin + [OriginOf(name, f)],
        playlist := st.playlist + [t],
        increaseCounter := 0,
        duration := st.duration + Length(t, c.defaultDuration))
  }

  /** The folder as the next track is read from it: at the end it starts over, one heavier. */
  ghost function Rewound(f: Folder): Folder {
    if f.index >= |f.tracks| then f.(index := 0, statistics := f.statistics + 1) else f
  }

  datatype Visited = Visited(state: State, toNext: bool, done: bool)

  /** `global_analize`: offer the folder's next track. `toNext` turns false when the largest folder wraps. */
  ghost function Offer(c: Settings, st: State, name: string): Visited
    requires FoldersOk(st.folders) && name in st.folders
  {
    var f := Rewound(st.folders[name]);
    var t := f.tracks[f.index];
    var moved := st.(folders := st.folders[name := f.(index := f.index + 1)]);
    var accepted := Accepts(st.history, c.rules, f, t);
    Visited(
      if accepted then Add(c, moved, name, f, t) else moved,
      st.folders[name].index < |st.folders[name].tracks| || st.folders[name].index < c.maxHtSize,
      accepted || t.NotRecord? || f.index + 1 >= |f.tracks|)
  }

  /** Offers tracks of one folder until one is taken or the folder ends. */
  ghost function Visit(c: Settings, st: State, name: string): Visited
    requires FoldersOk(st.folders) && name in st.folders
    decreases |st.folders[name].tracks| - Rewound(st.folders[name]).index
  {
    var v := Offer(c, st, name);
    if v.done then v else
      var w := Visit(c, v.state, name);
      Visited(w.state, v.toNext && w.toNext, true)
  }

  // ---------------------------------------------------------------- the run over the order

  datatype Run = Run(state: State, pos: nat, previous: int, complete: bool)

  datatype Reason = Completed | GaveUp | Wrapped

  datatype Verdict = Going(next: Run) | Stopped(last: Run, why: Reason)

  ghost predicate IsCompleted(c: Settings, st: State) {
    || (c.maxTracks > 0 && |st.playlist| >= c.maxTracks)
    || (c.hasGeneralDuration && st.duration >= c.generalDuration)
  }

  ghost predicate OrderOk(c: Settings, fs: Shelf) {
    && 0 < |c.order|
    && (forall q :: 0 <= q < |c.order| ==> c.order[q] in fs)
    && (forall q :: 0 <= q < |c.order| ==> |fs[c.order[q]].tracks| <= c.maxHtSize)
    && (exists q :: 0 <= q < |c.order| && |fs[c.order[q]].tracks| == c.maxHtSize)
  }

  ghost predicate RunOk(c: Settings, s: Run) {
    && FoldersOk(s.state.folders) && OrderOk(c, s.state.folders)
    && s.pos < |c.order|
    && 0 <= s.state.increaseCounter <= MAX_INCREASE_COUNTER
    && s.previous <= |s.state.playlist|
  }

  /** Every cursor back at the first track; the weights stay. */
  ghost function AtStart(fs: Shelf): Shelf {
    map n | n in fs :: fs[n].(index := 0)
  }

  /** What `prepare` does to a rotator whose previous list was finished. */
  ghost function Rearmed(s: Run): Run {
    if !s.complete then s
    else s.(state := s.state.(folders := AtStart(s.state.folders), duration := 0), complete := false)
  }

  /** The largest folder has wrapped: note the growth, or count a barren round, and start over. */
  ghost function EndRound(s: Run): Verdict {
    var st := s.state;
    if |st.playlist| > s.previous then
      Going(Rearmed(Run(st.(increaseCounter := 0), 0, |st.playlist|, s.complete)))
    else
      var counted := st.(increaseCounter := st.increaseCounter + 1);
      if counted.increaseCounter > MAX_INCREASE_COUNTER then Stopped(s.(state := counted), GaveUp)
      else Going(Rearmed(Run(counted, 0, s.previous, s.complete)))
  }

  /** What follows a visit that led to `s`: the stopping tests, the end of a round, or the next slot. */
  ghost function AfterVisit(c: Settings, s: Run, toNext: bool): Verdict {
    if IsCompleted(c, s.state) then Stopped(s, Completed)
    else if toNext then Going(s.(pos := if s.pos + 1 < |c.order| then s.pos + 1 else 0))
    else if !c.special then Stopped(s, Wrapped)
    else EndRound(s)
  }

  /** One turn of the outer loop. */
  ghost function Turn(c: Settings, s: Run): Verdict
    requires RunOk(c, s)
  {
    var v := Visit(c, s.state, c.order[s.pos]);
    AfterVisit(c, s.(state := v.state), v.toNext)
  }
}
