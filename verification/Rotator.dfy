/** The rotator object in order mode, method by method, against the state model. */
module RotatorObject {
  import opened PlayClock
  import opened Sequences
  import opened RotatorModel
  import opened RotatorRun
  import opened RotatorLaws
  import RotatorSessions

  const EMPTY_ERROR := 0
  const EXECUTOR_ERROR := 1
  const TRACK_ERROR := 2

  /** One folder of the input: its name, its track list, and whether it is a service folder. */
  datatype FolderArray = FolderArray(name: string, tracks: seq<TrackData>, service: bool)

  /** The names that are folders, in the given order. */
  function Known(given: seq<string>, fs: Shelf): seq<string> {
    if given == [] then [] else if given[0] in fs then [given[0]] + Known(given[1..], fs) else Known(given[1..], fs)
  }

  lemma {:induction false} KnownAppend(given: seq<string>, name: string, fs: Shelf)
    ensures Known(given + [name], fs) == Known(given, fs) + if name in fs then [name] else []
  {
    if given == [] {
      assert [name][1..] == [];
    } else {
      assert (given + [name])[1..] == given[1..] + [name];
      KnownAppend(given[1..], name, fs);
    }
  }

  lemma {:induction false} KnownStays(given: seq<string>, a: Shelf, b: Shelf)
    requires a.Keys == b.Keys
    ensures Known(given, a) == Known(given, b)
  {
    if given != [] {
      KnownStays(given[1..], a, b);
    }
  }

  /** `m` is the size of the largest folder named in the order, 0 without one. */
  ghost predicate LargestOf(order: seq<string>, fs: Shelf, m: int) {
    && (forall q :: 0 <= q < |order| ==> order[q] in fs && |fs[order[q]].tracks| <= m)
    && (if order == [] then m == 0 else exists q :: 0 <= q < |order| && |fs[order[q]].tracks| == m)
  }

  /** The error a run leaves behind: which limits a list of this size could not even hold. */
  function ErrorOf(why: Reason, r: Rules, size: int): int {
    if !why.GaveUp? then EMPTY_ERROR
    else (if r.singerLimit >= size then EXECUTOR_ERROR else 0) + (if r.trackLimit >= size then TRACK_ERROR else 0)
  }

  /**
    After giving up the error is a number from 0 to 3: one for an executor limit and two for a track limit
    that a list of this size could not hold; any of them makes later calls do nothing.
    */
  lemma GiveUpCode(r: Rules, size: nat)
    ensures var e := ErrorOf(GaveUp, r, size);
            && 0 <= e <= 3 && (e % 2 == 1 <==> r.singerLimit >= size) && (e / 2 == 1 <==> r.trackLimit >= size)
            && (e > 0 <==> RotatorSessions.LimitTooLarge(r, size))
    ensures ErrorOf(Completed, r, size) == 0 && ErrorOf(Wrapped, r, size) == 0
  {
  }

  /** The comparison behind the first weights: empty texts match anything, else `b` begins `a`. */
  predicate IsEqual(a: string, b: string) {
    a == "" || b == "" || b <= a
  }

  /** A title matches those that begin it, and empty ones match and are matched by all. */
  lemma MatchesBeginnings(a: string, b: string)
    ensures IsEqual(a, b) <==> a == "" || exists rest :: a == b + rest
    ensures b == "" ==> IsEqual(a, b)
  {
    if a != "" && IsEqual(a, b) {
      assert a == b + a[|b|..];
    }
  }

  /** How many of the titles match. */
  function CountEqual(title: string, titles: seq<string>): nat {
    if titles == [] then 0
    else CountEqual(title, titles[..|titles| - 1]) + if IsEqual(title, titles[|titles| - 1]) then 1 else 0
  }

  /** The places of the titles that begin this one, or are empty, or any if this one is. */
  function Matches(title: string, titles: seq<string>): set<int> {
    set i | 0 <= i < |titles| && (title == "" || titles[i] == "" || titles[i] <= title)
  }

  lemma {:induction false} CountMatches(title: string, titles: seq<string>)
    ensures CountEqual(title, titles) == |Matches(title, titles)|
    decreases |titles|
  {
    if titles == [] {
      assert Matches(title, titles) == {};
    } else {
      var n := |titles| - 1;
      var head := titles[..n];
      CountMatches(title, head);
      assert Matches(title, titles)
          == Matches(title, head) + if IsEqual(title, titles[n]) then {n} else {};
    }
  }

  /** The history as the input gives it, each title weighted by its matches. */
  ghost predicate HistoryOf(h: seq<Entry>, singers: seq<string>, titles: seq<string>)
    requires |singers| == |titles|
  {
    && |h| == |titles|
    && forall i :: 0 <= i < |h| ==> h[i] == Entry(singers[i], titles[i], CountEqual(titles[i], titles))
  }

  /** Copies of a title already in the given history weigh the same, at least 1. */
  lemma {:induction false} FirstWeights(h: seq<Entry>, singers: seq<string>, titles: seq<string>, i: nat, j: nat)
    requires |singers| == |titles| && HistoryOf(h, singers, titles)
    requires i < |h| && j < |h| && h[i].title == h[j].title
    ensures h[i].statistics == h[j].statistics >= 1
  {
    CountsItself(titles, i);
  }

  lemma {:induction false} CountsItself(titles: seq<string>, i: nat)
    requires i < |titles|
    ensures CountEqual(titles[i], titles) >= 1
    decreases |titles|
  {
    if i < |titles| - 1 {
      assert titles[..|titles| - 1][i] == titles[i];
      CountsItself(titles[..|titles| - 1], i);
    }
  }

  /** Folders with tracks, each at its first track with weight 1. */
  ghost predicate FoldersOf(fs: Shelf, arrays: seq<FolderArray>) {
    && (forall a :: a in arrays && a.tracks != [] ==>
          a.name in fs && fs[a.name] == Folder(a.tracks, a.service, 0, 1))
    && (forall n :: n in fs ==> exists a :: a in arrays && a.tracks != [] && a.name == n)
  }

  /** Exactly the names of the folders, sorted. */
  ghost predicate NamesOf(names: seq<string>, fs: Shelf) {
    Ascending(names) && forall n :: n in names <==> n in fs
  }

  /** The folders as the input gives them, and their sorted names. */
  ghost predicate FoldersRead(fs: Shelf, names: seq<string>, arrays: seq<FolderArray>) {
    FoldersOf(fs, arrays) && FoldersOk(fs) && NamesOf(names, fs)
  }

  /** The folders and the order fit together, and every ruled entry was admitted by the history before it. */
  ghost predicate WellKept(names: seq<string>, given: seq<string>, order: seq<string>, m: int, fs: Shelf,
                           r: Rules, h: seq<Entry>, o: seq<Origin>) {
    && FoldersOk(fs) && NamesOf(names, fs)
    && order == (if given == [] then names else Known(given, fs))
    && LargestOf(order, fs, m)
    && Justified(r, h, o)
    && InitialFirst(o)
  }

  ghost predicate ArraysOk(arrays: seq<FolderArray>) {
    && (forall i, j :: 0 <= i < j < |arrays| ==> arrays[i].name != arrays[j].name)
    && (forall a, t :: a in arrays && t in a.tracks && t.Record? && t.duration != "" ==> IsTimeText(t.duration))
  }

  class Rotator {
    const rules: Rules
    const timer: Timer
    const names: seq<string>       // the keys of the folder map, which it keeps sorted
    const orderArray: seq<string>  // the given folder order, empty for none
    const hasGeneralDuration: bool
    const special: bool
    var maxTracks: int
    var history: seq<Entry>
    ghost var origin: seq<Origin>
    var playlist: seq<TrackData>
    var folders: Shelf
    var order: seq<string>
    var maxHtSize: int
    var previousPlaylistSize: int
    var increaseCounter: int
    var complete: bool
    var error: int

    /** Reads the input: the folders with tracks, the order over them, the history with its weights. */
    constructor (rules: Rules, arrays: seq<FolderArray>, orderArray: seq<string>,
                 singers: seq<string>, titles: seq<string>, maxTracks: int, general: string)
      requires ArraysOk(arrays) && |singers| == |titles| && (general == "" || IsTimeText(general))
      ensures Valid() && fresh(timer)
      ensures FoldersRead(folders, names, arrays) && HistoryOf(history, singers, titles)
      ensures this.rules == rules && this.orderArray == orderArray && this.maxTracks == maxTracks
      ensures hasGeneralDuration == (general != "") && special == (maxTracks != 0 || general != "")
      ensures playlist == [] && !complete && error == EMPTY_ERROR && timer.playlistDuration == 0
      ensures timer.generalDuration == if general == "" then HOUR_INTERVAL * DEFAULT_DAY else Worth(general, 180)
      ensures forall j :: 0 <= j < |origin| ==> origin[j].Initial?
    {
      var fs, ns := SearchFolders(arrays);
      this.rules, this.orderArray, this.maxTracks := rules, orderArray, maxTracks;
      names := ns;
      timer := new Timer(general);
      hasGeneralDuration, special := general != "", maxTracks != 0 || general != "";
      new;
      OnInit(fs, arrays, singers, titles);
    }

    /** The rest of the input, once the folders are read, and the counters. */
    method OnInit(fs: Shelf, ghost arrays: seq<FolderArray>, singers: seq<string>, titles: seq<string>)
      requires |singers| == |titles| && FoldersRead(fs, names, arrays)
      modifies this
      ensures Valid() && FoldersRead(folders, names, arrays) && HistoryOf(history, singers, titles)
      ensures maxTracks == old(maxTracks) && playlist == [] && !complete && error == EMPTY_ERROR
      ensures forall j :: 0 <= j < |origin| ==> origin[j].Initial?
    {
      folders, playlist, previousPlaylistSize, increaseCounter := fs, [], 0, 0;
      complete, error := false, EMPTY_ERROR;
      var found := SearchOrder();
      SearchHistory(singers, titles);
      AllInitial(rules, history, origin);
    }

    /** One more folder joins the map, in its place among the sorted names. */
    static lemma FolderJoins(fs: Shelf, arrays: seq<FolderArray>, i: nat)
      requires ArraysOk(arrays) && i < |arrays| && arrays[i].tracks != [] && FoldersOf(fs, arrays[..i])
      ensures FoldersOf(fs[arrays[i].name := Folder(arrays[i].tracks, arrays[i].service, 0, 1)], arrays[..i + 1])
    {
      assert arrays[..i + 1] == arrays[..i] + [arrays[i]];
      forall b | b in arrays[..i] ensures b.name != arrays[i].name {
        var j :| 0 <= j < i && arrays[j] == b;
      }
    }

    static lemma FolderPasses(fs: Shelf, arrays: seq<FolderArray>, i: nat)
      requires i < |arrays| && arrays[i].tracks == [] && FoldersOf(fs, arrays[..i])
      ensures FoldersOf(fs, arrays[..i + 1])
    {
      assert arrays[..i + 1] == arrays[..i] + [arrays[i]];
    }

    static lemma NameJoins(ns: seq<string>, fs: Shelf, name: string, f: Folder)
      requires NamesOf(ns, fs)
      ensures NamesOf(Insert(ns, name), fs[name := f])
    {
      InsertAscending(ns, name);
    }

    static lemma FoldersOfOk(fs: Shelf, arrays: seq<FolderArray>)
      requires ArraysOk(arrays) && FoldersOf(fs, arrays)
      ensures FoldersOk(fs)
    {
      forall n | n in fs ensures FolderOk(fs[n]) {
        var a :| a in arrays && a.tracks != [] && a.name == n;
      }
    }

    /** Folders without tracks are passed over. */
    static method SearchFolders(arrays: seq<FolderArray>) returns (fs: Shelf, ns: seq<string>)
      requires ArraysOk(arrays)
      ensures FoldersRead(fs, ns, arrays)
    {
      fs, ns := map[], [];
      for i := 0 to |arrays|
        invariant FoldersOf(fs, arrays[..i]) && NamesOf(ns, fs)
      {
        var a := arrays[i];
        if |a.tracks| > 0 {
          FolderJoins(fs, arrays, i);
          NameJoins(ns, fs, a.name, Folder(a.tracks, a.service, 0, 1));
          fs := fs[a.name := Folder(a.tracks, a.service, 0, 1)];
          ns := Insert(ns, a.name);
        } else {
          FolderPasses(fs, arrays, i);
        }
      }
      assert arrays[..|arrays|] == arrays;
      FoldersOfOk(fs, arrays);
    }

    method CalcStatisticsInHistory(title: string, titles: seq<string>) returns (counter: nat)
      ensures counter == CountEqual(title, titles)
    {
      counter := 0;
      for i := 0 to |titles|
        invariant counter == CountEqual(title, titles[..i])
      {
        assert titles[..i + 1][..i] == titles[..i];
        if IsEqual(title, titles[i]) {
          counter := counter + 1;
        }
      }
      assert titles[..|titles|] == titles;
    }

    method SearchHistory(singers: seq<string>, titles: seq<string>)
      requires |singers| == |titles|
      modifies this`history, this`origin
      ensures HistoryOf(history, singers, titles) && |origin| == |history|
      ensures forall j :: 0 <= j < |origin| ==> origin[j].Initial?
    {
      history, origin := [], [];
      for i := 0 to |titles|
        invariant |history| == |origin| == i
        invariant forall j :: 0 <= j < i ==> history[j] == Entry(singers[j], titles[j], CountEqual(titles[j], titles))
        invariant forall j :: 0 <= j < i ==> origin[j].Initial?
      {
        var weight := CalcStatisticsInHistory(titles[i], titles);
        history := history + [Entry(singers[i], titles[i], weight)];
        origin := origin + [Initial];
      }
    }

    ghost function Current(): State
      reads this, timer
    {
      State(history, origin, playlist, folders, increaseCounter, timer.playlistDuration)
    }

    ghost function Config(): Settings
      reads this, timer
    {
      Settings(rules, order, maxHtSize, maxTracks, hasGeneralDuration, timer.generalDuration, special,
               timer.defaultTrackDuration)
    }

    /** A run of the present list from slot `pos`. */
    ghost function RunAt(pos: nat): Run
      reads this, timer
    {
      Run(Current(), pos, previousPlaylistSize, complete)
    }

    /** The run that `CreatePlaylist` makes of the present history. */
    ghost function FreshRun(): Run
      reads this, timer
    {
      Run(Current().(playlist := [], increaseCounter := 0), 0, 0, complete)
    }

    ghost predicate Valid()
      reads this
    {
      WellKept(names, orderArray, order, maxHtSize, folders, rules, history, origin) && EMPTY_ERROR <= error
    }

    // -------------------------------------------------------------- the history search

    method TitleStatisticsInHistory(title: string) returns (ok: bool, stat: int)
      ensures ok <==> TitleClear(history, title, rules.trackLimit)
      ensures ok ==> forall i :: Newest(history, title, i) ==> stat == history[i].statistics
      ensures (forall i :: 0 <= i < |history| ==> history[i].title != title) ==> stat == 0
    {
      ok, stat := true, 0;
      var i := |history|;
      while i > 0
        invariant 0 <= i <= |history| && ok && stat == 0
        invariant forall k :: i <= k < |history| ==> history[k].title != title
      {
        i := i - 1;
        if history[i].title == title {
          assert Newest(history, title, i);
          if |history| - 1 - i >= rules.trackLimit {
            stat := history[i].statistics;
          } else {
            ok := false;
          }
          break;
        }
      }
    }

    /** True stands for ADD_TO_PLAYLIST, false for NEED_TO_SKIP_RECORD. */
    method FindRecordInHistory(singer: string, title: string, weight: int) returns (admit: bool)
      ensures admit <==> Admits(history, rules, singer, title, weight)
    {
      admit := true;
      var i := |history|;
      while i > 0
        invariant 0 <= i <= |history| && admit
        invariant forall k :: i <= k < |history| ==> history[k].singer != singer
      {
        i := i - 1;
        if history[i].singer == singer {
          if |history| - 1 - i >= rules.singerLimit {
            var ok, stat := TitleStatisticsInHistory(title);
            admit := ok;
            if ok {
              WeightOf(history, title, stat, weight);
              if stat > 0 && stat > weight {
                admit := false;
              }
            }
          } else {
            admit := false;
          }
          break;
        }
      }
    }

    static lemma WeightOf(h: seq<Entry>, title: string, stat: int, weight: int)
      requires forall i :: Newest(h, title, i) ==> stat == h[i].statistics
      requires (forall i :: 0 <= i < |h| ==> h[i].title != title) ==> stat == 0
      ensures WeightClear(h, title, weight) <==> !(stat > 0 && stat > weight)
    {
      if k :| 0 <= k < |h| && h[k].title == title {
        var i := LastCopy(h, title, |h|);
        assert h[..|h|] == h;
        assert Newest(h, title, i);
      }
    }

    // -------------------------------------------------------------- one track, one visit

    method AddToPlaylist(t: TrackData, statistics: int, ghost from: Origin)
      requires Playable(t) && (t.duration == "" || IsTimeText(t.duration))
      modifies this`playlist, this`history, this`origin, this`increaseCounter, timer`playlistDuration
      ensures history == old(history) + [Entry(t.singer, t.title, statistics + 1)]
      ensures playlist == old(playlist) + [t] && origin == old(origin) + [from]
      ensures increaseCounter == 0
      ensures timer.playlistDuration == old(timer.playlistDuration) + Length(t, timer.defaultTrackDuration)
    {
      playlist := playlist + [t];
      history := history + [Entry(t.singer, t.title, statistics + 1)];
      origin := origin + [from];
      increaseCounter := 0;
      timer.AppendPlaylistDuration(t.duration);
    }

    /** Offers the next track of the folder; `toNext` is passed through unless the folder wraps. */
    method GlobalAnalize(name: string, toNextFolder: bool) returns (done: bool, toNext: bool)
      requires FoldersOk(folders) && name in folders
      modifies this`folders, this`playlist, this`history, this`origin, this`increaseCounter, timer`playlistDuration
      ensures var v := Offer(old(Config()), old(Current()), name);
              && Current() == v.state && done == v.done
              && (old(folders[name].index < |folders[name].tracks|) ==> toNext == toNextFolder)
              && (old(folders[name].index >= |folders[name].tracks|) ==> toNext == v.toNext)
      ensures FoldersOk(folders) && name in folders
    {
      var c := Config();
      var before := Current();
      toNext := toNextFolder;
      var hf := folders[name];
      if hf.index >= |hf.tracks| {
        toNext := hf.index < maxHtSize;
        hf := hf.(index := 0, statistics := hf.statistics + 1);
        folders := folders[name := hf];
      }
      assert hf == Rewound(before.folders[name]);
      var t := hf.tracks[hf.index];
      assert t in hf.tracks;
      var accepted := FindRecordInPlaylist(name, hf, t, c, Current());
      var index := hf.index + 1;
      folders := folders[name := hf.(index := index)];
      assert folders == before.folders[name := hf.(index := index)];
      done := true;
      if !accepted && t.Record? {
        done := index >= |hf.tracks|;
      }
    }

    /** Offers one track of the folder: true adds it. */
    method FindRecordInPlaylist(name: string, hf: Folder, t: TrackData, ghost c: Settings, ghost st: State)
      returns (accepted: bool)
      requires c == Config() && st == Current()
      requires t.Record? && t.duration != "" ==> IsTimeText(t.duration)
      modifies this`playlist, this`history, this`origin, this`increaseCounter, timer`playlistDuration
      ensures accepted <==> Accepts(st.history, c.rules, hf, t)
      ensures Current() == if accepted then Add(c, st, name, hf, t) else st
    {
      accepted := false;
      if Playable(t) {
        accepted := hf.service;
        if !hf.service {
          accepted := FindRecordInHistory(t.singer, t.title, hf.statistics);
        }
        if accepted {
          AddToPlaylist(t, hf.statistics, OriginOf(name, hf));
        }
      }
    }

    /** The inner loop of the walk: offers tracks of one folder until one is taken or the folder ends. */
    method VisitFolder(name: string) returns (toNext: bool)
      requires FoldersOk(folders) && name in folders
      modifies this`folders, this`playlist, this`history, this`origin, this`increaseCounter, timer`playlistDuration
      ensures var v := Visit(old(Config()), old(Current()), name);
              Current() == v.state && toNext == v.toNext
    {
      ghost var c := Config();
      ghost var whole := Visit(c, Current(), name);
      var done: bool;
      done, toNext := GlobalAnalize(name, true);
      while !done
        invariant FoldersOk(folders) && name in folders && Config() == c
        invariant if done then whole.state == Current() && whole.toNext == toNext
                  else && folders[name].index < |folders[name].tracks|
                       && Visit(c, Current(), name).state == whole.state
                       && (whole.toNext <==> toNext && Visit(c, Current(), name).toNext)
        decreases !done, |folders[name].tracks| - folders[name].index
      {
        done, toNext := GlobalAnalize(name, toNext);
      }
    }

    // -------------------------------------------------------------- the run

    method PlaylistConstructionCompleted() returns (done: bool)
      ensures done <==> IsCompleted(Config(), Current())
    {
      var byLength := timer.Is24HoursCompleted();
      done := (maxTracks > 0 && |playlist| >= maxTracks) || (hasGeneralDuration && byLength);
    }

    /** False means that the list has not grown over too many rounds; the error then says why. */
    method PlaylistSizeIncrease() returns (more: bool)
      requires error == EMPTY_ERROR
      modifies this`previousPlaylistSize, this`increaseCounter, this`error
      ensures if |playlist| > old(previousPlaylistSize)
              then more && previousPlaylistSize == |playlist| && increaseCounter == 0
              else && previousPlaylistSize == old(previousPlaylistSize)
                   && increaseCounter == old(increaseCounter) + 1
                   && (more <==> increaseCounter <= MAX_INCREASE_COUNTER)
      ensures error == if more then EMPTY_ERROR else ErrorOf(GaveUp, rules, |playlist|)
    {
      more := true;
      if |playlist| > previousPlaylistSize {
        previousPlaylistSize := |playlist|;
        increaseCounter := 0;
      } else {
        increaseCounter := increaseCounter + 1;
        if increaseCounter > MAX_INCREASE_COUNTER {
          if rules.singerLimit >= |playlist| {
            error := EXECUTOR_ERROR;
          }
          if rules.trackLimit >= |playlist| {
            error := error + TRACK_ERROR;
          }
          more := false;
        }
      }
    }

    method IncreaseMaxHtSize(value: int)
      modifies this`maxHtSize
      ensures maxHtSize >= value && maxHtSize >= old(maxHtSize) && (maxHtSize == value || maxHtSize == old(maxHtSize))
    {
      if value > maxHtSize {
        maxHtSize := value;
      }
    }

    /** One more slot in the order. */
    method AppendSlot(name: string)
      requires name in folders && LargestOf(order, folders, maxHtSize)
      modifies this`order, this`maxHtSize
      ensures order == old(order) + [name] && LargestOf(order, folders, maxHtSize)
    {
      ghost var before := order;
      order := order + [name];
      IncreaseMaxHtSize(|folders[name].tracks|);
      assert order[|before|] == name;
      if before != [] {
        var q :| 0 <= q < |before| && |folders[before[q]].tracks| == old(maxHtSize);
        assert order[q] == before[q];
      }
    }

    /** Rebuilds the folder order and the size of its largest folder. */
    method SearchOrder() returns (found: bool)
      requires NamesOf(names, folders)
      modifies this`order, this`maxHtSize
      ensures order == (if orderArray == [] then names else Known(orderArray, folders))
      ensures LargestOf(order, folders, maxHtSize)
      ensures found <==> order != []
    {
      order, maxHtSize := [], 0;
      if orderArray == [] {
        for i := 0 to |names|
          invariant order == names[..i] && LargestOf(order, folders, maxHtSize)
        {
          AppendSlot(names[i]);
        }
      } else {
        for i := 0 to |orderArray|
          invariant order == Known(orderArray[..i], folders) && LargestOf(order, folders, maxHtSize)
        {
          assert orderArray[..i + 1] == orderArray[..i] + [orderArray[i]];
          KnownAppend(orderArray[..i], orderArray[i], folders);
          if orderArray[i] in folders {
            AppendSlot(orderArray[i]);
          }
        }
        assert orderArray[..|orderArray|] == orderArray;
      }
      found := order != [];
    }

    method RewindFolders()
      requires NamesOf(names, folders)
      modifies this`folders
      ensures folders == AtStart(old(folders))
      ensures forall n :: n in folders ==> n in old(folders) && folders[n] == old(folders)[n].(index := 0)
    {
      for i := 0 to |names|
        invariant folders.Keys == old(folders).Keys
        invariant forall n :: n in folders ==>
                    folders[n] == if n in names[..i] then old(folders)[n].(index := 0) else old(folders)[n]
      {
        assert names[..i + 1] == names[..i] + [names[i]];
        folders := folders[names[i] := folders[names[i]].(index := 0)];
      }
      assert names[..|names|] == names;
      assert folders == AtStart(old(folders));
    }

    static lemma RewoundKept(names: seq<string>, given: seq<string>, order: seq<string>, m: int, fs: Shelf,
                             r: Rules, h: seq<Entry>, o: seq<Origin>)
      requires WellKept(names, given, order, m, fs, r, h, o)
      ensures WellKept(names, given, order, m, AtStart(fs), r, h, o)
    {
      KnownStays(given, fs, AtStart(fs));
      if order != [] {
        var q :| 0 <= q < |order| && |fs[order[q]].tracks| == m;
        assert |AtStart(fs)[order[q]].tracks| == m;
      }
    }

    /** Makes a rotator with a finished list ready for the next one; false while an error stands. */
    method Prepare() returns (ok: bool)
      requires Valid()
      modifies this`order, this`maxHtSize, this`folders, this`complete, timer`playlistDuration
      ensures Valid() && order == old(order) && maxHtSize == old(maxHtSize)
      ensures ok <==> error == EMPTY_ERROR
      ensures if ok && old(complete)
              then folders == AtStart(old(folders)) && timer.playlistDuration == 0 && !complete
              else folders == old(folders) && timer.playlistDuration == old(timer.playlistDuration)
                   && complete == old(complete)
    {
      ok := error == EMPTY_ERROR;
      if ok && complete {
        Rearm(order, maxHtSize, folders);
      }
    }

    /** The order of the same folders comes out as it was. */
    method Reorder(ghost before: seq<string>, ghost largest: int)
      requires NamesOf(names, folders) && LargestOf(before, folders, largest)
      requires before == (if orderArray == [] then names else Known(orderArray, folders))
      modifies this`order, this`maxHtSize
      ensures order == before && maxHtSize == largest
    {
      var found := SearchOrder();
      SameLargest(order, folders, largest, maxHtSize);
    }

    /** Order and clock anew, and every folder at its first track. */
    method Rearm(ghost before: seq<string>, ghost largest: int, ghost fs: Shelf)
      requires Valid() && before == order && largest == maxHtSize && fs == folders
      modifies this`order, this`maxHtSize, this`folders, this`complete, timer`playlistDuration
      ensures Valid() && order == before && maxHtSize == largest
      ensures folders == AtStart(fs) && timer.playlistDuration == 0 && !complete
    {
      RewoundKept(names, orderArray, order, maxHtSize, folders, rules, history, origin);
      Reorder(order, maxHtSize);
      RewindFolders();
      timer.ClearPlaylistDuration();
      complete := false;
    }

    static lemma AllInitial(r: Rules, h: seq<Entry>, o: seq<Origin>)
      requires |o| == |h| && forall j :: 0 <= j < |o| ==> o[j].Initial?
      ensures Justified(r, h, o) && InitialFirst(o)
    {
    }

    static lemma SameLargest(order: seq<string>, fs: Shelf, m: int, n: int)
      requires LargestOf(order, fs, m) && LargestOf(order, fs, n)
      ensures m == n
    {
    }

    static lemma VisitKept(names: seq<string>, given: seq<string>, c: Settings, st: State, name: string, v: Visited)
      requires WellKept(names, given, c.order, c.maxHtSize, st.folders, c.rules, st.history, st.origin)
      requires name in st.folders && VisitDid(c, st, name, v)
      ensures WellKept(names, given, c.order, c.maxHtSize, v.state.folders, c.rules, v.state.history, v.state.origin)
    {
      VisitGrows(c, st, name, v);
      KnownStays(given, st.folders, v.state.folders);
      if c.order != [] {
        var q :| 0 <= q < |c.order| && |st.folders[c.order[q]].tracks| == c.maxHtSize;
        assert |v.state.folders[c.order[q]].tracks| == c.maxHtSize;
      }
    }

    /** The inner visit and the test after it; both leave the invariant in place. */
    method VisitSlot(ito: nat, ghost c: Settings, ghost st: State) returns (toNext: bool, done: bool)
      requires Valid() && ito < |order| && c == Config() && st == Current()
      modifies this`folders, this`playlist, this`history, this`origin, this`increaseCounter, timer`playlistDuration
      ensures Valid() && Config() == c
      ensures var v := Visit(c, st, order[ito]);
              Current() == v.state && toNext == v.toNext && (done <==> IsCompleted(c, v.state))
    {
      VisitEffect(c, st, order[ito]);
      VisitKept(names, orderArray, c, st, order[ito], Visit(c, st, order[ito]));
      toNext := VisitFolder(order[ito]);
      done := PlaylistConstructionCompleted();
    }

    /** The end of a round; false gives up. */
    method FinishRound(ghost s: Run) returns (going: bool)
      requires Valid() && error == EMPTY_ERROR && s == RunAt(s.pos)
      modifies this`folders, this`increaseCounter, this`error, this`previousPlaylistSize,
               this`order, this`maxHtSize, this`complete, timer`playlistDuration
      ensures Valid() && order == old(order) && maxHtSize == old(maxHtSize)
      ensures EndRound(s) == if going then Going(RunAt(0)) else Stopped(RunAt(s.pos), GaveUp)
      ensures error == if going then EMPTY_ERROR else ErrorOf(GaveUp, rules, |playlist|)
    {
      going := PlaylistSizeIncrease();
      if going {
        PrepareAgain(RunAt(0));
      }
    }

    /** Inside a run `prepare` does what re-arming says. */
    method PrepareAgain(ghost s: Run)
      requires Valid() && error == EMPTY_ERROR && s == RunAt(s.pos)
      modifies this`order, this`maxHtSize, this`folders, this`complete, timer`playlistDuration
      ensures Valid() && order == old(order) && maxHtSize == old(maxHtSize) && RunAt(s.pos) == Rearmed(s)
    {
      var ok := Prepare();
    }

    /** What follows the visit; `going` tells whether there is another turn, at slot `next`. */
    method LeaveSlot(ito: nat, toNext: bool, done: bool, ghost c: Settings, ghost s: Run)
      returns (going: bool, next: nat)
      requires Valid() && error == EMPTY_ERROR && c == Config() && s == RunAt(ito)
      requires done <==> IsCompleted(c, s.state)
      modifies this`folders, this`increaseCounter, this`error, this`previousPlaylistSize,
               this`order, this`maxHtSize, this`complete, timer`playlistDuration
      ensures Valid() && Config() == c
      ensures var t := AfterVisit(c, s, toNext);
              if going then t == Going(RunAt(next)) && error == EMPTY_ERROR else Ended(t)
    {
      going, next := !done && (toNext || special), if toNext && ito + 1 < |order| then ito + 1 else 0;
      if going && !toNext {
        going := FinishRound(s);
      }
    }

    /** One turn of the walk. */
    method TurnAt(ito: nat, ghost c: Settings, ghost s: Run) returns (going: bool, next: nat)
      requires Valid() && error == EMPTY_ERROR && c == Config() && s == RunAt(ito) && ito < |order|
      modifies this`folders, this`playlist, this`history, this`origin, this`increaseCounter, this`error,
               this`previousPlaylistSize, this`order, this`maxHtSize, this`complete, timer`playlistDuration
      ensures Valid() && Config() == c
      ensures var v := Visit(c, s.state, c.order[ito]); var t := AfterVisit(c, s.(state := v.state), v.toNext);
              if going then t == Going(RunAt(next)) && error == EMPTY_ERROR else Ended(t)
    {
      var toNext, done := VisitSlot(ito, c, s.state);
      going, next := LeaveSlot(ito, toNext, done, c, RunAt(ito));
    }

    /** The fields are as a stopped run leaves them. */
    ghost predicate Ended(v: Verdict)
      reads this, timer
    {
      && v.Stopped? && Current() == v.last.state && complete == v.last.complete
      && error == ErrorOf(v.why, rules, |playlist|)
    }

    /** Walks the folders in order until the list is complete, cannot grow, or has had its one pass. */
    method AnaliseFoldersByOrder(ghost c: Settings, ghost start: Run)
      requires Valid() && order != [] && error == EMPTY_ERROR && c == Config() && start == RunAt(0)
      requires RunOk(c, start) && Ends(c, start)
      modifies this`folders, this`playlist, this`history, this`origin, this`increaseCounter, this`error,
               this`previousPlaylistSize, this`order, this`maxHtSize, this`complete, timer`playlistDuration
      ensures Valid() && Config() == c && Ended(Outcome(c, start))
    {
      ghost var s := start;
      var ito := 0;
      var going := true;
      while going
        invariant Valid() && Config() == c
        invariant if going then && error == EMPTY_ERROR && s == RunAt(ito) && RunOk(c, s) && Ends(c, s)
                                && Outcome(c, s) == Outcome(c, start)
                  else Ended(Outcome(c, start))
        decreases going, if going then Turns(c, s) else 0
      {
        RunSteps(c, s);
        going, ito := TurnAt(ito, c, s);
        if going {
          s := RunAt(ito);
        }
      }
    }

    lemma FreshRunOk(c: Settings, s: Run)
      requires Valid() && order != [] && c == Config() && s == FreshRun()
      ensures RunOk(c, s)
    {
    }

    /**
      A new list from the present history. With an error standing, or without an order, the list stays
      empty; otherwise the run over the order decides everything.
      */
    method CreatePlaylist(ghost c: Settings, ghost s: Run) returns (list: seq<TrackData>)
      requires Valid() && c == Config() && s == FreshRun()
      requires order != [] && error == EMPTY_ERROR ==> RunOk(c, s) && Ends(c, s)
      modifies this`folders, this`playlist, this`history, this`origin, this`increaseCounter, this`error,
               this`previousPlaylistSize, this`order, this`maxHtSize, this`complete, timer`playlistDuration
      ensures Valid() && Config() == c && list == playlist
      ensures complete == (old(complete) || old(error) == EMPTY_ERROR)
      ensures old(error) > EMPTY_ERROR || c.order == [] ==> Current() == s.state && error == old(error)
      ensures old(error) == EMPTY_ERROR && c.order != [] ==>
                && RunOk(c, s) && Current() == Outcome(c, s).last.state
                && error == ErrorOf(Outcome(c, s).why, rules, |list|)
    {
      if order != [] {
        FreshRunOk(c, s);
      }
      playlist, previousPlaylistSize, increaseCounter := [], 0, 0;
      if error <= EMPTY_ERROR {
        if order != [] {
          AnaliseFoldersByOrder(c, s);
        }
        complete := true;
      }
      return playlist;
    }
  }
}
