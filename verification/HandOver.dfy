/**
  The hand-over of playlists between threads: any number of publishers and one consumer, over two
  mutexes, one for the list and one for the flag that a new list has come. Each step below is one lock
  operation or one access to shared data, and the steps of all threads interleave freely.
  */
module HandOver {

  type Playlist = seq<string>

  datatype Who = Publisher(i: nat) | Consumer

  datatype Holder = Nobody | Held(who: Who)

  /** Where a publisher stands in `set_change_playlist`. */
  datatype Pub =
    | Idle
    | WaitList(pl: Playlist)          // wants the list mutex
    | WaitChange(pl: Playlist)        // holds it, wants the change mutex
    | HasBoth(pl: Playlist)           // before playlist_clear
    | Writing(pl: Playlist, n: nat)   // n elements pushed
    | Told                            // flag set, before the unlocks
    | Releasing                       // list mutex given back, change mutex not yet

  /** Where the consumer stands in `get_new_playlist` and `update_playlist`. */
  datatype Con =
    | Out
    | AskWait | AskHold | Asked(value: bool)
    | LoadWait                        // wants the list mutex
    | Copying(n: nat)                 // holds it, n elements copied
    | FlagWait | FlagHold | Cleared   // wants, holds the change mutex; flag reset
    | Leaving                         // change mutex given back, list mutex not yet

  datatype State = State(
    list: Playlist,
    newPlaylist: bool,
    listLock: Holder,
    changeLock: Holder,
    pubs: seq<Pub>,
    con: Con,
    copy: Playlist,
    // what an observer can tell: the lists published so far, those copied so far, how many had been
    // published at the last copy, and whether an empty response has taken a raised flag down since the
    // last publication, with no copy finished since
    published: seq<Playlist>,
    loaded: seq<Playlist>,
    seen: nat,
    erased: bool)

  predicate Init(s: State) {
    && s.published == [s.list] && s.loaded == [] && s.seen == 0 && s.copy == [] && !s.erased && !s.newPlaylist
    && s.listLock == Nobody && s.changeLock == Nobody && s.con == Out
    && forall i :: 0 <= i < |s.pubs| ==> s.pubs[i] == Idle
  }

  function Latest(s: State): Playlist
    requires s.published != []
  {
    s.published[|s.published| - 1]
  }

  // ---------------------------------------------------------------- the steps

  predicate Known(s: State, w: Who) {
    w.Consumer? || w.i < |s.pubs|
  }

  predicate Busy(s: State, w: Who) {
    Known(s, w) && if w.Consumer? then s.con != Out else s.pubs[w.i] != Idle
  }

  /** A busy thread can go on unless it waits for a mutex somebody holds. */
  predicate Enabled(s: State, w: Who) {
    && Busy(s, w)
    && (var waitsForList := if w.Consumer? then s.con == LoadWait else s.pubs[w.i].WaitList?;
        waitsForList ==> s.listLock == Nobody)
    && (var waitsForChange := if w.Consumer? then s.con == AskWait || s.con == FlagWait else s.pubs[w.i].WaitChange?;
        waitsForChange ==> s.changeLock == Nobody)
  }

  function PubStep(s: State, i: nat): State
    requires Enabled(s, Publisher(i))
  {
    match s.pubs[i]
    case WaitList(pl) => s.(listLock := Held(Publisher(i)), pubs := s.pubs[i := WaitChange(pl)])
    case WaitChange(pl) => s.(changeLock := Held(Publisher(i)), pubs := s.pubs[i := HasBoth(pl)])
    case HasBoth(pl) => s.(list := [], pubs := s.pubs[i := Writing(pl, 0)])
    case Writing(pl, n) =>
      if n < |pl| then s.(list := s.list + [pl[n]], pubs := s.pubs[i := Writing(pl, n + 1)])
      else s.(newPlaylist := true, published := s.published + [pl], erased := false, pubs := s.pubs[i := Told])
    case Told => s.(listLock := Nobody, pubs := s.pubs[i := Releasing])
    case Releasing => s.(changeLock := Nobody, pubs := s.pubs[i := Idle])
  }

  function ConStep(s: State): State
    requires Enabled(s, Consumer)
  {
    match s.con
    case AskWait => s.(changeLock := Held(Consumer), con := AskHold)
    case AskHold => s.(con := Asked(s.newPlaylist && s.list != []))
    case Asked(value) => s.(changeLock := Nobody, con := if value then LoadWait else Out)
    case LoadWait => s.(listLock := Held(Consumer), copy := [], con := Copying(0))
    case Copying(n) =>
      if n < |s.list| then s.(copy := s.copy + [s.list[n]], con := Copying(n + 1)) else s.(con := FlagWait)
    case FlagWait => s.(changeLock := Held(Consumer), con := FlagHold)
    case FlagHold => s.(newPlaylist := false, con := Cleared)
    case Cleared => s.(changeLock := Nobody, con := Leaving)
    case Leaving =>
      s.(listLock := Nobody, loaded := s.loaded + [s.copy], seen := |s.published|, erased := false, con := Out)
  }

  function Next(s: State, w: Who): State
    requires Enabled(s, w)
  {
    if w.Consumer? then ConStep(s) else PubStep(s, w.i)
  }

  /** What a thread at rest may begin. */
  datatype Begin =
    | Publish(i: nat, pl: Playlist)   // a response with tracks
    | EmptyResponse(i: nat)           // a response without: the unlocked reset of the flag
    | Ask
    | Load

  predicate CanBegin(s: State, b: Begin) {
    match b
    case Publish(i, pl) => i < |s.pubs| && s.pubs[i] == Idle && pl != []
    case EmptyResponse(i) => i < |s.pubs| && s.pubs[i] == Idle
    case Ask => s.con == Out
    case Load => s.con == Out
  }

  function Begun(s: State, b: Begin): State
    requires CanBegin(s, b)
  {
    match b
    case Publish(i, pl) => s.(pubs := s.pubs[i := WaitList(pl)])
    case EmptyResponse(_) => s.(newPlaylist := false, erased := s.erased || s.newPlaylist)
    case Ask => s.(con := AskWait)
    case Load => s.(con := LoadWait)
  }

  datatype Action = Go(w: Who) | Start(b: Begin)

  predicate Allowed(s: State, a: Action) {
    if a.Go? then Enabled(s, a.w) else CanBegin(s, a.b)
  }

  function Do(s: State, a: Action): State
    requires Allowed(s, a)
  {
    if a.Go? then Next(s, a.w) else Begun(s, a.b)
  }

  /** The run that the actions make from `s` ends in `t`. */
  predicate Runs(s: State, actions: seq<Action>, t: State)
    decreases |actions|
  {
    if actions == [] then t == s
    else Allowed(s, actions[0]) && Runs(Do(s, actions[0]), actions[1..], t)
  }

  // ---------------------------------------------------------------- the invariant

  predicate HoldsList(p: Pub) {
    p.WaitChange? || p.HasBoth? || p.Writing? || p.Told?
  }

  predicate HoldsChange(p: Pub) {
    p.HasBoth? || p.Writing? || p.Told? || p.Releasing?
  }

  predicate ConHoldsList(c: Con) {
    c.Copying? || c.FlagWait? || c.FlagHold? || c.Cleared? || c.Leaving?
  }

  predicate ConHoldsChange(c: Con) {
    c.AskHold? || c.Asked? || c.FlagHold? || c.Cleared?
  }

  predicate PubLocks(s: State, i: nat)
    requires i < |s.pubs|
  {
    && (HoldsList(s.pubs[i]) <==> s.listLock == Held(Publisher(i)))
    && (HoldsChange(s.pubs[i]) <==> s.changeLock == Held(Publisher(i)))
  }

  /** Each mutex is held by exactly the thread that stands in its section. */
  predicate Locks(s: State) {
    && (forall i :: 0 <= i < |s.pubs| ==> PubLocks(s, i))
    && (ConHoldsList(s.con) <==> s.listLock == Held(Consumer))
    && (ConHoldsChange(s.con) <==> s.changeLock == Held(Consumer))
    && (s.listLock.Held? ==> Known(s, s.listLock.who))
    && (s.changeLock.Held? ==> Known(s, s.changeLock.who))
  }

  predicate WriterOk(s: State, i: nat)
    requires i < |s.pubs|
  {
    s.pubs[i].Writing? ==> s.pubs[i].n <= |s.pubs[i].pl| && s.list == s.pubs[i].pl[..s.pubs[i].n]
  }

  predicate NoWriter(s: State) {
    forall i :: 0 <= i < |s.pubs| ==> !s.pubs[i].Writing?
  }

  predicate CopyOk(s: State) {
    if s.con.Copying? then s.con.n <= |s.list| && s.copy == s.list[..s.con.n]
    else ConHoldsList(s.con) ==> s.copy == s.list
  }

  /** A half-written list is seen by its writer only; everybody else finds the latest published one. */
  predicate Data(s: State) {
    && s.published != []
    && (forall i :: 0 <= i < |s.pubs| ==> WriterOk(s, i))
    && (NoWriter(s) ==> s.list == Latest(s))
    && CopyOk(s)
    && (forall k :: 0 <= k < |s.loaded| ==> s.loaded[k] in s.published)
  }

  /** The consumer's copy is older than the list published last. */
  predicate Behind(s: State) {
    s.seen < |s.published|
  }

  /**
    Once something was loaded, and while the consumer is not about to say so again, it is behind exactly
    when the flag is up or was erased; its last copy is the list that was the latest then.
    */
  predicate Fresh(s: State) {
    && s.seen <= |s.published| && (s.con.Cleared? || s.con.Leaving? ==> !s.newPlaylist)
    && (s.loaded != [] ==> 0 < s.seen && s.loaded[|s.loaded| - 1] == s.published[s.seen - 1])
    && (s.loaded != [] && !s.con.Cleared? && !s.con.Leaving? ==> (s.newPlaylist || s.erased <==> Behind(s)))
  }

  predicate Inv(s: State) {
    Locks(s) && Data(s) && Fresh(s)
  }

  lemma InitInv(s: State)
    requires Init(s)
    ensures Inv(s)
  {
  }

  lemma PubKeepsLocks(s: State, i: nat)
    requires Locks(s) && Enabled(s, Publisher(i))
    ensures Locks(PubStep(s, i))
  {
    var t := PubStep(s, i);
    assert PubLocks(s, i);
    forall j | 0 <= j < |t.pubs| ensures PubLocks(t, j) {
      assert PubLocks(s, j);
    }
  }

  /** While the list mutex is somebody else's, nobody but the holder is writing. */
  lemma NoOtherWriter(s: State, i: nat)
    requires Locks(s) && i < |s.pubs| && s.listLock != Held(Publisher(i))
    ensures !s.pubs[i].Writing?
  {
    assert PubLocks(s, i);
  }

  lemma PubKeepsWriters(s: State, i: nat)
    requires Locks(s) && Data(s) && Enabled(s, Publisher(i))
    ensures forall j :: 0 <= j < |s.pubs| ==> WriterOk(PubStep(s, i), j)
  {
    var t := PubStep(s, i);
    assert PubLocks(s, i) && WriterOk(s, i);
    forall j | 0 <= j < |s.pubs| ensures WriterOk(t, j) {
      assert PubLocks(s, j) && WriterOk(s, j);
    }
  }

  lemma PubKeepsLatest(s: State, i: nat)
    requires Locks(s) && Data(s) && Enabled(s, Publisher(i))
    ensures PubStep(s, i).published != []
    ensures NoWriter(PubStep(s, i)) ==> PubStep(s, i).list == Latest(PubStep(s, i))
  {
    var t := PubStep(s, i);
    assert WriterOk(s, i);
    if NoWriter(t) {
      assert !t.pubs[i].Writing?;
      if !s.pubs[i].Writing? {
        forall j | 0 <= j < |s.pubs| ensures !s.pubs[j].Writing? {
          assert !t.pubs[j].Writing? && (j != i ==> t.pubs[j] == s.pubs[j]);
        }
      }
    }
  }

  lemma PubKeepsCopy(s: State, i: nat)
    requires Locks(s) && Data(s) && Enabled(s, Publisher(i))
    ensures CopyOk(PubStep(s, i))
  {
    assert PubLocks(s, i);
  }

  lemma PubKeepsFresh(s: State, i: nat)
    requires Inv(s) && Enabled(s, Publisher(i))
    ensures Fresh(PubStep(s, i))
  {
    assert PubLocks(s, i);
  }

  lemma ConKeepsLocks(s: State)
    requires Locks(s) && Enabled(s, Consumer)
    ensures Locks(ConStep(s))
  {
    var t := ConStep(s);
    assert ConHoldsList(t.con) <==> t.listLock == Held(Consumer);
    assert ConHoldsChange(t.con) <==> t.changeLock == Held(Consumer);
    forall j | 0 <= j < |t.pubs| ensures PubLocks(t, j) {
      assert PubLocks(s, j);
    }
  }

  lemma ConSeesLatest(s: State)
    requires Inv(s) && ConHoldsList(s.con)
    ensures s.list == Latest(s)
  {
    forall j | 0 <= j < |s.pubs| ensures !s.pubs[j].Writing? {
      NoOtherWriter(s, j);
    }
  }

  lemma ConKeepsData(s: State)
    requires Inv(s) && Enabled(s, Consumer)
    ensures Data(ConStep(s))
  {
    var t := ConStep(s);
    if ConHoldsList(s.con) {
      ConSeesLatest(s);
    }
    assert t.pubs == s.pubs && t.list == s.list && t.published == s.published;
    forall j | 0 <= j < |t.pubs| ensures WriterOk(t, j) {
      assert WriterOk(s, j);
    }
    ConKeepsLoaded(s);
    ConKeepsCopy(s);
  }

  lemma ConKeepsCopy(s: State)
    requires CopyOk(s) && Enabled(s, Consumer)
    ensures CopyOk(ConStep(s))
  {
  }

  lemma ConKeepsLoaded(s: State)
    requires Data(s) && Enabled(s, Consumer) && (ConHoldsList(s.con) ==> s.list == Latest(s))
    ensures forall k :: 0 <= k < |ConStep(s).loaded| ==> ConStep(s).loaded[k] in s.published
  {
  }

  lemma ConKeepsFresh(s: State)
    requires Inv(s) && Enabled(s, Consumer)
    ensures Fresh(ConStep(s))
  {
    if ConHoldsList(s.con) {
      ConSeesLatest(s);
    }
  }

  lemma BeginKeeps(s: State, b: Begin)
    requires Inv(s) && CanBegin(s, b)
    ensures Inv(Begun(s, b))
  {
    var t := Begun(s, b);
    forall j | 0 <= j < |t.pubs| ensures PubLocks(t, j) && WriterOk(t, j) {
      assert PubLocks(s, j) && WriterOk(s, j);
    }
    if NoWriter(t) {
      forall j | 0 <= j < |s.pubs| ensures !s.pubs[j].Writing? {
        assert !t.pubs[j].Writing?;
      }
    }
  }

  lemma PubKeepsData(s: State, i: nat)
    requires Inv(s) && Enabled(s, Publisher(i))
    ensures Data(PubStep(s, i))
  {
    PubKeepsWriters(s, i);
    PubKeepsLatest(s, i);
    PubKeepsCopy(s, i);
    PubKeepsLoaded(s, i);
  }

  lemma PubKeeps(s: State, i: nat)
    requires Inv(s) && Enabled(s, Publisher(i))
    ensures Inv(PubStep(s, i))
  {
    PubKeepsLocks(s, i);
    PubKeepsData(s, i);
    PubKeepsFresh(s, i);
  }

  lemma PubKeepsLoaded(s: State, i: nat)
    requires Data(s) && Enabled(s, Publisher(i))
    ensures PubStep(s, i).loaded == s.loaded
    ensures forall k :: 0 <= k < |s.loaded| ==> s.loaded[k] in PubStep(s, i).published
  {
    forall k | 0 <= k < |s.loaded| ensures s.loaded[k] in PubStep(s, i).published {
      assert s.loaded[k] in s.published && s.published <= PubStep(s, i).published;
    }
  }

  lemma ConKeeps(s: State)
    requires Inv(s) && Enabled(s, Consumer)
    ensures Inv(ConStep(s))
  {
    ConKeepsLocks(s);
    ConKeepsData(s);
    ConKeepsFresh(s);
  }

  lemma DoKeeps(s: State, a: Action)
    requires Inv(s) && Allowed(s, a)
    ensures Inv(Do(s, a))
  {
    if a.Start? {
      BeginKeeps(s, a.b);
    } else if a.w.Consumer? {
      ConKeeps(s);
    } else {
      PubKeeps(s, a.w.i);
    }
  }

  /** The invariant holds in every state of every run. */
  lemma {:induction false} RunKeeps(s: State, actions: seq<Action>, t: State)
    requires Inv(s) && Runs(s, actions, t)
    ensures Inv(t)
    decreases |actions|
  {
    if actions != [] {
      DoKeeps(s, actions[0]);
      RunKeeps(Do(s, actions[0]), actions[1..], t);
    }
  }

  // ---------------------------------------------------------------- what every run keeps

  /**
    Safety: whatever the interleaving, each list the consumer has taken over is one complete published
    list, and the copy it leaves with is the latest of them.
    */
  lemma HandOverSafe(s: State, actions: seq<Action>, t: State)
    requires Init(s) && Runs(s, actions, t)
    ensures forall k :: 0 <= k < |t.loaded| ==> t.loaded[k] in t.published
    ensures t.published != [] && (t.con.Leaving? ==> t.copy == Latest(t))
  {
    InitInv(s);
    RunKeeps(s, actions, t);
    if t.con.Leaving? {
      ConSeesLatest(t);
    }
  }

  predicate NoEmptyResponse(actions: seq<Action>) {
    forall k :: 0 <= k < |actions| ==> !(actions[k].Start? && actions[k].b.EmptyResponse?)
  }

  lemma {:induction false} NothingErased(s: State, actions: seq<Action>, t: State)
    requires Runs(s, actions, t) && NoEmptyResponse(actions) && !s.erased
    ensures !t.erased
    decreases |actions|
  {
    if actions != [] {
      assert !(actions[0].Start? && actions[0].b.EmptyResponse?);
      NothingErased(Do(s, actions[0]), actions[1..], t);
    }
  }

  /**
    Freshness, exactly: after the first load, with the consumer outside `update_playlist` and the flag
    down, the last copied list is the latest published one of its time; it is behind if and only if an
    empty response has taken the flag down since the last publication and no load has followed. A run
    without such responses rules that out, and a copy that is not behind is what is published now.
    */
  lemma HandOverFresh(s: State, actions: seq<Action>, t: State)
    requires Init(s) && Runs(s, actions, t)
    requires t.loaded != [] && !ConHoldsList(t.con) && !t.newPlaylist
    ensures 0 < t.seen <= |t.published| && t.loaded[|t.loaded| - 1] == t.published[t.seen - 1]
    ensures Behind(t) <==> t.erased
    ensures NoEmptyResponse(actions) ==> !t.erased
    ensures !Behind(t) ==> t.loaded[|t.loaded| - 1] == Latest(t)
    ensures !Behind(t) && NoWriter(t) ==> t.loaded[|t.loaded| - 1] == t.list
  {
    InitInv(s);
    RunKeeps(s, actions, t);
    if NoEmptyResponse(actions) {
      NothingErased(s, actions, t);
    }
  }

  // ---------------------------------------------------------------- what asking tells

  /** A publisher on its way has tracks to publish. */
  predicate HasTracks(p: Pub) {
    (p.WaitList? || p.WaitChange? || p.HasBoth? || p.Writing?) ==> p.pl != []
  }

  /** The flag is up only for a list with tracks. */
  predicate Telling(s: State) {
    && s.published != [] && (s.newPlaylist ==> Latest(s) != [])
    && forall i :: 0 <= i < |s.pubs| ==> HasTracks(s.pubs[i])
  }

  lemma PubTells(s: State, i: nat)
    requires Data(s) && Telling(s) && Enabled(s, Publisher(i))
    ensures Telling(PubStep(s, i))
  {
    var t := PubStep(s, i);
    assert HasTracks(s.pubs[i]);
    forall j | 0 <= j < |t.pubs| ensures HasTracks(t.pubs[j]) {
      assert HasTracks(s.pubs[j]);
    }
  }

  lemma ConTells(s: State)
    requires Telling(s) && Enabled(s, Consumer)
    ensures Telling(ConStep(s))
  {
    assert ConStep(s).pubs == s.pubs && ConStep(s).published == s.published;
  }

  lemma BeginTells(s: State, b: Begin)
    requires Telling(s) && CanBegin(s, b)
    ensures Telling(Begun(s, b))
  {
    var t := Begun(s, b);
    forall j | 0 <= j < |t.pubs| ensures HasTracks(t.pubs[j]) {
      assert HasTracks(s.pubs[j]);
    }
  }

  lemma DoTells(s: State, a: Action)
    requires Inv(s) && Telling(s) && Allowed(s, a)
    ensures Telling(Do(s, a))
  {
    if a.Start? {
      BeginTells(s, a.b);
    } else if a.w.Consumer? {
      ConTells(s);
    } else {
      PubTells(s, a.w.i);
    }
  }

  lemma {:induction false} RunTells(s: State, actions: seq<Action>, t: State)
    requires Inv(s) && Telling(s) && Runs(s, actions, t)
    ensures Inv(t) && Telling(t)
    decreases |actions|
  {
    if actions != [] {
      DoKeeps(s, actions[0]);
      DoTells(s, actions[0]);
      RunTells(Do(s, actions[0]), actions[1..], t);
    }
  }

  /** While the consumer holds the change mutex nobody is writing. */
  lemma NobodyWrites(s: State)
    requires Locks(s) && ConHoldsChange(s.con)
    ensures NoWriter(s)
  {
    forall i | 0 <= i < |s.pubs| ensures !s.pubs[i].Writing? {
      assert PubLocks(s, i);
    }
  }

  /**
    Asking tells exactly whether the flag is up, whatever goes on around it: the consumer then goes on to
    load the list, and else back to rest; and once it has loaded, it is told whenever it is behind, unless
    an empty response took the flag down.
    */
  lemma AskingTells(s: State, actions: seq<Action>, t: State)
    requires Init(s) && Runs(s, actions, t) && t.con == AskHold
    ensures Enabled(t, Consumer) && ConStep(t).con == Asked(t.newPlaylist)
    ensures Enabled(ConStep(t), Consumer)
         && ConStep(ConStep(t)).con == if t.newPlaylist then LoadWait else Out
    ensures t.loaded != [] && !t.erased ==> (t.newPlaylist <==> Behind(t))
  {
    InitInv(s);
    RunTells(s, actions, t);
    NobodyWrites(t);
  }

  const START := State(["a"], false, Nobody, Nobody, [Idle], Out, [], [["a"]], [], 0, false)
  const LOADED := State(["a"], false, Nobody, Nobody, [Idle], Out, ["a"], [["a"]], [["a"]], 1, false)
  const NOTICED := State(["b"], true, Nobody, Nobody, [Idle], Out, ["a"], [["a"], ["b"]], [["a"]], 1, false)
  const MISSED := State(["b"], false, Nobody, Nobody, [Idle], Out, ["a"], [["a"], ["b"]], [["a"]], 1, true)

  lemma {:induction false} RunsOn(s: State, actions: seq<Action>, t: State, a: Action)
    requires Runs(s, actions, t) && Allowed(t, a)
    ensures Runs(s, actions + [a], Do(t, a))
    decreases |actions|
  {
    if actions == [] {
      assert [a][1..] == [];
    } else {
      assert (actions + [a])[1..] == actions[1..] + [a];
      RunsOn(Do(s, actions[0]), actions[1..], t, a);
    }
  }

  lemma Reach(s: State, actions: seq<Action>, t: State, a: Action, u: State) returns (more: seq<Action>)
    requires Runs(s, actions, t) && Allowed(t, a) && Do(t, a) == u
    ensures Runs(s, more, u)
  {
    RunsOn(s, actions, t, a);
    more := actions + [a];
  }

  const COPIED := START.(listLock := Held(Consumer), con := FlagWait, copy := ["a"])
  const BOTH := LOADED.(listLock := Held(Publisher(0)), changeLock := Held(Publisher(0)))

  lemma FirstCopy() returns (actions: seq<Action>)
    ensures Runs(START, actions, COPIED)
  {
    var s, go := START, Go(Consumer);
    var copying := s.(listLock := Held(Consumer), con := Copying(0));
    var copied := copying.(copy := ["a"], con := Copying(1));
    actions := Reach(s, [], s, Start(Load), s.(con := LoadWait));
    actions := Reach(s, actions, s.(con := LoadWait), go, copying);
    actions := Reach(s, actions, copying, go, copied);
    actions := Reach(s, actions, copied, go, COPIED);
  }

  lemma FirstLoad() returns (actions: seq<Action>)
    ensures Runs(COPIED, actions, LOADED)
  {
    var s, go := COPIED, Go(Consumer);
    var both := s.(changeLock := Held(Consumer), con := FlagHold);
    actions := Reach(s, [], s, go, both);
    actions := Reach(s, actions, both, go, both.(con := Cleared));
    actions := Reach(s, actions, both.(con := Cleared), go, s.(con := Leaving));
    actions := Reach(s, actions, s.(con := Leaving), go, LOADED);
  }

  lemma ThenLock() returns (actions: seq<Action>)
    ensures Runs(LOADED, actions, BOTH.(pubs := [HasBoth(["b"])]))
  {
    var s, go := LOADED, Go(Publisher(0));
    var wants := s.(pubs := [WaitList(["b"])]);
    var one := s.(listLock := Held(Publisher(0)), pubs := [WaitChange(["b"])]);
    actions := Reach(s, [], s, Start(Publish(0, ["b"])), wants);
    actions := Reach(s, actions, wants, go, one);
    actions := Reach(s, actions, one, go, BOTH.(pubs := [HasBoth(["b"])]));
  }

  lemma ThenPublish() returns (actions: seq<Action>)
    ensures Runs(BOTH.(pubs := [HasBoth(["b"])]), actions, NOTICED)
  {
    var s, go, me := BOTH.(pubs := [HasBoth(["b"])]), Go(Publisher(0)), Held(Publisher(0));
    var none, some := BOTH.(list := [], pubs := [Writing(["b"], 0)]), BOTH.(list := ["b"], pubs := [Writing(["b"], 1)]);
    var told := NOTICED.(listLock := me, changeLock := me, pubs := [Told]);
    var half := NOTICED.(changeLock := me, pubs := [Releasing]);
    actions := Reach(s, [], s, go, none);
    actions := Reach(s, actions, none, go, some);
    actions := Reach(s, actions, some, go, told);
    actions := Reach(s, actions, told, go, half);
    actions := Reach(s, actions, half, go, NOTICED);
  }

  /**
    With them it can fail: the consumer loads "a", "b" is published, an empty response takes the flag
    down, and the consumer is never told of "b".
    */
  lemma StaleAfterEmptyResponse() returns (actions: seq<Action>)
    ensures Init(START) && Runs(START, actions, MISSED)
    ensures MISSED.con == Out && !MISSED.newPlaylist
    ensures MISSED.loaded[|MISSED.loaded| - 1] != Latest(MISSED)
  {
    var copy := FirstCopy();
    var load := FirstLoad();
    var lock := ThenLock();
    var publish := ThenPublish();
    RunsThrough(START, copy, COPIED, load, LOADED);
    RunsThrough(START, copy + load, LOADED, lock, BOTH.(pubs := [HasBoth(["b"])]));
    RunsThrough(START, copy + load + lock, BOTH.(pubs := [HasBoth(["b"])]), publish, NOTICED);
    actions := Reach(START, copy + load + lock + publish, NOTICED, Start(EmptyResponse(0)), MISSED);
    assert MISSED.loaded[0] == ["a"] && MISSED.published[1] == ["b"] && ["a"][0] != ["b"][0];
  }

  lemma {:induction false} RunsThrough(s: State, a: seq<Action>, t: State, b: seq<Action>, u: State)
    requires Runs(s, a, t) && Runs(t, b, u)
    ensures Runs(s, a + b, u)
    decreases |a|
  {
    if a == [] {
      assert a + b == b;
    } else {
      assert (a + b)[1..] == a[1..] + b;
      RunsThrough(Do(s, a[0]), a[1..], t, b, u);
    }
  }

  lemma RunsOne(s: State, a: Action, rest: seq<Action>, t: State)
    requires Allowed(s, a) && Runs(Do(s, a), rest, t)
    ensures Runs(s, [a] + rest, t)
  {
    assert ([a] + rest)[1..] == rest;
  }

  // ---------------------------------------------------------------- no deadlock

  /** In every state of the invariant a busy thread can go on, unless all are at rest. */
  lemma NoDeadlock(s: State, w: Who) returns (go: Who)
    requires Inv(s) && Busy(s, w)
    ensures Enabled(s, go)
  {
    if s.changeLock.Held? {
      go := s.changeLock.who;
      if go.Publisher? { assert PubLocks(s, go.i); }
    } else if s.listLock.Held? {
      go := s.listLock.who;
      if go.Publisher? { assert PubLocks(s, go.i); }
    } else {
      go := w;
    }
  }

  function Left(p: Pub): nat {
    match p
    case Idle => 0
    case Releasing => 1
    case Told => 2
    case Writing(pl, n) => if n <= |pl| then 3 + |pl| - n else 0
    case HasBoth(pl) => 4 + |pl|
    case WaitChange(pl) => 5 + |pl|
    case WaitList(pl) => 6 + |pl|
  }

  function PubWork(pubs: seq<Pub>): nat {
    if pubs == [] then 0 else Left(pubs[0]) + PubWork(pubs[1..])
  }

  lemma {:induction false} WorkUpdate(pubs: seq<Pub>, i: nat, p: Pub)
    requires i < |pubs|
    ensures PubWork(pubs[i := p]) == PubWork(pubs) - Left(pubs[i]) + Left(p)
  {
    if i > 0 {
      assert pubs[i := p][1..] == pubs[1..][i - 1 := p];
      WorkUpdate(pubs[1..], i - 1, p);
    } else {
      assert pubs[i := p][1..] == pubs[1..];
    }
  }

  function ConWork(c: Con): nat {
    match c
    case Out => 0
    case Leaving => 1
    case Cleared => 2
    case FlagHold => 3
    case FlagWait => 4
    case Copying(_) => 5
    case LoadWait => 6
    case Asked(_) => 7
    case AskHold => 8
    case AskWait => 9
  }

  function CopyWork(s: State): nat {
    if s.con.Copying? && s.con.n <= |s.list| then |s.list| - s.con.n else 0
  }

  /** The work left in `t` is less than in `s`: publishers first, then the consumer's place, then its copying. */
  predicate LessWork(t: State, s: State) {
    || PubWork(t.pubs) < PubWork(s.pubs)
    || (PubWork(t.pubs) == PubWork(s.pubs) &&
          (ConWork(t.con) < ConWork(s.con) || (ConWork(t.con) == ConWork(s.con) && CopyWork(t) < CopyWork(s))))
  }

  lemma PubWorks(s: State, i: nat)
    requires Enabled(s, Publisher(i)) && WriterOk(s, i)
    ensures PubWork(PubStep(s, i).pubs) < PubWork(s.pubs)
  {
    var p := PubStep(s, i).pubs[i];
    assert Left(p) < Left(s.pubs[i]);
    assert PubStep(s, i).pubs == s.pubs[i := p];
    WorkUpdate(s.pubs, i, p);
  }

  /** Every step of a thread brings the operations in progress closer to their end. */
  lemma StepWorks(s: State, w: Who)
    requires Inv(s) && Enabled(s, w)
    ensures LessWork(Next(s, w), s)
  {
    if w.Publisher? {
      assert WriterOk(s, w.i);
      PubWorks(s, w.i);
    }
  }

  /** No reachable state is stuck: the operations in progress can always all be brought to their end. */
  lemma {:induction false} CanFinish(s: State) returns (actions: seq<Action>, t: State)
    requires Inv(s)
    ensures Runs(s, actions, t) && forall w :: !Busy(t, w)
    ensures forall k :: 0 <= k < |actions| ==> actions[k].Go?
    decreases PubWork(s.pubs), ConWork(s.con), CopyWork(s)
  {
    if w :| Busy(s, w) {
      var go := NoDeadlock(s, w);
      StepWorks(s, go);
      DoKeeps(s, Go(go));
      actions, t := CanFinish(Next(s, go));
      RunsOne(s, Go(go), actions, t);
      actions := [Go(go)] + actions;
    } else {
      actions, t := [], s;
    }
  }
}
