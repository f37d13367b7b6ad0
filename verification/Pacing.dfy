/**
  Stream pacing: after each chunk the sender measures how far the audio it has sent runs ahead of the
  clock, and sleeps to one of three periods. Times are milliseconds, as reals.
  */
module Pacing {
  import Adts

  const SLOW := 1100.0
  const EVEN := 975.0
  const FAST := 900.0

  function Max(a: real, b: real): real {
    if a < b then b else a
  }

  function Min(a: real, b: real): real {
    if a < b then a else b
  }

  /** The period a measured buffer asks for. */
  function Period(buffer: real, target: real): real {
    if buffer < target - 100.0 then FAST else if buffer > target then SLOW else EVEN
  }

  class PlayTime {
    const spf: int
    const frequency: int
    const frames: int
    const framesToRead: int
    var timeBegin: real
    var sendBegin: real
    var timeElapsed: real
    var timeSent: real
    var bufferSent: real
    var sendLag: real
    var timePause: real
    var framesSent: int

    constructor (spf: int, frequency: int, frames: int, framesToRead: int, now: real)
      requires 0 < frequency
      ensures this.spf == spf && this.frequency == frequency && this.frames == frames
      ensures this.framesToRead == framesToRead && framesSent == 0 && timeBegin == now
    {
      this.spf, this.frequency, this.frames, this.framesToRead := spf, frequency, frames, framesToRead;
      timeBegin, sendBegin := now, now;
      timeElapsed, timeSent, bufferSent, sendLag, timePause, framesSent := 0.0, 0.0, 0.0, 0.0, 0.0, 0;
    }

    /** The playing time of so many frames. */
    function Playing(n: int): real
      requires 0 < frequency
    {
      (n as real * spf as real) * 1000.0 / frequency as real
    }

    /** One chunk was fetched at `sendBegin`; it counts only when it was sent. */
    method CountChunk(sent: bool)
      modifies this`framesSent
      ensures framesSent == old(framesSent) + if sent then framesToRead else 0
    {
      if sent {
        framesSent := framesSent + framesToRead;
      }
    }

    /**
      Measures at `now` and returns how long to sleep: to the end of the period while chunks come, to
      the end of the track (two seconds at most, when more than three are left) after the last.
      */
    method Timing(now: real, chunk: bool, target: real) returns (sleep: real)
      requires 0 < frequency && sendBegin <= now
      modifies this`timeElapsed, this`timeSent, this`bufferSent, this`sendLag, this`timePause
      ensures chunk ==> bufferSent == Max(0.0, Playing(framesSent) - (now - timeBegin)) && sendLag == now - sendBegin
      ensures chunk ==> sleep == Max(0.0, (if bufferSent < target - 100.0 then 900.0
                                           else if bufferSent > target then 1100.0 else 975.0) - sendLag)
      ensures !chunk ==> var left := Playing(frames) - (now - timeBegin);
                         sleep == if left > 3000.0 then 2000.0 else Max(0.0, left)
    {
      var between: real;
      if chunk {
        timeElapsed := now - timeBegin;
        timeSent := Playing(framesSent);
        bufferSent := if timeElapsed > timeSent then 0.0 else timeSent - timeElapsed;
        sendLag := now - sendBegin;
        if bufferSent < target - 100.0 {
          timePause := FAST - sendLag;
        } else if bufferSent > target {
          timePause := SLOW - sendLag;
        } else {
          timePause := EVEN - sendLag;
        }
        between := timePause;
      } else {
        between := Playing(frames) - (now - timeBegin);
      }
      if between > 3000.0 {
        between := 2000.0;
      }
      sleep := if between > 0.0 then between else 0.0;
    }
  }

  // ---------------------------------------------------------------- the bound over a track

  /** One turn of the send loop: begun at `start` after the track's begin, measured `lag` later. */
  datatype Send = Send(start: real, lag: real, sent: bool)

  /** The audio sent by the first `n` turns, in chunks of `c`. */
  function Audio(c: real, ts: seq<Send>, n: nat): real
    requires n <= |ts|
  {
    if n == 0 then 0.0 else Audio(c, ts, n - 1) + if ts[n - 1].sent then c else 0.0
  }

  /** The audio sent by turn `k` and before, less the time gone when turn `k` began. */
  function Lead(c: real, ts: seq<Send>, k: nat): real
    requires k < |ts|
  {
    Audio(c, ts, k + 1) - ts[k].start
  }

  /** What turn `k` sleeps. */
  function Sleep(c: real, target: real, ts: seq<Send>, k: nat): real
    requires k < |ts|
  {
    var buffer := Max(0.0, Lead(c, ts, k) - ts[k].lag);
    Max(0.0, Period(buffer, target) - ts[k].lag)
  }

  /** A track as it can go: lags up to `lag`, no sleep shorter than asked. */
  predicate Track(c: real, target: real, lag: real, ts: seq<Send>) {
    && (forall k :: 0 <= k < |ts| ==> 0.0 <= ts[k].start && 0.0 <= ts[k].lag <= lag)
    && (forall k :: 0 <= k < |ts| - 1 ==>
          ts[k + 1].start >= ts[k].start + ts[k].lag + Sleep(c, target, ts, k))
  }

  /**
    The pacing bound: the lead never exceeds one chunk, or the target plus the lag (of which no more
    than one even period counts) plus what a chunk is longer than that period.
    */
  lemma {:induction false} LeadBound(c: real, target: real, lag: real, ts: seq<Send>, k: nat)
    requires EVEN < c < SLOW && Track(c, target, lag, ts) && k < |ts|
    ensures Lead(c, ts, k) <= Max(c, target + Min(lag, EVEN) + (c - EVEN))
  {
    if k > 0 {
      LeadBound(c, target, lag, ts, k - 1);
      var before := ts[k - 1];
      assert before.start >= 0.0 && 0.0 <= before.lag <= lag;
      assert ts[k - 1 + 1].start >= before.start + before.lag + Sleep(c, target, ts, k - 1);
      assert Audio(c, ts, k + 1) <= Audio(c, ts, k) + c;
    } else {
      assert ts[0].start >= 0.0;
      assert Audio(c, ts, 1) <= Audio(c, ts, 0) + c;
    }
  }

  lemma {:induction false} AudioOfPrefix(c: real, a: seq<Send>, b: seq<Send>, n: nat)
    requires n <= |a| && a <= b
    ensures Audio(c, a, n) == Audio(c, b, n)
  {
    if n > 0 {
      AudioOfPrefix(c, a, b, n - 1);
    }
  }

  /** What the world adds to one turn: how long fetching and sending take, whether they succeed, and how
      much later than asked the sender wakes up. */
  datatype Turn = Turn(lag: real, sent: bool, late: real)

  /** Turn `k` begins when the one before has lagged, slept and overslept. */
  predicate Follows(c: real, target: real, ts: seq<Send>, turns: seq<Turn>, k: nat)
    requires |ts| <= |turns| && k < |ts|
  {
    && ts[k].lag == turns[k].lag && ts[k].sent == turns[k].sent
    && (k > 0 ==> ts[k].start == ts[k - 1].start + ts[k - 1].lag + Sleep(c, target, ts, k - 1) + turns[k - 1].late)
  }

  /** The turns of a track, to the moment. */
  predicate Exactly(c: real, target: real, ts: seq<Send>, turns: seq<Turn>)
    requires |ts| <= |turns|
  {
    forall k :: 0 <= k < |ts| ==> Follows(c, target, ts, turns, k)
  }

  lemma SleepOfPrefix(c: real, target: real, a: seq<Send>, b: seq<Send>, k: nat)
    requires a <= b && k < |a|
    ensures Sleep(c, target, a, k) == Sleep(c, target, b, k)
  {
    AudioOfPrefix(c, a, b, k + 1);
  }

  lemma ExactlyGoesOn(c: real, target: real, ts: seq<Send>, turns: seq<Turn>, t: Send)
    requires |ts| < |turns| && Exactly(c, target, ts, turns)
    requires t.lag == turns[|ts|].lag && t.sent == turns[|ts|].sent
    requires ts != [] ==> var k := |ts| - 1;
               t.start == ts[k].start + ts[k].lag + Sleep(c, target, ts, k) + turns[k].late
    ensures Exactly(c, target, ts + [t], turns)
  {
    var us := ts + [t];
    forall k | 0 <= k < |us| ensures Follows(c, target, us, turns, k) {
      if k > 0 {
        SleepOfPrefix(c, target, ts, us, k - 1);
      }
      if k < |ts| {
        assert Follows(c, target, ts, turns, k);
      }
    }
  }

  /** Waking up late makes a track. */
  lemma ExactlyTrack(c: real, target: real, lag: real, ts: seq<Send>, turns: seq<Turn>)
    requires |ts| <= |turns| && Exactly(c, target, ts, turns)
    requires forall t :: t in turns ==> 0.0 <= t.lag <= lag && 0.0 <= t.late
    requires ts != [] ==> ts[0].start >= 0.0
    ensures Track(c, target, lag, ts)
  {
    StartsLater(c, target, lag, ts, turns, |ts|);
    forall k | 0 <= k < |ts| - 1
      ensures ts[k + 1].start >= ts[k].start + ts[k].lag + Sleep(c, target, ts, k)
    {
      assert Follows(c, target, ts, turns, k + 1) && turns[k] in turns;
    }
  }

  lemma {:induction false} StartsLater(c: real, target: real, lag: real, ts: seq<Send>, turns: seq<Turn>, n: nat)
    requires n <= |ts| <= |turns| && Exactly(c, target, ts, turns)
    requires forall t :: t in turns ==> 0.0 <= t.lag <= lag && 0.0 <= t.late
    requires ts != [] ==> ts[0].start >= 0.0
    ensures forall k :: 0 <= k < n ==> 0.0 <= ts[k].start && 0.0 <= ts[k].lag <= lag
  {
    if n > 0 {
      StartsLater(c, target, lag, ts, turns, n - 1);
      assert Follows(c, target, ts, turns, n - 1) && turns[n - 1] in turns;
      if n > 1 {
        assert turns[n - 2] in turns;
      }
    }
  }

  /** One turn: fetch and send from `now` on, measure, sleep. */
  method SendOne(p: PlayTime, now: real, turn: Turn, target: real, ghost ts: seq<Send>) returns (sleep: real)
    requires 0 < p.frequency && 0.0 <= turn.lag
    requires Audio(p.Playing(p.framesToRead), ts, |ts|) == p.Playing(p.framesSent)
    modifies p
    ensures p.timeBegin == old(p.timeBegin)
    ensures var us := ts + [Send(now - p.timeBegin, turn.lag, turn.sent)];
            && Audio(p.Playing(p.framesToRead), us, |us|) == p.Playing(p.framesSent)
            && sleep == Sleep(p.Playing(p.framesToRead), target, us, |ts|)
  {
    p.sendBegin := now;
    ghost var us := ts + [Send(now - p.timeBegin, turn.lag, turn.sent)];
    PlayingAdds(p, p.framesSent);
    p.CountChunk(turn.sent);
    AudioOfPrefix(p.Playing(p.framesToRead), ts, us, |ts|);
    sleep := p.Timing(now + turn.lag, true, target);
  }

  /** The send loop of one track, whatever the world does: every turn begins at its exact time. */
  method SendLoop(p: PlayTime, first: real, turns: seq<Turn>, target: real) returns (ts: seq<Send>)
    requires 0 < p.frequency && p.framesSent == 0 && first >= p.timeBegin
    requires forall t :: t in turns ==> 0.0 <= t.lag
    modifies p
    ensures |ts| == |turns| && Exactly(p.Playing(p.framesToRead), target, ts, turns)
    ensures ts != [] ==> ts[0].start == first - old(p.timeBegin)
  {
    ghost var c := p.Playing(p.framesToRead);
    ts := [];
    var now := first;
    PlayingAdds(p, 0);
    for i := 0 to |turns|
      invariant |ts| == i && p.timeBegin == old(p.timeBegin)
      invariant Exactly(c, target, ts, turns) && Audio(c, ts, i) == p.Playing(p.framesSent)
      invariant i > 0 ==>
                  now - p.timeBegin == ts[i - 1].start + ts[i - 1].lag + Sleep(c, target, ts, i - 1) + turns[i - 1].late
      invariant if i > 0 then ts[0].start == first - p.timeBegin else now == first
    {
      var turn := turns[i];
      assert turn in turns;
      ExactlyGoesOn(c, target, ts, turns, Send(now - p.timeBegin, turn.lag, turn.sent));
      var sleep := SendOne(p, now, turn, target, ts);
      ts := ts + [Send(now - p.timeBegin, turn.lag, turn.sent)];
      now := now + turn.lag + sleep + turn.late;
    }
  }

  lemma PlayingAdds(p: PlayTime, n: int)
    requires 0 < p.frequency
    ensures p.Playing(n + p.framesToRead) == p.Playing(n) + p.Playing(p.framesToRead)
    ensures p.Playing(0) == 0.0
  {
    var s, f := p.spf as real, p.frequency as real;
    assert (n + p.framesToRead) as real == n as real + p.framesToRead as real;
    var a, b := (n as real * s) * 1000.0, (p.framesToRead as real * s) * 1000.0;
    assert ((n + p.framesToRead) as real * s) * 1000.0 == a + b;
    assert (a + b) / f == a / f + b / f;
  }

  predicate Bounded(c: real, target: real, lag: real, ts: seq<Send>) {
    forall k :: 0 <= k < |ts| ==> Lead(c, ts, k) <= target + lag + (c - EVEN)
  }

  /** The bound without its first alternative: of every track exactly when target and lag make up an even period. */
  lemma LeadBelowTarget(c: real, target: real, lag: real)
    requires EVEN < c < SLOW && lag >= 0.0
    ensures (forall ts :: Track(c, target, lag, ts) ==> Bounded(c, target, lag, ts)) <==> target + lag >= EVEN
  {
    if target + lag >= EVEN {
      forall ts | Track(c, target, lag, ts) ensures Bounded(c, target, lag, ts) {
        forall k | 0 <= k < |ts| ensures Lead(c, ts, k) <= target + lag + (c - EVEN) {
          LeadBound(c, target, lag, ts, k);
        }
      }
    } else {
      var first := [Send(0.0, 0.0, true)];
      assert Track(c, target, lag, first);
      assert Audio(c, first, 1) == Audio(c, first, 0) + c && Lead(c, first, 0) == c;
    }
  }

  // ---------------------------------------------------------------- the band

  /** The next lead when nothing lags and sleeps are exact. */
  function Step(c: real, target: real, x: real): real {
    x + c - Period(Max(0.0, x), target)
  }

  function Steps(c: real, target: real, x: real, n: nat): real
    decreases n
  {
    if n == 0 then x else Steps(c, target, Step(c, target, x), n - 1)
  }

  function Low(c: real, target: real): real {
    target - 100.0 - (SLOW - c)
  }

  function High(c: real, target: real): real {
    target + (c - EVEN)
  }

  predicate InBand(c: real, target: real, x: real) {
    Low(c, target) <= x <= High(c, target)
  }

  /** A track without lags, with exact sleeps and every chunk sent, follows `Step`. */
  lemma ExactTrack(c: real, target: real, ts: seq<Send>, k: nat)
    requires k + 1 < |ts| && ts[k].lag == 0.0 && ts[k + 1].sent
    requires ts[k + 1].start == ts[k].start + ts[k].lag + Sleep(c, target, ts, k)
    ensures Lead(c, ts, k + 1) == Step(c, target, Lead(c, ts, k))
  {
    assert Audio(c, ts, k + 2) == Audio(c, ts, k + 1) + c;
  }

  /** The band is never left. */
  lemma {:induction false} BandStays(c: real, target: real, x: real, n: nat)
    requires EVEN < c < SLOW && 0.0 <= target && InBand(c, target, x)
    ensures InBand(c, target, Steps(c, target, x, n))
    decreases n
  {
    if n > 0 {
      BandStays(c, target, Step(c, target, x), n - 1);
    }
  }

  /** Below the band the lead grows by at least c - 975 a step and does not jump over it. */
  lemma {:induction false} FromBelow(c: real, target: real, x: real, n: nat) returns (m: nat)
    requires EVEN < c < SLOW && 0.0 <= target && x <= High(c, target)
    requires Low(c, target) - x <= n as real * (c - EVEN)
    ensures m <= n && InBand(c, target, Steps(c, target, x, m))
    decreases n
  {
    if InBand(c, target, x) {
      m := 0;
    } else {
      assert n != 0 by { assert 0 as real * (c - EVEN) == 0.0; }
      assert n as real * (c - EVEN) == (n - 1) as real * (c - EVEN) + (c - EVEN) by {
        assert n as real == (n - 1) as real + 1.0;
      }
      m := FromBelow(c, target, Step(c, target, x), n - 1);
      m := m + 1;
    }
  }

  /** Above it the lead falls by 1100 - c a step and does not fall through. */
  lemma {:induction false} FromAbove(c: real, target: real, x: real, n: nat) returns (m: nat)
    requires EVEN < c < SLOW && 0.0 <= target && x >= Low(c, target)
    requires x - High(c, target) <= n as real * (SLOW - c)
    ensures m <= n && InBand(c, target, Steps(c, target, x, m))
    decreases n
  {
    if InBand(c, target, x) {
      m := 0;
    } else {
      assert n != 0 by { assert 0 as real * (SLOW - c) == 0.0; }
      assert n as real * (SLOW - c) == (n - 1) as real * (SLOW - c) + (SLOW - c) by {
        assert n as real == (n - 1) as real + 1.0;
      }
      m := FromAbove(c, target, Step(c, target, x), n - 1);
      m := m + 1;
    }
  }

  /** So many steps bring a lead of `x` into the band. */
  function Settling(c: real, target: real, x: real): (n: nat)
    requires EVEN < c < SLOW
  {
    if x < Low(c, target) then Steps1((Low(c, target) - x) / (c - EVEN))
    else if x > High(c, target) then Steps1((x - High(c, target)) / (SLOW - c))
    else 0
  }

  function Steps1(q: real): (n: nat)
    requires q >= 0.0
    ensures q <= n as real
  {
    q.Floor + 1
  }

  lemma Enough(distance: real, step: real)
    requires step > 0.0 && distance >= 0.0
    ensures distance / step >= 0.0 && distance <= Steps1(distance / step) as real * step
  {
    var q := distance / step;
    assert q * step == distance;
    assert (Steps1(q) as real - q) * step >= 0.0;
  }

  lemma {:induction false} StepsOn(c: real, target: real, x: real, m: nat, n: nat)
    ensures Steps(c, target, x, m + n) == Steps(c, target, Steps(c, target, x, m), n)
    decreases m
  {
    if m > 0 {
      StepsOn(c, target, Step(c, target, x), m - 1, n);
    }
  }

  /** From wherever a track begins, the lead is in the band after so many steps and for ever. */
  lemma BandReached(c: real, target: real, x: real, n: nat)
    requires EVEN < c < SLOW && 0.0 <= target && n >= Settling(c, target, x)
    ensures InBand(c, target, Steps(c, target, x, n))
  {
    var m: nat := 0;
    if x < Low(c, target) {
      Enough(Low(c, target) - x, c - EVEN);
      m := FromBelow(c, target, x, Settling(c, target, x));
    } else if x > High(c, target) {
      Enough(x - High(c, target), SLOW - c);
      m := FromAbove(c, target, x, Settling(c, target, x));
    }
    BandStays(c, target, Steps(c, target, x, m), n - m);
    StepsOn(c, target, x, m, n - m);
  }

  /** No lags, exact sleeps, and every chunk sent. */
  predicate Undisturbed(turns: seq<Turn>) {
    forall t :: t in turns ==> t == Turn(0.0, true, 0.0)
  }

  lemma StepsLast(c: real, target: real, x: real, k: nat)
    ensures Steps(c, target, x, k + 1) == Step(c, target, Steps(c, target, x, k))
  {
    StepsOn(c, target, x, k, 1);
    assert Steps(c, target, Steps(c, target, x, k), 1) == Steps(c, target, Step(c, target, Steps(c, target, x, k)), 0);
  }

  /** The leads of an undisturbed track are the steps from its first one. */
  lemma {:induction false} TrackSteps(c: real, target: real, ts: seq<Send>, turns: seq<Turn>, k: nat)
    requires |ts| <= |turns| && Exactly(c, target, ts, turns) && Undisturbed(turns) && k < |ts|
    ensures Lead(c, ts, k) == Steps(c, target, Lead(c, ts, 0), k)
  {
    if k > 0 {
      TrackSteps(c, target, ts, turns, k - 1);
      assert Follows(c, target, ts, turns, k) && Follows(c, target, ts, turns, k - 1);
      assert turns[k] in turns && turns[k - 1] in turns;
      ExactTrack(c, target, ts, k - 1);
      StepsLast(c, target, Lead(c, ts, 0), k - 1);
    }
  }

  /**
    The band on a track: without lags, with exact sleeps and all chunks sent, the lead of every turn is
    in the band from the turn on that the first lead decides.
    */
  lemma TrackInBand(c: real, target: real, ts: seq<Send>, turns: seq<Turn>)
    requires EVEN < c < SLOW && 0.0 <= target
    requires |ts| <= |turns| && Exactly(c, target, ts, turns) && Undisturbed(turns)
    ensures forall k :: 0 <= k < |ts| && k >= Settling(c, target, Lead(c, ts, 0)) ==> InBand(c, target, Lead(c, ts, k))
  {
    forall k | 0 <= k < |ts| && k >= Settling(c, target, Lead(c, ts, 0)) ensures InBand(c, target, Lead(c, ts, k)) {
      TrackSteps(c, target, ts, turns, k);
      BandReached(c, target, Lead(c, ts, 0), k);
    }
  }

  /** Undisturbed turns follow one another at 900, 1100 or 975 milliseconds, as the lead asks. */
  lemma UndisturbedGap(c: real, target: real, ts: seq<Send>, turns: seq<Turn>, k: nat)
    requires |ts| <= |turns| && Exactly(c, target, ts, turns) && Undisturbed(turns) && k + 1 < |ts|
    ensures var ahead := Max(0.0, Lead(c, ts, k));
            ts[k + 1].start - ts[k].start
              == if ahead < target - 100.0 then 900.0 else if ahead > target then 1100.0 else 975.0
  {
    assert Follows(c, target, ts, turns, k + 1) && Follows(c, target, ts, turns, k);
    assert turns[k] in turns;
  }

  /** Frames that hold so many seconds of samples play a thousand milliseconds for each. */
  lemma PlaysSeconds(p: PlayTime, n: int, seconds: int)
    requires 0 < p.frequency && n * p.spf == seconds * p.frequency
    ensures p.Playing(n) == 1000.0 * seconds as real
  {
    var f := p.frequency as real;
    assert n as real * p.spf as real == (n * p.spf) as real == seconds as real * f;
    assert seconds as real * f * 1000.0 / f == seconds as real * 1000.0;
  }

  /** A chunk of AAC frames, at every rate there is, is one that the bounds speak of. */
  lemma AacChunk(p: PlayTime, i: nat)
    requires i < |Adts.SFTABLE| && Adts.SFTABLE[i] != 0
    requires p.spf == 1024 && p.frequency == Adts.SFTABLE[i] && p.framesToRead == Adts.ChunkFrames(p.frequency)
    ensures 975.0 < p.Playing(p.framesToRead) < 1100.0
  {
    Adts.ChunkDuration(i);
    Ratio(p.framesToRead * 1024 * 1000, p.frequency);
    assert (p.framesToRead as real * 1024.0) * 1000.0 == (p.framesToRead * 1024 * 1000) as real;
  }

  lemma Ratio(a: int, f: int)
    requires 0 < f && 975 * f < a < 1100 * f
    ensures 975.0 < a as real / f as real < 1100.0
  {
    var q, w, b := a as real / f as real, f as real, a as real;
    assert q * w == b;
    assert 975.0 * w < b < 1100.0 * w;
    Between(q, w, b);
  }

  lemma Between(q: real, w: real, b: real)
    requires w > 0.0 && q * w == b && 975.0 * w < b < 1100.0 * w
    ensures 975.0 < q < 1100.0
  {
    Adts.Scale(q, 975.0, w);
    Adts.Scale(1100.0, q, w);
  }

  /** A whole track as it is sent: the bound on its lead, and the band when nothing disturbs it. */
  method SendTrack(p: PlayTime, first: real, turns: seq<Turn>, target: real, lag: real) returns (ts: seq<Send>)
    requires 0 < p.frequency && p.framesSent == 0 && first >= p.timeBegin && 0.0 <= target
    requires EVEN < p.Playing(p.framesToRead) < SLOW
    requires forall t :: t in turns ==> 0.0 <= t.lag <= lag && 0.0 <= t.late
    modifies p
    ensures |ts| == |turns|
    ensures var c := p.Playing(p.framesToRead);
            && (forall k :: 0 <= k < |ts| ==> Lead(c, ts, k) <= Max(c, target + Min(lag, EVEN) + (c - EVEN)))
            && (Undisturbed(turns) ==> forall k :: 0 <= k < |ts| && k >= Settling(c, target, Lead(c, ts, 0)) ==>
                  InBand(c, target, Lead(c, ts, k)))
  {
    ghost var c := p.Playing(p.framesToRead);
    ts := SendLoop(p, first, turns, target);
    ExactlyTrack(c, target, lag, ts, turns);
    forall k | 0 <= k < |ts| ensures Lead(c, ts, k) <= Max(c, target + Min(lag, EVEN) + (c - EVEN)) {
      LeadBound(c, target, lag, ts, k);
    }
    if Undisturbed(turns) {
      TrackInBand(c, target, ts, turns);
    }
  }
}
