/** Rotation by schedule: the choice of the slot, the switch to the next one, and the drift of the clock. */
module Schedule {
  import opened PlayClock

  /** From `hour` on, the folders are walked in this order. */
  datatype Slot = Slot(hour: int, order: seq<string>)

  /** A parsed schedule: slots with folders, by increasing hour of the day. */
  ghost predicate SlotsOk(slots: seq<Slot>) {
    && 0 < |slots|
    && (forall i :: 0 <= i < |slots| ==> 0 <= slots[i].hour < DEFAULT_DAY && slots[i].order != [])
    && (forall i, j :: 0 <= i < j < |slots| ==> slots[i].hour < slots[j].hour)
  }

  /** The hour at which slot `i` ends: the start of the next one, or the end of the day. */
  function EndHour(slots: seq<Slot>, i: nat): int
    requires i < |slots|
  {
    if i + 1 < |slots| then slots[i + 1].hour else DEFAULT_DAY
  }

  /** The slot `hour` falls into; none before the first slot of the day. */
  ghost predicate Holds(slots: seq<Slot>, i: nat, hour: int) {
    i < |slots| && slots[i].hour <= hour && (i + 1 < |slots| ==> hour < slots[i + 1].hour)
  }

  /**
    The clock of a schedule, with two tallies the source does not keep: by how much the slots so far
    were overrun, and how many tracks without a duration were taken. `passed` stays set once the last
    slot was left.
    */
  datatype Clock = Clock(it: nat, remained: int, duration: int,
                         switches: nat, overrun: int, unmeasured: nat, passed: bool)

  /** `create_schedule_order`: the next slot, or after the end the first one again. */
  ghost function NextSlot(slots: seq<Slot>, k: Clock): Clock
    requires k.it <= |slots|
  {
    var it := if k.it == |slots| then 0 else k.it + 1;
    if it >= |slots| then k.(it := it, passed := true)
    else k.(it := it,
            remained := HOUR_INTERVAL * (EndHour(slots, it) - slots[it].hour),
            switches := k.switches + 1,
            overrun := k.overrun - k.remained)
  }

  /** A track as the clock sees it: with the seconds of its duration text, or without such a text. */
  datatype Item = Measured(seconds: int) | Unmeasured

  ghost function Take(slots: seq<Slot>, default: int, k: Clock, item: Item): Clock
    requires k.it <= |slots|
  {
    var after := match item
      case Measured(s) => k.(duration := k.duration + s, remained := k.remained - s)
      case Unmeasured => k.(remained := k.remained - default, unmeasured := k.unmeasured + 1);
    if after.remained <= 0 then NextSlot(slots, after) else after
  }

  ghost function TakeAll(slots: seq<Slot>, default: int, k: Clock, items: seq<Item>): (r: Clock)
    requires k.it <= |slots|
    ensures slots != [] ==> r.it <= |slots|
    decreases |items|
  {
    if items == [] then k
    else
      var n := |items| - 1;
      var before := TakeAll(slots, default, k, items[..n]);
      if before.it <= |slots| then Take(slots, default, before, items[n]) else before
  }

  /** Playlist length plus remaining interval is the end of the slot, up to the overrun and what went unmeasured. */
  ghost predicate OnTime(slots: seq<Slot>, default: int, k: Clock)
    requires k.it <= |slots|
  {
    !k.passed ==>
      && k.it < |slots| && k.remained > 0
      && k.duration + k.remained
         == HOUR_INTERVAL * EndHour(slots, k.it) + k.overrun - default * k.unmeasured
  }

  ghost function ItemLength(default: int, item: Item): int {
    if item.Measured? then item.seconds else default
  }

  lemma Products(d: int, u: nat, n: nat, longest: int)
    ensures d * (u + 1) == d * u + d && (n + 1) * longest == n * longest + longest
  {
  }

  /** A switch to the next slot keeps the clock on time and books the overrun. */
  lemma SwitchOnTime(slots: seq<Slot>, default: int, k: Clock)
    requires SlotsOk(slots) && k.it <= |slots| && k.remained <= 0
    requires !k.passed ==>
               && k.it < |slots|
               && k.duration + k.remained
                  == HOUR_INTERVAL * EndHour(slots, k.it) + k.overrun - default * k.unmeasured
    ensures NextSlot(slots, k).it <= |slots| && OnTime(slots, default, NextSlot(slots, k))
    ensures NextSlot(slots, k).passed
         || (NextSlot(slots, k).overrun == k.overrun - k.remained && NextSlot(slots, k).switches == k.switches + 1)
  {
  }

  lemma TakeOnTime(slots: seq<Slot>, default: int, k: Clock, item: Item, longest: int)
    requires SlotsOk(slots) && k.it <= |slots| && OnTime(slots, default, k)
    requires ItemLength(default, item) <= longest
    requires 0 <= k.overrun <= k.switches * longest || k.passed
    ensures Take(slots, default, k, item).it <= |slots| && OnTime(slots, default, Take(slots, default, k, item))
    ensures Take(slots, default, k, item).passed
         || 0 <= Take(slots, default, k, item).overrun <= Take(slots, default, k, item).switches * longest
  {
    Products(default, k.unmeasured, k.switches, longest);
    var after := match item
      case Measured(s) => k.(duration := k.duration + s, remained := k.remained - s)
      case Unmeasured => k.(remained := k.remained - default, unmeasured := k.unmeasured + 1);
    if after.remained <= 0 {
      SwitchOnTime(slots, default, after);
    }
  }

  /**
    The drift law: over any run of tracks from a clock that is on time, until the last slot is left,
    the overrun is the only drift of the measured tracks, and it is at most one longest track a switch.
    */
  lemma {:induction false} ScheduleDrift(slots: seq<Slot>, default: int, k: Clock, items: seq<Item>, longest: int)
    requires SlotsOk(slots) && k.it < |slots| && !k.passed && OnTime(slots, default, k)
    requires k.switches == 0 && k.overrun == 0
    requires forall item :: item in items ==> ItemLength(default, item) <= longest
    ensures var r := TakeAll(slots, default, k, items);
            OnTime(slots, default, r) && (r.passed || 0 <= r.overrun <= r.switches * longest)
    decreases |items|
  {
    if items != [] {
      var n := |items| - 1;
      ScheduleDrift(slots, default, k, items[..n], longest);
      TakeOnTime(slots, default, TakeAll(slots, default, k, items[..n]), items[n], longest);
    }
  }

  // ---------------------------------------------------------------- slots in turn

  ghost function Switches(slots: seq<Slot>, k: Clock, n: nat): (r: Clock)
    requires k.it <= |slots|
    ensures slots != [] ==> r.it <= |slots|
    decreases n
  {
    if n == 0 then k
    else
      var before := Switches(slots, k, n - 1);
      if before.it <= |slots| then NextSlot(slots, before) else before
  }

  /**
    The slots come in turn: behind the last one there is none for one switch, and then the first follows;
    each begins with the whole time up to the next one's hour, the last with that up to midnight.
    */
  lemma {:induction false} SlotsInTurn(slots: seq<Slot>, k: Clock, n: nat)
    requires SlotsOk(slots) && k.it <= |slots| && n <= |slots| - k.it + 1
    ensures var r := Switches(slots, k, n);
            && r.it == (if n <= |slots| - k.it then k.it + n else 0)
            && (0 < n && r.it < |slots| ==>
                  r.remained == 3600 * ((if r.it + 1 < |slots| then slots[r.it + 1].hour else 24) - slots[r.it].hour))
    decreases n
  {
    if n > 0 {
      SlotsInTurn(slots, k, n - 1);
    }
  }

  class Scheduler {
    const slots: seq<Slot>
    const timer: Timer
    var it: nat
    var order: seq<string>
    var startFolder: bool
    ghost var tally: Clock

    ghost predicate Valid()
      reads this, timer
    {
      && SlotsOk(slots) && it <= |slots|
      && tally == tally.(it := it, remained := timer.remainedInterval, duration := timer.playlistDuration)
    }

    constructor (slots: seq<Slot>, timer: Timer)
      requires SlotsOk(slots)
      ensures Valid() && this.slots == slots && this.timer == timer && it == |slots| && order == []
      ensures tally.switches == 0 && tally.overrun == 0 && tally.unmeasured == 0 && !tally.passed
    {
      this.slots, this.timer := slots, timer;
      it, order, startFolder := |slots|, [], false;
      tally := Clock(|slots|, timer.remainedInterval, timer.playlistDuration, 0, 0, 0, false);
    }

    /**
      Finds the slot of the current hour and starts both counters from the time of day; before the
      first slot of the day nothing is chosen and nothing starts.
      */
    method SearchSchedule(secondOfDay: int)
      requires Valid() && 0 <= secondOfDay < 86400 && timer.playlistDuration == 0
      requires tally.switches == 0 && tally.overrun == 0 && tally.unmeasured == 0 && !tally.passed
      modifies this`it, this`order, this`tally, timer`remainedInterval, timer`playlistDuration
      ensures Valid() && tally.switches == 0 && tally.overrun == 0 && !tally.passed
      ensures it < |slots| ==> Holds(slots, it, secondOfDay / 3600) && order == slots[it].order
      ensures it < |slots| ==> OnTime(slots, timer.defaultTrackDuration, tally)
      ensures it == |slots| ==> secondOfDay / 3600 < slots[0].hour && order == old(order)
    {
      var hour := secondOfDay / 3600;
      var next := 0;
      while next < |slots| && slots[next].hour <= hour
        invariant 0 <= next <= |slots|
        invariant forall k :: 0 <= k < next ==> slots[k].hour <= hour
      {
        next := next + 1;
      }
      it := if next == 0 then |slots| else next - 1;
      if it < |slots| {
        timer.SetInterval(EndHour(slots, it) - slots[it].hour);
        timer.DefinePlaylistDuration(slots[it].hour, secondOfDay);
        order := slots[it].order;
      }
      tally := tally.(it := it, remained := timer.remainedInterval, duration := timer.playlistDuration);
    }

    method CreateScheduleOrder() returns (found: bool)
      requires Valid()
      modifies this`it, this`order, this`tally, timer`remainedInterval
      ensures Valid() && tally == NextSlot(slots, old(tally))
      ensures found <==> it < |slots|
      ensures order == if found then slots[it].order else old(order)
    {
      tally := NextSlot(slots, tally);
      it := if it == |slots| then 0 else it + 1;
      found := it < |slots|;
      if found {
        order := slots[it].order;
        timer.SetInterval(EndHour(slots, it) - slots[it].hour);
      }
    }

    /** The clock's part of `add_to_playlist` when a schedule is followed. */
    method AddDuration(text: string)
      requires Valid() && (text == "" || IsTimeText(text))
      modifies this`it, this`order, this`tally, this`startFolder, timer`remainedInterval, timer`playlistDuration
      ensures Valid()
      ensures var item := if text == "" then Unmeasured else Measured(Worth(text, timer.defaultTrackDuration));
              tally == Take(slots, timer.defaultTrackDuration, old(tally), item)
      ensures startFolder == (old(startFolder)
                || old(timer.remainedInterval)
                   <= if text == "" then timer.defaultTrackDuration else Worth(text, timer.defaultTrackDuration))
    {
      timer.AppendPlaylistDuration(text);
      var left := timer.RemainedInterval(text);
      tally := if text == "" then tally.(remained := left, unmeasured := tally.unmeasured + 1)
               else tally.(remained := left, duration := timer.playlistDuration);
      if left <= 0 {
        var found := CreateScheduleOrder();
        startFolder := true;
      }
    }
  }
}
