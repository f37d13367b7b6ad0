/** The interval and playlist clock of the rotator. */
module PlayClock {
  import opened CText

  const HOUR_INTERVAL := 3600
  const DEFAULT_DAY := 24

  /** The text after the first `c`; only asked for when there is one. */
  function After(s: string, c: char): string
    requires c in s
    ensures |After(s, c)| < |s|
  {
    if s[0] == c then s[1..] else After(s[1..], c)
  }

  /** A text the clock can read: hours, minutes and seconds parted by colons. */
  predicate IsTimeText(s: string) {
    ':' in s && ':' in After(s, ':')
  }

  function TextSeconds(s: string): int
    requires IsTimeText(s)
  {
    var minutes := After(s, ':');
    Atoi(s) * 3600 + Atoi(minutes) * 60 + Atoi(After(minutes, ':'))
  }

  /** What a duration text is worth: zero seconds mean the default track length. */
  function Worth(s: string, default: int): int
    requires IsTimeText(s)
  {
    if TextSeconds(s) == 0 then default else TextSeconds(s)
  }

  /** One place of a duration text: a number with any sign and leading zeros. */
  datatype Place = Place(sign: Sign, zeros: nat, number: nat)

  function PlaceText(p: Place): string {
    Signed(p.sign, p.zeros, p.number)
  }

  function PlaceValue(p: Place): int {
    Value(p.sign, p.number)
  }

  /** Three of them, parted by colons. */
  function ClockText(h: Place, m: Place, s: Place): string {
    PlaceText(h) + (":" + (PlaceText(m) + (":" + PlaceText(s))))
  }

  lemma {:induction false} AfterFirst(a: string, rest: string)
    requires forall i :: 0 <= i < |a| ==> a[i] != ':'
    ensures ':' in a + (":" + rest) && After(a + (":" + rest), ':') == rest
  {
    var s := a + (":" + rest);
    assert s[|a|] == ':';
    if a == "" {
      assert s[0] == ':' && s[1..] == rest;
    } else {
      assert s[1..] == a[1..] + (":" + rest) && s[0] == a[0];
      AfterFirst(a[1..], rest);
    }
  }

  lemma NoColon(p: Place)
    ensures forall i :: 0 <= i < |PlaceText(p)| ==> PlaceText(p)[i] != ':'
  {
    ZerosDigits(p.zeros);
  }

  /** Hours count 3600 seconds and minutes 60. */
  lemma ClockSeconds(h: Place, m: Place, s: Place)
    ensures IsTimeText(ClockText(h, m, s))
    ensures TextSeconds(ClockText(h, m, s)) == 3600 * PlaceValue(h) + 60 * PlaceValue(m) + PlaceValue(s)
  {
    var last := PlaceText(s);
    var minutes := PlaceText(m) + (":" + last);
    NoColon(h);
    NoColon(m);
    AfterFirst(PlaceText(h), minutes);
    AfterFirst(PlaceText(m), last);
    AtoiSigned(h.sign, h.zeros, h.number, ":" + minutes);
    AtoiSigned(m.sign, m.zeros, m.number, ":" + last);
    AtoiSigned(s.sign, s.zeros, s.number, "");
    assert last + "" == last;
  }

  /** A text is worth its seconds, and the default if they come to zero and only then. */
  lemma ClockWorth(h: Place, m: Place, s: Place, default: int)
    ensures IsTimeText(ClockText(h, m, s))
    ensures var sum := 3600 * PlaceValue(h) + 60 * PlaceValue(m) + PlaceValue(s);
            Worth(ClockText(h, m, s), default) == if sum == 0 then default else sum
  {
    ClockSeconds(h, m, s);
  }

  /** The text with two digits at least in every place. */
  function TwoDigits(n: nat): Place {
    Place(NoSign, if n < 10 then 1 else 0, n)
  }

  function Hms(h: nat, m: nat, s: nat): string {
    ClockText(TwoDigits(h), TwoDigits(m), TwoDigits(s))
  }

  lemma HmsSeconds(h: nat, m: nat, s: nat)
    ensures IsTimeText(Hms(h, m, s)) && TextSeconds(Hms(h, m, s)) == 3600 * h + 60 * m + s
  {
    ClockSeconds(TwoDigits(h), TwoDigits(m), TwoDigits(s));
  }

  lemma OneDigit(n: nat)
    requires n < 10
    ensures PlaceText(TwoDigits(n)) == ['0', Digit(n)]
  {
    assert Zeros(1) == "0" + Zeros(0);
  }

  lemma JoinedText(zero: string, three: string, text: string)
    requires zero == ['0', '0'] && three == ['0', '3'] && text == "00:03:00"
    ensures text == zero + (":" + (three + (":" + zero)))
  {
  }

  /** The text of the default track length. */
  lemma DefaultTrack(text: string)
    requires text == "00:03:00"
    ensures IsTimeText(text) && TextSeconds(text) == 180
  {
    HmsSeconds(0, 3, 0);
    OneDigit(0);
    OneDigit(3);
    JoinedText(PlaceText(TwoDigits(0)), PlaceText(TwoDigits(3)), text);
  }

  class Timer {
    var remainedInterval: int
    var playlistDuration: int
    var generalDuration: int
    var defaultTrackDuration: int

    constructor (general: string)
      requires general == "" || IsTimeText(general)
      ensures remainedInterval == 3600 && playlistDuration == 0
      ensures defaultTrackDuration == 180
      ensures generalDuration == if general == "" then 86400 else Worth(general, 180)
    {
      remainedInterval := HOUR_INTERVAL;
      playlistDuration := 0;
      defaultTrackDuration := 180;
      generalDuration := if general == "" then HOUR_INTERVAL * DEFAULT_DAY else Worth(general, 180);
    }

    method GetSeconds(text: string) returns (value: int)
      requires text == "" || IsTimeText(text)
      ensures value == if text == "" then defaultTrackDuration else Worth(text, defaultTrackDuration)
      ensures forall h: nat, m: nat, s: nat :: text == Hms(h, m, s) ==>
                value == if 3600 * h + 60 * m + s == 0 then defaultTrackDuration else 3600 * h + 60 * m + s
    {
      forall h: nat, m: nat, s: nat | text == Hms(h, m, s)
        ensures IsTimeText(text) && TextSeconds(text) == 3600 * h + 60 * m + s
      {
        HmsSeconds(h, m, s);
      }
      value := 0;
      if text != "" {
        value := Atoi(text) * 3600;
        var rest := After(text, ':');
        value := value + Atoi(rest) * 60;
        rest := After(rest, ':');
        value := value + Atoi(rest);
      }
      if value == 0 {
        value := defaultTrackDuration;
      }
    }

    method SetInterval(hours: int)
      modifies this`remainedInterval
      ensures remainedInterval == 3600 * hours
    {
      remainedInterval := HOUR_INTERVAL * hours;
    }

    /** Takes a track off the rotation interval; a track without a duration counts as a default one. */
    method RemainedInterval(text: string) returns (left: int)
      requires text == "" || IsTimeText(text)
      modifies this`remainedInterval
      ensures left == remainedInterval
      ensures remainedInterval
           == old(remainedInterval) - if text == "" then defaultTrackDuration else Worth(text, defaultTrackDuration)
    {
      var value := GetSeconds(text);
      remainedInterval := remainedInterval - value;
      left := remainedInterval;
    }

    /** Adds a track to the playlist length; a track without a duration adds nothing. */
    method AppendPlaylistDuration(text: string)
      requires text == "" || IsTimeText(text)
      modifies this`playlistDuration
      ensures playlistDuration
           == old(playlistDuration) + if text == "" then 0 else Worth(text, defaultTrackDuration)
    {
      if text != "" {
        var value := GetSeconds(text);
        playlistDuration := playlistDuration + value;
      }
    }

    method ClearPlaylistDuration()
      modifies this`playlistDuration
      ensures playlistDuration == 0
    {
      playlistDuration := 0;
    }

    method Is24HoursCompleted() returns (done: bool)
      ensures done <==> playlistDuration >= generalDuration
    {
      done := playlistDuration >= generalDuration;
    }

    /**
      Starts the two counters in the middle of a slot: as the list is counted from midnight and the
      interval from the slot's first hour, their sum grows by the seconds of that hour, at any time of day.
      */
    method DefinePlaylistDuration(hour: int, secondOfDay: int)
      modifies this`remainedInterval, this`playlistDuration
      ensures playlistDuration + remainedInterval == old(playlistDuration + remainedInterval) + 3600 * hour
      ensures playlistDuration - old(playlistDuration) == secondOfDay
    {
      remainedInterval := remainedInterval - (secondOfDay - HOUR_INTERVAL * hour);
      playlistDuration := playlistDuration + secondOfDay;
    }
  }
}
