/** The error monitor: per domain a counter, a bounded message box and a rate limit on e-mails. */
module ErrorMonitor {
  import opened Sequences

  /** What is known of one domain with recent errors. */
  datatype DomInfo = DomInfo(counter: int, tm: int, overflow: bool, firstOverflow: bool, boxSize: int, box: seq<string>)

  datatype Limits = Limits(errorCounter: int, level: int, resetTimeout: int, emailTimeout: int, volume: int)

  datatype Mail = Mail(domain: string, box: seq<string>, at: int)

  /** The monitor's records, with the e-mails sent so far as an observer sees them. */
  datatype State = State(domains: map<string, DomInfo>, mails: seq<Mail>)

  // ---------------------------------------------------------------- one error

  /** A new record looks back ten years, to `longAgo`, for its last e-mail. */
  function NewInfo(longAgo: int): DomInfo {
    DomInfo(0, longAgo, false, true, 0, [])
  }

  /** `counter_overflow`: an overflow, once there, stays; it also restarts the count. */
  function Counted(l: Limits, i: DomInfo): DomInfo {
    var counter := if i.overflow || i.counter >= l.errorCounter then 0 else i.counter;
    i.(counter := counter, overflow := counter == 0)
  }

  function MailDue(l: Limits, i: DomInfo, now: int): bool {
    i.overflow && now - i.tm >= l.emailTimeout
  }

  /** The message joins the box; if that makes it too large, the oldest one leaves. */
  function Boxed(l: Limits, i: DomInfo, msg: string): DomInfo {
    var trimmed := if |msg| + i.boxSize > l.volume && i.box != []
                   then i.(boxSize := i.boxSize - |i.box[0]|, box := i.box[1..]) else i;
    trimmed.(box := trimmed.box + [msg])
  }

  predicate Accepted(l: Limits, error: int) {
    error != 0 && error > l.level
  }

  function OnError(l: Limits, s: State, error: int, domain: string, msg: string, now: int, longAgo: int): State {
    if !Accepted(l, error) then s
    else
      var known := domain in s.domains;
      var info := if known then Counted(l, s.domains[domain]) else NewInfo(longAgo);
      var mail := known && MailDue(l, info, now);
      var boxed := Boxed(l, info, msg);
      if mail then
        State(s.domains[domain := boxed.(counter := 0, tm := now, overflow := false, firstOverflow := false,
                                         boxSize := 0, box := [])],
              s.mails + [Mail(domain, boxed.box, now)])
      else
        s.(domains := s.domains[domain := boxed.(counter := boxed.counter + 1, boxSize := boxed.boxSize + |msg|)])
  }

  /** `exceeded_reset_timeout`: records whose last e-mail is long past are dropped. */
  function OnReset(l: Limits, s: State, now: int): State {
    s.(domains := map d | d in s.domains && now - s.domains[d].tm < l.resetTimeout :: s.domains[d])
  }

  // ---------------------------------------------------------------- runs of events

  datatype Event =
    | Error(error: int, domain: string, msg: string, at: int, longAgo: int)
    | Reset(at: int)

  function Do(l: Limits, s: State, e: Event): State {
    match e
    case Error(error, domain, msg, at, longAgo) => OnError(l, s, error, domain, msg, at, longAgo)
    case Reset(at) => OnReset(l, s, at)
  }

  function DoAll(l: Limits, s: State, es: seq<Event>): State {
    if es == [] then s else Do(l, DoAll(l, s, es[..|es| - 1]), es[|es| - 1])
  }

  /** The clock does not run backwards. */
  predicate Monotone(es: seq<Event>) {
    forall i, j :: 0 <= i < j < |es| ==> es[i].at <= es[j].at
  }

  const NOTHING := State(map[], [])

  // ---------------------------------------------------------------- box and size

  function Total(box: seq<string>): nat {
    if box == [] then 0 else |box[0]| + Total(box[1..])
  }

  lemma {:induction false} TotalAppend(box: seq<string>, msg: string)
    ensures Total(box + [msg]) == Total(box) + |msg|
  {
    if box == [] {
      assert [msg][1..] == [];
    } else {
      assert (box + [msg])[1..] == box[1..] + [msg];
      TotalAppend(box[1..], msg);
    }
  }

  /** The messages accepted for a domain since its record was made or its last e-mail went out. */
  function Heard(l: Limits, es: seq<Event>, domain: string): seq<string> {
    if es == [] then []
    else
      var n := |es| - 1;
      var before := DoAll(l, NOTHING, es[..n]);
      var after := Do(l, before, es[n]);
      if domain !in after.domains then []
      else if es[n].Error? && es[n].domain == domain && |after.mails| > |before.mails| then []
      else if es[n].Error? && Accepted(l, es[n].error) && es[n].domain == domain then
        (if domain in before.domains then Heard(l, es[..n], domain) else []) + [es[n].msg]
      else Heard(l, es[..n], domain)
  }

  predicate IsSuffix(a: seq<string>, b: seq<string>) {
    |a| <= |b| && a == b[|b| - |a|..]
  }

  predicate BoxOk(info: DomInfo, heard: seq<string>) {
    info.boxSize == Total(info.box) && IsSuffix(info.box, heard)
  }

  lemma BoxedRight(l: Limits, info: DomInfo, heard: seq<string>, msg: string)
    requires BoxOk(info, heard)
    ensures Boxed(l, info, msg).boxSize + |msg| == Total(Boxed(l, info, msg).box)
    ensures IsSuffix(Boxed(l, info, msg).box, heard + [msg])
  {
    TotalAppend(info.box, msg);
    if info.box != [] {
      TotalAppend(info.box[1..], msg);
    }
  }

  /** In every run the size field is the total length of the box, and the box holds the newest messages heard. */
  lemma {:induction false} BoxRight(l: Limits, es: seq<Event>, domain: string)
    ensures var s := DoAll(l, NOTHING, es);
            domain in s.domains ==> BoxOk(s.domains[domain], Heard(l, es, domain))
    decreases |es|
  {
    if es != [] {
      var n := |es| - 1;
      BoxRight(l, es[..n], domain);
      var before := DoAll(l, NOTHING, es[..n]);
      assert DoAll(l, NOTHING, es) == Do(l, before, es[n]);
      if es[n].Error? && es[n].domain == domain && Accepted(l, es[n].error) {
        if domain in before.domains {
          BoxedRight(l, Counted(l, before.domains[domain]), Heard(l, es[..n], domain), es[n].msg);
        } else {
          BoxedRight(l, NewInfo(es[n].longAgo), [], es[n].msg);
        }
      }
    }
  }

  /** What a mail carries are the newest messages heard, the one that set it off last. */
  lemma MailCarriesNewest(l: Limits, es: seq<Event>, e: Event)
    requires e.Error? && |Do(l, DoAll(l, NOTHING, es), e).mails| > |DoAll(l, NOTHING, es).mails|
    ensures var s := DoAll(l, NOTHING, es);
            var m := Do(l, s, e).mails[|s.mails|];
            m.domain == e.domain && m.at == e.at && IsSuffix(m.box, Heard(l, es, e.domain) + [e.msg])
            && m.box != [] && m.box[|m.box| - 1] == e.msg
  {
    BoxRight(l, es, e.domain);
    var s := DoAll(l, NOTHING, es);
    BoxedRight(l, Counted(l, s.domains[e.domain]), Heard(l, es, e.domain), e.msg);
  }

  /** The box as it stands for a domain; a new record's is empty. */
  function BoxOf(s: State, domain: string): seq<string> {
    if domain in s.domains then s.domains[domain].box else []
  }

  /** The new message fits into the room left, or into that and the place of the oldest message. */
  predicate FitsBox(l: Limits, box: seq<string>, msg: string) {
    Total(box) + |msg| <= l.volume || (box != [] && Total(box[1..]) + |msg| <= l.volume)
  }

  /** The event is an accepted error that sends no mail. */
  predicate Keeps(l: Limits, s: State, e: Event) {
    e.Error? && Accepted(l, e.error) && |Do(l, s, e).mails| == |s.mails|
  }

  predicate Within(l: Limits, s: State) {
    forall d :: d in s.domains ==> Total(s.domains[d].box) <= l.volume
  }

  /** After an accepted error that sends no mail the box is within the volume exactly when the message fits. */
  lemma BoxInVolume(l: Limits, es: seq<Event>, e: Event)
    requires Keeps(l, DoAll(l, NOTHING, es), e)
    ensures var s := DoAll(l, NOTHING, es);
            && e.domain in Do(l, s, e).domains
            && (Total(Do(l, s, e).domains[e.domain].box) <= l.volume <==> FitsBox(l, BoxOf(s, e.domain), e.msg))
  {
    var s := DoAll(l, NOTHING, es);
    BoxRight(l, es, e.domain);
    TotalAppend(BoxOf(s, e.domain), e.msg);
    if e.domain in s.domains && s.domains[e.domain].box != [] {
      TotalAppend(s.domains[e.domain].box[1..], e.msg);
    } else {
      TotalAppend([], e.msg);
    }
  }

  /** What goes on: the box of the record, or the one that the mail took with it. */
  function BoxNow(s: State, t: State, domain: string): seq<string> {
    if |t.mails| > |s.mails| then t.mails[|s.mails|].box else BoxOf(t, domain)
  }

  /**
    An error above the level joins its domain's box, which gives up its oldest message exactly when all of
    them together would be too much; nothing else changes it.
    */
  lemma BoxAfter(l: Limits, es: seq<Event>, e: Event)
    requires e.Error? && e.error != 0 && e.error > l.level
    ensures var s := DoAll(l, NOTHING, es);
            var box := BoxOf(s, e.domain);
            BoxNow(s, Do(l, s, e), e.domain)
              == (if Total(box) + |e.msg| > l.volume && box != [] then box[1..] else box) + [e.msg]
    ensures forall d :: d != e.domain ==>
              BoxOf(Do(l, DoAll(l, NOTHING, es), e), d) == BoxOf(DoAll(l, NOTHING, es), d)
  {
    BoxRight(l, es, e.domain);
  }

  /** Errors of number zero and those up to the level leave no trace. */
  lemma Ignored(l: Limits, s: State, e: Event)
    requires e.Error? && (e.error == 0 || e.error <= l.level)
    ensures Do(l, s, e) == s
  {
  }

  /** A reset drops the records whose last e-mail is the reset timeout back or more, and keeps the others. */
  lemma ResetDrops(l: Limits, s: State, at: int, d: string)
    requires d in s.domains
    ensures var t := Do(l, s, Reset(at));
            && t.mails == s.mails
            && (if at - s.domains[d].tm >= l.resetTimeout then d !in t.domains
                else d in t.domains && t.domains[d] == s.domains[d])
  {
  }

  /** One event leaves all boxes within the volume exactly when its message fits, if it keeps one. */
  lemma StepWithin(l: Limits, es: seq<Event>, e: Event)
    requires Within(l, DoAll(l, NOTHING, es))
    ensures var s := DoAll(l, NOTHING, es);
            Within(l, Do(l, s, e)) <==> (Keeps(l, s, e) ==> FitsBox(l, BoxOf(s, e.domain), e.msg))
  {
    var s := DoAll(l, NOTHING, es);
    if Keeps(l, s, e) {
      BoxInVolume(l, es, e);
    } else {
      NotKept(l, s, e);
    }
  }

  /** Every other event empties a box or drops it. */
  lemma NotKept(l: Limits, s: State, e: Event)
    requires Within(l, s) && !Keeps(l, s, e)
    ensures Within(l, Do(l, s, e))
  {
    var t := Do(l, s, e);
    forall d | d in t.domains ensures Total(t.domains[d].box) <= l.volume {
      if e.Error? && e.domain == d && Accepted(l, e.error) {
        assert t.domains[d].box == [] && d in s.domains && 0 <= Total(s.domains[d].box) <= l.volume;
      }
    }
  }

  /** The boxes are within the volume after every event of the run. */
  predicate AlwaysWithin(l: Limits, es: seq<Event>) {
    forall n :: 0 <= n <= |es| ==> Within(l, DoAll(l, NOTHING, es[..n]))
  }

  /** Every message that is kept fits when it comes. */
  predicate AlwaysFits(l: Limits, es: seq<Event>) {
    forall n :: 0 <= n < |es| ==> FitsAt(l, es, n)
  }

  /** The message of event `n` fits, if it is kept. */
  predicate FitsAt(l: Limits, es: seq<Event>, n: nat)
    requires n < |es|
  {
    var s := DoAll(l, NOTHING, es[..n]);
    Keeps(l, s, es[n]) ==> FitsBox(l, BoxOf(s, es[n].domain), es[n].msg)
  }

  /** Over a whole run the volume bounds the boxes if and only if every message kept fits when it comes. */
  lemma {:induction false} VolumeExactly(l: Limits, es: seq<Event>)
    ensures AlwaysWithin(l, es) <==> AlwaysFits(l, es)
    decreases |es|
  {
    if es != [] {
      var m := |es| - 1;
      var head := es[..m];
      VolumeExactly(l, head);
      assert head[..m] == head;
      WithinSplit(l, es);
      FitsSplit(l, es);
      if AlwaysWithin(l, head) {
        assert Within(l, DoAll(l, NOTHING, head[..m]));
        StepWithin(l, head, es[m]);
      }
    }
  }

  lemma WithinSplit(l: Limits, es: seq<Event>)
    requires es != []
    ensures AlwaysWithin(l, es) <==> AlwaysWithin(l, es[..|es| - 1]) && Within(l, DoAll(l, NOTHING, es))
  {
    var head := es[..|es| - 1];
    assert forall n :: 0 <= n < |es| ==> es[..n] == head[..n];
    assert es[..|es|] == es;
    if AlwaysWithin(l, es) {
      forall n | 0 <= n <= |head| ensures Within(l, DoAll(l, NOTHING, head[..n])) {
        assert Within(l, DoAll(l, NOTHING, es[..n]));
      }
      assert Within(l, DoAll(l, NOTHING, es[..|es|]));
    }
    if AlwaysWithin(l, head) && Within(l, DoAll(l, NOTHING, es)) {
      forall n | 0 <= n <= |es| ensures Within(l, DoAll(l, NOTHING, es[..n])) {
        if n < |es| {
          assert Within(l, DoAll(l, NOTHING, head[..n]));
        }
      }
    }
  }

  lemma FitsSplit(l: Limits, es: seq<Event>)
    requires es != []
    ensures AlwaysFits(l, es) <==> AlwaysFits(l, es[..|es| - 1]) && FitsAt(l, es, |es| - 1)
  {
    var head := es[..|es| - 1];
    forall n | 0 <= n < |head| ensures FitsAt(l, es, n) == FitsAt(l, head, n) {
      assert es[..n] == head[..n];
    }
  }

  /** A volume of two and more does not bound the box: one old message leaves, whatever the new one weighs. */
  lemma BoxOverVolume(v: nat, a: string, b: string, d: string)
    requires v >= 2 && |a| == 1 && |b| == v - 1 && |d| == v
    ensures var l := Limits(9, 0, 60, 60, v);
            var es := [Error(1, "d", a, 0, -60), Error(1, "d", b, 0, -60), Error(1, "d", d, 0, -60)];
            "d" in DoAll(l, NOTHING, es).domains && DoAll(l, NOTHING, es).domains["d"].boxSize == 2 * v - 1
  {
    var l := Limits(9, 0, 60, 60, v);
    var e1, e2, e3 := Error(1, "d", a, 0, -60), Error(1, "d", b, 0, -60), Error(1, "d", d, 0, -60);
    var es := [e1, e2, e3];
    assert es[..2] == [e1, e2] && es[..2][..1] == [e1] && [e1][..0] == [];
    assert DoAll(l, NOTHING, [e1]).domains["d"] == DomInfo(1, -60, false, true, 1, [a]);
    assert DoAll(l, NOTHING, [e1, e2]).domains["d"] == DomInfo(2, -60, false, true, v, [a, b]);
  }

  // ---------------------------------------------------------------- the rate limit

  /** Mail `i` is either the one its record remembers, or far enough back. */
  predicate Quiet(l: Limits, s: State, i: nat, now: int)
    requires i < |s.mails|
  {
    var m := s.mails[i];
    || (m.domain in s.domains && s.domains[m.domain].tm == m.at)
    || now - m.at >= Min(l.emailTimeout, l.resetTimeout)
  }

  predicate Spaced(l: Limits, mails: seq<Mail>) {
    forall i, j :: 0 <= i < j < |mails| && mails[i].domain == mails[j].domain ==>
      mails[j].at - mails[i].at >= Min(l.emailTimeout, l.resetTimeout)
  }

  lemma EventQuiet(l: Limits, s: State, e: Event, before: int)
    requires before <= e.at && Spaced(l, s.mails) && forall i :: 0 <= i < |s.mails| ==> Quiet(l, s, i, before)
    ensures Spaced(l, Do(l, s, e).mails)
    ensures forall i :: 0 <= i < |Do(l, s, e).mails| ==> Quiet(l, Do(l, s, e), i, e.at)
  {
    var t := Do(l, s, e);
    forall i | 0 <= i < |t.mails| ensures Quiet(l, t, i, e.at) {
      if i < |s.mails| {
        assert Quiet(l, s, i, before);
      }
    }
    forall i, j | 0 <= i < j < |t.mails| && t.mails[i].domain == t.mails[j].domain
      ensures t.mails[j].at - t.mails[i].at >= Min(l.emailTimeout, l.resetTimeout)
    {
      assert i < |s.mails| && Quiet(l, s, i, before);
      if j == |s.mails| {
        assert e.Error? && MailDue(l, Counted(l, s.domains[e.domain]), e.at);
      }
    }
  }

  lemma {:induction false} RunQuiet(l: Limits, es: seq<Event>, now: int)
    requires Monotone(es) && forall i :: 0 <= i < |es| ==> es[i].at <= now
    ensures Spaced(l, DoAll(l, NOTHING, es).mails)
    ensures forall i :: 0 <= i < |DoAll(l, NOTHING, es).mails| ==> Quiet(l, DoAll(l, NOTHING, es), i, now)
    decreases |es|
  {
    if es != [] {
      var n := |es| - 1;
      RunQuiet(l, es[..n], es[n].at);
      EventQuiet(l, DoAll(l, NOTHING, es[..n]), es[n], es[n].at);
      forall i | 0 <= i < |DoAll(l, NOTHING, es).mails| ensures Quiet(l, DoAll(l, NOTHING, es), i, now) {
        assert Quiet(l, DoAll(l, NOTHING, es), i, es[n].at);
      }
    }
  }

  /** Two e-mails of one domain are never closer than the smaller of the two timeouts. */
  lemma MailsSpaced(l: Limits, es: seq<Event>)
    requires Monotone(es)
    ensures Spaced(l, DoAll(l, NOTHING, es).mails)
  {
    if es == [] {
      RunQuiet(l, es, 0);
    } else {
      RunQuiet(l, es, es[|es| - 1].at);
    }
  }

  // ---------------------------------------------------------------- the first e-mail

  /** Ten years back is far enough for the e-mail timeout. */
  predicate LongAgo(l: Limits, es: seq<Event>) {
    forall i :: 0 <= i < |es| && es[i].Error? ==> es[i].at - es[i].longAgo >= l.emailTimeout
  }

  function Threshold(l: Limits): nat {
    if l.errorCounter < 1 then 1 else l.errorCounter
  }

  /** A record that has not mailed yet has counted every error it heard, and no overflow. */
  predicate Waiting(l: Limits, es: seq<Event>, domain: string) {
    var s := DoAll(l, NOTHING, es);
    domain in s.domains && s.domains[domain].firstOverflow ==>
      var info := s.domains[domain];
      && info.counter == |Heard(l, es, domain)| && 1 <= info.counter <= Threshold(l) && !info.overflow
  }

  lemma {:induction false} StaysWaiting(l: Limits, es: seq<Event>, domain: string, now: int)
    requires Monotone(es) && LongAgo(l, es) && forall i :: 0 <= i < |es| ==> es[i].at <= now
    ensures Waiting(l, es, domain)
    ensures var s := DoAll(l, NOTHING, es);
            domain in s.domains && s.domains[domain].firstOverflow ==> now - s.domains[domain].tm >= l.emailTimeout
    decreases |es|
  {
    if es != [] {
      var n := |es| - 1;
      assert es[n].at <= now;
      StaysWaiting(l, es[..n], domain, es[n].at);
      var before := DoAll(l, NOTHING, es[..n]);
      assert DoAll(l, NOTHING, es) == Do(l, before, es[n]);
    }
  }

  /**
    The first e-mail of a record goes out exactly on the accepted error number `errorCounter` + 1, or on
    the second one if the counter is not positive.
    */
  lemma FirstMail(l: Limits, es: seq<Event>, e: Event)
    requires Monotone(es + [e]) && LongAgo(l, es + [e]) && e.Error? && e.error != 0 && e.error > l.level
    requires var s := DoAll(l, NOTHING, es); e.domain in s.domains ==> s.domains[e.domain].firstOverflow
    ensures var s := DoAll(l, NOTHING, es);
            var heard := if e.domain in s.domains then |Heard(l, es, e.domain)| else 0;
            |Do(l, s, e).mails| == |s.mails| + (if heard == Threshold(l) then 1 else 0)
  {
    var all := es + [e];
    assert all[|es|] == e;
    forall i | 0 <= i < |es| ensures es[i].at <= e.at {
      assert all[i] == es[i];
    }
    assert Monotone(es) by {
      forall i, j | 0 <= i < j < |es| ensures es[i].at <= es[j].at {
        assert all[i] == es[i] && all[j] == es[j];
      }
    }
    assert LongAgo(l, es) by {
      forall i | 0 <= i < |es| && es[i].Error? ensures es[i].at - es[i].longAgo >= l.emailTimeout {
        assert all[i] == es[i];
      }
    }
    StaysWaiting(l, es, e.domain, e.at);
  }

  // ---------------------------------------------------------------- the later ones

  /** A record that has mailed before counts in overflow, but for the moment after a mail. */
  predicate Alert(s: State, domain: string) {
    domain in s.domains && !s.domains[domain].firstOverflow ==>
      s.domains[domain].overflow || s.domains[domain].counter == 0
  }

  lemma {:induction false} StaysAlert(l: Limits, es: seq<Event>, domain: string)
    ensures Alert(DoAll(l, NOTHING, es), domain)
    decreases |es|
  {
    if es != [] {
      StaysAlert(l, es[..|es| - 1], domain);
    }
  }

  /**
    After its first e-mail the threshold no longer counts: a record mails on every accepted error for
    which the e-mail timeout has gone since its last e-mail, and on no other.
    */
  lemma LaterMail(l: Limits, es: seq<Event>, e: Event)
    requires e.Error? && e.error != 0 && e.error > l.level && e.domain in DoAll(l, NOTHING, es).domains
    requires !DoAll(l, NOTHING, es).domains[e.domain].firstOverflow
    ensures var s := DoAll(l, NOTHING, es);
            |Do(l, s, e).mails| == |s.mails| + (if e.at - s.domains[e.domain].tm >= l.emailTimeout then 1 else 0)
  {
    StaysAlert(l, es, e.domain);
  }

  // ---------------------------------------------------------------- the monitor

  class Monitor {
    const limits: Limits
    var domain: map<string, DomInfo>
    ghost var mails: seq<Mail>

    ghost function Current(): State
      reads this
    {
      State(domain, mails)
    }

    constructor (limits: Limits)
      ensures this.limits == limits && Current() == NOTHING
    {
      this.limits := limits;
      domain, mails := map[], [];
    }

    method CounterOverflow(isOverflow: bool, value: int) returns (overflow: bool, counter: int)
      ensures forall m: DomInfo :: m.overflow == isOverflow && m.counter == value ==>
                Counted(limits, m) == m.(overflow := overflow, counter := counter)
    {
      counter := value;
      if isOverflow || value >= limits.errorCounter {
        counter := 0;
      }
      overflow := counter == 0;
    }

    method ExceededEmailTimeout(m: DomInfo, now: int) returns (mail: bool, info: DomInfo)
      ensures mail <==> MailDue(limits, m, now)
      ensures info == if mail then m.(overflow := false, firstOverflow := false, tm := now) else m
    {
      mail, info := false, m;
      if m.overflow && now - m.tm >= limits.emailTimeout {
        info := m.(overflow := false, firstOverflow := false, tm := now);
        mail := true;
      }
    }

    method OnAddError(error: int, dm: string, msg: string, now: int, longAgo: int)
      modifies this
      ensures Current() == OnError(limits, old(Current()), error, dm, msg, now, longAgo)
    {
      if error == 0 || error <= limits.level {
        return;
      }
      var info: DomInfo;
      var mail := false;
      if dm in domain {
        info := domain[dm];
        var overflow, counter := CounterOverflow(info.overflow, info.counter);
        info := info.(overflow := overflow, counter := counter);
        mail, info := ExceededEmailTimeout(info, now);
      } else {
        info := DomInfo(0, longAgo, false, true, 0, []);
      }
      if |msg| + info.boxSize > limits.volume && info.box != [] {
        info := info.(boxSize := info.boxSize - |info.box[0]|, box := info.box[1..]);
      }
      info := info.(box := info.box + [msg]);
      if mail {
        mails := mails + [Mail(dm, info.box, now)];
        info := info.(counter := 0, boxSize := 0, box := []);
      } else {
        info := info.(counter := info.counter + 1, boxSize := info.boxSize + |msg|);
      }
      domain := domain[dm := info];
    }

    method ExceededResetTimeout(now: int)
      modifies this
      ensures Current() == OnReset(limits, old(Current()), now)
    {
      var left := domain.Keys;
      while left != {}
        invariant left <= old(domain).Keys && mails == old(mails)
        invariant domain == map d | d in old(domain) && (d in left || now - old(domain)[d].tm < limits.resetTimeout)
                                  :: old(domain)[d]
        decreases left
      {
        var s :| s in left;
        left := left - {s};
        if now - domain[s].tm >= limits.resetTimeout {
          domain := domain - {s};
        }
      }
    }
  }
}
