/** Many lists from one rotator: what holds over every sequence of `prepare` and `create_playlist` calls. */
module RotatorSessions {
  import opened RotatorModel
  import opened RotatorRun
  import opened RotatorLaws

  datatype Call = Prepare | Create

  /** `create_playlist` begins with an empty list at the first slot. */
  ghost function Emptied(s: Run): Run {
    Run(s.state.(playlist := [], increaseCounter := 0), 0, 0, s.complete)
  }

  /**
    A rotator between two calls. A run that gave up may leave an error, which makes later calls do
    nothing but empty the list; `blocked` is that error.
    */
  datatype Session = Session(run: Run, blocked: bool)

  ghost predicate Ready(c: Settings, z: Session) {
    RunOk(c, Emptied(z.run))
  }

  /** The call returns. */
  ghost predicate Returns(c: Settings, z: Session, call: Call)
    requires Ready(c, z)
  {
    call.Prepare? || z.blocked || Ends(c, Emptied(z.run))
  }

  /** Whether a list of this size could not even hold one of the limits. */
  predicate LimitTooLarge(r: Rules, size: int) {
    r.singerLimit >= size || r.trackLimit >= size
  }

  ghost function Called(c: Settings, z: Session, call: Call): Session
    requires Ready(c, z) && Returns(c, z, call)
  {
    match call
    case Prepare => if z.blocked then z else z.(run := Rearmed(z.run))
    case Create =>
      if z.blocked then z.(run := Emptied(z.run))
      else
        var o := Outcome(c, Emptied(z.run));
        Session(o.last.(complete := true), o.why.GaveUp? && LimitTooLarge(c.rules, |o.last.state.playlist|))
  }

  lemma CallReady(c: Settings, z: Session, call: Call)
    requires Ready(c, z) && Returns(c, z, call)
    ensures Ready(c, Called(c, z, call))
  {
    if call.Prepare? {
      AtStartKeeps(c, z.run.state.folders);
    } else if !z.blocked {
      OutcomeKeeps(c, Emptied(z.run));
    }
  }

  /** A history that keeps the rules and has its given part in front. */
  ghost predicate Lawful(c: Settings, st: State) {
    Justified(c.rules, st.history, st.origin) && InitialFirst(st.origin)
  }

  lemma CallLawful(c: Settings, z: Session, call: Call)
    requires Ready(c, z) && Returns(c, z, call) && Lawful(c, z.run.state)
    ensures Lawful(c, Called(c, z, call).run.state)
    ensures z.run.state.history <= Called(c, z, call).run.state.history
    ensures z.run.state.origin <= Called(c, z, call).run.state.origin
  {
    if call.Create? && !z.blocked {
      RunConserves(c, Emptied(z.run));
      GrownInitialFirst(c, Emptied(z.run).state, Outcome(c, Emptied(z.run)).last.state);
    }
  }

  lemma GrownInitialFirst(c: Settings, a: State, b: State)
    requires Grown(c, a, b) && InitialFirst(a.origin)
    ensures InitialFirst(b.origin)
  {
    forall i, j | 0 <= i < j < |b.origin| && b.origin[j].Initial? ensures b.origin[i].Initial? {
      assert j < |a.origin| && a.origin[i] == b.origin[i] && a.origin[j] == b.origin[j];
    }
  }

  /** `z` leads to `y` by these calls, each of which returns. */
  ghost predicate Leads(c: Settings, z: Session, calls: seq<Call>, y: Session)
    requires Ready(c, z)
    decreases |calls|
  {
    if calls == [] then y == z
    else
      Returns(c, z, calls[0]) && (CallReady(c, z, calls[0]); Leads(c, Called(c, z, calls[0]), calls[1..], y))
  }

  /** Over all calls the history only grows, and stays lawful. */
  lemma {:induction false} CallsLawful(c: Settings, z: Session, calls: seq<Call>, y: Session)
    requires Ready(c, z) && Lawful(c, z.run.state) && Leads(c, z, calls, y)
    ensures Lawful(c, y.run.state)
    ensures z.run.state.history <= y.run.state.history && z.run.state.origin <= y.run.state.origin
    decreases |calls|
  {
    if calls != [] {
      CallReady(c, z, calls[0]);
      CallLawful(c, z, calls[0]);
      CallsLawful(c, Called(c, z, calls[0]), calls[1..], y);
    }
  }

  /**
    Spacing on the air: from a rotator that holds only its given history, whatever lists are made, every
    track that went through the rules has at least `singerLimit` entries between it and any earlier
    entry of its executor, in the given history and all lists together, and if the title is the same
    too, as many as the stricter limit.
    */
  lemma SpacingForEver(c: Settings, z: Session, calls: seq<Call>, y: Session, i: nat, j: nat)
    requires Ready(c, z) && Leads(c, z, calls, y) && |z.run.state.origin| == |z.run.state.history|
    requires forall k :: 0 <= k < |z.run.state.origin| ==> z.run.state.origin[k].Initial?
    ensures var h, o := y.run.state.history, y.run.state.origin;
            && |o| == |h|
            && (i < j < |h| && o[j].Ruled? && h[i].singer == h[j].singer ==>
                  && j - i - 1 >= c.rules.singerLimit
                  && (h[i].title == h[j].title ==> j - i - 1 >= c.rules.trackLimit))
  {
    CallsLawful(c, z, calls, y);
    var h, o := y.run.state.history, y.run.state.origin;
    if i < j < |h| && o[j].Ruled? && h[i].singer == h[j].singer {
      ExecutorSpacing(c.rules, h, o, i, j);
      if h[i].title == h[j].title {
        PairSpacing(c.rules, h, o, i, j);
      }
    }
  }

  /** And a title of one voice is never placed twice by the same folder at the same weight. */
  lemma OncePerPassForEver(c: Settings, z: Session, calls: seq<Call>, y: Session, i: nat, j: nat)
    requires Ready(c, z) && Leads(c, z, calls, y) && |z.run.state.origin| == |z.run.state.history|
    requires forall k :: 0 <= k < |z.run.state.origin| ==> z.run.state.origin[k].Initial?
    ensures var h, o := y.run.state.history, y.run.state.origin;
            && |o| == |h|
            && (i < j < |h| && o[i].Ruled? && o[j].Ruled? && h[i].title == h[j].title && OneVoice(h, o, h[j].title) ==>
                  h[i].statistics < h[j].statistics && (o[i].folder == o[j].folder ==> o[i].weight < o[j].weight))
  {
    CallsLawful(c, z, calls, y);
    var h, o := y.run.state.history, y.run.state.origin;
    if i < j < |h| && o[i].Ruled? && o[j].Ruled? && h[i].title == h[j].title && OneVoice(h, o, h[j].title) {
      WeightsIncrease(c.rules, h, o, i, j);
    }
  }
}
