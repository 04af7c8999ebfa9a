/** Frames: in what order versions and events leave a table, and who gets them. */
module GameFrames {
  import opened GameEngine
  import opened GameTable
  import opened GameRuns
  import opened Wrappers

  function RecipsOf(s: Step): seq<Recipient> {
    match s
    case Open(_, recips) => recips
    case FireTurn(_, _, _, _, _, recips) => recips
    case FireDeal(_, _, _, _, _, recips) => recips
    case FireGrace(_, _, _, _, _, _, _, _, recips) => recips
    case Depart(_, _, _, recips) => recips
    case Join(_, _, _, _, _, _, recips) => recips
    case GetThemUp(_, _, _, recips) => recips
    case Remove(_, _, _, _, recips) => recips
    case Sit(_, _, _, _, recips) => recips
    case Own(_, _, _, _, recips) => recips
    case _ => []
  }

  // --- What one step sends -----------------------------------------------------------------

  /**
   From the frames of `h` to those of `g`: first plain views of the version as it was,
   up to `k`; then, if the version moved on by one, one frame for every recipient.
   */
  ghost predicate Reported(h: Host, g: Host, k: nat, recips: seq<Recipient>, events: Option<seq<Event>>) {
    && |h.frames| <= k <= |g.frames| && h.frames <= g.frames
    && (forall i :: |h.frames| <= i < k ==> g.frames[i].version == h.table.version && g.frames[i].events.None?)
    && (g.table.version == h.table.version ==> k == |g.frames|)
    && (g.table.version != h.table.version ==>
          g.table.version == h.table.version + 1 && g.frames[k..] == FramesFor(g.table, recips, events))
  }

  lemma NothingReported(h: Host, g: Host, recips: seq<Recipient>)
    requires g.frames == h.frames && g.table.version == h.table.version
    ensures Reported(h, g, |h.frames|, recips, None)
  {
  }

  /** `h0`: the table before the section; `h`: as it stands when the change is reported. */
  lemma VersionReported(h0: Host, h: Host, now: int, recips: seq<Recipient>, events: Option<seq<Event>>)
    requires Reported(h0, h, |h.frames|, recips, events) && h.table.version == h0.table.version
    ensures Reported(h0, Sent(NextVersion(h, now), recips, events), |h.frames|, recips, events)
  {
    hide Schedule, WithSpawned, FramesFor;
    var g := Sent(NextVersion(h, now), recips, events);
    assert g.table.version == h.table.version + 1 by { VersionOf(h, now); }
    assert NextVersion(h, now).frames == h.frames;
    assert g.table == NextVersion(h, now).table;
    assert g.frames == h.frames + FramesFor(g.table, recips, events);
    assert g.frames[|h.frames|..] == FramesFor(g.table, recips, events);
  }

  lemma VersionOf(h: Host, now: int)
    ensures NextVersion(h, now).table.version == h.table.version + 1
  {
    hide Kept, ClockFor, DealFor, IdleFor, WithSpawned;
  }

  /** What is reported of an engine's answer: its events, or nothing at all. */
  function Told(events: seq<Event>): Option<seq<Event>> { if events == [] then None else Some(events) }

  lemma AppliedReported(h0: Host, h: Host, events: seq<Event>, now: int, recips: seq<Recipient>)
    requires Reported(h0, h, |h.frames|, recips, None) && h.table.version == h0.table.version
    ensures Reported(h0, Applied(h, events, now, recips), |h.frames|, recips, Told(events))
  {
    hide Sent, NextVersion, FramesFor;
    if events != [] {
      VersionReported(h0, h, now, recips, Some(events));
    }
  }

  lemma BumpedReported(h0: Host, h: Host, now: int, recips: seq<Recipient>)
    requires Reported(h0, h, |h.frames|, recips, None) && h.table.version == h0.table.version
    ensures Reported(h0, Bumped(h, now, recips), |h.frames|, recips, None)
  {
    hide Sent, NextVersion, FramesFor, Reported;
    VersionReported(h0, h, now, recips, None);
  }

  lemma PlainView(h: Host, recips: seq<Recipient>)
    ensures Reported(h, Sent(h, recips, None), |Sent(h, recips, None).frames|, recips, None)
    ensures Sent(h, recips, None).table == h.table
  {
    var g := Sent(h, recips, None);
    forall i | |h.frames| <= i < |g.frames| ensures g.frames[i].version == h.table.version && g.frames[i].events.None? {
      assert g.frames[i] == FramesFor(h.table, recips, None)[i - |h.frames|];
    }
  }

  lemma GetUpReported(h: Host, seat: nat, o: Outcome, now: int, recips: seq<Recipient>)
      returns (events: Option<seq<Event>>)
    ensures Reported(h, GetUp(h, seat, o, now, recips), |h.frames|, recips, events)
  {
    hide Applied, Reported;
    var g := WithEngine(WithoutAway(h, seat), o.after);
    NothingReported(h, g, recips);
    NothingReported(h, WithoutAway(h, seat), recips);
    AppliedReported(h, g, o.events, now, recips);
    events := if o.ok then Told(o.events) else None;
  }

  lemma CallReported(h: Host, o: Outcome, now: int, recips: seq<Recipient>) returns (events: Option<seq<Event>>)
    ensures Reported(h, EngineCall(h, o, now, recips), |h.frames|, recips, events)
  {
    hide Applied, Reported;
    var g := WithEngine(h, o.after);
    NothingReported(h, h, recips);
    NothingReported(h, g, recips);
    AppliedReported(h, g, o.events, now, recips);
    events := if h.table.closed || !o.ok then None else Told(o.events);
  }

  /** A newcomer's own view first, then whatever their coming back changed. */
  lemma JoinReported(h: Host, user: int, conn: nat, plays: bool, mayPlay: bool, o: Outcome, now: int,
      recips: seq<Recipient>)
    returns (k: nat, events: Option<seq<Event>>)
    ensures Reported(h, OnJoin(h, user, conn, plays, mayPlay, o, now, recips), k, recips, events)
  {
    var f := h.(table := h.table.(emptySince := None));
    NothingReported(h, h, recips);
    PlainView(f, [Recipient(user, conn)]);
    var g := if plays then Sent(f, [Recipient(user, conn)], None) else f;
    assert g.table == f.table && Reported(h, g, |g.frames|, recips, None);
    var seat := SeatOf(g.table.engine, user);
    k, events := |h.frames|, None;
    if !h.table.closed {
      k := |g.frames|;
      if seat.Some? {
        var back := if AwayAt(g.table, seat.value, user) then WithoutAway(g, seat.value) else g;
        assert Reported(h, back, |back.frames|, recips, None);
        assert Reported(h, WithEngine(back, o.after), |back.frames|, recips, None);
        hide Applied, Bumped, Reported, Sent;
        AppliedReported(h, WithEngine(back, o.after), o.events, now, recips);
        BumpedReported(h, WithEngine(back, o.after), now, recips);
        BumpedReported(h, back, now, recips);
        events := if !mayPlay && o.ok then Told(o.events) else None;
      }
    }
  }

  lemma {:induction false} DepartedSendsNothing(h: Host, gone: seq<int>, now: int, grace: nat)
    ensures var g := AllDeparted(h, gone, now, grace);
            g.frames == h.frames && g.table.version == h.table.version
  {
    hide Added, SeatOf;
    if gone != [] {
      DepartedSendsNothing(h, gone[..|gone| - 1], now, grace);
    }
  }

  lemma FiringReported(h: Host, s: Step) returns (k: nat, events: Option<seq<Event>>)
    requires Enabled(h, s)
    requires s.FireTurn? || s.FireDeal? || s.FireIdle? || s.FireGrace? || s.FireEmpty?
    ensures Reported(h, Next(h, s), k, RecipsOf(s), events)
  {
    k, events := |h.frames|, None;
    match s
    case FireTurn(last, turn, due, o, now, recips) =>
      hide Applied, Fired, Lawful, Reported;
      var f := Fired(h, TurnTimer(turn, due), last);
      NothingReported(h, f, recips);
      NothingReported(h, WithEngine(f, o.after), recips);
      AppliedReported(h, WithEngine(f, o.after), o.events, now, recips);
      events := if !h.table.closed && o.ok then Told(o.events) else None;
    case FireDeal(last, gen, due, o, now, recips) =>
      hide Applied, Bumped, Fired, Lawful, Reported;
      var f := Fired(h, DealTimer(gen, due), last);
      var g := f.(table := f.table.(nextDeal := None));
      NothingReported(h, f, recips);
      NothingReported(h, g, recips);
      NothingReported(h, WithEngine(g, o.after), recips);
      AppliedReported(h, WithEngine(g, o.after), o.events, now, recips);
      BumpedReported(h, g, now, recips);
      events := if DealDue(h.table, gen) && o.ok then Told(o.events) else None;
    case FireGrace(last, seat, user, since, due, back, o, now, recips) =>
      hide Applied, Bumped, Fired, Lawful, Reported;
      var f := Fired(h, GraceTimer(seat, user, since, due), last);
      var g := WithoutAway(f, seat);
      NothingReported(h, f, recips);
      NothingReported(h, g, recips);
      NothingReported(h, WithEngine(g, o.after), recips);
      AppliedReported(h, WithEngine(g, o.after), o.events, now, recips);
      BumpedReported(h, WithEngine(g, o.after), now, recips);
      BumpedReported(h, g, now, recips);
      events := if GraceDue(h.table, seat, user, since) && !back && o.ok then Told(o.events) else None;
    case FireIdle(last, gen, due, _) => NothingReported(h, Next(h, s), []);
    case FireEmpty(last, since, due, occupied, _) => NothingReported(h, Next(h, s), []);
  }

  /** Every step reports its one change, if any, to every recipient, after any plain views. */
  lemma StepReported(h: Host, s: Step) returns (k: nat, events: Option<seq<Event>>)
    requires Enabled(h, s)
    ensures Reported(h, Next(h, s), k, RecipsOf(s), events)
  {
    k, events := |h.frames|, None;
    hide Reported, GetUp, EngineCall, OnJoin, Sent, AllDeparted, Bumped, Lawful, NobodyNew,
         OnTurnClock, OnDealTimer, OnIdle, OnGrace, OnEmptyCheck;
    match s
    case Open(now, recips) => k := OpenReported(h, now, recips);
    case Depart(gone, grace, now, recips) =>
      DepartedSendsNothing(h, gone, now, grace);
      var g := AllDeparted(h, gone, now, grace);
      NothingReported(h, h, recips);
      NothingReported(h, g, recips);
      BumpedReported(h, g, now, recips);
    case Join(user, conn, plays, mayPlay, o, now, recips) =>
      k, events := JoinReported(h, user, conn, plays, mayPlay, o, now, recips);
    case GetThemUp(user, o, now, recips) =>
      NothingReported(h, h, recips);
      var seat := SeatOf(h.table.engine, user);
      if !h.table.closed && seat.Some? { events := GetUpReported(h, seat.value, o, now, recips); }
    case Remove(seat, named, o, now, recips) =>
      NothingReported(h, h, recips);
      if !h.table.closed && !(named.Some? && !SeatedAt(h.table.engine, named.value, seat)) {
        events := GetUpReported(h, seat, o, now, recips);
      }
    case Sit(seat, user, o, now, recips) => events := CallReported(h, o, now, recips);
    case Own(user, op, o, now, recips) =>
      NothingReported(h, h, recips);
      var seat := SeatOf(h.table.engine, user);
      if !h.table.closed && Fits(h.table.engine.kind, op) && seat.Some? {
        if op.Stand? {
          events := GetUpReported(h, seat.value, o, now, recips);
        } else {
          events := CallReported(h, o, now, recips);
        }
      }
    case Ask(user, conn) => k := AskReported(h, user, conn);
    case Emptied(_) => NothingReported(h, Next(h, s), []);
    case SpawnCheck(_, _, _) => NothingReported(h, Next(h, s), []);
    case Close => NothingReported(h, Next(h, s), []);
    case _ => k, events := FiringReported(h, s);
  }

  lemma OpenReported(h: Host, now: int, recips: seq<Recipient>) returns (k: nat)
    ensures Reported(h, Opening(h, now, recips), k, recips, None)
  {
    var g := Rescheduled(h, now);
    PlainView(g, recips);
    k := |Opening(h, now, recips).frames|;
    hide WithSpawned, Sent, Kept, ClockFor, DealFor, IdleFor;
  }

  lemma AskReported(h: Host, user: int, conn: nat) returns (k: nat)
    ensures Reported(h, Resync(h, user, conn), k, [], None)
  {
    PlainView(h, [Recipient(user, conn)]);
    k := |Resync(h, user, conn).frames|;
    hide Sent;
  }

  // --- Every run --------------------------------------------------------------------------

  /** Versions never go back; two event frames of one version say the same, to different connections. */
  ghost predicate InOrder(h: Host) {
    && (forall i :: 0 <= i < |h.frames| ==> h.frames[i].version <= h.table.version)
    && (forall i, j :: 0 <= i < j < |h.frames| ==> h.frames[i].version <= h.frames[j].version)
    && (forall i, j :: 0 <= i < j < |h.frames| ==> TwoFrames(h.frames[i], h.frames[j]))
  }

  predicate TwoFrames(f: Frame, g: Frame) {
    f.events.Some? && g.events.Some? && f.version == g.version ==> f.events == g.events && f.conn != g.conn
  }

  lemma FramesForAt(t: Table, recips: seq<Recipient>, events: Option<seq<Event>>, i: nat, j: nat)
    requires Distinct(recips) && i < j < |recips|
    ensures TwoFrames(FramesFor(t, recips, events)[i], FramesFor(t, recips, events)[j])
  {
  }

  lemma ReportedInOrder(h: Host, g: Host, k: nat, recips: seq<Recipient>, events: Option<seq<Event>>)
    requires InOrder(h) && Distinct(recips) && Reported(h, g, k, recips, events)
    ensures InOrder(g)
  {
    var n := |h.frames|;
    forall i | 0 <= i < |g.frames|
      ensures i < n ==> g.frames[i] == h.frames[i] && g.frames[i].version <= h.table.version
      ensures i >= k ==>
                && g.table.version == h.table.version + 1
                && g.frames[i] == FramesFor(g.table, recips, events)[i - k]
      ensures i >= k ==> g.frames[i].version == h.table.version + 1
    {
      if i >= k {
        assert g.frames[i] == g.frames[k..][i - k];
      }
    }
    forall i, j | 0 <= i < j < |g.frames| ensures TwoFrames(g.frames[i], g.frames[j]) {
      if j < n {
        assert TwoFrames(h.frames[i], h.frames[j]);
      } else if i >= k {
        FramesForAt(g.table, recips, events, i - k, j - k);
      }
    }
  }

  lemma StepInOrder(h: Host, s: Step)
    requires InOrder(h) && Enabled(h, s)
    ensures InOrder(Next(h, s))
  {
    hide InOrder, Next, Reported;
    var k, events := StepReported(h, s);
    assert Distinct(RecipsOf(s)) by { hide Lawful, NobodyNew, SeatLeaves, OwnLawful; }
    hide Enabled;
    ReportedInOrder(h, Next(h, s), k, RecipsOf(s), events);
  }

  lemma {:induction false} RunInOrder(h: Host, steps: seq<Step>)
    requires InOrder(h) && Runs(h, steps)
    ensures InOrder(After(h, steps))
    decreases |steps|
  {
    hide InOrder, Next, Enabled;
    if steps != [] {
      StepInOrder(h, steps[0]);
      RunInOrder(Next(h, steps[0]), steps[1..]);
    }
  }

  /**
   Over any run, of any two frames the later one never shows an older version; two event
   frames to one connection show strictly growing versions; and two connections given
   the events of one version were given the same events.
   */
  lemma OrderedFrames(start: Host, steps: seq<Step>, i: nat, j: nat)
    requires New(start) && Runs(start, steps) && i < j < |After(start, steps).frames|
    ensures var f, g := After(start, steps).frames[i], After(start, steps).frames[j];
            && f.version <= g.version <= After(start, steps).table.version
            && (f.conn == g.conn && f.events.Some? && g.events.Some? ==> f.version < g.version)
            && (f.version == g.version && f.events.Some? && g.events.Some? ==> f.events == g.events)
  {
    assert InOrder(start);
    RunInOrder(start, steps);
    assert TwoFrames(After(start, steps).frames[i], After(start, steps).frames[j]);
  }

  /** A reported change moves the version by exactly one, and everybody in the call that plays is told, once. */
  lemma EveryChangeIsTold(h: Host, s: Step)
    requires Enabled(h, s)
    ensures var g := Next(h, s);
            && g.table.version - h.table.version in {0, 1}
            && (g.table.version != h.table.version ==>
                  exists k, events :: |h.frames| <= k <= |g.frames|
                      && g.frames[k..] == FramesFor(g.table, RecipsOf(s), events))
            && (forall i :: |h.frames| <= i < |g.frames| && g.frames[i].events.Some? ==>
                  g.table.version == h.table.version + 1)
  {
    var k, events := StepReported(h, s);
    var g := Next(h, s);
    hide Next, Enabled;
  }
}
