/**
 Timers: at every release of an open table's lock each clock is armed exactly for
 what the table is waiting for, and a timer with any other stamp does nothing.
 */
module GameTimers {
  import opened GameEngine
  import opened GameTable
  import opened GameRuns
  import opened Wrappers

  // --- The invariant --------------------------------------------------------------------

  predicate TurnBacked(t: Table, timers: set<Timer>) {
    t.clock.Some? && t.engine.turn == Some(t.clock.value.turn) ==>
        TurnTimer(t.clock.value.turn, t.clock.value.due) in timers
  }

  predicate DealBacked(t: Table, timers: set<Timer>) {
    t.nextDeal.Some? ==> DealTimer(t.nextDeal.value.gen, t.nextDeal.value.due) in timers
  }

  predicate IdleBacked(t: Table, timers: set<Timer>) {
    t.idle.Some? ==> IdleTimer(t.idle.value.gen, t.idle.value.due) in timers
  }

  ghost predicate GraceFor(timers: set<Timer>, seat: nat, a: Away) {
    exists due :: GraceTimer(seat, a.user, a.since, due) in timers
  }

  ghost predicate GraceBacked(t: Table, timers: set<Timer>) {
    forall k :: k in t.away ==> GraceFor(timers, k, t.away[k])
  }

  ghost predicate EmptyFor(timers: set<Timer>, since: int) {
    exists due :: EmptyTimer(since, due) in timers
  }

  /** The check for an empty call is pending, or about to be spawned. */
  ghost predicate EmptyBacked(h: Host) {
    h.table.emptySince.Some? ==> h.table.emptySince.value in h.owed || EmptyFor(h.timers, h.table.emptySince.value)
  }

  /** Whatever the table waits for has a pending timer with its very stamp. */
  ghost predicate Backed(h: Host) {
    && TurnBacked(h.table, h.timers) && DealBacked(h.table, h.timers) && IdleBacked(h.table, h.timers)
    && GraceBacked(h.table, h.timers) && EmptyBacked(h)
  }

  /**
   It waits for exactly what the engine wants: the current decision, a wanted deal, an empty table,
   seats that are away.
   */
  predicate Exact(t: Table) {
    && (t.clock.Some? <==> t.engine.turn.Some?)
    && (t.clock.Some? ==> t.clock.value.turn == t.engine.turn.value)
    && (t.nextDeal.Some? <==> DealWanted(t.engine).Some?)
    && (t.idle.Some? <==> t.engine.seats == map[])
    && (forall k :: k in t.away ==> SeatedAt(t.engine, t.away[k].user, k))
  }

  /** Nothing has been armed yet. */
  predicate Unarmed(t: Table) {
    t.away == map[] && t.clock.None? && t.nextDeal.None? && t.idle.None?
  }

  ghost predicate Armed(h: Host) {
    && Sane(h.table.engine)
    && (!h.table.closed ==> Backed(h) && (if h.armed then Exact(h.table) else Unarmed(h.table)))
  }

  // --- Scheduling restores it ---------------------------------------------------------------

  lemma ScheduleIsExact(t: Table, now: int)
    ensures Exact(Schedule(t, now))
  {
  }

  lemma SpawnedHolds(timers: set<Timer>, t: Table, now: int)
    ensures forall x :: x in WithSpawned(timers, t, now) <==>
              || x in timers || x in TurnTimers(t.engine, t.clock, now)
                  || x in DealTimers(t.engine, t.nextDeal, t.gen, now)
              || x in IdleTimers(t.engine, t.idle, GenAfterDeal(t.engine, t.nextDeal, t.gen, now), now)
  {
    hide Added, TurnTimers, DealTimers, IdleTimers;
    var turn := Added(timers, TurnTimers(t.engine, t.clock, now));
    var deal := Added(turn, DealTimers(t.engine, t.nextDeal, t.gen, now));
    AddedHolds(timers, TurnTimers(t.engine, t.clock, now));
    AddedHolds(turn, DealTimers(t.engine, t.nextDeal, t.gen, now));
    AddedHolds(deal, IdleTimers(t.engine, t.idle, GenAfterDeal(t.engine, t.nextDeal, t.gen, now), now));
  }

  /** Timers are only ever added: what was backed stays backed. */
  lemma MoreTimers(h: Host, g: Host)
    requires (forall x :: x in h.timers ==> x in g.timers)
             && (forall s :: s in h.owed ==> s in g.owed || EmptyFor(g.timers, s))
    ensures GraceBacked(h.table, h.timers) ==> GraceBacked(h.table, g.timers)
    ensures EmptyBacked(h) && g.table.emptySince == h.table.emptySince ==> EmptyBacked(g)
    ensures forall k, a :: GraceFor(h.timers, k, a) ==> GraceFor(g.timers, k, a)
  {
    forall k, a | GraceFor(h.timers, k, a) ensures GraceFor(g.timers, k, a) {
      var due :| GraceTimer(k, a.user, a.since, due) in h.timers;
      assert GraceTimer(k, a.user, a.since, due) in g.timers;
    }
    forall since | EmptyFor(h.timers, since) ensures EmptyFor(g.timers, since) {
      var due :| EmptyTimer(since, due) in h.timers;
      assert EmptyTimer(since, due) in g.timers;
    }
  }

  lemma RescheduledBacked(h: Host, now: int)
    requires Backed(h)
    ensures Backed(Rescheduled(h, now))
  {
    var t, g := h.table, Rescheduled(h, now);
    SpawnedHolds(h.timers, t, now);
    hide WithSpawned;
    MoreTimers(h, g);
    hide GraceFor, EmptyFor;
    assert TurnBacked(g.table, g.timers) && DealBacked(g.table, g.timers) && IdleBacked(g.table, g.timers);
  }

  // --- The pieces of a section ---------------------------------------------------------------

  ghost predicate BackedButTurn(h: Host) {
    DealBacked(h.table, h.timers) && IdleBacked(h.table, h.timers) && GraceBacked(h.table, h.timers) && EmptyBacked(h)
  }

  predicate ClockExact(t: Table) {
    t.clock.Some? ==> t.engine.turn == Some(t.clock.value.turn)
  }

  lemma ArmedIsBacked(h: Host)
    requires Armed(h) && !h.table.closed
    ensures Backed(h) && BackedButTurn(h) && ClockExact(h.table) && Sane(h.table.engine)
  {
    hide Backed;
    assert Backed(h);
    BackedParts(h);
  }

  lemma BackedParts(h: Host)
    ensures Backed(h) <==> BackedButTurn(h) && TurnBacked(h.table, h.timers)
  {
  }

  lemma RescheduledExact(h: Host, now: int)
    ensures var g := Rescheduled(h, now);
            && g.armed && g.table.engine == h.table.engine && g.table.closed == h.table.closed && Exact(g.table)
  {
    ScheduleIsExact(h.table, now);
  }

  lemma VersionBacked(h: Host)
    requires Backed(h)
    ensures Backed(h.(table := h.table.(version := h.table.version + 1)))
  {
    hide GraceFor, EmptyFor;
  }

  /** A new version is armed for whatever the engine now wants. */
  lemma NextVersionArmed(h: Host, now: int)
    requires Sane(h.table.engine) && Backed(h)
    ensures Armed(NextVersion(h, now))
  {
    hide Rescheduled, Backed, Exact, Sane;
    var g := h.(table := h.table.(version := h.table.version + 1));
    VersionBacked(h);
    RescheduledBacked(g, now);
    RescheduledExact(g, now);
  }

  lemma SentArmed(h: Host, recips: seq<Recipient>, events: Option<seq<Event>>)
    requires Armed(h)
    ensures Armed(Sent(h, recips, events))
  {
    hide FramesFor, GraceFor, EmptyFor;
  }

  lemma BumpedArmed(h: Host, now: int, recips: seq<Recipient>)
    requires Sane(h.table.engine) && Backed(h)
    ensures Armed(Bumped(h, now, recips))
  {
    hide Armed, NextVersion, Sent;
    NextVersionArmed(h, now);
    SentArmed(NextVersion(h, now), recips, None);
  }

  /** The engine moved on: what was backed still is, a passed decision aside. */
  lemma WithEngineBacked(h: Host, o: Outcome)
    requires Sane(h.table.engine) && BackedButTurn(h) && ClockExact(h.table) && Lawful(h.table.engine, o)
    requires o.after.turn == h.table.engine.turn ==> TurnBacked(h.table, h.timers)
    ensures Sane(o.after) && Backed(WithEngine(h, o.after))
  {
    hide GraceFor, EmptyFor;
    BackedParts(WithEngine(h, o.after));
  }

  lemma QuietArmed(h: Host, o: Outcome)
    requires Armed(h) && !h.table.closed && Lawful(h.table.engine, o) && (!o.ok || o.events == [])
    ensures Armed(WithEngine(h, o.after))
  {
    ArmedIsBacked(h);
    WithEngineBacked(h, o);
    var e := h.table.engine;
    if o.ok {
      QuietWantsTheSame(e, o.after);
      assert o.after.seats == map[] <==> e.seats == map[] by {
        assert o.after.seats.Keys == e.seats.Keys;
        assert e.seats == map[] <==> e.seats.Keys == {};
        assert o.after.seats == map[] <==> o.after.seats.Keys == {};
      }
      hide Backed, Quiet, DealWanted, Sane;
    }
  }

  lemma AppliedArmed(h: Host, o: Outcome, now: int, recips: seq<Recipient>)
    requires Sane(h.table.engine) && BackedButTurn(h) && ClockExact(h.table) && Lawful(h.table.engine, o)
    requires o.after.turn == h.table.engine.turn ==> TurnBacked(h.table, h.timers)
    requires o.ok && o.events != []
    ensures Armed(Applied(WithEngine(h, o.after), o.events, now, recips))
  {
    WithEngineBacked(h, o);
    hide Armed, NextVersion, Sent, Backed, BackedButTurn, Lawful;
    NextVersionArmed(WithEngine(h, o.after), now);
    SentArmed(NextVersion(WithEngine(h, o.after), now), recips, Some(o.events));
  }

  /** An accepted call, reported or quiet. */
  lemma CallArmed(h: Host, o: Outcome, now: int, recips: seq<Recipient>)
    requires Armed(h) && !h.table.closed && Lawful(h.table.engine, o) && o.ok
    ensures Armed(Applied(WithEngine(h, o.after), o.events, now, recips))
  {
    if o.events == [] {
      QuietArmed(h, o);
    } else {
      ArmedIsBacked(h);
      hide Armed, Lawful, BackedButTurn;
      BackedParts(h);
      AppliedArmed(h, o, now, recips);
    }
  }

  lemma WithoutAwayArmed(h: Host, seat: nat)
    requires Armed(h)
    ensures Armed(WithoutAway(h, seat))
  {
    hide GraceFor, EmptyFor, Sane, DealWanted;
  }

  lemma GetUpArmed(h: Host, seat: nat, o: Outcome, now: int, recips: seq<Recipient>)
    requires Armed(h) && !h.table.closed && Lawful(h.table.engine, o)
    ensures Armed(GetUp(h, seat, o, now, recips))
  {
    hide Armed, Lawful, Applied;
    WithoutAwayArmed(h, seat);
    if o.ok {
      CallArmed(WithoutAway(h, seat), o, now, recips);
    }
  }

  // --- Timers ----------------------------------------------------------------------------------

  /** The stamp the table now waits for. */
  predicate Live(t: Table, timer: Timer) {
    match timer
    case TurnTimer(turn, _) => t.engine.turn == Some(turn)
    case DealTimer(gen, _) => DealDue(t, gen)
    case IdleTimer(gen, _) => IdleDue(t, gen)
    case GraceTimer(seat, user, since, _) => GraceDue(t, seat, user, since)
    case EmptyTimer(since, _) => EmptyDue(t, since)
  }

  /** Losing a timer loses nothing but what that timer backed. */
  lemma FiredBacks(h: Host, timer: Timer, last: bool)
    requires Backed(h)
    ensures var g := Fired(h, timer, last);
            && (timer.TurnTimer? && ClockExact(h.table) && !Live(h.table, timer) ==> TurnBacked(g.table, g.timers))
            && (!timer.TurnTimer? ==> TurnBacked(g.table, g.timers))
            && (!(h.table.nextDeal.Some? && timer.DealTimer? && timer.gen == h.table.nextDeal.value.gen) ==>
                  DealBacked(g.table, g.timers))
            && (!(h.table.idle.Some? && timer.IdleTimer? && timer.gen == h.table.idle.value.gen) ==>
                  IdleBacked(g.table, g.timers))
            && (!(timer.EmptyTimer? && h.table.emptySince == Some(timer.since)) ==> EmptyBacked(g))
            && forall k ::
                 k in h.table.away
                 && !(timer.GraceTimer? && timer.seat == k && h.table.away[k] == Away(timer.user, timer.since))
                 ==> GraceFor(g.timers, k, h.table.away[k])
  {
    var t, g := h.table, Fired(h, timer, last);
    hide Fired;
    if t.emptySince.Some? && t.emptySince.value !in h.owed
        && !(timer.EmptyTimer? && t.emptySince == Some(timer.since)) {
      var due :| EmptyTimer(t.emptySince.value, due) in h.timers;
      assert EmptyTimer(t.emptySince.value, due) in g.timers;
    }
    forall k | k in t.away && !(timer.GraceTimer? && timer.seat == k && t.away[k] == Away(timer.user, timer.since))
      ensures GraceFor(g.timers, k, t.away[k])
    {
      assert GraceFor(h.timers, k, t.away[k]);
      var due :| GraceTimer(k, t.away[k].user, t.away[k].since, due) in h.timers;
      assert GraceTimer(k, t.away[k].user, t.away[k].since, due) in g.timers;
    }
  }

  /** A timer with any other stamp is not what anything is backed by. */
  lemma StaleFiredArmed(h: Host, timer: Timer, last: bool)
    requires Armed(h) && !h.table.closed && !Live(h.table, timer)
    ensures Armed(Fired(h, timer, last))
  {
    ArmedIsBacked(h);
    FiredBacks(h, timer, last);
    BackedParts(Fired(h, timer, last));
    hide Fired, GraceFor, EmptyFor, Sane, DealWanted;
  }

  lemma FireTurnArmed(h: Host, last: bool, turn: int, due: int, o: Outcome, now: int, recips: seq<Recipient>)
    requires Armed(h) && !h.table.closed && TimeoutLawful(h.table.engine, turn, o)
    ensures Armed(OnTurnClock(Fired(h, TurnTimer(turn, due), last), o, now, recips))
  {
    if o.ok {
      ArmedIsBacked(h);
      var g := Fired(h, TurnTimer(turn, due), last);
      FiredBacks(h, TurnTimer(turn, due), last);
      assert BackedButTurn(g) by { hide GraceFor, EmptyFor; }
      hide Armed, Backed, BackedButTurn, Applied, Lawful, NobodyNew, Fired;
      AppliedArmed(g, o, now, recips);
    } else {
      hide Armed, Lawful, NobodyNew, Fired, Applied;
      StaleFiredArmed(h, TurnTimer(turn, due), last);
    }
  }

  lemma FireDealArmed(h: Host, last: bool, gen: nat, due: int, o: Outcome, now: int, recips: seq<Recipient>)
    requires Armed(h) && !h.table.closed && DealLawful(h.table.engine, o)
    ensures Armed(OnDealTimer(Fired(h, DealTimer(gen, due), last), gen, o, now, recips))
  {
    if DealDue(h.table, gen) {
      ArmedIsBacked(h);
      FiredBacks(h, DealTimer(gen, due), last);
      var f := Fired(h, DealTimer(gen, due), last);
      var g := f.(table := f.table.(nextDeal := None));
      assert BackedButTurn(g) && TurnBacked(g.table, g.timers) && ClockExact(g.table)
          by { hide GraceFor, EmptyFor, Sane, DealWanted; }
      BackedParts(g);
      hide Armed, Backed, BackedButTurn, Applied, Bumped, Lawful, NobodyNew, Fired;
      if o.ok {
        AppliedArmed(g, o, now, recips);
      } else {
        BumpedArmed(g, now, recips);
      }
    } else {
      hide Armed, Lawful, NobodyNew, Fired, Applied, Bumped;
      StaleFiredArmed(h, DealTimer(gen, due), last);
    }
  }

  lemma FireIdleArmed(h: Host, last: bool, gen: nat, due: int)
    requires Armed(h) && !h.table.closed
    ensures Armed(OnIdle(Fired(h, IdleTimer(gen, due), last), gen))
  {
    if !IdleDue(h.table, gen) {
      StaleIdleArmed(h, last, gen, due);
    }
  }

  lemma StaleIdleArmed(h: Host, last: bool, gen: nat, due: int)
    requires Armed(h) && !h.table.closed && !IdleDue(h.table, gen)
    ensures Armed(Fired(h, IdleTimer(gen, due), last))
  {
    hide Armed, Fired;
    StaleFiredArmed(h, IdleTimer(gen, due), last);
  }

  lemma FireGraceArmed(h: Host, last: bool, seat: nat, user: int, since: int, due: int, back: bool, o: Outcome,
      now: int, recips: seq<Recipient>)
    requires Armed(h) && !h.table.closed && Lawful(h.table.engine, o)
    ensures Armed(OnGrace(Fired(h, GraceTimer(seat, user, since, due), last), seat, user, since, back, o, now, recips))
  {
    var timer := GraceTimer(seat, user, since, due);
    if GraceDue(h.table, seat, user, since) {
      ArmedIsBacked(h);
      FiredBacks(h, timer, last);
      var g := WithoutAway(Fired(h, timer, last), seat);
      assert BackedButTurn(g) && TurnBacked(g.table, g.timers) && ClockExact(g.table)
          by { hide GraceFor, EmptyFor, Sane, DealWanted; }
      BackedParts(g);
      hide Armed, Backed, BackedButTurn, Applied, Bumped, Lawful, Fired, GraceFor, EmptyFor;
      if back {
        BumpedArmed(g, now, recips);
      } else if o.ok && o.events != [] {
        AppliedArmed(g, o, now, recips);
      } else {
        WithEngineBacked(g, o);
        BumpedArmed(WithEngine(g, o.after), now, recips);
      }
    } else {
      hide Armed, Lawful, Fired, Applied, Bumped;
      StaleFiredArmed(h, timer, last);
    }
  }

  lemma FireEmptyArmed(h: Host, last: bool, since: int, due: int, occupied: bool)
    requires Armed(h) && !h.table.closed
    ensures Armed(OnEmptyCheck(Fired(h, EmptyTimer(since, due), last), since, occupied))
  {
    if EmptyDue(h.table, since) {
      if occupied {
        ArmedIsBacked(h);
        FiredBacks(h, EmptyTimer(since, due), last);
        hide GraceFor, EmptyFor, Sane, DealWanted;
      }
    } else {
      hide Armed, Fired;
      StaleFiredArmed(h, EmptyTimer(since, due), last);
    }
  }

  // --- The other sections ----------------------------------------------------------------------

  lemma DepartedBacked(h: Host, user: int, now: int, grace: nat)
    requires Backed(h)
    ensures Backed(Departed(h, user, now, grace)) && Departed(h, user, now, grace).table.engine == h.table.engine
  {
    var g, seat := Departed(h, user, now, grace), SeatOf(h.table.engine, user);
    if g != h {
      var more := {GraceTimer(seat.value, user, now, now + grace)};
      AddedHolds(h.timers, more);
      MoreTimers(h, g);
      assert GraceTimer(seat.value, user, now, now + grace) in g.timers;
      assert GraceFor(g.timers, seat.value, Away(user, now));
      hide GraceFor, EmptyFor, Added;
    }
  }

  lemma {:induction false} AllDepartedBacked(h: Host, gone: seq<int>, now: int, grace: nat)
    requires Backed(h)
    ensures Backed(AllDeparted(h, gone, now, grace)) && AllDeparted(h, gone, now, grace).table.engine == h.table.engine
  {
    hide Backed, Departed;
    if gone != [] {
      AllDepartedBacked(h, gone[..|gone| - 1], now, grace);
      DepartedBacked(AllDeparted(h, gone[..|gone| - 1], now, grace), gone[|gone| - 1], now, grace);
    }
  }

  lemma DepartArmed(h: Host, gone: seq<int>, now: int, grace: nat, recips: seq<Recipient>)
    requires Armed(h) && !h.table.closed
    ensures Armed(OnDepartures(h, gone, now, grace, recips))
  {
    ArmedIsBacked(h);
    hide Armed, Backed, AllDeparted, Bumped;
    AllDepartedBacked(h, gone, now, grace);
    var g := AllDeparted(h, gone, now, grace);
    if g != h {
      BumpedArmed(g, now, recips);
    }
  }

  lemma EmptiedArmed(h: Host, now: int)
    requires Armed(h)
    ensures Armed(OnRoomEmptied(h, now))
  {
    hide GraceFor, EmptyFor, Sane, DealWanted;
  }

  lemma SpawnArmed(h: Host, since: int, due: int, last: bool)
    requires Armed(h)
    ensures Armed(SpawnEmptyCheck(h, since, due, last))
  {
    var g := SpawnEmptyCheck(h, since, due, last);
    AddedHolds(h.timers, {EmptyTimer(since, due)});
    assert EmptyTimer(since, due) in g.timers;
    assert EmptyFor(g.timers, since);
    MoreTimers(h, g);
    hide GraceFor, EmptyFor, Sane, DealWanted, Added;
  }

  lemma JoinArmed(h: Host, user: int, conn: nat, plays: bool, mayPlay: bool, o: Outcome, now: int,
      recips: seq<Recipient>)
    requires Armed(h) && !h.table.closed && SeatLeaves(h.table.engine, user, o)
    ensures Armed(OnJoin(h, user, conn, plays, mayPlay, o, now, recips))
  {
    var f := h.(table := h.table.(emptySince := None));
    assert Armed(f) by { hide GraceFor, EmptyFor, Sane, DealWanted; }
    hide Armed, Applied, Bumped, Sent, Lawful, NobodyNew, Backed, BackedButTurn;
    SentArmed(f, [Recipient(user, conn)], None);
    var g := if plays then Sent(f, [Recipient(user, conn)], None) else f;
    assert g.table == f.table by { SentKeepsTable(f, [Recipient(user, conn)], None); }
    var seat := SeatOf(g.table.engine, user);
    if seat.Some? {
      var wasAway := AwayAt(g.table, seat.value, user);
      var back := if wasAway then WithoutAway(g, seat.value) else g;
      WithoutAwayArmed(g, seat.value);
      ArmedIsBacked(back);
      BackedParts(back);
      if mayPlay {
        BumpedArmed(back, now, recips);
      } else if o.ok && o.events != [] {
        AppliedArmed(back, o, now, recips);
      } else if wasAway {
        WithEngineBacked(back, o);
        BumpedArmed(WithEngine(back, o.after), now, recips);
      } else {
        QuietArmed(back, o);
      }
    }
  }

  lemma SentKeepsTable(h: Host, recips: seq<Recipient>, events: Option<seq<Event>>)
    ensures Sent(h, recips, events).table == h.table
  {
  }

  lemma OpenArmed(h: Host, now: int, recips: seq<Recipient>)
    requires Armed(h)
    ensures Armed(Opening(h, now, recips))
  {
    if !h.table.closed {
      ArmedIsBacked(h);
      RescheduledBacked(h, now);
      ScheduleIsExact(h.table, now);
    }
    assert Armed(Rescheduled(h, now)) by { hide Backed, Exact, WithSpawned; }
    hide Armed, Rescheduled, Sent;
    SentArmed(Rescheduled(h, now), recips, None);
  }

  // --- Every step, every run -------------------------------------------------------------------

  /** A closed table's timers find it closed and do nothing; only the opening still arms it. */
  lemma ClosedStays(h: Host, s: Step)
    requires h.table.closed && Enabled(h, s) && !s.Open?
    ensures Next(h, s).table == h.table && Next(h, s).frames == h.frames
  {
    hide Added, Fired;
  }

  lemma FiringArmed(h: Host, s: Step)
    requires Armed(h) && !h.table.closed && Enabled(h, s)
    requires s.FireTurn? || s.FireDeal? || s.FireIdle? || s.FireGrace? || s.FireEmpty?
    ensures Armed(Next(h, s))
  {
    hide Armed, Fired, OnTurnClock, OnDealTimer, OnIdle, OnGrace, OnEmptyCheck, Lawful, NobodyNew;
    match s
    case FireTurn(last, turn, due, o, now, recips) => FireTurnArmed(h, last, turn, due, o, now, recips);
    case FireDeal(last, gen, due, o, now, recips) => FireDealArmed(h, last, gen, due, o, now, recips);
    case FireIdle(last, gen, due, _) => FireIdleArmed(h, last, gen, due);
    case FireGrace(last, seat, user, since, due, back, o, now, recips) =>
      FireGraceArmed(h, last, seat, user, since, due, back, o, now, recips);
    case FireEmpty(last, since, due, occupied, _) => FireEmptyArmed(h, last, since, due, occupied);
  }

  lemma EngineCallArmed(h: Host, o: Outcome, now: int, recips: seq<Recipient>)
    requires Armed(h) && !h.table.closed && Lawful(h.table.engine, o)
    ensures Armed(EngineCall(h, o, now, recips))
  {
    hide Armed, Lawful, Applied;
    if o.ok {
      CallArmed(h, o, now, recips);
    }
  }

  lemma StepArmed(h: Host, s: Step)
    requires Armed(h) && Enabled(h, s)
    ensures Armed(Next(h, s))
  {
    hide Armed, Opening, OnDepartures, OnRoomEmptied, SpawnEmptyCheck, OnJoin, GetUp, EngineCall, Resync, Lawful,
         NobodyNew;
    if s.Open? {
      OpenArmed(h, s.now, s.recips);
    } else if h.table.closed {
      ClosedArmed(h, s);
    } else if s.FireTurn? || s.FireDeal? || s.FireIdle? || s.FireGrace? || s.FireEmpty? {
      FiringArmed(h, s);
    } else {
      SectionArmed(h, s);
    }
  }

  lemma ClosedArmed(h: Host, s: Step)
    requires Armed(h) && Enabled(h, s) && h.table.closed && !s.Open?
    ensures Armed(Next(h, s))
  {
    hide Enabled, Next;
    ClosedStays(h, s);
  }

  lemma SectionArmed(h: Host, s: Step)
    requires Armed(h) && !h.table.closed && Enabled(h, s)
    requires !s.Open? && !s.FireTurn? && !s.FireDeal? && !s.FireIdle? && !s.FireGrace? && !s.FireEmpty?
    ensures Armed(Next(h, s))
  {
    hide Armed, OnDepartures, OnRoomEmptied, SpawnEmptyCheck, OnJoin, GetUp, EngineCall, Sent, Lawful, NobodyNew;
    match s {
      case Depart(gone, grace, now, recips) => DepartArmed(h, gone, now, grace, recips);
      case Emptied(now) => EmptiedArmed(h, now);
      case SpawnCheck(last, since, due) => SpawnArmed(h, since, due, last);
      case Join(user, conn, plays, mayPlay, o, now, recips) => JoinArmed(h, user, conn, plays, mayPlay, o, now, recips);
      case GetThemUp(user, o, now, recips) =>
        var seat := SeatOf(h.table.engine, user);
        if seat.Some? { GetUpArmed(h, seat.value, o, now, recips); }
      case Remove(seat, named, o, now, recips) => GetUpArmed(h, seat, o, now, recips);
      case Sit(seat, user, o, now, recips) => EngineCallArmed(h, o, now, recips);
      case Own(user, op, o, now, recips) =>
        var seat := SeatOf(h.table.engine, user);
        if seat.Some? { GetUpArmed(h, seat.value, o, now, recips); }
        EngineCallArmed(h, o, now, recips);
      case Ask(user, conn) => SentArmed(h, [Recipient(user, conn)], None);
      case Close => ClosingArmed(h);
    }
  }

  lemma ClosingArmed(h: Host)
    requires Armed(h)
    ensures Armed(Closing(h))
  {
    hide Backed, Exact, Sane;
  }

  lemma NewIsArmed(h: Host)
    requires New(h)
    ensures Armed(h)
  {
  }

  lemma {:induction false} RunArmed(h: Host, steps: seq<Step>)
    requires Armed(h) && Runs(h, steps)
    ensures Armed(After(h, steps))
    decreases |steps|
  {
    hide Armed, Enabled, Next;
    if steps != [] {
      StepArmed(h, steps[0]);
      RunArmed(Next(h, steps[0]), steps[1..]);
    }
  }

  /**
   No lost wakeup. Whatever ran before, an open table whose clocks were once brought
   in line has, at every release of its lock: a clock for exactly the decision waited
   for; a deal scheduled exactly when one is wanted; the idle close armed exactly when
   nobody sits; away seats that are really occupied; and for each of these, and for a
   call that emptied, a pending timer that carries its very stamp.
   */
  lemma NoLostWakeup(start: Host, steps: seq<Step>)
    requires New(start) && Runs(start, steps) && !After(start, steps).table.closed
    ensures var h := After(start, steps);
            var t := h.table;
            && (h.armed ==>
                  && (t.engine.turn.Some? <==> t.clock.Some?)
                  && (t.clock.Some? ==> t.engine.turn == Some(t.clock.value.turn))
                  && (t.clock.Some? ==> TurnTimer(t.clock.value.turn, t.clock.value.due) in h.timers)
                  && (DealWanted(t.engine).Some? <==> t.nextDeal.Some?)
                  && (t.engine.seats == map[] <==> t.idle.Some?))
            && (t.nextDeal.Some? ==> DealTimer(t.nextDeal.value.gen, t.nextDeal.value.due) in h.timers)
            && (t.idle.Some? ==> IdleTimer(t.idle.value.gen, t.idle.value.due) in h.timers)
            && (forall k :: k in t.away ==>
                  && SeatedAt(t.engine, t.away[k].user, k)
                  && exists due :: GraceTimer(k, t.away[k].user, t.away[k].since, due) in h.timers)
            && (t.emptySince.Some? ==>
                  t.emptySince.value in h.owed || exists due :: EmptyTimer(t.emptySince.value, due) in h.timers)
  {
    NewIsArmed(start);
    RunArmed(start, steps);
    var h := After(start, steps);
    hide After, Runs, New;
    assert Armed(h) && Backed(h);
    forall k | k in h.table.away
      ensures exists due :: GraceTimer(k, h.table.away[k].user, h.table.away[k].since, due) in h.timers
    {
      assert GraceFor(h.timers, k, h.table.away[k]);
    }
  }

  /** The timer a step fires. */
  function Firing(s: Step): Option<Timer> {
    match s
    case FireTurn(_, turn, due, _, _, _) => Some(TurnTimer(turn, due))
    case FireDeal(_, gen, due, _, _, _) => Some(DealTimer(gen, due))
    case FireIdle(_, gen, due, _) => Some(IdleTimer(gen, due))
    case FireGrace(_, seat, user, since, due, _, _, _, _) => Some(GraceTimer(seat, user, since, due))
    case FireEmpty(_, since, due, _, _) => Some(EmptyTimer(since, due))
    case _ => None
  }

  /** A timer whose stamp is not the one waited for changes nothing and sends nothing. */
  lemma StaleTimersDoNothing(h: Host, s: Step)
    requires Enabled(h, s) && Firing(s).Some? && !Live(h.table, Firing(s).value)
    ensures Next(h, s).table == h.table && Next(h, s).frames == h.frames && Next(h, s).owed == h.owed
  {
    hide Applied, Bumped, Fired, Lawful, NobodyNew;
  }
}
