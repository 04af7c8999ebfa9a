/** Deadlines: what one step does to the clocks, and what that means for whoever waits. */
module GameDeadlines {
  import opened GameEngine
  import opened GameTable
  import opened GameRuns
  import opened Wrappers

  // --- What one step does to the clocks -----------------------------------------------------

  /** The engine after any lawful call, or none. */
  ghost predicate Moved(e: Engine, f: Engine) {
    && Sane(f) && e.asked <= f.asked
    && (f.turn == e.turn || f.turn.None? || f.turn.value !in e.asked)
  }

  /** Scheduled on the way from `t` to `u`, at `now`; `deal` is the deal that stood before. */
  predicate Brought(t: Table, u: Table, deal: Option<Alarm>, now: int) {
    && u.clock == ClockFor(u.engine, t.clock, now)
    && u.nextDeal == DealFor(u.engine, deal, t.gen, now)
  }

  /** Either the version moved on and the clocks were brought in line, or neither. */
  predicate OneMove(t: Table, u: Table, deal: Option<Alarm>, now: int) {
    || (u.version == t.version && u.clock == t.clock && u.nextDeal == t.nextDeal)
    || (u.version == t.version + 1 && Brought(t, u, deal, now))
  }

  function NowOf(s: Step): int {
    match s
    case Open(now, _) => now
    case FireTurn(_, _, _, _, now, _) => now
    case FireDeal(_, _, _, _, now, _) => now
    case FireIdle(_, _, _, now) => now
    case FireGrace(_, _, _, _, _, _, _, now, _) => now
    case FireEmpty(_, _, _, _, now) => now
    case Depart(_, _, now, _) => now
    case Emptied(now) => now
    case SpawnCheck(_, _, _) => 0
    case Join(_, _, _, _, _, now, _) => now
    case GetThemUp(_, _, now, _) => now
    case Remove(_, _, _, now, _) => now
    case Sit(_, _, _, now, _) => now
    case Own(_, _, _, now, _) => now
    case Ask(_, _) => 0
    case Close => 0
  }

  predicate DealsNow(h: Host, s: Step) { s.FireDeal? && DealDue(h.table, s.gen) }

  lemma NextVersionMoves(h: Host, now: int, recips: seq<Recipient>, events: seq<Event>)
    ensures Bumped(h, now, recips).table == Schedule(h.table.(version := h.table.version + 1), now)
    ensures events != [] ==>
              Applied(h, events, now, recips).table == Schedule(h.table.(version := h.table.version + 1), now)
    ensures events == [] ==> Applied(h, events, now, recips) == h
  {
    hide Schedule, WithSpawned, FramesFor;
  }

  lemma ScheduleBrings(t: Table, u: Table, now: int)
    requires u.gen == t.gen && u.clock == t.clock && u.version == t.version
    ensures var v := Schedule(u.(version := u.version + 1), now);
            v.version == t.version + 1 && v.engine == u.engine && Brought(t, v, u.nextDeal, now)
  {
    hide ClockFor, DealFor;
  }

  lemma BumpMoves(t: Table, h: Host, now: int, recips: seq<Recipient>)
    requires h.table.gen == t.gen && h.table.clock == t.clock && h.table.version == t.version
    ensures var u := Bumped(h, now, recips).table;
            u.engine == h.table.engine && u.version == t.version + 1 && Brought(t, u, h.table.nextDeal, now)
  {
    NextVersionMoves(h, now, recips, []);
    ScheduleBrings(t, h.table, now);
    hide Bumped, Schedule, Brought;
  }

  lemma ApplyMoves(t: Table, h: Host, events: seq<Event>, now: int, recips: seq<Recipient>)
    requires h.table.gen == t.gen && h.table.clock == t.clock && h.table.version == t.version
    ensures var u := Applied(h, events, now, recips).table;
            && u.engine == h.table.engine
            && (events == [] ==> u == h.table)
            && (events != [] ==> u.version == t.version + 1 && Brought(t, u, h.table.nextDeal, now))
  {
    NextVersionMoves(h, now, recips, events);
    ScheduleBrings(t, h.table, now);
    hide Applied, Schedule, Brought;
  }

  lemma LawfulMoves(e: Engine, o: Outcome)
    requires Lawful(e, o)
    ensures Moved(e, o.after)
  {
  }

  lemma GetUpMoves(h: Host, seat: nat, o: Outcome, now: int, recips: seq<Recipient>)
    requires Sane(h.table.engine) && Lawful(h.table.engine, o)
    ensures var u := GetUp(h, seat, o, now, recips).table;
            Moved(h.table.engine, u.engine) && OneMove(h.table, u, h.table.nextDeal, now)
  {
    LawfulMoves(h.table.engine, o);
    hide Applied, Brought, Lawful;
    ApplyMoves(h.table, WithEngine(WithoutAway(h, seat), o.after), o.events, now, recips);
  }

  lemma CallMoves(h: Host, o: Outcome, now: int, recips: seq<Recipient>)
    requires Sane(h.table.engine) && Lawful(h.table.engine, o)
    ensures var u := EngineCall(h, o, now, recips).table;
            Moved(h.table.engine, u.engine) && OneMove(h.table, u, h.table.nextDeal, now)
  {
    LawfulMoves(h.table.engine, o);
    hide Applied, Brought, Lawful;
    ApplyMoves(h.table, WithEngine(h, o.after), o.events, now, recips);
  }

  lemma SentMoves(h: Host, recips: seq<Recipient>, events: Option<seq<Event>>)
    ensures Sent(h, recips, events).table == h.table
  {
  }

  lemma ReturnMoves(t: Table, g: Host, seat: nat, user: int, mayPlay: bool, o: Outcome, now: int,
      recips: seq<Recipient>)
    requires Sane(t.engine) && LeaveLawful(t.engine, seat, o) && g.table == t.(emptySince := None)
    ensures var u := Returned(g, seat, user, mayPlay, o, now, recips).table;
            Moved(t.engine, u.engine) && OneMove(t, u, t.nextDeal, now)
  {
    LawfulMoves(t.engine, o);
    hide Applied, Bumped, Brought, Lawful, NobodyNew;
    var back := if AwayAt(g.table, seat, user) then WithoutAway(g, seat) else g;
    ApplyMoves(t, WithEngine(back, o.after), o.events, now, recips);
    BumpMoves(t, WithEngine(back, o.after), now, recips);
    BumpMoves(t, back, now, recips);
  }

  lemma JoinMoves(h: Host, user: int, conn: nat, plays: bool, mayPlay: bool, o: Outcome, now: int,
      recips: seq<Recipient>)
    requires Sane(h.table.engine) && SeatLeaves(h.table.engine, user, o)
    ensures var u := OnJoin(h, user, conn, plays, mayPlay, o, now, recips).table;
            Moved(h.table.engine, u.engine) && OneMove(h.table, u, h.table.nextDeal, now)
  {
    hide Returned, Brought, Sent, LeaveLawful;
    var t := h.table;
    if !t.closed {
      var f := h.(table := t.(emptySince := None));
      SentMoves(f, [Recipient(user, conn)], None);
      var g := if plays then Sent(f, [Recipient(user, conn)], None) else f;
      var seat := SeatOf(g.table.engine, user);
      if seat.Some? {
        ReturnMoves(t, g, seat.value, user, mayPlay, o, now, recips);
      }
    }
  }

  lemma {:induction false} DepartedMoves(h: Host, gone: seq<int>, now: int, grace: nat)
    ensures var u := AllDeparted(h, gone, now, grace).table;
            u == h.table.(away := u.away)
  {
    hide Added, SeatOf;
    if gone != [] {
      DepartedMoves(h, gone[..|gone| - 1], now, grace);
    }
  }

  lemma DepartMoves(h: Host, gone: seq<int>, now: int, grace: nat, recips: seq<Recipient>)
    requires Sane(h.table.engine)
    ensures var u := OnDepartures(h, gone, now, grace, recips).table;
            Moved(h.table.engine, u.engine) && OneMove(h.table, u, h.table.nextDeal, now)
  {
    DepartedMoves(h, gone, now, grace);
    hide AllDeparted, Bumped, Brought;
    BumpMoves(h.table, AllDeparted(h, gone, now, grace), now, recips);
  }

  lemma TurnClockMoves(h: Host, o: Outcome, now: int, recips: seq<Recipient>)
    requires Sane(h.table.engine) && Lawful(h.table.engine, o)
    ensures var u := OnTurnClock(h, o, now, recips).table;
            Moved(h.table.engine, u.engine) && OneMove(h.table, u, h.table.nextDeal, now)
  {
    LawfulMoves(h.table.engine, o);
    hide Applied, Brought, Lawful;
    ApplyMoves(h.table, WithEngine(h, o.after), o.events, now, recips);
  }

  lemma DealMoves(h: Host, gen: nat, o: Outcome, now: int, recips: seq<Recipient>)
    requires Sane(h.table.engine) && DealLawful(h.table.engine, o)
    ensures var (u, due) := (OnDealTimer(h, gen, o, now, recips).table, DealDue(h.table, gen));
            && Moved(h.table.engine, u.engine)
            && OneMove(h.table, u, if due then None else h.table.nextDeal, now)
            && (due ==> u.version == h.table.version + 1)
  {
    LawfulMoves(h.table.engine, o);
    hide Applied, Bumped, Brought, Lawful, NobodyNew;
    var g := h.(table := h.table.(nextDeal := None));
    ApplyMoves(h.table, WithEngine(g, o.after), o.events, now, recips);
    BumpMoves(h.table, g, now, recips);
  }

  lemma GraceMoves(
    h: Host, seat: nat, user: int, since: int, back: bool, o: Outcome, now: int, recips: seq<Recipient>)
    requires Sane(h.table.engine) && Lawful(h.table.engine, o)
    ensures var u := OnGrace(h, seat, user, since, back, o, now, recips).table;
            Moved(h.table.engine, u.engine) && OneMove(h.table, u, h.table.nextDeal, now)
  {
    LawfulMoves(h.table.engine, o);
    hide Applied, Bumped, Brought, Lawful;
    var g := WithoutAway(h, seat);
    ApplyMoves(h.table, WithEngine(g, o.after), o.events, now, recips);
    BumpMoves(h.table, WithEngine(g, o.after), now, recips);
    BumpMoves(h.table, g, now, recips);
  }

  lemma FireMoves(h: Host, s: Step)
    requires Sane(h.table.engine) && Enabled(h, s)
    requires s.FireTurn? || s.FireDeal? || s.FireIdle? || s.FireGrace? || s.FireEmpty?
    ensures var u := Next(h, s).table;
            && Moved(h.table.engine, u.engine)
            && OneMove(h.table, u, if DealsNow(h, s) then None else h.table.nextDeal, NowOf(s))
            && (DealsNow(h, s) ==> u.version == h.table.version + 1)
  {
    hide OnTurnClock, OnDealTimer, OnGrace, Brought, Lawful, NobodyNew, Fired;
    match s
    case FireTurn(last, turn, due, o, now, recips) =>
      TurnClockMoves(Fired(h, TurnTimer(turn, due), last), o, now, recips);
    case FireDeal(last, gen, due, o, now, recips) =>
      DealMoves(Fired(h, DealTimer(gen, due), last), gen, o, now, recips);
    case FireGrace(last, seat, user, since, due, back, o, now, recips) =>
      GraceMoves(Fired(h, GraceTimer(seat, user, since, due), last), seat, user, since, back, o, now, recips);
    case FireIdle(_, _, _, _) =>
    case FireEmpty(_, _, _, _, _) =>
  }

  /** Every step but the opening either moves the version by one and schedules, or leaves both alone. */
  lemma StepMoves(h: Host, s: Step)
    requires Sane(h.table.engine) && Enabled(h, s) && !s.Open?
    ensures var u := Next(h, s).table;
            && Moved(h.table.engine, u.engine)
            && OneMove(h.table, u, if DealsNow(h, s) then None else h.table.nextDeal, NowOf(s))
            && (DealsNow(h, s) ==> u.version == h.table.version + 1)
  {
    hide Brought, GetUp, EngineCall, OnJoin, OnDepartures, Sent, Lawful, NobodyNew, OnTurnClock, OnDealTimer, OnIdle,
         OnGrace, OnEmptyCheck;
    match s
    case Depart(gone, grace, now, recips) => DepartMoves(h, gone, now, grace, recips);
    case Join(user, conn, plays, mayPlay, o, now, recips) => JoinMoves(h, user, conn, plays, mayPlay, o, now, recips);
    case GetThemUp(user, o, now, recips) =>
      var seat := SeatOf(h.table.engine, user);
      if seat.Some? { GetUpMoves(h, seat.value, o, now, recips); }
    case Remove(seat, named, o, now, recips) => GetUpMoves(h, seat, o, now, recips);
    case Sit(seat, user, o, now, recips) => CallMoves(h, o, now, recips);
    case Own(user, op, o, now, recips) =>
      var seat := SeatOf(h.table.engine, user);
      if seat.Some? { GetUpMoves(h, seat.value, o, now, recips); }
      CallMoves(h, o, now, recips);
    case Ask(user, conn) => SentMoves(h, [Recipient(user, conn)], None);
    case Emptied(_) =>
    case SpawnCheck(_, _, _) =>
    case Close =>
    case _ => FireMoves(h, s);
  }

  lemma OpenMoves(h: Host, s: Step)
    requires Sane(h.table.engine) && s.Open?
    ensures var u := Next(h, s).table;
            && u.engine == h.table.engine && u.version == h.table.version
            && Brought(h.table, u, h.table.nextDeal, NowOf(s))
  {
    SentMoves(Rescheduled(h, s.now), s.recips, None);
    hide Sent, ClockFor, DealFor, WithSpawned;
  }

  // --- Decisions -----------------------------------------------------------------------------

  /** The decision keeps its deadline, or is over for good. */
  ghost predicate Settled(c: Clock, t: Table) {
    && c.turn in t.engine.asked
    && (t.clock == Some(c) || (t.engine.turn != Some(c.turn) && (t.clock.None? || t.clock.value.turn != c.turn)))
  }

  lemma StepSettled(h: Host, s: Step, c: Clock)
    requires Sane(h.table.engine) && Enabled(h, s) && Settled(c, h.table)
    ensures Sane(Next(h, s).table.engine) && Settled(c, Next(h, s).table)
  {
    if s.Open? {
      OpenMoves(h, s);
    } else {
      StepMoves(h, s);
    }
    hide Next, Enabled, DealFor;
  }

  /**
   A decision's deadline is fixed once: whatever happens while it is waited for - sits,
   departures, joins, resyncs, moderation - it runs out when it was first going to.
   */
  lemma {:induction false} DecisionDeadlineIsFixed(h: Host, steps: seq<Step>, c: Clock)
    requires Sane(h.table.engine) && Runs(h, steps)
    requires Settled(c, h.table)
    ensures Sane(After(h, steps).table.engine) && Settled(c, After(h, steps).table)
    ensures var later := After(h, steps).table.clock;
            later.Some? && later.value.turn == c.turn ==> later.value.due == c.due
    decreases |steps|
  {
    hide Next, Enabled;
    if steps != [] {
      StepSettled(h, steps[0], c);
      DecisionDeadlineIsFixed(Next(h, steps[0]), steps[1..], c);
    }
  }

  /** The clock a table shows is such a decision. */
  lemma ShownClockIsSettled(t: Table, c: Clock)
    requires Sane(t.engine) && t.clock == Some(c) && t.engine.turn == Some(c.turn)
    ensures Settled(c, t)
  {
  }

  // --- Deals ---------------------------------------------------------------------------------

  /** The wait goes on: a deal is scheduled after every step, and none of them is the deal itself. */
  ghost predicate StillWaiting(h: Host, steps: seq<Step>)
    requires Runs(h, steps)
    decreases |steps|
  {
    h.table.nextDeal.Some? && (steps != [] ==> !DealsNow(h, steps[0]) && StillWaiting(Next(h, steps[0]), steps[1..]))
  }

  lemma StepDealNoLater(h: Host, s: Step)
    requires Sane(h.table.engine) && Enabled(h, s) && !DealsNow(h, s)
    requires h.table.nextDeal.Some? && Next(h, s).table.nextDeal.Some?
    ensures Sane(Next(h, s).table.engine)
    ensures Next(h, s).table.nextDeal.value.due <= h.table.nextDeal.value.due
  {
    if s.Open? {
      OpenMoves(h, s);
    } else {
      StepMoves(h, s);
    }
    hide Next, Enabled, ClockFor, DealWanted, Sane;
  }

  /** While a deal stays wanted its deadline never moves later. */
  lemma {:induction false} DealNeverLater(h: Host, steps: seq<Step>)
    requires Sane(h.table.engine) && Runs(h, steps) && StillWaiting(h, steps)
    ensures After(h, steps).table.nextDeal.Some?
    ensures After(h, steps).table.nextDeal.value.due <= h.table.nextDeal.value.due
    decreases |steps|
  {
    hide Next, Enabled, DealsNow;
    if steps != [] {
      StepDealNoLater(h, steps[0]);
      DealNeverLater(Next(h, steps[0]), steps[1..]);
    }
  }

  /** A deal newly wanted is due within the bet window. */
  lemma NewDealIsSoon(h: Host, s: Step)
    requires Sane(h.table.engine) && Enabled(h, s)
    requires (h.table.nextDeal.None? || DealsNow(h, s)) && Next(h, s).table.nextDeal.Some?
    ensures Sane(Next(h, s).table.engine)
    ensures Next(h, s).table.nextDeal.value.due <= NowOf(s) + BET_WINDOW
  {
    if s.Open? {
      OpenMoves(h, s);
    } else {
      StepMoves(h, s);
    }
    hide Next, Enabled, ClockFor;
  }

  /**
   The first bettor waits at most the bet window: from the bet that made a deal wanted,
   however the table changes while it stays wanted, the deal is due no later than that.
   */
  lemma FirstBettorWaits(h: Host, bet: Step, steps: seq<Step>)
    requires Sane(h.table.engine) && Enabled(h, bet) && h.table.nextDeal.None?
    requires Runs(Next(h, bet), steps) && StillWaiting(Next(h, bet), steps)
    ensures After(Next(h, bet), steps).table.nextDeal.Some?
    ensures After(Next(h, bet), steps).table.nextDeal.value.due <= NowOf(bet) + BET_WINDOW
  {
    hide Next, Enabled, DealsNow;
    NewDealIsSoon(h, bet);
    DealNeverLater(Next(h, bet), steps);
  }
}
