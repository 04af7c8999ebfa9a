/**
 One card table behind its lock: the clocks it keeps, the timers it spawns and the
 frames it sends. Each function is one lock-holding section of the host.

 Timers are never cancelled: each carries the stamp it was made for.
 */
module GameTable {
  import opened GameEngine
  import opened Wrappers

  datatype Away = Away(user: int, since: int)

  datatype Clock = Clock(turn: int, due: int)

  datatype Alarm = Alarm(gen: nat, due: int)

  datatype Timer =
    | TurnTimer(turn: int, due: int)
    | DealTimer(gen: nat, due: int)
    | IdleTimer(gen: nat, due: int)
    | GraceTimer(seat: nat, user: int, since: int, due: int)
    | EmptyTimer(since: int, due: int)

  datatype Recipient = Recipient(user: int, conn: nat)

  /** `seat`: the recipient's own seat, which decides the view it is sent. */
  datatype Frame = Frame(conn: nat, version: nat, seat: Option<nat>, events: Option<seq<Event>>)

  datatype Table = Table(
    engine: Engine, version: nat, closed: bool, away: map<nat, Away>,
    clock: Option<Clock>, nextDeal: Option<Alarm>, idle: Option<Alarm>, gen: nat, emptySince: Option<int>)

  /**
   The table and what it has set going: pending timers, empty-call checks marked but
   not yet spawned, and every frame sent. Timers alike in everything are one entry,
   which may then fire more than once. `armed`: the clocks were brought in line once.
   */
  datatype Host = Host(table: Table, timers: set<Timer>, owed: set<int>, frames: seq<Frame>, armed: bool)

  // --- Bringing the timers in line -------------------------------------------------------

  /** A seat that emptied, or changed hands, is nobody's grace any more. */
  function Kept(away: map<nat, Away>, e: Engine): map<nat, Away> {
    map k | k in away && k in e.seats && e.seats[k].user == away[k].user :: away[k]
  }

  predicate NewDecision(e: Engine, clock: Option<Clock>) {
    e.turn.Some? && (clock.None? || clock.value.turn != e.turn.value)
  }

  function ClockFor(e: Engine, clock: Option<Clock>, now: int): Option<Clock> {
    if e.turn.None? then None
    else if NewDecision(e, clock) then Some(Clock(e.turn.value, now + e.turnClock))
    else clock
  }

  function TurnTimers(e: Engine, clock: Option<Clock>, now: int): set<Timer> {
    if NewDecision(e, clock) then {TurnTimer(e.turn.value, now + e.turnClock)} else {}
  }

  /** A deal wanted and not scheduled, or wanted sooner than scheduled. */
  predicate NewDeal(e: Engine, deal: Option<Alarm>, now: int) {
    var after := DealWanted(e);
    after.Some? && (deal.None? || now + after.value < deal.value.due)
  }

  function DealFor(e: Engine, deal: Option<Alarm>, gen: nat, now: int): Option<Alarm> {
    if DealWanted(e).None? then None
    else if NewDeal(e, deal, now) then Some(Alarm(gen + 1, now + DealWanted(e).value))
    else deal
  }

  function DealTimers(e: Engine, deal: Option<Alarm>, gen: nat, now: int): set<Timer> {
    if NewDeal(e, deal, now) then {DealTimer(gen + 1, now + DealWanted(e).value)} else {}
  }

  function GenAfterDeal(e: Engine, deal: Option<Alarm>, gen: nat, now: int): nat {
    if NewDeal(e, deal, now) then gen + 1 else gen
  }

  predicate NewIdle(e: Engine, idle: Option<Alarm>) { e.seats == map[] && idle.None? }

  function IdleFor(e: Engine, idle: Option<Alarm>, gen: nat, now: int): Option<Alarm> {
    if e.seats != map[] then None
    else if NewIdle(e, idle) then Some(Alarm(gen + 1, now + IDLE_LIMIT))
    else idle
  }

  function IdleTimers(e: Engine, idle: Option<Alarm>, gen: nat, now: int): set<Timer> {
    if NewIdle(e, idle) then {IdleTimer(gen + 1, now + IDLE_LIMIT)} else {}
  }

  function Schedule(t: Table, now: int): Table {
    var gen := GenAfterDeal(t.engine, t.nextDeal, t.gen, now);
    t.(away := Kept(t.away, t.engine), clock := ClockFor(t.engine, t.clock, now),
       nextDeal := DealFor(t.engine, t.nextDeal, t.gen, now),
       idle := IdleFor(t.engine, t.idle, gen, now),
       gen := if NewIdle(t.engine, t.idle) then gen + 1 else gen)
  }

  /** The pending timers with these spawned as well. */
  function Added(timers: set<Timer>, more: set<Timer>): set<Timer> { timers + more }

  lemma AddedHolds(timers: set<Timer>, more: set<Timer>)
    ensures forall x :: x in Added(timers, more) <==> x in timers || x in more
  {
  }

  /** The turn clock first, then the deal, then the idle close. */
  function WithSpawned(timers: set<Timer>, t: Table, now: int): set<Timer> {
    var turn := Added(timers, TurnTimers(t.engine, t.clock, now));
    var deal := Added(turn, DealTimers(t.engine, t.nextDeal, t.gen, now));
    Added(deal, IdleTimers(t.engine, t.idle, GenAfterDeal(t.engine, t.nextDeal, t.gen, now), now))
  }

  /** Running it again with the table as it is arms nothing and changes nothing. */
  lemma ScheduleTwice(t: Table, now: int, later: int)
    requires now <= later
    ensures Schedule(Schedule(t, now), later) == Schedule(t, now)
    ensures forall timers :: WithSpawned(timers, Schedule(t, now), later) == timers
  {
    var u := Schedule(t, now);
    assert Kept(u.away, u.engine) == u.away;
    assert !NewDecision(u.engine, u.clock) && !NewDeal(u.engine, u.nextDeal, later) && !NewIdle(u.engine, u.idle);
  }

  // --- Reporting ----------------------------------------------------------------------------

  ghost function FrameFor(t: Table, r: Recipient, events: Option<seq<Event>>): Frame {
    Frame(r.conn, t.version, SeatOf(t.engine, r.user), events)
  }

  ghost function FramesFor(t: Table, recips: seq<Recipient>, events: Option<seq<Event>>): (r: seq<Frame>)
    ensures |r| == |recips|
  {
    seq(|recips|, i requires 0 <= i < |recips| => FrameFor(t, recips[i], events))
  }

  ghost function Sent(h: Host, recips: seq<Recipient>, events: Option<seq<Event>>): Host {
    h.(frames := h.frames + FramesFor(h.table, recips, events))
  }

  ghost function Rescheduled(h: Host, now: int): Host {
    h.(table := Schedule(h.table, now), timers := WithSpawned(h.timers, h.table, now), armed := true)
  }

  ghost function NextVersion(h: Host, now: int): Host {
    Rescheduled(h.(table := h.table.(version := h.table.version + 1)), now)
  }

  /** The engine reported events: a no-op reports none, and then nothing is sent. */
  ghost function Applied(h: Host, events: seq<Event>, now: int, recips: seq<Recipient>): Host {
    if events == [] then h else Sent(NextVersion(h, now), recips, Some(events))
  }

  /** A change only the host knows about. */
  ghost function Bumped(h: Host, now: int, recips: seq<Recipient>): Host {
    Sent(NextVersion(h, now), recips, None)
  }

  // --- The sections ---------------------------------------------------------------------------

  ghost function WithEngine(h: Host, e: Engine): Host { h.(table := h.table.(engine := e)) }

  ghost function WithoutAway(h: Host, seat: nat): Host { h.(table := h.table.(away := h.table.away - {seat})) }

  /** The create arm's first section: it does not look at `closed`. */
  ghost function Opening(h: Host, now: int, recips: seq<Recipient>): Host {
    Sent(Rescheduled(h, now), recips, None)
  }

  ghost function OnTurnClock(h: Host, o: Outcome, now: int, recips: seq<Recipient>): Host {
    if h.table.closed then h
    else if o.ok then Applied(WithEngine(h, o.after), o.events, now, recips)
    else h
  }

  predicate DealDue(t: Table, gen: nat) { !t.closed && t.nextDeal.Some? && t.nextDeal.value.gen == gen }

  ghost function OnDealTimer(h: Host, gen: nat, o: Outcome, now: int, recips: seq<Recipient>): Host {
    if !DealDue(h.table, gen) then h
    else
      var g := h.(table := h.table.(nextDeal := None));
      if o.ok then Applied(WithEngine(g, o.after), o.events, now, recips) else Bumped(g, now, recips)
  }

  predicate IdleDue(t: Table, gen: nat) {
    !t.closed && t.idle.Some? && t.idle.value.gen == gen && t.engine.seats == map[]
  }

  function Closing(h: Host): Host { h.(table := h.table.(closed := true)) }

  function OnIdle(h: Host, gen: nat): Host {
    if IdleDue(h.table, gen) then Closing(h) else h
  }

  predicate GraceDue(t: Table, seat: nat, user: int, since: int) {
    !t.closed && seat in t.away && t.away[seat] == Away(user, since)
  }

  /** `back`: whether the user was in the call, read before the lock. */
  ghost function OnGrace(h: Host, seat: nat, user: int, since: int, back: bool, o: Outcome, now: int,
      recips: seq<Recipient>): Host {
    if !GraceDue(h.table, seat, user, since) then h
    else
      var g := WithoutAway(h, seat);
      if back then Bumped(g, now, recips)
      else if o.ok && o.events != [] then Applied(WithEngine(g, o.after), o.events, now, recips)
      else Bumped(WithEngine(g, o.after), now, recips)
  }

  predicate EmptyDue(t: Table, since: int) { !t.closed && t.emptySince == Some(since) }

  /** `occupied`: whether the call had members, read before the lock. */
  function OnEmptyCheck(h: Host, since: int, occupied: bool): Host {
    if !EmptyDue(h.table, since) then h
    else if occupied then h.(table := h.table.(emptySince := None))
    else Closing(h)
  }

  /** One user who left the call: the seat goes away, and its grace starts. */
  ghost function Departed(h: Host, user: int, now: int, grace: nat): Host {
    var seat := SeatOf(h.table.engine, user);
    if seat.None? || seat.value in h.table.away then h
    else h.(table := h.table.(away := h.table.away[seat.value := Away(user, now)]),
            timers := Added(h.timers, {GraceTimer(seat.value, user, now, now + grace)}))
  }

  ghost function AllDeparted(h: Host, gone: seq<int>, now: int, grace: nat): Host {
    if gone == [] then h else Departed(AllDeparted(h, gone[..|gone| - 1], now, grace), gone[|gone| - 1], now, grace)
  }

  /** `gone`: those of the departed that are not back, read before the lock. */
  ghost function OnDepartures(h: Host, gone: seq<int>, now: int, grace: nat, recips: seq<Recipient>): Host {
    if h.table.closed then h
    else
      var g := AllDeparted(h, gone, now, grace);
      if g == h then h else Bumped(g, now, recips)
  }

  /** The mark is made under the lock; the check is spawned after it is released. */
  function OnRoomEmptied(h: Host, now: int): Host {
    if h.table.closed then h
    else h.(table := h.table.(emptySince := Some(now)), owed := h.owed + {now})
  }

  function SpawnEmptyCheck(h: Host, since: int, due: int, last: bool): Host {
    h.(timers := Added(h.timers, {EmptyTimer(since, due)}), owed := if last then h.owed - {since} else h.owed)
  }

  predicate AwayAt(t: Table, seat: nat, user: int) { seat in t.away && t.away[seat].user == user }

  /** A seated user is back: the grace ends, or, not allowed to play any more, they get up. */
  ghost function Returned(g: Host, seat: nat, user: int, mayPlay: bool, o: Outcome, now: int,
      recips: seq<Recipient>): Host {
    var wasAway := AwayAt(g.table, seat, user);
    var back := if wasAway then WithoutAway(g, seat) else g;
    if mayPlay then (if wasAway then Bumped(back, now, recips) else back)
    else if o.ok && o.events != [] then Applied(WithEngine(back, o.after), o.events, now, recips)
    else if wasAway then Bumped(WithEngine(back, o.after), now, recips)
    else WithEngine(back, o.after)
  }

  /** `plays`: the connection shows games. `mayPlay`: the join's own permission answer. */
  ghost function OnJoin(h: Host, user: int, conn: nat, plays: bool, mayPlay: bool, o: Outcome, now: int,
                        recips: seq<Recipient>): Host {
    if h.table.closed then h
    else
      var f := h.(table := h.table.(emptySince := None));
      var g := if plays then Sent(f, [Recipient(user, conn)], None) else f;
      var seat := SeatOf(g.table.engine, user);
      if seat.None? then g else Returned(g, seat.value, user, mayPlay, o, now, recips)
  }

  /** Getting somebody up: the grace goes first, then the engine's answer is reported. */
  ghost function GetUp(h: Host, seat: nat, o: Outcome, now: int, recips: seq<Recipient>): Host {
    var g := WithoutAway(h, seat);
    if o.ok then Applied(WithEngine(g, o.after), o.events, now, recips) else g
  }

  ghost function StandUp(h: Host, user: int, o: Outcome, now: int, recips: seq<Recipient>): Host {
    if h.table.closed || SeatOf(h.table.engine, user).None? then h
    else GetUp(h, SeatOf(h.table.engine, user).value, o, now, recips)
  }

  /** `named`: who the asker meant; the seat may have changed hands. */
  ghost function RemovePlayer(h: Host, seat: nat, named: Option<int>, o: Outcome, now: int,
      recips: seq<Recipient>): Host {
    if h.table.closed || (named.Some? && !SeatedAt(h.table.engine, named.value, seat)) then h
    else GetUp(h, seat, o, now, recips)
  }

  /** What a player may ask for their own seat; `Act` says which games know the action. */
  datatype OwnOp =
    | Stand
    | Act(holdem: bool, blackjack: bool)
    | Bet
    | ClearBet
    | SitOut
    | SitIn
    | Rebuy
    | ShowCards

  /** The op against the game. */
  predicate Fits(kind: Kind, op: OwnOp) {
    match op
    case Act(holdem, blackjack) => if kind.Holdem? then holdem else blackjack
    case Bet => kind.Blackjack?
    case ClearBet => kind.Blackjack?
    case ShowCards => kind.Holdem?
    case _ => true
  }

  /** Sitting down, and every act on one's own seat but standing up. */
  ghost function EngineCall(h: Host, o: Outcome, now: int, recips: seq<Recipient>): Host {
    if h.table.closed || !o.ok then h else Applied(WithEngine(h, o.after), o.events, now, recips)
  }

  /** The game first, then the seat, then the engine. */
  ghost function OwnSeat(h: Host, user: int, op: OwnOp, o: Outcome, now: int, recips: seq<Recipient>): Host {
    var seat := SeatOf(h.table.engine, user);
    if h.table.closed || !Fits(h.table.engine.kind, op) || seat.None? then h
    else if op.Stand? then GetUp(h, seat.value, o, now, recips)
    else EngineCall(h, o, now, recips)
  }

  ghost function Resync(h: Host, user: int, conn: nat): Host {
    if h.table.closed then h else Sent(h, [Recipient(user, conn)], None)
  }

  function MarkClosed(h: Host): Host { if h.table.closed then h else Closing(h) }

  // --- The same, as the host does it -------------------------------------------------------

  class TableCell {
    var engine: Engine
    var version: nat
    var closed: bool
    var away: map<nat, Away>
    var clock: Option<Clock>
    var nextDeal: Option<Alarm>
    var idle: Option<Alarm>
    var gen: nat
    var emptySince: Option<int>
    var timers: set<Timer>
    var owed: set<int>
    var frames: seq<Frame>
    var armed: bool

    function State(): Host
      reads this
    {
      Host(Table(engine, version, closed, away, clock, nextDeal, idle, gen, emptySince), timers, owed, frames, armed)
    }

    method ScheduleTurn(now: int)
      modifies this`clock, this`timers
      ensures clock == ClockFor(engine, old(clock), now)
      ensures timers == Added(old(timers), TurnTimers(engine, old(clock), now))
    {
      if engine.turn.Some? {
        var turn := engine.turn.value;
        if clock.None? || clock.value.turn != turn {
          clock := Some(Clock(turn, now + engine.turnClock));
          timers := timers + {TurnTimer(turn, now + engine.turnClock)};
        }
      } else {
        clock := None;
      }
    }

    method ScheduleDeal(now: int)
      modifies this`nextDeal, this`gen, this`timers
      ensures nextDeal == DealFor(engine, old(nextDeal), old(gen), now)
      ensures gen == GenAfterDeal(engine, old(nextDeal), old(gen), now)
      ensures timers == Added(old(timers), DealTimers(engine, old(nextDeal), old(gen), now))
    {
      var after := DealWanted(engine);
      if after.Some? {
        if nextDeal.None? || now + after.value < nextDeal.value.due {
          gen := gen + 1;
          nextDeal := Some(Alarm(gen, now + after.value));
          timers := timers + {DealTimer(gen, now + after.value)};
        }
      } else {
        nextDeal := None;
      }
    }

    method ScheduleIdle(now: int)
      modifies this`idle, this`gen, this`timers
      ensures idle == IdleFor(engine, old(idle), old(gen), now)
      ensures gen == if NewIdle(engine, old(idle)) then old(gen) + 1 else old(gen)
      ensures timers == Added(old(timers), IdleTimers(engine, old(idle), old(gen), now))
    {
      if engine.seats == map[] {
        if idle.None? {
          gen := gen + 1;
          idle := Some(Alarm(gen, now + IDLE_LIMIT));
          timers := timers + {IdleTimer(gen, now + IDLE_LIMIT)};
        }
      } else {
        idle := None;
      }
    }

    method ScheduleClocks(now: int)
      modifies this`away, this`clock, this`nextDeal, this`idle, this`gen, this`timers, this`armed
      ensures State() == Rescheduled(old(State()), now)
    {
      hide DealFor, DealTimers, ClockFor, TurnTimers, IdleFor, IdleTimers, NewDeal, NewIdle, GenAfterDeal, Added, Kept;
      RetainAway();
      ScheduleTurn(now);
      ScheduleDeal(now);
      ScheduleIdle(now);
      armed := true;
    }

    method RetainAway()
      modifies this`away
      ensures away == Kept(old(away), engine)
    {
      away := map k | k in away && k in engine.seats && engine.seats[k].user == away[k].user :: away[k];
    }

    method FindSeat(user: int) returns (seat: Option<nat>)
      requires Sane(engine)
      ensures seat == SeatOf(engine, user)
    {
      if k: nat :| k in engine.seats && engine.seats[k].user == user {
        TheSeat(engine, user, k);
        seat := Some(k);
      } else {
        assert !Seated(engine, user);
        seat := None;
      }
    }

    method Send(recips: seq<Recipient>, events: Option<seq<Event>>)
      requires Sane(engine)
      modifies this`frames
      ensures State() == Sent(old(State()), recips, events)
    {
      ghost var t := State().table;
      for i := 0 to |recips|
        invariant State().table == t && timers == old(timers) && owed == old(owed) && armed == old(armed)
        invariant frames == old(frames) + FramesFor(t, recips, events)[..i]
      {
        var seat := FindSeat(recips[i].user);
        frames := frames + [Frame(recips[i].conn, version, seat, events)];
        ghost var all := FramesFor(t, recips, events);
        assert all[..i + 1] == all[..i] + [all[i]];
      }
      assert FramesFor(t, recips, events)[..|recips|] == FramesFor(t, recips, events);
    }

    method Apply(events: seq<Event>, now: int, recips: seq<Recipient>)
      requires Sane(engine)
      modifies this
      ensures State() == Applied(old(State()), events, now, recips)
    {
      hide Sent, Rescheduled;
      if events == [] {
        return;
      }
      version := version + 1;
      ScheduleClocks(now);
      Send(recips, Some(events));
    }

    method Bump(now: int, recips: seq<Recipient>)
      requires Sane(engine)
      modifies this
      ensures State() == Bumped(old(State()), now, recips)
    {
      hide Sent, Rescheduled;
      version := version + 1;
      ScheduleClocks(now);
      Send(recips, None);
    }

    method TurnClockRanOut(turn: int, o: Outcome, now: int, recips: seq<Recipient>)
      requires Sane(engine) && TimeoutLawful(engine, turn, o)
      modifies this
      ensures State() == OnTurnClock(old(State()), o, now, recips)
    {
      if closed {
        return;
      }
      engine := o.after;
      if o.ok {
        Apply(o.events, now, recips);
      }
    }

    method DealIsDue(alarm: nat, o: Outcome, now: int, recips: seq<Recipient>)
      requires Sane(engine) && DealLawful(engine, o)
      modifies this
      ensures State() == OnDealTimer(old(State()), alarm, o, now, recips)
    {
      if closed || nextDeal.None? || nextDeal.value.gen != alarm {
        return;
      }
      nextDeal := None;
      engine := o.after;
      if o.ok {
        Apply(o.events, now, recips);
      } else {
        Bump(now, recips);
      }
    }

    method IdleRanOut(alarm: nat) returns (closing: bool)
      modifies this
      ensures State() == OnIdle(old(State()), alarm) && (closing <==> !old(closed) && closed)
    {
      if closed || idle.None? || idle.value.gen != alarm || engine.seats != map[] {
        return false;
      }
      closed := true;
      closing := true;
    }

    method GraceRanOut(seat: nat, user: int, since: int, back: bool, o: Outcome, now: int, recips: seq<Recipient>)
      requires Sane(engine) && LeaveLawful(engine, seat, o)
      modifies this
      ensures State() == OnGrace(old(State()), seat, user, since, back, o, now, recips)
    {
      if closed || seat !in away || away[seat] != Away(user, since) {
        return;
      }
      away := away - {seat};
      if back {
        Bump(now, recips);
        return;
      }
      engine := o.after;
      if o.ok && o.events != [] {
        Apply(o.events, now, recips);
      } else {
        Bump(now, recips);
      }
    }

    method EmptyCheck(since: int, occupied: bool) returns (closing: bool)
      modifies this
      ensures State() == OnEmptyCheck(old(State()), since, occupied) && (closing <==> !old(closed) && closed)
    {
      if closed || emptySince != Some(since) {
        return false;
      }
      if occupied {
        emptySince := None;
        return false;
      }
      closed := true;
      closing := true;
    }

    method Departures(gone: seq<int>, now: int, grace: nat, recips: seq<Recipient>)
      requires Sane(engine)
      modifies this
      ensures State() == OnDepartures(old(State()), gone, now, grace, recips)
    {
      if closed {
        return;
      }
      ghost var was := State();
      var changed := false;
      for i := 0 to |gone|
        invariant engine == old(engine) && State() == AllDeparted(was, gone[..i], now, grace)
        invariant changed <==> State() != was
        invariant was.table.away.Keys <= away.Keys
        invariant changed ==> away.Keys != was.table.away.Keys
      {
        assert gone[..i + 1][..i] == gone[..i];
        var seat := FindSeat(gone[i]);
        if seat.Some? {
          if seat.value !in away {
            away := away[seat.value := Away(gone[i], now)];
            timers := timers + {GraceTimer(seat.value, gone[i], now, now + grace)};
            changed := true;
          }
        }
      }
      assert gone[..|gone|] == gone;
      if changed {
        Bump(now, recips);
      }
    }

    method RoomEmptied(now: int)
      modifies this
      ensures State() == OnRoomEmptied(old(State()), now)
    {
      if closed {
        return;
      }
      emptySince := Some(now);
      owed := owed + {now};
    }

    method Joined(user: int, conn: nat, plays: bool, mayPlay: bool, o: Outcome, now: int, recips: seq<Recipient>)
      requires Sane(engine) && (SeatOf(engine, user).Some? ==> LeaveLawful(engine, SeatOf(engine, user).value, o))
      modifies this
      ensures State() == OnJoin(old(State()), user, conn, plays, mayPlay, o, now, recips)
    {
      hide Sent, Returned, Sane;
      if closed {
        return;
      }
      emptySince := None;
      if plays {
        Send([Recipient(user, conn)], None);
      }
      var seat := FindSeat(user);
      if seat.None? {
        return;
      }
      ComeBack(seat.value, user, mayPlay, o, now, recips);
    }

    method ComeBack(seat: nat, user: int, mayPlay: bool, o: Outcome, now: int, recips: seq<Recipient>)
      requires Sane(engine) && Sane(o.after)
      modifies this
      ensures State() == Returned(old(State()), seat, user, mayPlay, o, now, recips)
    {
      hide Applied, Bumped, Sane;
      var wasAway := seat in away && away[seat].user == user;
      if wasAway {
        away := away - {seat};
      }
      if !mayPlay {
        engine := o.after;
        if o.ok && o.events != [] {
          Apply(o.events, now, recips);
        } else if wasAway {
          Bump(now, recips);
        }
      } else if wasAway {
        Bump(now, recips);
      }
    }

    method MakeStandUp(user: int, o: Outcome, now: int, recips: seq<Recipient>) returns (stood: bool)
      requires Sane(engine) && (SeatOf(engine, user).Some? ==> LeaveLawful(engine, SeatOf(engine, user).value, o))
      modifies this
      ensures State() == StandUp(old(State()), user, o, now, recips)
      ensures stood <==> !old(closed) && SeatOf(old(engine), user).Some? && o.ok
    {
      if closed {
        return false;
      }
      var seat := FindSeat(user);
      if seat.None? {
        return false;
      }
      away := away - {seat.value};
      if !o.ok {
        return false;
      }
      engine := o.after;
      Apply(o.events, now, recips);
      stood := true;
    }

    /** Asked about one person; the seat may have changed hands before the answer. */
    method PlayerRemoved(seat: nat, named: Option<int>, o: Outcome, now: int, recips: seq<Recipient>)
      requires Sane(engine) && LeaveLawful(engine, seat, o)
      modifies this
      ensures State() == RemovePlayer(old(State()), seat, named, o, now, recips)
    {
      if closed {
        return;
      }
      if named.Some? && !(seat in engine.seats && engine.seats[seat].user == named.value) {
        return;
      }
      away := away - {seat};
      if o.ok {
        engine := o.after;
        Apply(o.events, now, recips);
      }
    }

    method SatDown(o: Outcome, now: int, recips: seq<Recipient>)
      requires Sane(engine) && Lawful(engine, o)
      modifies this
      ensures State() == EngineCall(old(State()), o, now, recips)
    {
      if !closed && o.ok {
        engine := o.after;
        Apply(o.events, now, recips);
      }
    }

    method OwnSeatOp(user: int, op: OwnOp, o: Outcome, now: int, recips: seq<Recipient>)
      requires Sane(engine) && Lawful(engine, o)
      modifies this
      ensures State() == OwnSeat(old(State()), user, op, o, now, recips)
    {
      hide Applied, Lawful;
      if closed || !Fits(engine.kind, op) {
        return;
      }
      var seat := FindSeat(user);
      if seat.None? {
        return;
      }
      if op.Stand? {
        away := away - {seat.value};
      }
      if o.ok {
        engine := o.after;
        LawfulIsSane(old(engine), o);
        Apply(o.events, now, recips);
      }
    }

    lemma LawfulIsSane(e: Engine, o: Outcome)
      requires Lawful(e, o)
      ensures Sane(o.after)
    {
    }

    method ResyncOne(user: int, conn: nat)
      requires Sane(engine)
      modifies this`frames
      ensures State() == Resync(old(State()), user, conn)
    {
      if !closed {
        Send([Recipient(user, conn)], None);
      }
    }

    method OpenTable(now: int, recips: seq<Recipient>)
      requires Sane(engine)
      modifies this
      ensures State() == Opening(old(State()), now, recips)
    {
      hide Sent, Rescheduled;
      ScheduleClocks(now);
      Send(recips, None);
    }

    method MarkedClosed() returns (closing: bool)
      modifies this`closed
      ensures State() == MarkClosed(old(State())) && (closing <==> !old(closed))
    {
      closing := !closed;
      closed := true;
    }
  }
}
