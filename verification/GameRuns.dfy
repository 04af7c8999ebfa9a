/**
 Runs of one table: every section of the host, in any order, with any pending timer
 firing at any moment once it is due, and any lawful answer from the engine.
 */
module GameRuns {
  import opened GameEngine
  import opened GameTable
  import opened Wrappers

  datatype Step =
    | Open(now: int, recips: seq<Recipient>)
    | FireTurn(last: bool, turn: int, due: int, o: Outcome, now: int, recips: seq<Recipient>)
    | FireDeal(last: bool, gen: nat, due: int, o: Outcome, now: int, recips: seq<Recipient>)
    | FireIdle(last: bool, gen: nat, due: int, now: int)
    | FireGrace(last: bool, seat: nat, user: int, since: int, due: int, back: bool, o: Outcome, now: int,
        recips: seq<Recipient>)
    | FireEmpty(last: bool, since: int, due: int, occupied: bool, now: int)
    | Depart(gone: seq<int>, grace: nat, now: int, recips: seq<Recipient>)
    | Emptied(now: int)
    | SpawnCheck(last: bool, since: int, due: int)
    | Join(user: int, conn: nat, plays: bool, mayPlay: bool, o: Outcome, now: int, recips: seq<Recipient>)
    | GetThemUp(user: int, o: Outcome, now: int, recips: seq<Recipient>)
    | Remove(seat: nat, named: Option<int>, o: Outcome, now: int, recips: seq<Recipient>)
    | Sit(seat: nat, user: int, o: Outcome, now: int, recips: seq<Recipient>)
    | Own(user: int, op: OwnOp, o: Outcome, now: int, recips: seq<Recipient>)
    | Ask(user: int, conn: nat)
    | Close

  /** The connections of a call are told apart. */
  predicate Distinct(recips: seq<Recipient>) {
    forall i, j :: 0 <= i < j < |recips| ==> recips[i].conn != recips[j].conn
  }

  ghost predicate OwnLawful(e: Engine, user: int, op: OwnOp, o: Outcome) {
    if op.Stand? && SeatOf(e, user).Some? then LeaveLawful(e, SeatOf(e, user).value, o) else ActLawful(e, o)
  }

  ghost predicate SeatLeaves(e: Engine, user: int, o: Outcome) {
    SeatOf(e, user).Some? ==> LeaveLawful(e, SeatOf(e, user).value, o)
  }

  /**
   `last`: no other timer alike is pending. A timer fires once due; the engine keeps its contract; the
   recipients are read before the lock.
   */
  ghost predicate Enabled(h: Host, s: Step) {
    var e := h.table.engine;
    match s
    case Open(_, recips) => Distinct(recips)
    case FireTurn(last, turn, due, o, now, recips) =>
      TurnTimer(turn, due) in h.timers && due <= now && TimeoutLawful(e, turn, o) && Distinct(recips)
    case FireDeal(last, gen, due, o, now, recips) =>
      DealTimer(gen, due) in h.timers && due <= now && DealLawful(e, o) && Distinct(recips)
    case FireIdle(last, gen, due, now) => IdleTimer(gen, due) in h.timers && due <= now
    case FireGrace(last, seat, user, since, due, _, o, now, recips) =>
      GraceTimer(seat, user, since, due) in h.timers && due <= now && LeaveLawful(e, seat, o) && Distinct(recips)
    case FireEmpty(last, since, due, _, now) => EmptyTimer(since, due) in h.timers && due <= now
    case Depart(_, _, _, recips) => Distinct(recips)
    case Emptied(_) => true
    case SpawnCheck(_, since, _) => since in h.owed
    case Join(user, _, _, _, o, _, recips) => SeatLeaves(e, user, o) && Distinct(recips)
    case GetThemUp(user, o, _, recips) => SeatLeaves(e, user, o) && Distinct(recips)
    case Remove(seat, _, o, _, recips) => LeaveLawful(e, seat, o) && Distinct(recips)
    case Sit(seat, user, o, _, recips) => SitLawful(e, seat, user, o) && Distinct(recips)
    case Own(user, op, o, _, recips) => OwnLawful(e, user, op, o) && Distinct(recips)
    case Ask(_, _) => true
    case Close => true
  }

  /** A timer that fired is gone, if it was the last of its kind. */
  function Fired(h: Host, timer: Timer, last: bool): (r: Host)
    ensures r.table == h.table && r.owed == h.owed && r.frames == h.frames && r.armed == h.armed
    ensures forall x :: x != timer && x in h.timers ==> x in r.timers
  {
    if last then h.(timers := h.timers - {timer}) else h
  }

  ghost function Next(h: Host, s: Step): Host {
    match s
    case Open(now, recips) => Opening(h, now, recips)
    case FireTurn(last, turn, due, o, now, recips) => OnTurnClock(Fired(h, TurnTimer(turn, due), last), o, now, recips)
    case FireDeal(last, gen, due, o, now, recips) =>
      OnDealTimer(Fired(h, DealTimer(gen, due), last), gen, o, now, recips)
    case FireIdle(last, gen, due, _) => OnIdle(Fired(h, IdleTimer(gen, due), last), gen)
    case FireGrace(last, seat, user, since, due, back, o, now, recips) =>
      OnGrace(Fired(h, GraceTimer(seat, user, since, due), last), seat, user, since, back, o, now, recips)
    case FireEmpty(last, since, due, occupied, _) =>
      OnEmptyCheck(Fired(h, EmptyTimer(since, due), last), since, occupied)
    case Depart(gone, grace, now, recips) => OnDepartures(h, gone, now, grace, recips)
    case Emptied(now) => OnRoomEmptied(h, now)
    case SpawnCheck(last, since, due) => SpawnEmptyCheck(h, since, due, last)
    case Join(user, conn, plays, mayPlay, o, now, recips) => OnJoin(h, user, conn, plays, mayPlay, o, now, recips)
    case GetThemUp(user, o, now, recips) => StandUp(h, user, o, now, recips)
    case Remove(seat, named, o, now, recips) => RemovePlayer(h, seat, named, o, now, recips)
    case Sit(_, _, o, now, recips) => EngineCall(h, o, now, recips)
    case Own(user, op, o, now, recips) => OwnSeat(h, user, op, o, now, recips)
    case Ask(user, conn) => Resync(h, user, conn)
    case Close => MarkClosed(h)
  }

  ghost predicate Runs(h: Host, steps: seq<Step>)
    decreases |steps|
  {
    steps == [] || (Enabled(h, steps[0]) && Runs(Next(h, steps[0]), steps[1..]))
  }

  ghost function After(h: Host, steps: seq<Step>): Host
    requires Runs(h, steps)
    decreases |steps|
  {
    if steps == [] then h else After(Next(h, steps[0]), steps[1..])
  }

  /** A table as the create arm puts it into the registry. */
  ghost predicate New(h: Host) {
    && Sane(h.table.engine) && h.table.version == 1 && !h.table.closed && h.table.gen == 0
    && h.table.away == map[] && h.table.clock.None? && h.table.nextDeal.None? && h.table.idle.None?
    && h.table.emptySince.None?
    && h.timers == {} && h.owed == {} && h.frames == [] && !h.armed
  }
}
