/**
 Seats follow the call. What reads the call's membership and then locks the table
 does both between two awaits, and is one step here. A join is two: the member is
 added, and - after an await - the table is told.
 */
module GameSeats {
  import opened GameEngine
  import opened GameTable
  import opened GameRuns
  import opened GameTimers
  import opened Wrappers

  /** `members`: the users in the call. `pending`: departures recorded and not yet drained. */
  datatype Call = Call(host: Host, members: set<int>, pending: set<int>)

  datatype Move =
    | Enter(user: int)
    | Go(user: int)
    | Settle(gone: seq<int>, grace: nat, now: int, recips: seq<Recipient>)
    | AtTable(step: Step)

  function Users(gone: seq<int>): set<int> { set u | u in gone }

  /** A sit is checked against the call in the stretch that sits; a grace reads it in the stretch that ends. */
  ghost predicate Allowed(c: Call, m: Move) {
    match m
    case Enter(_) => true
    case Go(user) => user in c.members
    case Settle(gone, _, _, recips) => Users(gone) == c.pending - c.members && Distinct(recips)
    case AtTable(s) =>
      && Enabled(c.host, s) && !s.Depart?
      && (s.Sit? ==> s.user in c.members)
      && (s.FireGrace? ==> (s.back <==> s.user in c.members))
  }

  ghost function Moved(c: Call, m: Move): Call {
    match m
    case Enter(user) => c.(members := c.members + {user})
    case Go(user) => c.(members := c.members - {user}, pending := c.pending + {user})
    case Settle(gone, grace, now, recips) =>
      c.(host := OnDepartures(c.host, gone, now, grace, recips), pending := {})
    case AtTable(s) => c.(host := Next(c.host, s))
  }

  // --- The property ------------------------------------------------------------------------

  /** Who sits at `k` is in the call, in a disconnect grace, leaving, or among departures not yet drained. */
  predicate Follows(t: Table, members: set<int>, pending: set<int>, k: nat)
    requires k in t.engine.seats
  {
    var s := t.engine.seats[k];
    s.user in members || AwayAt(t, k, s.user) || s.leaving || s.user in pending
  }

  predicate AllFollow(t: Table, members: set<int>, pending: set<int>) {
    forall k :: k in t.engine.seats ==> Follows(t, members, pending, k)
  }

  /** All but perhaps the one at `x`. */
  predicate FollowBut(t: Table, members: set<int>, pending: set<int>, x: nat) {
    forall k :: k in t.engine.seats && k != x ==> Follows(t, members, pending, k)
  }

  predicate SeatsFollow(c: Call) {
    !c.host.table.closed ==> AllFollow(c.host.table, c.members, c.pending)
  }

  // --- The pieces of a section ----------------------------------------------------------------

  lemma ScheduleFollows(t: Table, now: int, members: set<int>, pending: set<int>)
    requires AllFollow(t, members, pending)
    ensures AllFollow(Schedule(t, now), members, pending)
  {
    hide ClockFor, DealFor, IdleFor;
    var u := Schedule(t, now);
    forall k | k in u.engine.seats ensures Follows(u, members, pending, k) {
      assert Follows(t, members, pending, k);
    }
  }

  lemma BumpFollows(h: Host, now: int, recips: seq<Recipient>, members: set<int>, pending: set<int>)
    requires AllFollow(h.table, members, pending)
    ensures AllFollow(Bumped(h, now, recips).table, members, pending)
  {
    var t := h.table.(version := h.table.version + 1);
    assert AllFollow(t, members, pending) by {
      forall k | k in t.engine.seats ensures Follows(t, members, pending, k) {
        assert Follows(h.table, members, pending, k);
      }
    }
    ScheduleFollows(t, now, members, pending);
    hide Schedule, WithSpawned, FramesFor, AllFollow;
  }

  lemma ApplyFollows(h: Host, events: seq<Event>, now: int, recips: seq<Recipient>, members: set<int>,
      pending: set<int>)
    requires AllFollow(h.table, members, pending)
    ensures AllFollow(Applied(h, events, now, recips).table, members, pending)
  {
    BumpFollows(h, now, recips, members, pending);
    hide Schedule, WithSpawned, FramesFor, AllFollow;
    if events != [] {
      assert Applied(h, events, now, recips).table == Bumped(h, now, recips).table;
    }
  }

  /** A call that seats nobody new: whoever still sits sat before, and still follows. */
  lemma EngineFollows(h: Host, o: Outcome, members: set<int>, pending: set<int>)
    requires Lawful(h.table.engine, o) && NobodyNew(h.table.engine, o.after) && AllFollow(h.table, members, pending)
    ensures AllFollow(WithEngine(h, o.after).table, members, pending)
  {
    var t, u := h.table, WithEngine(h, o.after).table;
    forall k | k in u.engine.seats ensures Follows(u, members, pending, k) {
      assert Follows(t, members, pending, k);
    }
  }

  /** Getting up from a seat: the grace goes, and with it the seat - or its player is leaving. */
  lemma LeaveFollows(h: Host, seat: nat, o: Outcome, members: set<int>, pending: set<int>)
    requires LeaveLawful(h.table.engine, seat, o) && FollowBut(h.table, members, pending, seat)
    ensures AllFollow(WithEngine(h, o.after).table, members, pending)
  {
    var t, u := h.table, WithEngine(h, o.after).table;
    forall k | k in u.engine.seats ensures Follows(u, members, pending, k) {
      if k != seat {
        assert Follows(t, members, pending, k);
      }
    }
  }

  lemma WithoutAwayFollowsBut(h: Host, seat: nat, members: set<int>, pending: set<int>)
    requires AllFollow(h.table, members, pending)
    ensures FollowBut(WithoutAway(h, seat).table, members, pending, seat)
  {
    var t, u := h.table, WithoutAway(h, seat).table;
    forall k | k in u.engine.seats && k != seat ensures Follows(u, members, pending, k) {
      assert Follows(t, members, pending, k);
    }
  }

  lemma GetUpFollows(h: Host, seat: nat, o: Outcome, now: int, recips: seq<Recipient>, members: set<int>,
      pending: set<int>)
    requires LeaveLawful(h.table.engine, seat, o) && AllFollow(h.table, members, pending)
    ensures AllFollow(GetUp(h, seat, o, now, recips).table, members, pending)
  {
    var g := WithoutAway(h, seat);
    WithoutAwayFollowsBut(h, seat, members, pending);
    LeaveFollows(g, seat, o, members, pending);
    hide Applied, AllFollow, FollowBut;
    if o.ok {
      ApplyFollows(WithEngine(g, o.after), o.events, now, recips, members, pending);
    } else {
      assert WithEngine(g, o.after) == g by { UnchangedEngine(g, o, seat); }
    }
  }

  lemma UnchangedEngine(h: Host, o: Outcome, seat: nat)
    requires LeaveLawful(h.table.engine, seat, o) && !o.ok
    ensures WithEngine(h, o.after) == h
  {
  }

  lemma CallFollows(h: Host, o: Outcome, now: int, recips: seq<Recipient>, members: set<int>, pending: set<int>)
    requires ActLawful(h.table.engine, o) && AllFollow(h.table, members, pending)
    ensures AllFollow(EngineCall(h, o, now, recips).table, members, pending)
  {
    EngineFollows(h, o, members, pending);
    hide Applied, AllFollow, Lawful, NobodyNew;
    ApplyFollows(WithEngine(h, o.after), o.events, now, recips, members, pending);
  }

  lemma SitFollows(h: Host, seat: nat, user: int, o: Outcome, now: int, recips: seq<Recipient>, members: set<int>,
      pending: set<int>)
    requires SitLawful(h.table.engine, seat, user, o) && user in members && AllFollow(h.table, members, pending)
    ensures AllFollow(EngineCall(h, o, now, recips).table, members, pending)
  {
    var t, u := h.table, WithEngine(h, o.after).table;
    forall k | k in u.engine.seats ensures Follows(u, members, pending, k) {
      if k in t.engine.seats {
        assert Follows(t, members, pending, k);
      }
    }
    hide Applied, AllFollow, Lawful;
    ApplyFollows(WithEngine(h, o.after), o.events, now, recips, members, pending);
  }

  lemma GraceFollows(h: Host, seat: nat, user: int, since: int, back: bool, o: Outcome, now: int,
      recips: seq<Recipient>,
                     members: set<int>, pending: set<int>)
    requires LeaveLawful(h.table.engine, seat, o) && AllFollow(h.table, members, pending)
    requires back ==> user in members
    requires GraceDue(h.table, seat, user, since) ==> SeatedAt(h.table.engine, user, seat)
    ensures AllFollow(OnGrace(h, seat, user, since, back, o, now, recips).table, members, pending)
  {
    if GraceDue(h.table, seat, user, since) {
      var g := WithoutAway(h, seat);
      WithoutAwayFollowsBut(h, seat, members, pending);
      LeaveFollows(g, seat, o, members, pending);
      if back {
        assert AllFollow(g.table, members, pending);
      }
      hide Applied, Bumped, AllFollow, FollowBut, Lawful, NobodyNew;
      if back {
        BumpFollows(g, now, recips, members, pending);
      } else {
        ApplyFollows(WithEngine(g, o.after), o.events, now, recips, members, pending);
        BumpFollows(WithEngine(g, o.after), now, recips, members, pending);
      }
    }
  }

  // --- Departures -----------------------------------------------------------------------------

  /** Away entries are the occupants' own. */
  predicate OwnAway(t: Table) {
    forall k :: k in t.away ==> SeatedAt(t.engine, t.away[k].user, k)
  }

  lemma ArmedOwnAway(h: Host)
    requires Armed(h) && !h.table.closed
    ensures Sane(h.table.engine) && OwnAway(h.table)
  {
    hide Backed, DealWanted, Sane;
  }

  lemma {:induction false} DepartedAreAway(h: Host, gone: seq<int>, now: int, grace: nat)
    requires Sane(h.table.engine) && OwnAway(h.table)
    ensures var u := AllDeparted(h, gone, now, grace).table;
            && u.engine == h.table.engine && OwnAway(u)
            && (forall k :: k in h.table.away ==> k in u.away && u.away[k] == h.table.away[k])
            && forall k :: k in u.engine.seats && u.engine.seats[k].user in gone ==>
                AwayAt(u, k, u.engine.seats[k].user)
    decreases |gone|
  {
    if gone != [] {
      var init, last := gone[..|gone| - 1], gone[|gone| - 1];
      DepartedAreAway(h, init, now, grace);
      var g := AllDeparted(h, init, now, grace);
      var u := Departed(g, last, now, grace).table;
      forall k | k in u.engine.seats && u.engine.seats[k].user in gone ensures AwayAt(u, k, u.engine.seats[k].user) {
        if u.engine.seats[k].user == last {
          TheSeat(g.table.engine, last, k);
        } else {
          assert u.engine.seats[k].user in init;
        }
      }
    }
  }

  lemma SettleFollows(c: Call, gone: seq<int>, grace: nat, now: int, recips: seq<Recipient>)
    requires Armed(c.host) && SeatsFollow(c) && !c.host.table.closed && Users(gone) == c.pending - c.members
    ensures AllFollow(OnDepartures(c.host, gone, now, grace, recips).table, c.members, {})
  {
    ArmedOwnAway(c.host);
    DepartedAreAway(c.host, gone, now, grace);
    var t, g := c.host.table, AllDeparted(c.host, gone, now, grace);
    forall k | k in g.table.engine.seats ensures Follows(g.table, c.members, {}, k) {
      assert Follows(t, c.members, c.pending, k);
      var user := t.engine.seats[k].user;
      if user in c.pending && user !in c.members {
        assert user in Users(gone);
      }
    }
    assert AllFollow(g.table, c.members, {});
    hide AllDeparted, Bumped, AllFollow, Follows;
    BumpFollows(g, now, recips, c.members, {});
  }

  // --- Joins ----------------------------------------------------------------------------------

  /** The table is told of a join whose user is not in the call any more, and forgets their grace. */
  ghost predicate LateJoin(c: Call, user: int, mayPlay: bool) {
    var t, seat := c.host.table, SeatOf(c.host.table.engine, user);
    && !t.closed && mayPlay && seat.Some? && AwayAt(t, seat.value, user) && !t.engine.seats[seat.value].leaving
    && user !in c.members && user !in c.pending
  }

  /** What a join leaves of the table, the events it reports aside. */
  lemma JoinSeats(h: Host, user: int, conn: nat, plays: bool, mayPlay: bool, o: Outcome, now: int,
      recips: seq<Recipient>,
                  members: set<int>, pending: set<int>)
    requires !h.table.closed && SeatLeaves(h.table.engine, user, o) && AllFollow(h.table, members, pending)
    requires Sane(h.table.engine) && OwnAway(h.table)
    requires !LateJoin(Call(h, members, pending), user, mayPlay)
    ensures AllFollow(OnJoin(h, user, conn, plays, mayPlay, o, now, recips).table, members, pending)
  {
    var f := h.(table := h.table.(emptySince := None));
    var g := if plays then Sent(f, [Recipient(user, conn)], None) else f;
    assert g.table == f.table;
    assert AllFollow(g.table, members, pending) by {
      forall k | k in g.table.engine.seats ensures Follows(g.table, members, pending, k) {
        assert Follows(h.table, members, pending, k);
      }
    }
    var seat := SeatOf(g.table.engine, user);
    if seat.Some? {
      var wasAway := AwayAt(g.table, seat.value, user);
      var back := if wasAway then WithoutAway(g, seat.value) else g;
      WithoutAwayFollowsBut(g, seat.value, members, pending);
      if mayPlay {
        assert AllFollow(back.table, members, pending);
        hide Applied, Bumped, AllFollow, Sent;
        BumpFollows(back, now, recips, members, pending);
      } else {
        assert FollowBut(back.table, members, pending, seat.value);
        LeaveFollows(back, seat.value, o, members, pending);
        hide Applied, Bumped, AllFollow, FollowBut, Sent, Lawful, NobodyNew;
        ApplyFollows(WithEngine(back, o.after), o.events, now, recips, members, pending);
        BumpFollows(WithEngine(back, o.after), now, recips, members, pending);
      }
    }
  }

  /**
   What a late join does: nobody in the call, no grace, nothing pending - and still
   seated. The check every other frame repeats after its await is not made here.
   */
  lemma LateJoinStrandsASeat(c: Call, user: int, conn: nat, plays: bool, o: Outcome, now: int, recips: seq<Recipient>)
    requires Armed(c.host) && SeatsFollow(c) && LateJoin(c, user, true)
    requires Allowed(c, AtTable(Join(user, conn, plays, true, o, now, recips)))
    ensures !SeatsFollow(Moved(c, AtTable(Join(user, conn, plays, true, o, now, recips))))
  {
    var h, seat := c.host, SeatOf(c.host.table.engine, user).value;
    var f := h.(table := h.table.(emptySince := None));
    var g := if plays then Sent(f, [Recipient(user, conn)], None) else f;
    var back := WithoutAway(g, seat);
    var u := Bumped(back, now, recips).table;
    assert u == OnJoin(h, user, conn, plays, true, o, now, recips).table;
    assert u.engine == h.table.engine && u.closed == h.table.closed && seat !in u.away
        by { BumpForgets(back, seat, now, recips); }
    hide Bumped, Sent, OnJoin;
    assert !Follows(u, c.members, c.pending, seat);
  }

  lemma BumpForgets(h: Host, seat: nat, now: int, recips: seq<Recipient>)
    requires seat !in h.table.away
    ensures var u := Bumped(h, now, recips).table;
            u.engine == h.table.engine && u.closed == h.table.closed && seat !in u.away
  {
    hide ClockFor, DealFor, IdleFor, WithSpawned, FramesFor;
  }

  // --- Every run --------------------------------------------------------------------------------

  ghost predicate Late(c: Call, m: Move) {
    m.AtTable? && m.step.Join? && LateJoin(c, m.step.user, m.step.mayPlay)
  }

  lemma FiringFollows(c: Call, s: Step)
    requires Armed(c.host) && SeatsFollow(c) && !c.host.table.closed && Allowed(c, AtTable(s))
    requires s.FireTurn? || s.FireDeal? || s.FireIdle? || s.FireGrace? || s.FireEmpty?
    ensures SeatsFollow(Moved(c, AtTable(s)))
  {
    var h, t := c.host, c.host.table;
    match s
    case FireTurn(last, turn, due, o, now, recips) =>
      var f := Fired(h, TurnTimer(turn, due), last);
      EngineFollows(f, o, c.members, c.pending);
      hide Applied, AllFollow, Lawful, NobodyNew, Armed, Fired;
      ApplyFollows(WithEngine(f, o.after), o.events, now, recips, c.members, c.pending);
    case FireDeal(last, gen, due, o, now, recips) =>
      var f := Fired(h, DealTimer(gen, due), last);
      var g := f.(table := f.table.(nextDeal := None));
      assert AllFollow(g.table, c.members, c.pending) by {
        forall k | k in g.table.engine.seats ensures Follows(g.table, c.members, c.pending, k) {
          assert Follows(t, c.members, c.pending, k);
        }
      }
      EngineFollows(g, o, c.members, c.pending);
      hide Applied, Bumped, AllFollow, Lawful, NobodyNew, Armed, Fired;
      ApplyFollows(WithEngine(g, o.after), o.events, now, recips, c.members, c.pending);
      BumpFollows(g, now, recips, c.members, c.pending);
    case FireGrace(last, seat, user, since, due, back, o, now, recips) =>
      ArmedOwnAway(h);
      hide Applied, Bumped, AllFollow, Lawful, NobodyNew, Armed, Fired, OnGrace;
      GraceFollows(Fired(h, GraceTimer(seat, user, since, due), last), seat, user, since, back, o, now, recips,
          c.members, c.pending);
    case FireIdle(last, gen, due, _) => hide Armed, Fired;
    case FireEmpty(last, since, due, occupied, _) =>
      hide Armed, Fired;
      SameSeats(c, s);
  }

  /** Steps that touch neither the engine nor who is away. */
  lemma SameSeats(c: Call, s: Step)
    requires SeatsFollow(c) && !c.host.table.closed && Enabled(c.host, s)
    requires s.FireEmpty? || s.Emptied? || s.SpawnCheck? || s.Ask? || s.Close?
    ensures SeatsFollow(Moved(c, AtTable(s)))
  {
    hide Added, Fired, FramesFor;
    var t, u := c.host.table, Next(c.host, s).table;
    assert u.engine == t.engine && u.away == t.away;
    forall k | k in u.engine.seats ensures Follows(u, c.members, c.pending, k) {
      assert Follows(t, c.members, c.pending, k);
    }
  }

  lemma OpenFollows(c: Call, s: Step)
    requires SeatsFollow(c) && s.Open?
    ensures SeatsFollow(Moved(c, AtTable(s)))
  {
    if !c.host.table.closed {
      ScheduleFollows(c.host.table, s.now, c.members, c.pending);
    }
    hide Schedule, WithSpawned, FramesFor, AllFollow;
    assert Next(c.host, s).table == Schedule(c.host.table, s.now);
    assert Next(c.host, s).table.closed == c.host.table.closed by { ScheduleKeepsClosed(c.host.table, s.now); }
  }

  lemma ScheduleKeepsClosed(t: Table, now: int)
    ensures Schedule(t, now).closed == t.closed
  {
  }

  lemma SectionFollows(c: Call, s: Step)
    requires Armed(c.host) && SeatsFollow(c) && !c.host.table.closed && Allowed(c, AtTable(s)) && !Late(c, AtTable(s))
    requires !s.Open? && !s.FireTurn? && !s.FireDeal? && !s.FireIdle? && !s.FireGrace? && !s.FireEmpty?
    ensures SeatsFollow(Moved(c, AtTable(s)))
  {
    var h := c.host;
    ArmedOwnAway(h);
    hide Armed, AllFollow, GetUp, EngineCall, OnJoin, Lawful, NobodyNew, OnRoomEmptied, SpawnEmptyCheck, Resync,
         MarkClosed, OwnAway, Sane;
    match s
    case Join(user, conn, plays, mayPlay, o, now, recips) =>
      JoinSeats(h, user, conn, plays, mayPlay, o, now, recips, c.members, c.pending);
    case GetThemUp(user, o, now, recips) =>
      var seat := SeatOf(h.table.engine, user);
      if seat.Some? { GetUpFollows(h, seat.value, o, now, recips, c.members, c.pending); }
    case Remove(seat, named, o, now, recips) => GetUpFollows(h, seat, o, now, recips, c.members, c.pending);
    case Sit(seat, user, o, now, recips) => SitFollows(h, seat, user, o, now, recips, c.members, c.pending);
    case Own(user, op, o, now, recips) =>
      var seat := SeatOf(h.table.engine, user);
      if seat.Some? && op.Stand? {
        GetUpFollows(h, seat.value, o, now, recips, c.members, c.pending);
      } else if seat.Some? {
        CallFollows(h, o, now, recips, c.members, c.pending);
      }
    case Emptied(_) => SameSeats(c, s);
    case SpawnCheck(_, _, _) => SameSeats(c, s);
    case Ask(_, _) => SameSeats(c, s);
    case Close => SameSeats(c, s);
  }

  lemma MoveFollows(c: Call, m: Move)
    requires Armed(c.host) && SeatsFollow(c) && Allowed(c, m) && !Late(c, m)
    ensures SeatsFollow(Moved(c, m))
  {
    match m
    case Enter(user) => hide Armed; CallChanged(c, c.members + {user}, c.pending);
    case Go(user) => hide Armed; CallChanged(c, c.members - {user}, c.pending + {user});
    case Settle(gone, grace, now, recips) =>
      hide AllFollow, OnDepartures, Armed;
      if c.host.table.closed {
        ClosedDeparts(c.host, gone, now, grace, recips);
      } else {
        SettleFollows(c, gone, grace, now, recips);
      }
    case AtTable(s) =>
      hide Armed, Next, Enabled, AllFollow;
      if s.Open? {
        OpenFollows(c, s);
      } else if c.host.table.closed {
        ClosedStays(c.host, s);
      } else if s.FireTurn? || s.FireDeal? || s.FireIdle? || s.FireGrace? || s.FireEmpty? {
        FiringFollows(c, s);
      } else {
        SectionFollows(c, s);
      }
  }

  lemma ClosedDeparts(h: Host, gone: seq<int>, now: int, grace: nat, recips: seq<Recipient>)
    requires h.table.closed
    ensures OnDepartures(h, gone, now, grace, recips) == h
  {
  }

  lemma CallChanged(c: Call, members: set<int>, pending: set<int>)
    requires SeatsFollow(c) && c.pending <= pending && c.members <= members + pending
    ensures SeatsFollow(c.(members := members, pending := pending))
  {
    var t := c.host.table;
    if !t.closed {
      forall k | k in t.engine.seats ensures Follows(t, members, pending, k) {
        assert Follows(t, c.members, c.pending, k);
      }
    }
  }

  lemma MoveArmed(c: Call, m: Move)
    requires Armed(c.host) && Allowed(c, m)
    ensures Armed(Moved(c, m).host)
  {
    hide Armed;
    match m
    case Settle(gone, grace, now, recips) => StepArmed(c.host, Depart(gone, grace, now, recips));
    case AtTable(s) => StepArmed(c.host, s);
    case Enter(_) =>
    case Go(_) =>
  }

  /** A run in which no join reaches the table after its user has left the call again. */
  ghost predicate Timely(c: Call, moves: seq<Move>)
    decreases |moves|
  {
    moves != [] ==> Allowed(c, moves[0]) && !Late(c, moves[0]) && Timely(Moved(c, moves[0]), moves[1..])
  }

  ghost function AfterMoves(c: Call, moves: seq<Move>): Call
    decreases |moves|
  {
    if moves == [] then c else AfterMoves(Moved(c, moves[0]), moves[1..])
  }

  lemma {:induction false} SeatsFollowTheCall(c: Call, moves: seq<Move>)
    requires Armed(c.host) && SeatsFollow(c) && Timely(c, moves)
    ensures SeatsFollow(AfterMoves(c, moves))
    decreases |moves|
  {
    hide Armed, SeatsFollow, Allowed, Late, Moved;
    if moves != [] {
      MoveArmed(c, moves[0]);
      MoveFollows(c, moves[0]);
      SeatsFollowTheCall(Moved(c, moves[0]), moves[1..]);
    }
  }

  /** Exactly when a step keeps the property: unless it is a join told too late. */
  lemma MoveFollowsIff(c: Call, m: Move)
    requires Armed(c.host) && SeatsFollow(c) && Allowed(c, m)
    ensures SeatsFollow(Moved(c, m)) <==> !Late(c, m)
  {
    hide Armed, SeatsFollow, Moved, LateJoin;
    if Late(c, m) {
      LateNeedsPlay(c, m);
      var s := m.step;
      LateJoinStrandsASeat(c, s.user, s.conn, s.plays, s.o, s.now, s.recips);
    } else {
      MoveFollows(c, m);
    }
  }

  lemma LateNeedsPlay(c: Call, m: Move)
    requires Late(c, m)
    ensures m.step.mayPlay
  {
  }

  /** A returning user who may not play is not seated afterwards, unless as leaving. */
  lemma MayNotPlayGetsUp(h: Host, user: int, conn: nat, plays: bool, o: Outcome, now: int, recips: seq<Recipient>,
      k: nat)
    requires Sane(h.table.engine) && !h.table.closed && SeatLeaves(h.table.engine, user, o)
    ensures var e := OnJoin(h, user, conn, plays, false, o, now, recips).table.engine;
            SeatedAt(e, user, k) ==> e.seats[k].leaving
  {
    var e := h.table.engine;
    var seat := SeatOf(e, user);
    if seat.Some? {
      JoinUsesOutcome(h, user, conn, plays, o, now, recips);
      if SeatedAt(o.after, user, k) {
        assert SeatedAt(e, user, k);
        TheSeat(e, user, k);
      }
    } else {
      JoinWithoutSeat(h, user, conn, plays, o, now, recips);
      assert SeatedAt(e, user, k) ==> Seated(e, user);
    }
  }

  lemma JoinUsesOutcome(h: Host, user: int, conn: nat, plays: bool, o: Outcome, now: int, recips: seq<Recipient>)
    requires !h.table.closed && SeatOf(h.table.engine, user).Some?
    ensures OnJoin(h, user, conn, plays, false, o, now, recips).table.engine == o.after
  {
    hide Kept, ClockFor, DealFor, IdleFor, WithSpawned, FramesFor;
  }

  lemma JoinWithoutSeat(h: Host, user: int, conn: nat, plays: bool, o: Outcome, now: int, recips: seq<Recipient>)
    requires !h.table.closed && SeatOf(h.table.engine, user).None?
    ensures OnJoin(h, user, conn, plays, false, o, now, recips).table.engine == h.table.engine
  {
    hide FramesFor;
  }

  // --- It happens -----------------------------------------------------------------------------------

  ghost predicate AllAllowed(c: Call, moves: seq<Move>)
    decreases |moves|
  {
    moves != [] ==> Allowed(c, moves[0]) && AllAllowed(Moved(c, moves[0]), moves[1..])
  }

  lemma {:induction false} OneMoreMove(c: Call, moves: seq<Move>, m: Move)
    requires AllAllowed(c, moves) && Allowed(AfterMoves(c, moves), m)
    ensures AllAllowed(c, moves + [m]) && AfterMoves(c, moves + [m]) == Moved(AfterMoves(c, moves), m)
    decreases |moves|
  {
    hide Allowed, Moved;
    if moves == [] {
      assert [m][1..] == [] && moves + [m] == [m];
    } else {
      OneMoreMove(Moved(c, moves[0]), moves[1..], m);
      assert (moves + [m])[1..] == moves[1..] + [m];
    }
  }

  /** Nobody at the table, and one player with no hand in play. */
  function NoPlayers(): Engine { Engine(Holdem, map[], false, None, {}, 30_000) }

  function OnePlayer(user: int): Engine { NoPlayers().(seats := map[0 := Seat(user, 1000, 0, false, false)]) }

  function Sitting(user: int): Outcome { Outcome(true, OnePlayer(user), [Event(1)]) }

  function Leaving(): Outcome { Outcome(true, NoPlayers(), [Event(2)]) }

  function NewTable(): Host {
    Host(Table(NoPlayers(), 1, false, map[], None, None, None, 0, None), {}, {}, [], false)
  }

  lemma OnePlayersSeat(user: int)
    ensures SeatOf(OnePlayer(user), user) == Some(0)
    ensures SitLawful(NoPlayers(), 0, user, Sitting(user))
    ensures LeaveLawful(OnePlayer(user), 0, Leaving())
  {
    assert SeatedAt(OnePlayer(user), user, 0);
    TheSeat(OnePlayer(user), user, 0);
  }

  /** Seated, in the call, no grace; what else the table keeps does not matter. */
  ghost predicate Plays(h: Host, user: int) {
    h.table.engine == OnePlayer(user) && !h.table.closed && h.table.away == map[]
  }

  /** Seated, and in the grace. */
  ghost predicate IsAway(h: Host, user: int) {
    && h.table.engine == OnePlayer(user) && !h.table.closed
    && AwayAt(h.table, 0, user) && h.table.away.Keys == {0}
  }

  lemma SitsDown(user: int, h: Host)
    requires h == Opening(NewTable(), 0, [])
    ensures Plays(EngineCall(h, Sitting(user), 1, []), user)
  {
    hide ClockFor, DealFor, IdleFor, WithSpawned, FramesFor;
    var away: map<nat, Away> := map[];
    assert Kept(away, NoPlayers()) == map[] && Kept(away, OnePlayer(user)) == map[];
  }

  lemma OneDeparted(h: Host, user: int, now: int, grace: nat)
    ensures AllDeparted(h, [user], now, grace) == Departed(h, user, now, grace)
  {
    assert [user][..0] == [];
    assert AllDeparted(h, [], now, grace) == h;
  }

  lemma GoesAway(h: Host, user: int, now: int, grace: nat)
    requires Plays(h, user)
    ensures IsAway(OnDepartures(h, [user], now, grace, []), user)
  {
    hide ClockFor, DealFor, IdleFor, WithSpawned, FramesFor, AllDeparted;
    OneDeparted(h, user, now, grace);
    OnePlayersSeat(user);
    var g := Departed(h, user, now, grace);
    assert g.table.away == map[0 := Away(user, now)];
    assert Kept(g.table.away, g.table.engine) == g.table.away;
    assert 0 in g.table.away && 0 !in h.table.away;
  }

  lemma StaysAway(h: Host, user: int, now: int, grace: nat)
    requires IsAway(h, user)
    ensures OnDepartures(h, [user], now, grace, []) == h
  {
    hide AllDeparted;
    OneDeparted(h, user, now, grace);
    OnePlayersSeat(user);
  }

  /**
   The state the last lemma starts from is reached: a player drops out, comes back, and is
   gone again before the table hears of the return. Both departures are drained; the
   first one's grace still runs; then the join arrives.
   */
  lemma LateJoinHappens(user: int) returns (c: Call, moves: seq<Move>)
    ensures New(c.host) && c.members == {} && c.pending == {}
    ensures AllAllowed(c, moves) && !SeatsFollow(AfterMoves(c, moves))
    ensures moves != [] && moves[|moves| - 1].AtTable? && moves[|moves| - 1].step.Join?
            && moves[|moves| - 1].step.user == user
  {
    hide Opening, EngineCall, OnDepartures, Allowed, Moved, AllAllowed, AfterMoves, Armed, SeatsFollow, LateJoin, New,
         Plays, IsAway;
    c := Call(NewTable(), {}, {});
    NewIsNew();
    var h1 := Opening(NewTable(), 0, []);
    var h2 := EngineCall(h1, Sitting(user), 1, []);
    SitsDown(user, h1);
    var h3 := OnDepartures(h2, [user], 2, 15_000, []);
    GoesAway(h2, user, 2, 15_000);
    StaysAway(h3, user, 3, 15_000);
    moves := [];
    NoMoves(c);
    Enters(NewTable(), user);
    moves := Then(c, moves, Enter(user), Call(NewTable(), {user}, {}));
    Opens(user);
    moves := Then(c, moves, AtTable(Open(0, [])), Call(h1, {user}, {}));
    Sits(user, h1);
    moves := Then(c, moves, AtTable(Sit(0, user, Sitting(user), 1, [])), Call(h2, {user}, {}));
    Goes(h2, user);
    moves := Then(c, moves, Go(user), Call(h2, {}, {user}));
    Settles(h2, user, 2);
    moves := Then(c, moves, Settle([user], 15_000, 2, []), Call(h3, {}, {}));
    Enters(h3, user);
    moves := Then(c, moves, Enter(user), Call(h3, {user}, {}));
    Goes(h3, user);
    moves := Then(c, moves, Go(user), Call(h3, {}, {user}));
    Settles(h3, user, 3);
    moves := Then(c, moves, Settle([user], 15_000, 3, []), Call(h3, {}, {}));
    var join := AtTable(Join(user, 7, true, true, Leaving(), 4, []));
    NewIsArmed(c.host);
    AllowedArmed(c, moves);
    JoinIsLate(h3, user);
    LateJoinStrandsASeat(Call(h3, {}, {}), user, 7, true, Leaving(), 4, []);
    moves := Then(c, moves, join, Moved(Call(h3, {}, {}), join));
  }

  lemma NoMoves(c: Call)
    ensures AllAllowed(c, []) && AfterMoves(c, []) == c
  {
  }

  lemma Enters(h: Host, user: int)
    ensures Allowed(Call(h, {}, {}), Enter(user)) && Moved(Call(h, {}, {}), Enter(user)) == Call(h, {user}, {})
  {
    var nobody: set<int> := {};
    assert nobody + {user} == {user};
  }

  lemma Opens(user: int)
    ensures var c, m := Call(NewTable(), {user}, {}), AtTable(Open(0, []));
            Allowed(c, m) && Moved(c, m) == Call(Opening(NewTable(), 0, []), {user}, {})
  {
    hide Opening;
  }

  lemma Sits(user: int, h: Host)
    requires h == Opening(NewTable(), 0, [])
    ensures var c, m := Call(h, {user}, {}), AtTable(Sit(0, user, Sitting(user), 1, []));
            Allowed(c, m) && Moved(c, m) == Call(EngineCall(h, Sitting(user), 1, []), {user}, {})
  {
    OpensPlain();
    OnePlayersSeat(user);
    hide Opening, EngineCall, SitLawful;
  }

  lemma Goes(h: Host, user: int)
    ensures Allowed(Call(h, {user}, {}), Go(user)) && Moved(Call(h, {user}, {}), Go(user)) == Call(h, {}, {user})
  {
    var nobody: set<int> := {};
    assert {user} - {user} == nobody && nobody + {user} == {user};
  }

  lemma Settles(h: Host, user: int, now: int)
    ensures var c, m := Call(h, {}, {user}), Settle([user], 15_000, now, []);
            Allowed(c, m) && Moved(c, m) == Call(OnDepartures(h, [user], now, 15_000, []), {}, {})
  {
    hide OnDepartures;
    assert Users([user]) == {user} - {};
  }

  lemma JoinIsLate(h: Host, user: int)
    requires IsAway(h, user)
    ensures LateJoin(Call(h, {}, {}), user, true) && SeatsFollow(Call(h, {}, {}))
    ensures Allowed(Call(h, {}, {}), AtTable(Join(user, 7, true, true, Leaving(), 4, [])))
  {
    OnePlayersSeat(user);
    NotLeaving(user);
    hide LeaveLawful, OnePlayer, SeatOf;
  }

  lemma NewIsNew()
    ensures New(NewTable())
  {
  }

  lemma OpensPlain()
    ensures var t := Opening(NewTable(), 0, []).table; t.engine == NoPlayers() && !t.closed
  {
  }

  lemma NotLeaving(user: int)
    ensures 0 in OnePlayer(user).seats && OnePlayer(user).seats.Keys == {0}
    ensures OnePlayer(user).seats[0].user == user && !OnePlayer(user).seats[0].leaving
  {
  }

  lemma Then(c: Call, moves: seq<Move>, m: Move, after: Call) returns (more: seq<Move>)
    requires AllAllowed(c, moves) && Allowed(AfterMoves(c, moves), m) && Moved(AfterMoves(c, moves), m) == after
    ensures more == moves + [m] && AllAllowed(c, more) && AfterMoves(c, more) == after
  {
    OneMoreMove(c, moves, m);
    more := moves + [m];
  }

  lemma {:induction false} AllowedArmed(c: Call, moves: seq<Move>)
    requires Armed(c.host) && AllAllowed(c, moves)
    ensures Armed(AfterMoves(c, moves).host)
    decreases |moves|
  {
    hide Armed, Allowed, Moved;
    if moves != [] {
      MoveArmed(c, moves[0]);
      AllowedArmed(Moved(c, moves[0]), moves[1..]);
    }
  }
}
