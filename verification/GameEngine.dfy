/**
 What a card table's host relies on in the rules engine. The rules themselves are
 not part of this model: an engine is what the host reads of it, and each call's
 outcome is any outcome its contract allows.
 */
module GameEngine {
  import opened Wrappers

  datatype Kind = Holdem | Blackjack

  datatype Seat = Seat(user: int, stack: int, pendingBet: int, sittingOut: bool, leaving: bool)

  /** One reported event; only which one matters. */
  datatype Event = Event(id: int)

  /** `turn`: the decision being waited for. `asked`: every decision ever waited for. */
  datatype Engine = Engine(
    kind: Kind, seats: map<nat, Seat>, inPlay: bool, turn: Option<int>, asked: set<int>, turnClock: nat)

  // --- What the host reads -------------------------------------------------------------

  // milliseconds
  const NEXT_HAND_DELAY: int := 3_000
  const BET_WINDOW: int := 15_000
  const LAST_BET_DELAY: int := 1_500
  const IDLE_LIMIT: int := 300_000

  predicate Active(s: Seat) { !s.sittingOut && !s.leaving }

  /** Blackjack: every player who could play this round has bet. */
  predicate EveryoneHasBet(e: Engine) {
    && e.kind.Blackjack? && !e.inPlay
    && (exists k :: k in e.seats && Active(e.seats[k]))
    && (forall k :: k in e.seats && Active(e.seats[k]) ==> e.seats[k].pendingBet > 0)
  }

  function Dealable(e: Engine): set<nat> {
    set k | k in e.seats && Active(e.seats[k]) && e.seats[k].stack > 0
  }

  /** How long to wait before dealing, when a deal is wanted now. */
  function DealWanted(e: Engine): (after: Option<int>)
    ensures after.Some? ==> 0 < after.value <= BET_WINDOW
  {
    if EveryoneHasBet(e) then Some(LAST_BET_DELAY)
    else match e.kind
      case Holdem => if !e.inPlay && |Dealable(e)| >= 2 then Some(NEXT_HAND_DELAY) else None
      case Blackjack =>
        if !e.inPlay && exists k :: k in e.seats && e.seats[k].pendingBet > 0 then Some(BET_WINDOW) else None
  }

  predicate SeatedAt(e: Engine, user: int, seat: nat) { seat in e.seats && e.seats[seat].user == user }

  predicate Seated(e: Engine, user: int) { exists k :: k in e.seats && SeatedAt(e, user, k) }

  ghost function SeatOf(e: Engine, user: int): (r: Option<nat>)
    ensures r.Some? ==> SeatedAt(e, user, r.value)
    ensures r.None? ==> !Seated(e, user)
  {
    if k: nat :| SeatedAt(e, user, k) then Some(k) else None
  }

  // --- The contract ----------------------------------------------------------------------

  /** One seat a user; the decision waited for is one of those asked. */
  ghost predicate Sane(e: Engine) {
    && (forall k, l :: k in e.seats && l in e.seats && e.seats[k].user == e.seats[l].user ==> k == l)
    && (e.turn.Some? ==> e.turn.value in e.asked)
  }

  lemma TheSeat(e: Engine, user: int, seat: nat)
    requires Sane(e) && SeatedAt(e, user, seat)
    ensures SeatOf(e, user) == Some(seat)
  {
    assert Seated(e, user);
  }

  /** What a call hands back: whether it was accepted, the engine after it, and what it reports. */
  datatype Outcome = Outcome(ok: bool, after: Engine, events: seq<Event>)

  /** Nothing any view shows changed: at most, during play, a player already out of the hand is marked leaving. */
  ghost predicate Quiet(e: Engine, f: Engine) {
    && f.turn == e.turn && f.inPlay == e.inPlay && f.asked == e.asked && f.seats.Keys == e.seats.Keys
    && forall k :: k in e.seats ==>
         f.seats[k] == e.seats[k] || (e.inPlay && f.seats[k] == e.seats[k].(leaving := true))
  }

  /** A decision asked once is never asked again; a player marked leaving stays so until the seat is free. */
  ghost predicate Lawful(e: Engine, o: Outcome) {
    && Sane(o.after) && o.after.kind == e.kind && o.after.turnClock == e.turnClock
    && e.asked <= o.after.asked
    && (o.after.turn == e.turn || o.after.turn.None? || o.after.turn.value !in e.asked)
    && (forall k ::
          k in e.seats && k in o.after.seats && e.seats[k].user == o.after.seats[k].user && e.seats[k].leaving ==>
            o.after.seats[k].leaving)
    && (!o.ok ==> o.after == e && o.events == [])
    && (o.ok && o.events == [] ==> Quiet(e, o.after))
  }

  /** Nobody sits down or changes seats. */
  ghost predicate NobodyNew(e: Engine, f: Engine) {
    forall k :: k in f.seats ==> k in e.seats && f.seats[k].user == e.seats[k].user
  }

  ghost predicate SitLawful(e: Engine, seat: nat, user: int, o: Outcome) {
    && Lawful(e, o)
    && (forall k :: k in o.after.seats ==>
          (k == seat && o.after.seats[k].user == user) || (k in e.seats && o.after.seats[k].user == e.seats[k].user))
  }

  /** Getting up from an occupied seat frees it, or marks its player leaving. */
  ghost predicate LeaveLawful(e: Engine, seat: nat, o: Outcome) {
    && Lawful(e, o) && NobodyNew(e, o.after)
    && (o.ok <==> seat in e.seats)
    && (seat in o.after.seats ==> o.after.seats[seat].leaving)
  }

  ghost predicate ActLawful(e: Engine, o: Outcome) { Lawful(e, o) && NobodyNew(e, o.after) }

  /** Only the decision waited for can time out, and then it is passed. */
  ghost predicate TimeoutLawful(e: Engine, turn: int, o: Outcome) {
    && ActLawful(e, o)
    && (o.ok <==> e.turn == Some(turn))
    && (o.ok ==> o.events != [] && o.after.turn != Some(turn))
  }

  ghost predicate DealLawful(e: Engine, o: Outcome) {
    && ActLawful(e, o)
    && (o.ok <==> DealWanted(e).Some?)
    && (o.ok ==> o.events != [])
  }

  /** A quiet call changes neither what the clocks wait for nor who sits. */
  lemma QuietWantsTheSame(e: Engine, f: Engine)
    requires Quiet(e, f) && f.kind == e.kind
    ensures DealWanted(f) == DealWanted(e)
    ensures forall k :: k in e.seats ==> f.seats[k].user == e.seats[k].user
  {
    if !e.inPlay {
      assert f.seats == e.seats;
    }
  }
}
