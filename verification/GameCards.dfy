/**
 What a Hold'em frame tells each connection. Every card a frame can carry comes
 through the viewer's own seat and the hands that were shown.
 */
module GameCards {
  import opened GamePots
  import opened Wrappers
  import Host = GameTable
  import HostEngine = GameEngine

  const TWO_63: int := 0x8000_0000_0000_0000
  const TWO_64: int := 0x1_0000_0000_0000_0000

  type UserId = u: int | -TWO_63 <= u < TWO_63

  /** The engine's opaque player: 128 bits. */
  type PlayerId = p: nat | p < TWO_64 * TWO_64

  type Card = c: nat | c < 52

  datatype Hole = Hole(first: Card, second: Card)

  datatype Standing = Active | Folded | AllIn

  datatype Street = Preflop | Flop | Turn | River | Showdown

  datatype HandSeat = HandSeat(
    player: PlayerId, hole: Hole, standing: Standing, streetCommit: nat, handCommit: nat, acted: bool, faced: nat,
        shown: bool)

  datatype Hand = Hand(
    handNo: nat, button: nat, smallBlind: nat, bigBlind: nat, deck: seq<Card>, nextCard: nat, board: seq<Card>,
    street: Street, players: seq<Option<HandSeat>>, currentBet: nat, lastFullRaise: nat, toAct: Option<nat>,
    turnSeq: nat, aggressor: Option<nat>, complete: bool)

  datatype Sitter = Sitter(player: PlayerId, stack: nat, sittingOut: bool, leaving: bool, timeouts: nat)

  datatype Config = Config(
    maxSeats: nat, startingStack: nat, smallBlind: nat, bigBlind: nat, turnClockSecs: nat,
    timeoutsBeforeSitOut: nat, allowRebuy: bool)

  datatype CardTable = CardTable(
    config: Config, seats: seq<Option<Sitter>>, hand: Option<Hand>, handsDealt: nat, button: Option<nat>,
    departed: map<PlayerId, nat>)

  /** A street's bets are part of what the hand put in. */
  ghost predicate Banked(t: CardTable) { t.hand.Some? ==> AllBanked(t.hand.value.players) }

  ghost predicate AllBanked(players: seq<Option<HandSeat>>) {
    forall i :: 0 <= i < |players| && players[i].Some? ==> players[i].value.streetCommit <= players[i].value.handCommit
  }

  // --- Who is who ----------------------------------------------------------------------------

  /** A 64-bit user as an unsigned 64-bit number, widened. */
  function PlayerOf(user: UserId): PlayerId { if user < 0 then user + TWO_64 else user }

  /** The low 64 bits, read as signed. */
  function UserOf(player: PlayerId): UserId {
    var low := player % TWO_64;
    if low >= TWO_63 then low - TWO_64 else low
  }

  lemma UsersRoundTrip(user: UserId, player: PlayerId)
    ensures UserOf(PlayerOf(user)) == user
    ensures PlayerOf(UserOf(player)) == player <==> player < TWO_64
  {
    assert PlayerOf(user) % TWO_64 == PlayerOf(user);
    assert player < TWO_64 ==> player % TWO_64 == player;
  }

  /** The first seat whose occupant is `user`, as a frame's sender finds it. */
  function SeatOf(seats: seq<Option<Sitter>>, user: UserId): (r: Option<nat>)
    ensures r.Some? ==> r.value < |seats| && seats[r.value].Some? && UserOf(seats[r.value].value.player) == user
    ensures r.None? ==> forall i :: 0 <= i < |seats| && seats[i].Some? ==> UserOf(seats[i].value.player) != user
  {
    if seats == [] then None
    else if seats[0].Some? && UserOf(seats[0].value.player) == user then Some(0)
    else match SeatOf(seats[1..], user) case Some(i) => Some(i + 1) case None => None
  }

  /** The engine's own lookup, by player. */
  function SeatHolding(seats: seq<Option<Sitter>>, player: PlayerId): Option<nat> {
    if seats == [] then None
    else if seats[0].Some? && seats[0].value.player == player then Some(0)
    else match SeatHolding(seats[1..], player) case Some(i) => Some(i + 1) case None => None
  }

  /** Only players made from users sit; then both lookups find the same seat. */
  lemma {:induction false} LookupsAgree(seats: seq<Option<Sitter>>, user: UserId)
    requires forall i :: 0 <= i < |seats| && seats[i].Some? ==> seats[i].value.player < TWO_64
    ensures SeatOf(seats, user) == SeatHolding(seats, PlayerOf(user))
  {
    if seats != [] {
      LookupsAgree(seats[1..], user);
      if seats[0].Some? {
        UsersRoundTrip(user, seats[0].value.player);
      }
    }
  }

  // --- What the engine shows -------------------------------------------------------------------

  /** The seat's hand, if who sits there now is who was dealt it. */
  function OwnHand(t: CardTable, seat: nat): Option<HandSeat> {
    if seat < |t.seats| && t.seats[seat].Some? && t.hand.Some? && seat < |t.hand.value.players|
       && t.hand.value.players[seat].Some? && t.hand.value.players[seat].value.player == t.seats[seat].value.player
    then t.hand.value.players[seat] else None
  }

  predicate InProgress(t: CardTable) { t.hand.Some? && !t.hand.value.complete }

  datatype Status = Waiting | SittingOut | InHand | HasFolded | IsAllIn

  datatype SeatView = SeatView(
    seat: nat, player: PlayerId, stack: nat, status: Status, streetCommit: nat, handCommit: nat,
    shown: Option<Hole>, sittingOut: bool, leaving: bool)

  function StatusOf(t: CardTable, s: Sitter, hs: Option<HandSeat>): Status {
    if hs.Some? && InProgress(t) then
      match hs.value.standing case Active => InHand case Folded => HasFolded case AllIn => IsAllIn
    else if s.sittingOut then SittingOut
    else Waiting
  }

  function SeatViewOf(t: CardTable, i: nat): Option<SeatView>
    requires i < |t.seats|
  {
    if t.seats[i].None? then None
    else
      var s := t.seats[i].value;
      var hs := OwnHand(t, i);
      var dealt := hs.Some? && InProgress(t);
      Some(SeatView(
             i, s.player, s.stack, StatusOf(t, s, hs),
             if dealt then hs.value.streetCommit else 0, if dealt then hs.value.handCommit else 0,
             if hs.Some? && hs.value.shown then Some(hs.value.hole) else None, s.sittingOut, s.leaving))
  }

  datatype Legal = Legal(
    toCall: nat, canCheck: bool, callAmount: nat, canRaise: bool, minRaiseTo: nat, maxRaiseTo: nat)

  function Less(a: nat, b: nat): nat { if a >= b then a - b else 0 }

  predicate SomeoneElseCanAct(hand: Hand, seat: nat) {
    exists i :: 0 <= i < |hand.players| && i != seat && hand.players[i].Some?
        && hand.players[i].value.standing == Active
  }

  /** What the seat may do; None unless it is that seat's turn. */
  function LegalActions(t: CardTable, seat: nat): Option<Legal> {
    if InProgress(t) && t.hand.value.toAct == Some(seat) && seat < |t.hand.value.players| && seat < |t.seats|
       && t.hand.value.players[seat].Some? && t.seats[seat].Some?
    then
      var hand := t.hand.value;
      var hs := hand.players[seat].value;
      var stack := t.seats[seat].value.stack;
      var toCall := Less(hand.currentBet, hs.streetCommit);
      var maxTo := hs.streetCommit + stack;
      var reopened := !hs.acted || Less(hand.currentBet, hs.faced) >= hand.lastFullRaise;
      var minTo := if hand.currentBet == 0 then t.config.bigBlind else hand.currentBet + hand.lastFullRaise;
      Some(Legal(toCall, toCall == 0, Min(toCall, stack),
                 reopened && SomeoneElseCanAct(hand, seat) && maxTo > hand.currentBet, Min(minTo, maxTo), maxTo))
    else None
  }

  /** What a seat put in on the streets that have closed. */
  function StakeOf(p: Option<HandSeat>, seat: nat): seq<Stake>
    requires p.Some? ==> p.value.streetCommit <= p.value.handCommit
  {
    if p.None? then [] else [Stake(seat, p.value.handCommit - p.value.streetCommit, p.value.standing == Folded)]
  }

  function Gathered(players: seq<Option<HandSeat>>, from: nat): seq<Stake>
    requires from <= |players|
    requires AllBanked(players)
    decreases |players| - from
  {
    if from == |players| then []
    else StakeOf(players[from], from) + Gathered(players, from + 1)
  }

  function HandTotal(players: seq<Option<HandSeat>>, from: nat): nat
    requires from <= |players|
    decreases |players| - from
  {
    if from == |players| then 0
    else (if players[from].Some? then players[from].value.handCommit else 0) + HandTotal(players, from + 1)
  }

  datatype TurnRef = TurnRef(handNo: nat, turnSeq: nat)

  datatype HoldemView = HoldemView(
    viewer: Option<nat>, config: Config, handNo: nat, inHand: bool, street: Option<Street>, button: Option<nat>,
    smallBlind: Option<nat>, bigBlind: Option<nat>, seats: seq<Option<SeatView>>, board: seq<Card>,
    potTotal: nat, pots: seq<Pot>, currentBet: nat, toAct: Option<nat>, turn: Option<TurnRef>,
    myCards: Option<Hole>, legal: Option<Legal>)

  function ToAct(t: CardTable): Option<nat> { if InProgress(t) then t.hand.value.toAct else None }

  function ViewFor(t: CardTable, viewer: Option<nat>): HoldemView
    requires Banked(t)
  {
    var live := InProgress(t);
    HoldemView(
      viewer, t.config,
      if t.hand.Some? then t.hand.value.handNo else 0,
      live,
      if t.hand.Some? then Some(t.hand.value.street) else None,
      if t.hand.Some? then Some(t.hand.value.button) else t.button,
      if t.hand.Some? then Some(t.hand.value.smallBlind) else None,
      if t.hand.Some? then Some(t.hand.value.bigBlind) else None,
      seq(|t.seats|, i requires 0 <= i < |t.seats| => SeatViewOf(t, i)),
      if t.hand.Some? then t.hand.value.board else [],
      if live then HandTotal(t.hand.value.players, 0) else 0,
      if live then Pots(Gathered(t.hand.value.players, 0)) else [],
      if live then t.hand.value.currentBet else 0,
      ToAct(t),
      if ToAct(t).Some? then Some(TurnRef(t.hand.value.handNo, t.hand.value.turnSeq)) else None,
      if viewer.Some? && OwnHand(t, viewer.value).Some? then Some(OwnHand(t, viewer.value).value.hole) else None,
      if viewer.Some? then LegalActions(t, viewer.value) else None)
  }

  // --- What goes on the wire ---------------------------------------------------------------------

  const RANKS := "23456789TJQKA"
  const SUITS := "cdhs"
  const HIDDEN := "??"

  function Code(c: Card): string { [RANKS[c / 4], SUITS[c % 4]] }

  function Codes(h: Hole): seq<string> { [Code(h.first), Code(h.second)] }

  datatype WireSeat = WireSeat(
    seat: nat, user: UserId, stack: nat, status: Status, streetCommit: nat, handCommit: nat,
    cards: Option<seq<string>>, sittingOut: bool, leaving: bool, away: bool)

  /** What the host knows and the engine does not. */
  datatype Extras = Extras(away: set<nat>, clockMs: Option<nat>, nextDealMs: Option<nat>)

  datatype WireView = WireView(
    viewerSeat: Option<nat>, config: Config, handNo: nat, inHand: bool, street: Option<Street>, button: Option<nat>,
    smallBlindSeat: Option<nat>, bigBlindSeat: Option<nat>, seats: seq<Option<WireSeat>>, board: seq<string>,
    potTotal: nat, pots: seq<Pot>, currentBet: nat, toAct: Option<nat>, turn: Option<TurnRef>, legal: Option<Legal>,
    clockMs: Option<nat>, nextDealMs: Option<nat>)

  /** The viewer's own cards, or a hand that was shown, or two card backs while the hand is live. */
  function CardsAt(v: HoldemView, i: nat): Option<seq<string>>
    requires i < |v.seats| && v.seats[i].Some?
  {
    var s := v.seats[i].value;
    if v.viewer == Some(i) && v.myCards.Some? then Some(Codes(v.myCards.value))
    else if s.shown.Some? then Some(Codes(s.shown.value))
    else if s.status == InHand || s.status == IsAllIn then Some([HIDDEN, HIDDEN])
    else None
  }

  function WireSeatOf(v: HoldemView, x: Extras, i: nat): Option<WireSeat>
    requires i < |v.seats|
  {
    if v.seats[i].None? then None
    else
      var s := v.seats[i].value;
      Some(WireSeat(i, UserOf(s.player), s.stack, s.status, s.streetCommit, s.handCommit,
                    CardsAt(v, i), s.sittingOut, s.leaving, i in x.away))
  }

  function OnWire(v: HoldemView, x: Extras): WireView {
    WireView(
      v.viewer, v.config, v.handNo, v.inHand, v.street, v.button, v.smallBlind, v.bigBlind,
      seq(|v.seats|, i requires 0 <= i < |v.seats| => WireSeatOf(v, x, i)),
      seq(|v.board|, i requires 0 <= i < |v.board| => Code(v.board[i])),
      v.potTotal, v.pots, v.currentBet, v.toAct, v.turn, v.legal, x.clockMs, x.nextDealMs)
  }

  function Seen(t: CardTable, seat: Option<nat>, x: Extras): WireView
    requires Banked(t)
  {
    OnWire(ViewFor(t, seat), x)
  }

  // --- The fan-out ---------------------------------------------------------------------------------

  datatype Recipient = Recipient(user: UserId, conn: nat)

  datatype ShownHand = ShownHand(seat: nat, hole: Hole, category: nat)

  /** What the engine reports. Only these events name cards; what any other says is `note`. */
  datatype CardEvent =
    | HandShown(seat: nat, hole: Hole)
    | ShownDown(shown: seq<ShownHand>, mucked: seq<nat>)
    | BoardDealt(street: Street, cards: seq<Card>)
    | Noted(note: int)

  datatype WireHand = WireHand(seat: nat, cards: seq<string>, category: nat)

  datatype WireEvent =
    | WireShown(seat: nat, cards: seq<string>)
    | WireShowdown(shown: seq<WireHand>, mucked: seq<nat>)
    | WireBoard(street: Street, cards: seq<string>)
    | WireNoted(note: int)

  function WireEventOf(e: CardEvent): WireEvent {
    match e
    case HandShown(seat, hole) => WireShown(seat, Codes(hole))
    case ShownDown(shown, mucked) =>
      WireShowdown(
        seq(|shown|, i requires 0 <= i < |shown| => WireHand(shown[i].seat, Codes(shown[i].hole), shown[i].category)),
            mucked)
    case BoardDealt(street, cards) => WireBoard(street, seq(|cards|, i requires 0 <= i < |cards| => Code(cards[i])))
    case Noted(note) => WireNoted(note)
  }

  function WireEvents(events: seq<CardEvent>): seq<WireEvent> {
    seq(|events|, i requires 0 <= i < |events| => WireEventOf(events[i]))
  }

  datatype Frame =
    | Events(room: string, table: nat, version: nat, events: seq<WireEvent>, view: WireView)
    | Standing(room: string, table: nat, version: nat, view: WireView, openedBy: UserId)

  datatype Post = Post(room: string, id: nat, version: nat, opener: UserId, events: Option<seq<CardEvent>>)

  function FrameOf(p: Post, view: WireView): Frame {
    if p.events.Some? then Events(p.room, p.id, p.version, WireEvents(p.events.value), view)
    else Frame.Standing(p.room, p.id, p.version, view, p.opener)
  }

  /** What `r` is due: the table as its own seat sees it. */
  function Due(t: CardTable, x: Extras, p: Post, r: Recipient): Frame
    requires Banked(t)
  {
    FrameOf(p, Seen(t, SeatOf(t.seats, r.user), x))
  }

  /** One view is built for each seat and kept for its user's other connections; all spectators share one. */
  method Send(t: CardTable, x: Extras, p: Post, recips: seq<Recipient>) returns (sent: seq<(Recipient, Frame)>)
    requires Banked(t)
    ensures |sent| == |recips|
    ensures forall k :: 0 <= k < |recips| ==> sent[k] == (recips[k], Due(t, x, p, recips[k]))
  {
    sent := [];
    var views: map<Option<nat>, WireView> := map[];
    for k := 0 to |recips|
      invariant |sent| == k
      invariant forall seat :: seat in views ==> views[seat] == Seen(t, seat, x)
      invariant forall j :: 0 <= j < k ==> sent[j] == (recips[j], Due(t, x, p, recips[j]))
    {
      var seat := SeatOf(t.seats, recips[k].user);
      if seat !in views {
        views := views[seat := Seen(t, seat, x)];
      }
      sent := sent + [(recips[k], FrameOf(p, views[seat]))];
    }
  }

  // --- Two tables that differ in cards only ----------------------------------------------------------

  predicate TwinSeats(p: Option<HandSeat>, q: Option<HandSeat>) {
    if p.Some? && q.Some? then q.value == p.value.(hole := q.value.hole) else p == q
  }

  ghost predicate TwinHands(h: Hand, g: Hand) {
    && g == h.(deck := g.deck, players := g.players)
    && |h.players| == |g.players|
    && forall i :: 0 <= i < |h.players| ==> TwinSeats(h.players[i], g.players[i])
  }

  /** The same table with any other cards in the players' hands and in the deck. */
  ghost predicate Twins(t: CardTable, u: CardTable) {
    && u == t.(hand := u.hand)
    && if t.hand.Some? && u.hand.Some? then TwinHands(t.hand.value, u.hand.value) else t.hand == u.hand
  }

  /** Whose cards a viewer is to see: its own seat's, and every shown hand of a player who still sits there. */
  predicate Learns(t: CardTable, viewer: Option<nat>, i: nat) {
    OwnHand(t, i).Some? && (OwnHand(t, i).value.shown || viewer == Some(i))
  }

  ghost predicate SameCardsFor(t: CardTable, u: CardTable, viewer: Option<nat>)
    requires Twins(t, u)
  {
    forall i :: Learns(t, viewer, i) ==> OwnHand(u, i).Some? && OwnHand(t, i).value.hole == OwnHand(u, i).value.hole
  }

  lemma TwinsAt(t: CardTable, u: CardTable, i: nat)
    requires Twins(t, u)
    ensures TwinSeats(OwnHand(t, i), OwnHand(u, i))
    ensures InProgress(t) == InProgress(u) && ToAct(t) == ToAct(u)
    ensures LegalActions(t, i) == LegalActions(u, i)
  {
    if t.hand.Some? {
      var h, g := t.hand.value, u.hand.value;
      if i < |h.players| {
        assert TwinSeats(h.players[i], g.players[i]);
        OthersCanActAlike(h, g, i);
        OthersCanActAlike(g, h, i);
      }
    }
  }

  lemma OthersCanActAlike(h: Hand, g: Hand, seat: nat)
    requires TwinHands(h, g)
    ensures SomeoneElseCanAct(h, seat) == SomeoneElseCanAct(g, seat)
  {
    assert forall i :: 0 <= i < |h.players| ==> TwinSeats(h.players[i], g.players[i]);
    if SomeoneElseCanAct(h, seat) {
      var i :| 0 <= i < |h.players| && i != seat && h.players[i].Some? && h.players[i].value.standing == Active;
      assert g.players[i].Some? && g.players[i].value.standing == Active;
    }
    if SomeoneElseCanAct(g, seat) {
      var i :| 0 <= i < |g.players| && i != seat && g.players[i].Some? && g.players[i].value.standing == Active;
      assert h.players[i].Some? && h.players[i].value.standing == Active;
    }
  }

  lemma TwinsBanked(t: CardTable, u: CardTable)
    requires Twins(t, u) && Banked(t)
    ensures Banked(u)
  {
    if u.hand.Some? {
      var h, g := t.hand.value.players, u.hand.value.players;
      assert forall i :: 0 <= i < |g| ==> TwinSeats(h[i], g[i]);
    }
  }

  lemma {:induction false} TwinStakes(h: seq<Option<HandSeat>>, g: seq<Option<HandSeat>>, from: nat)
    requires |h| == |g| && from <= |h|
    requires forall i :: 0 <= i < |h| ==> TwinSeats(h[i], g[i])
    requires AllBanked(h)
    requires AllBanked(g)
    ensures Gathered(h, from) == Gathered(g, from)
    ensures HandTotal(h, from) == HandTotal(g, from)
    decreases |h| - from
  {
    if from < |h| {
      TwinStakes(h, g, from + 1);
      assert TwinSeats(h[from], g[from]);
      assert StakeOf(h[from], from) == StakeOf(g[from], from);
    }
  }

  // --- Card codes ------------------------------------------------------------------------------------

  lemma CodeTells(c: Card, d: Card)
    ensures Code(c) == Code(d) <==> c == d
    ensures |Code(c)| == |HIDDEN| == 2 && Code(c) != HIDDEN
  {
    assert Code(c)[0] == RANKS[c / 4] && Code(d)[0] == RANKS[d / 4];
    assert Code(c)[1] == SUITS[c % 4] && Code(d)[1] == SUITS[d % 4];
    assert forall i, j :: 0 <= i < j < 13 ==> RANKS[i] != RANKS[j];
    assert forall i, j :: 0 <= i < j < 4 ==> SUITS[i] != SUITS[j];
  }

  lemma CodesTell(h: Hole, g: Hole)
    ensures Codes(h) == Codes(g) <==> h == g
    ensures Codes(h) != [HIDDEN, HIDDEN]
  {
    CodeTells(h.first, g.first);
    CodeTells(h.second, g.second);
    assert Codes(h)[0] == Code(h.first) && Codes(g)[0] == Code(g.first);
    assert Codes(h)[1] == Code(h.second) && Codes(g)[1] == Code(g.second);
  }

  // --- The isolation theorem -----------------------------------------------------------------------

  /** What a viewer is shown at an occupied seat. */
  function CardsDue(t: CardTable, viewer: Option<nat>, i: nat): Option<seq<string>> {
    if Learns(t, viewer, i) then Some(Codes(OwnHand(t, i).value.hole))
    else if OwnHand(t, i).Some? && InProgress(t) && OwnHand(t, i).value.standing != Folded then Some([HIDDEN, HIDDEN])
    else None
  }

  lemma SeatShows(t: CardTable, viewer: Option<nat>, x: Extras, i: nat)
    requires Banked(t) && i < |t.seats|
    ensures |ViewFor(t, viewer).seats| == |t.seats| && ViewFor(t, viewer).seats[i] == SeatViewOf(t, i)
    ensures var w := WireSeatOf(ViewFor(t, viewer), x, i);
            if t.seats[i].None? then w.None?
            else
              var s := SeatViewOf(t, i).value;
              && CardsAt(ViewFor(t, viewer), i) == CardsDue(t, viewer, i)
              && w == Some(WireSeat(i, UserOf(s.player), s.stack, s.status, s.streetCommit, s.handCommit,
                                    CardsDue(t, viewer, i), s.sittingOut, s.leaving, i in x.away))
  {
    hide Pots, Gathered, HandTotal, LegalActions, Codes, UserOf, Banked;
  }

  lemma TwinSeatViews(t: CardTable, u: CardTable, i: nat)
    requires Twins(t, u) && i < |t.seats|
    ensures SeatViewOf(t, i).Some? <==> SeatViewOf(u, i).Some?
    ensures SeatViewOf(t, i).Some? ==>
              SeatViewOf(u, i).value == SeatViewOf(t, i).value.(shown := SeatViewOf(u, i).value.shown)
  {
    TwinsAt(t, u, i);
  }

  lemma SeatTells(t: CardTable, u: CardTable, viewer: Option<nat>, x: Extras, i: nat)
    requires Twins(t, u) && Banked(t) && Banked(u) && i < |t.seats|
    ensures WireSeatOf(ViewFor(t, viewer), x, i) == WireSeatOf(ViewFor(u, viewer), x, i) <==>
            (Learns(t, viewer, i) ==> OwnHand(u, i).Some? && OwnHand(t, i).value.hole == OwnHand(u, i).value.hole)
  {
    hide ViewFor, WireSeatOf, SeatViewOf, Codes, UserOf, OwnHand, Banked;
    SeatShows(t, viewer, x, i);
    SeatShows(u, viewer, x, i);
    TwinsAt(t, u, i);
    TwinSeatViews(t, u, i);
    NobodyNothing(t, i);
    if OwnHand(t, i).Some? {
      CodesTell(OwnHand(t, i).value.hole, OwnHand(u, i).value.hole);
    }
  }

  lemma NobodyNothing(t: CardTable, i: nat)
    requires i < |t.seats|
    ensures t.seats[i].None? ==> OwnHand(t, i).None? && SeatViewOf(t, i).None?
    ensures t.seats[i].Some? ==> SeatViewOf(t, i).Some?
  {
  }

  /**
   Hole-card isolation, exactly: two tables that differ only in cards look the same to a
   viewer (or, with no seat, to a spectator) if and only if the viewer's own cards and
   the shown ones are the same.
   */
  lemma ViewTells(t: CardTable, u: CardTable, viewer: Option<nat>, x: Extras)
    requires Twins(t, u) && Banked(t)
    ensures Banked(u)
    ensures Seen(t, viewer, x) == Seen(u, viewer, x) <==> SameCardsFor(t, u, viewer)
  {
    TwinsBanked(t, u);
    hide ViewFor, WireSeatOf, Banked;
    var v, w := ViewFor(t, viewer), ViewFor(u, viewer);
    ViewSize(t, viewer);
    ViewSize(u, viewer);
    forall i | 0 <= i < |t.seats|
      ensures WireSeatOf(v, x, i) == WireSeatOf(w, x, i) <==>
              (Learns(t, viewer, i) ==> OwnHand(u, i).Some? && OwnHand(t, i).value.hole == OwnHand(u, i).value.hole)
    {
      SeatTells(t, u, viewer, x, i);
    }
    assert OnWire(v, x).(seats := []) == OnWire(w, x).(seats := []) by { RestAlike(t, u, viewer, x); }
    var a, b := OnWire(v, x).seats, OnWire(w, x).seats;
    assert forall i :: 0 <= i < |t.seats| ==> a[i] == WireSeatOf(v, x, i) && b[i] == WireSeatOf(w, x, i);
    if SameCardsFor(t, u, viewer) {
      assert a == b;
    }
    if a == b {
      forall i: nat | Learns(t, viewer, i)
        ensures OwnHand(u, i).Some? && OwnHand(t, i).value.hole == OwnHand(u, i).value.hole
      {
        assert a[i] == b[i];
      }
    }
  }

  lemma ViewSize(t: CardTable, viewer: Option<nat>)
    requires Banked(t)
    ensures |ViewFor(t, viewer).seats| == |t.seats|
  {
  }

  lemma RestAlike(t: CardTable, u: CardTable, viewer: Option<nat>, x: Extras)
    requires Twins(t, u) && Banked(t) && Banked(u)
    ensures OnWire(ViewFor(t, viewer), x).(seats := []) == OnWire(ViewFor(u, viewer), x).(seats := [])
  {
    TwinsAt(t, u, if viewer.Some? then viewer.value else 0);
    if t.hand.Some? {
      TwinStakes(t.hand.value.players, u.hand.value.players, 0);
    }
  }

  lemma EventTells(e: CardEvent, f: CardEvent)
    ensures WireEventOf(e) == WireEventOf(f) <==> e == f
  {
    if WireEventOf(e) == WireEventOf(f) {
      match e
      case HandShown(_, hole) => CodesTell(hole, f.hole);
      case ShownDown(shown, _) =>
        var a, b := WireEventOf(e).shown, WireEventOf(f).shown;
        assert |shown| == |a| == |b| == |f.shown|;
        forall i | 0 <= i < |shown| ensures shown[i] == f.shown[i] {
          assert a[i] == b[i];
          CodesTell(shown[i].hole, f.shown[i].hole);
        }
      case BoardDealt(_, cards) =>
        var a, b := WireEventOf(e).cards, WireEventOf(f).cards;
        assert |cards| == |a| == |b| == |f.cards|;
        forall i | 0 <= i < |cards| ensures cards[i] == f.cards[i] {
          assert a[i] == b[i];
          CodeTells(cards[i], f.cards[i]);
        }
      case Noted(_) =>
    }
  }

  /** The wire keeps events apart. */
  lemma EventsTell(es: seq<CardEvent>, fs: seq<CardEvent>)
    ensures WireEvents(es) == WireEvents(fs) <==> es == fs
  {
    hide WireEventOf;
    if WireEvents(es) == WireEvents(fs) {
      assert |es| == |WireEvents(es)| == |WireEvents(fs)| == |fs|;
      forall i | 0 <= i < |es| ensures es[i] == fs[i] {
        assert WireEvents(es)[i] == WireEvents(fs)[i];
        EventTells(es[i], fs[i]);
      }
    }
  }

  /** One frame: its view and its events, and nothing else of the table. */
  lemma FrameTells(p: Post, q: Post, v: WireView, w: WireView)
    requires q == p.(events := q.events)
    ensures FrameOf(p, v) == FrameOf(q, w) <==> v == w && p.events == q.events
  {
    hide WireEvents;
    if p.events.Some? && q.events.Some? {
      EventsTell(p.events.value, q.events.value);
    }
  }

  /**
   Through the fan-out: all that the connections of the users `who` are sent, taken
   together, is the same exactly when the cards each of them is to see are the same and
   so are the events - whose only cards are those of the board and of shown hands.
   */
  lemma FramesTell(t: CardTable, u: CardTable, x: Extras, p: Post, q: Post, recips: seq<Recipient>, who: set<UserId>)
    requires Twins(t, u) && Banked(t) && q == p.(events := q.events)
    ensures Banked(u)
    ensures (forall k :: 0 <= k < |recips| && recips[k].user in who ==>
            Due(t, x, p, recips[k]) == Due(u, x, q, recips[k]))
            <==> (forall k :: 0 <= k < |recips| && recips[k].user in who ==>
                    SameCardsFor(t, u, SeatOf(t.seats, recips[k].user)) && p.events == q.events)
  {
    TwinsBanked(t, u);
    forall k | 0 <= k < |recips|
      ensures Due(t, x, p, recips[k]) == Due(u, x, q, recips[k]) <==>
              SameCardsFor(t, u, SeatOf(t.seats, recips[k].user)) && p.events == q.events
    {
      hide Seen, SeatOf, SameCardsFor, FrameOf;
      var seat := SeatOf(t.seats, recips[k].user);
      ViewTells(t, u, seat, x);
      FrameTells(p, q, Seen(t, seat, x), Seen(u, seat, x));
    }
  }

  // --- The host's fan-out is this one ----------------------------------------------------------

  /** The host's engine has the table's own seats. */
  ghost predicate SameSeats(e: HostEngine.Engine, seats: seq<Option<Sitter>>) {
    && HostEngine.Sane(e)
    && (forall k: nat :: k in e.seats <==> k < |seats| && seats[k].Some?)
    && (forall k: nat :: k in e.seats ==> e.seats[k].user == UserOf(seats[k].value.player))
  }

  /** A frame of the host's goes to the connection whose user's own seat decides the view sent here. */
  lemma HostSendsTheseViews(h: Host.Table, t: CardTable, recips: seq<Recipient>, theirs: seq<Host.Recipient>, k: nat)
    requires SameSeats(h.engine, t.seats) && |theirs| == |recips| && k < |recips|
    requires forall i :: 0 <= i < |recips| ==> theirs[i] == Host.Recipient(recips[i].user, recips[i].conn)
    ensures var f := Host.FramesFor(h, theirs, None)[k];
            f.conn == recips[k].conn && f.seat == SeatOf(t.seats, recips[k].user)
  {
    var seat := SeatOf(t.seats, recips[k].user);
    assert theirs[k].user == recips[k].user;
    if seat.Some? {
      HostEngine.TheSeat(h.engine, recips[k].user, seat.value);
    } else {
      assert !HostEngine.Seated(h.engine, recips[k].user);
    }
  }

  /**
   The length of a frame never depends on a card: a seat's cards are there or not whatever they
   are, two characters each.
   */
  lemma CardsKeepTheWidth(t: CardTable, u: CardTable, viewer: Option<nat>, i: nat)
    requires Twins(t, u) && Banked(t) && Banked(u) && i < |t.seats| && t.seats[i].Some?
    ensures var a, b := CardsAt(ViewFor(t, viewer), i), CardsAt(ViewFor(u, viewer), i);
            && (a.Some? <==> b.Some?)
            && (a.Some? ==> |a.value| == 2 && |a.value[0]| == 2 && |a.value[1]| == 2)
            && (a == Some([HIDDEN, HIDDEN]) <==> b == Some([HIDDEN, HIDDEN]))
  {
    hide ViewFor, WireSeatOf, SeatViewOf, UserOf, OwnHand, Banked;
    var x := Extras({}, None, None);
    SeatShows(t, viewer, x, i);
    SeatShows(u, viewer, x, i);
    TwinsAt(t, u, i);
    if OwnHand(t, i).Some? {
      CodesTell(OwnHand(t, i).value.hole, OwnHand(u, i).value.hole);
      CodesTell(OwnHand(u, i).value.hole, OwnHand(t, i).value.hole);
    }
  }

  // --- Showing a hand ------------------------------------------------------------------------------

  /** After the hand, a player who was dealt in may table their cards, once. */
  function ShowCards(t: CardTable, seat: nat): Option<(CardTable, CardEvent)> {
    if InProgress(t) || OwnHand(t, seat).None? || OwnHand(t, seat).value.shown then None
    else
      var hs := OwnHand(t, seat).value;
      var hand := t.hand.value;
      Some((t.(hand := Some(hand.(players := hand.players[seat := Some(hs.(shown := true))]))),
            HandShown(seat, hs.hole)))
  }

  /** Showing gives away that one hand, to everyone, and whether it may be shown gives away nothing. */
  lemma ShowingTells(t: CardTable, u: CardTable, seat: nat, viewer: Option<nat>)
    requires Twins(t, u)
    ensures ShowCards(t, seat).Some? <==> ShowCards(u, seat).Some?
    ensures ShowCards(t, seat).Some? ==>
              var (t1, e) := ShowCards(t, seat).value;
              var (u1, f) := ShowCards(u, seat).value;
              && Twins(t1, u1)
              && OwnHand(t, seat).Some? && OwnHand(u, seat).Some?
              && (WireEventOf(e) == WireEventOf(f) <==> OwnHand(t, seat).value.hole == OwnHand(u, seat).value.hole)
              && (SameCardsFor(t1, u1, viewer) <==>
                    SameCardsFor(t, u, viewer) && OwnHand(t, seat).value.hole == OwnHand(u, seat).value.hole)
  {
    TwinsAt(t, u, seat);
    if ShowCards(t, seat).Some? {
      CodesTell(OwnHand(t, seat).value.hole, OwnHand(u, seat).value.hole);
      var (t1, e) := ShowCards(t, seat).value;
      var (u1, f) := ShowCards(u, seat).value;
      forall i: nat
        ensures OwnHand(t1, i) == if i == seat then Some(OwnHand(t, i).value.(shown := true)) else OwnHand(t, i)
        ensures OwnHand(u1, i) == if i == seat then Some(OwnHand(u, i).value.(shown := true)) else OwnHand(u, i)
      {
      }
      assert Learns(t1, viewer, seat);
      assert forall i :: Learns(t1, viewer, i) <==> Learns(t, viewer, i) || i == seat;
    }
  }

  // --- The chips a view shows -----------------------------------------------------------------------

  function StreetTotal(v: HoldemView, from: nat): nat
    requires from <= |v.seats|
    decreases |v.seats| - from
  {
    if from == |v.seats| then 0
    else (if v.seats[from].Some? then v.seats[from].value.streetCommit else 0) + StreetTotal(v, from + 1)
  }

  /** Everyone the live hand dealt in still has their seat (a leaver keeps it until the hand ends). */
  ghost predicate SeatsHeld(t: CardTable) {
    InProgress(t) ==>
      && |t.hand.value.players| == |t.seats|
      && forall i :: 0 <= i < |t.seats| ==> t.hand.value.players[i].Some? ==> OwnHand(t, i).Some?
  }

  /** Of a live hand: the pots and the bets still in front of the players make up the pot total. */
  lemma ChipsAddUp(t: CardTable, viewer: Option<nat>)
    requires Banked(t) && SeatsHeld(t)
    ensures var v := ViewFor(t, viewer);
            Sum(v.pots) + StreetTotal(v, 0) == v.potTotal
  {
    var v := ViewFor(t, viewer);
    if InProgress(t) {
      PotsConserve(Gathered(t.hand.value.players, 0));
      StakesAddUp(t, v, 0);
    } else {
      NoBets(t, v, 0);
    }
  }

  lemma {:induction false} StakesAddUp(t: CardTable, v: HoldemView, from: nat)
    requires Banked(t) && SeatsHeld(t) && InProgress(t) && v == ViewFor(t, v.viewer) && from <= |t.seats|
    ensures Total(Gathered(t.hand.value.players, from)) + StreetTotal(v, from) == HandTotal(t.hand.value.players, from)
    decreases |t.seats| - from
  {
    hide Gathered, Total, ViewFor, SeatViewOf, OwnHand, AllBanked;
    ViewSize(t, v.viewer);
    if from < |t.seats| {
      StakesAddUp(t, v, from + 1);
      BetShown(t, v.viewer, from);
      TotalHead(t.hand.value.players, from);
    } else {
      NoStakes(t.hand.value.players);
    }
  }

  lemma NoStakes(players: seq<Option<HandSeat>>)
    requires AllBanked(players)
    ensures Total(Gathered(players, |players|)) == 0
  {
  }

  lemma BetShown(t: CardTable, viewer: Option<nat>, i: nat)
    requires Banked(t) && SeatsHeld(t) && InProgress(t) && i < |t.seats|
    ensures var p := t.hand.value.players[i];
            var s := ViewFor(t, viewer).seats[i];
            (if s.Some? then s.value.streetCommit else 0) == (if p.Some? then p.value.streetCommit else 0)
  {
    hide Pots, Gathered, HandTotal, LegalActions;
    assert ViewFor(t, viewer).seats[i] == SeatViewOf(t, i);
  }

  lemma TotalHead(players: seq<Option<HandSeat>>, from: nat)
    requires from < |players|
    requires AllBanked(players)
    ensures Total(Gathered(players, from)) == Total(Gathered(players, from + 1)) +
            if players[from].Some? then players[from].value.handCommit - players[from].value.streetCommit else 0
  {
    var all, rest := Gathered(players, from), Gathered(players, from + 1);
    if players[from].Some? {
      assert all[1..] == rest;
    } else {
      assert all == rest;
    }
  }

  lemma {:induction false} NoBets(t: CardTable, v: HoldemView, from: nat)
    requires Banked(t) && !InProgress(t) && v == ViewFor(t, v.viewer) && from <= |t.seats|
    ensures StreetTotal(v, from) == 0
    decreases |t.seats| - from
  {
    if from < |t.seats| {
      NoBets(t, v, from + 1);
      assert v.seats[from] == SeatViewOf(t, from);
    }
  }

  lemma {:induction false} StakesDiffer(players: seq<Option<HandSeat>>, from: nat)
    requires AllBanked(players) && from <= |players|
    ensures SeatsDiffer(Gathered(players, from))
    ensures forall k :: 0 <= k < |Gathered(players, from)| ==> from <= Gathered(players, from)[k].seat
    decreases |players| - from
  {
    if from < |players| {
      StakesDiffer(players, from + 1);
      var rest := Gathered(players, from + 1);
      if players[from].Some? {
        StakeFirst(StakeOf(players[from], from)[0], rest);
      } else {
        assert Gathered(players, from) == rest;
      }
    }
  }

  lemma StakeFirst(s: Stake, rest: seq<Stake>)
    requires SeatsDiffer(rest) && forall k :: 0 <= k < |rest| ==> s.seat < rest[k].seat
    ensures SeatsDiffer([s] + rest)
    ensures forall k :: 0 <= k < |[s] + rest| ==> s.seat <= ([s] + rest)[k].seat
  {
  }

  /** No pot in a view is empty or offered to a folded seat, and contenders shrink from pot to pot. */
  lemma ShownPotsNarrow(t: CardTable, viewer: Option<nat>)
    requires Banked(t)
    ensures var pots := ViewFor(t, viewer).pots;
            && (forall k :: 0 <= k < |pots| ==>
                  InProgress(t) && pots[k].amount > 0 && NoneFolded(Gathered(t.hand.value.players, 0), pots[k]))
            && (forall k :: 0 < k < |pots| ==> Narrower(pots[k], pots[k - 1]))
  {
    hide Pots, Gathered, HandTotal, LegalActions, SeatViewOf, NoneFolded, Narrower;
    if InProgress(t) {
      StakesDiffer(t.hand.value.players, 0);
      PotsNarrow(Gathered(t.hand.value.players, 0));
    }
  }
}
