/**
 Friend requests, friendships and blocks, and the block visibility rule: a request
 across a block is real to its sender and does not exist for its recipient.

 A request's id is opaque: two stores that agree on everything else may number their
 rows differently, and answers are compared with ids renamed from row to row.
 */
module Friends {
  import opened Columns
  import opened Wrappers

  /** `pending` is the row's status: pending, or accepted. */
  datatype Request = Request(id: int, pending: bool, created: int)

  /** A row's key: sender to receiver, blocker to blocked, or the lower friend to the higher. */
  datatype Pair = Pair(from: int, to: int)

  /** `users`: account -> still live (not a tombstone). `friends`: ordered pair -> since when. */
  datatype Store = Store(
    users: map<int, bool>,
    friends: map<Pair, int>,
    requests: map<Pair, Request>,
    blocked: set<Pair>,
    nextId: int)

  /** The statements of a handler that can fail. */
  datatype Query = UserLookup | BlockLookup | FriendLookup | RequestLookup | ReverseLookup | ListRead
                 | RequestWrite | FriendWrite | StatusWrite

  /** `reverseFirst`: which of two rows an unordered one-row lookup happens to return. */
  datatype Call = Call(caller: int, what: What, now: int, fails: set<Query>, reverseFirst: bool)

  datatype What =
    | Send(to: int)
    | Incoming
    | Outgoing
    | Accept(id: int)
    | Reject(id: int)
    | Remove(friend: int)
    | Status(other: int)
    | ListFriends

  datatype Entry = Entry(id: int, user: int, created: int)

  datatype Answer =
    | Ok
    | Created
    | Refused(status: int, text: string)
    | Requests(entries: set<Entry>)
    | FriendList(friends: set<(int, int)>)
    | Friendship(isFriend: bool, sent: bool, received: bool, id: Option<int>)

  // --- Lookups -------------------------------------------------------------------------

  function Ordered(a: int, b: int): Pair {
    if a < b then Pair(a, b) else Pair(b, a)
  }

  /** Column against column: a row in either direction. */
  predicate BlockRow(s: Store, a: int, b: int) {
    Pair(a, b) in s.blocked || Pair(b, a) in s.blocked
  }

  /** The helper's answer: an id no INT4 column can hold names no row. */
  predicate PairBlocked(s: Store, a: int, b: int) {
    InInt4(a) && InInt4(b) && BlockRow(s, a, b)
  }

  /** A failed lookup hides: the rule fails closed. */
  predicate Hidden(s: Store, c: Call, sender: int, receiver: int) {
    BlockLookup in c.fails || PairBlocked(s, sender, receiver)
  }

  predicate Live(s: Store, user: int) { user in s.users && s.users[user] }

  predicate Pending(s: Store, sender: int, receiver: int) {
    Pair(sender, receiver) in s.requests && s.requests[Pair(sender, receiver)].pending
  }

  /** The pending row with this id is `sender`'s, to `receiver`. */
  ghost predicate Names(s: Store, id: int, sender: int, receiver: int) {
    Pending(s, sender, receiver) && s.requests[Pair(sender, receiver)].id == id
  }

  /** Who sent the request with this id to `receiver`, if there is one pending. */
  ghost function SenderOf(s: Store, id: int, receiver: int): (r: Option<int>)
    ensures r.Some? ==> Names(s, id, r.value, receiver)
    ensures r.None? ==> forall k :: !Names(s, id, k, receiver)
  {
    if exists k :: Names(s, id, k, receiver) then
      var k :| Names(s, id, k, receiver);
      Some(k)
    else None
  }

  // --- The handlers --------------------------------------------------------------------

  const NOT_FOUND := Refused(404, "Request not found")

  /** The row the pre-check of a send finds, if any: one direction across a block, both otherwise. */
  predicate AlreadyPending(s: Store, c: Call, other: int) {
    var mine, theirs := Pair(c.caller, other), Pair(other, c.caller);
    if PairBlocked(s, c.caller, other) then Pending(s, c.caller, other)
    else if mine in s.requests && theirs in s.requests
    then s.requests[if c.reverseFirst then theirs else mine].pending
    else Pending(s, c.caller, other) || Pending(s, other, c.caller)
  }

  /** The upsert: an old row of the same direction keeps its id, and a number is used up all the same. */
  function Requested(s: Store, c: Call, to: int): Store {
    var id := if Pair(c.caller, to) in s.requests then s.requests[Pair(c.caller, to)].id else s.nextId;
    s.(requests := s.requests[Pair(c.caller, to) := Request(id, true, c.now)], nextId := s.nextId + 1)
  }

  ghost function AfterSend(s: Store, c: Call, to: int): (r: (Store, Answer))
    ensures r.1.Ok? || r.1.Created? || r.1.Refused?
  {
    if c.caller == to then (s, Refused(400, "Cannot send friend request to yourself"))
    else if UserLookup in c.fails || !Live(s, to) then (s, Refused(404, "User not found"))
    else if BlockLookup in c.fails then (s, Refused(500, "Could not verify block status"))
    else if !PairBlocked(s, c.caller, to) && FriendLookup in c.fails then (s, Refused(500, "Failed to send request"))
    else if !PairBlocked(s, c.caller, to) && Ordered(c.caller, to) in s.friends
        then (s, Refused(409, "Already friends"))
    else if RequestLookup in c.fails then (s, Refused(500, "Failed to send request"))
    else if AlreadyPending(s, c, to) then (s, Refused(409, "Friend request already pending"))
    else if RequestWrite in c.fails then (s, Refused(500, "Failed to send request"))
    else (Requested(s, c, to), Created)
  }

  /** The row is found and addressed to the caller: make the friendship, then mark the row. */
  function AcceptFrom(s: Store, c: Call, sender: int): (Store, Answer)
    requires Pending(s, sender, c.caller)
  {
    if Hidden(s, c, sender, c.caller) then (s, NOT_FOUND)
    else if FriendWrite in c.fails then (s, Refused(500, "Failed to accept request"))
    else
      var pair := Ordered(sender, c.caller);
      var key := Pair(sender, c.caller);
      (s.(friends := if pair in s.friends then s.friends else s.friends[pair := c.now],
          requests := if StatusWrite in c.fails then s.requests
              else s.requests[key := s.requests[key].(pending := false)]),
       Ok)
  }

  function RejectFrom(s: Store, c: Call, sender: int): (Store, Answer) {
    if Hidden(s, c, sender, c.caller) then (s, NOT_FOUND)
    else (if RequestWrite in c.fails then s else s.(requests := s.requests - {Pair(sender, c.caller)}), Ok)
  }

  ghost function AfterAccept(s: Store, c: Call, id: int): (r: (Store, Answer))
    ensures r.1.Ok? || r.1.Created? || r.1.Refused?
  {
    var row := if RequestLookup in c.fails then None else SenderOf(s, id, c.caller);
    if row.None? then (s, NOT_FOUND) else AcceptFrom(s, c, row.value)
  }

  ghost function AfterReject(s: Store, c: Call, id: int): (r: (Store, Answer))
    ensures r.1.Ok? || r.1.Created? || r.1.Refused?
  {
    var row := if RequestLookup in c.fails then None else SenderOf(s, id, c.caller);
    if row.None? then (s, NOT_FOUND) else RejectFrom(s, c, row.value)
  }

  ghost function AfterRemove(s: Store, c: Call, friend: int): (r: (Store, Answer))
    ensures r.1.Ok? || r.1.Created? || r.1.Refused?
  {
    var requests := if RequestWrite in c.fails then s.requests
        else s.requests - {Pair(c.caller, friend), Pair(friend, c.caller)};
    var pair := Ordered(c.caller, friend);
    if FriendWrite in c.fails then (s.(requests := requests), Refused(500, "Failed to remove friend"))
    else (s.(requests := requests, friends := s.friends - {pair}),
          if pair in s.friends then Ok else Refused(404, "Friendship not found"))
  }

  function IncomingOf(s: Store, c: Call): set<Entry> {
    if ListRead in c.fails then {}
    else
      set k |
        && k in s.requests && k.to == c.caller && s.requests[k].pending
        && Live(s, k.from) && !BlockRow(s, k.from, c.caller)
        :: Entry(s.requests[k].id, k.from, s.requests[k].created)
  }

  /** Deliberately no block filter: to its sender a request across a block is a real one. */
  function OutgoingOf(s: Store, c: Call): set<Entry> {
    if ListRead in c.fails then {}
    else set k | k in s.requests && k.from == c.caller && s.requests[k].pending && Live(s, k.to)
           :: Entry(s.requests[k].id, k.to, s.requests[k].created)
  }

  function Partner(pair: Pair, user: int): int { if pair.from == user then pair.to else pair.from }

  function FriendsOf(s: Store, c: Call): set<(int, int)> {
    if ListRead in c.fails then {}
    else set p | p in s.friends && (p.from == c.caller || p.to == c.caller) && Live(s, Partner(p, c.caller))
                 && !BlockRow(s, c.caller, Partner(p, c.caller))
           :: (Partner(p, c.caller), s.friends[p])
  }

  function StatusOf(s: Store, c: Call, other: int): Answer {
    if FriendLookup !in c.fails && Ordered(c.caller, other) in s.friends && !BlockRow(s, c.caller, other)
    then Friendship(true, false, false, None)
    else if RequestLookup !in c.fails && Pending(s, c.caller, other)
    then Friendship(false, true, false, Some(s.requests[Pair(c.caller, other)].id))
    else if ReverseLookup !in c.fails && Pending(s, other, c.caller) && !Hidden(s, c, other, c.caller)
    then Friendship(false, false, true, Some(s.requests[Pair(other, c.caller)].id))
    else Friendship(false, false, false, None)
  }

  ghost function Handle(s: Store, c: Call): (Store, Answer) {
    match c.what
    case Send(to) => AfterSend(s, c, to)
    case Incoming => (s, Requests(IncomingOf(s, c)))
    case Outgoing => (s, Requests(OutgoingOf(s, c)))
    case Accept(id) => AfterAccept(s, c, id)
    case Reject(id) => AfterReject(s, c, id)
    case Remove(friend) => AfterRemove(s, c, friend)
    case Status(other) => (s, StatusOf(s, c, other))
    case ListFriends => (s, FriendList(FriendsOf(s, c)))
  }

  // --- Two stores that look the same to one party --------------------------------------

  /**
   Serial ids: positive, already issued, one row each; friends stored lower first; blocks within
   the column's width.
   */
  ghost predicate Valid(s: Store) {
    && s.nextId >= 1
    && (forall k :: k in s.requests ==> 1 <= s.requests[k].id < s.nextId)
    && (forall k, l :: k in s.requests && l in s.requests && s.requests[k].id == s.requests[l].id ==> k == l)
    && (forall p :: p in s.friends ==> p.from <= p.to)
    && (forall p :: p in s.blocked ==> InInt4(p.from) && InInt4(p.to))
  }

  predicate SameRow(r: Request, q: Request) { r.pending == q.pending && r.created == q.created }

  /**
   `b`, where `me` and `other` are blocked, and `u`, where they are not and `other`
   has never written to `me`; everything else is the same but for the numbering.
   */
  ghost predicate Alike(b: Store, u: Store, me: int, other: int) {
    && me != other && InInt4(me) && InInt4(other)
    && BlockRow(b, me, other)
    && u.blocked == b.blocked - {Pair(me, other), Pair(other, me)}
    && u.users == b.users && u.friends == b.friends && Ordered(me, other) !in b.friends
    && Pair(other, me) !in u.requests
    && (forall k :: k != Pair(other, me) ==> (k in b.requests <==> k in u.requests))
    && (forall k :: k in b.requests && k in u.requests ==> SameRow(b.requests[k], u.requests[k]))
  }

  ghost predicate Twins(b: Store, u: Store, me: int, other: int) {
    Valid(b) && Valid(u) && Alike(b, u, me, other)
  }

  /** From the id of each row in `b` to the id the same row has in `u`. */
  ghost function Renaming(b: Store, u: Store): map<int, int>
    requires Valid(b)
  {
    map k | k in b.requests && k in u.requests :: b.requests[k].id := u.requests[k].id
  }

  /** `r` renames every row the two stores share, and nothing that is not in both. */
  ghost predicate Renames(r: map<int, int>, b: Store, u: Store) {
    && (forall k :: k in b.requests && k in u.requests ==>
          b.requests[k].id in r && r[b.requests[k].id] == u.requests[k].id)
    && (forall k :: k in b.requests && k !in u.requests ==> b.requests[k].id !in r)
    && (forall id :: id in r ==> exists k :: k in b.requests && b.requests[k].id == id)
  }

  /** A renamed id; 0, which no row has, when there is nothing to rename. */
  function Renamed(r: map<int, int>, id: int): int { if id in r then r[id] else 0 }

  lemma RenamingRenames(b: Store, u: Store)
    requires Valid(b)
    ensures Renames(Renaming(b, u), b, u)
  {
    var r := Renaming(b, u);
    forall k | k in b.requests && k in u.requests
      ensures b.requests[k].id in r && r[b.requests[k].id] == u.requests[k].id
    {
      RenamingOf(b, u, k);
    }
  }

  lemma RenamingOf(b: Store, u: Store, k: Pair)
    requires Valid(b) && k in b.requests && k in u.requests
    ensures b.requests[k].id in Renaming(b, u) && Renaming(b, u)[b.requests[k].id] == u.requests[k].id
  {
    var l :| l in b.requests && l in u.requests && b.requests[l].id == b.requests[k].id
             && Renaming(b, u)[b.requests[k].id] == u.requests[l].id;
  }

  ghost function RenamedEntries(r: map<int, int>, entries: set<Entry>): set<Entry> {
    set e | e in entries :: e.(id := Renamed(r, e.id))
  }

  ghost function RenamedAnswer(r: map<int, int>, a: Answer): Answer {
    match a
    case Requests(entries) => Requests(RenamedEntries(r, entries))
    case Friendship(f, sent, received, Some(id)) => Friendship(f, sent, received, Some(Renamed(r, id)))
    case _ => a
  }

  /**
   The call `u` sees for a call made in `b`. The other side's own sends, accepts and
   rejects towards `me` are matched by no call, everything else by the same call.
   */
  ghost function Counterpart(b: Store, u: Store, me: int, other: int, c: Call): Option<Call>
    requires Valid(b)
  {
    match c.what
    case Send(to) => if c.caller == other && to == me then None else Some(c)
    case Accept(id) =>
      if ProbesHidden(b, me, other, c, id) then None
      else Some(c.(what := Accept(Renamed(Renaming(b, u), id))))
    case Reject(id) =>
      if ProbesHidden(b, me, other, c, id) then None
      else Some(c.(what := Reject(Renamed(Renaming(b, u), id))))
    case _ => Some(c)
  }

  /**
   Only an unblocked pair's send looks for a friendship: a failure there is told, unless
   the send stops earlier, or at the next statement, for both alike.
   */
  ghost predicate Fair(b: Store, me: int, other: int, c: Call) {
    c.what == Send(other) && c.caller == me ==>
      || FriendLookup !in c.fails
      || UserLookup in c.fails || !Live(b, other) || BlockLookup in c.fails
      || RequestLookup in c.fails || (RequestWrite in c.fails && !Pending(b, me, other))
  }

  /** What `me`, or any third party, is told in `b` is what it is told in `u`. */
  ghost predicate Answered(b: Store, u: Store, me: int, other: int, c: Call)
    requires Valid(b)
  {
    var (b', answer) := Handle(b, c);
    match Counterpart(b, u, me, other, c)
    case None => Twins(b', u, me, other) && c.caller == other
    case Some(d) =>
      var (u', answer') := Handle(u, d);
      Twins(b', u', me, other) && (c.caller != other ==> answer' == RenamedAnswer(Renaming(b', u'), answer))
  }

  lemma SendKeepsValid(s: Store, c: Call, to: int)
    requires Valid(s)
    ensures Valid(AfterSend(s, c, to).0)
  {
  }

  lemma AcceptKeepsValid(s: Store, c: Call, id: int)
    requires Valid(s)
    ensures Valid(AfterAccept(s, c, id).0)
  {
  }

  lemma RejectKeepsValid(s: Store, c: Call, id: int)
    requires Valid(s)
    ensures Valid(AfterReject(s, c, id).0)
  {
  }

  lemma RemoveKeepsValid(s: Store, c: Call, friend: int)
    requires Valid(s)
    ensures Valid(AfterRemove(s, c, friend).0)
  {
  }

  // --- One call, in both stores ---------------------------------------------------------

  lemma LookupsAlike(b: Store, u: Store, me: int, other: int, c: Call, to: int)
    requires Alike(b, u, me, other) && c.caller != to && !(c.caller == other && to == me)
    ensures AlreadyPending(b, c, to) == AlreadyPending(u, c, to)
    ensures if c.caller == me && to == other then PairBlocked(b, c.caller, to) && !PairBlocked(u, c.caller, to)
            else PairBlocked(b, c.caller, to) == PairBlocked(u, c.caller, to)
  {
  }

  lemma SameTables(b: Store, u: Store, me: int, other: int)
    requires Alike(b, u, me, other)
    ensures b.users == u.users && b.friends == u.friends && Ordered(me, other) !in b.friends
    ensures Pending(b, me, other) == Pending(u, me, other) && !Pending(u, other, me)
  {
    assert Pair(me, other) in b.requests <==> Pair(me, other) in u.requests;
  }

  lemma SendsAnswerAlike(b: Store, u: Store, me: int, other: int, c: Call, to: int)
    requires Alike(b, u, me, other) && Fair(b, me, other, c) && c.what == Send(to)
    requires !(c.caller == other && to == me)
    ensures AfterSend(b, c, to).1 == AfterSend(u, c, to).1
  {
    if c.caller != to {
      LookupsAlike(b, u, me, other, c, to);
      SameTables(b, u, me, other);
      if c.caller == me && to == other {
        PendingToOther(b, u, me, other, c);
      }
      hide Alike, AlreadyPending, PairBlocked, Pending;
    }
  }

  lemma PendingToOther(b: Store, u: Store, me: int, other: int, c: Call)
    requires Alike(b, u, me, other) && c.caller == me
    ensures AlreadyPending(b, c, other) == Pending(b, me, other)
  {
    assert PairBlocked(b, me, other);
  }

  lemma SendWrites(s: Store, c: Call, to: int)
    ensures AfterSend(s, c, to).0 == if AfterSend(s, c, to).1.Created? then Requested(s, c, to) else s
  {
    hide AlreadyPending, PairBlocked, Requested;
  }

  lemma RequestsKeepAlike(b: Store, u: Store, me: int, other: int, c: Call, to: int)
    requires Alike(b, u, me, other)
    ensures !(c.caller == other && to == me) ==> Alike(Requested(b, c, to), Requested(u, c, to), me, other)
    ensures c.caller == other && to == me ==> Alike(Requested(b, c, to), u, me, other)
  {
  }

  lemma SendsKeepAlike(b: Store, u: Store, me: int, other: int, c: Call, to: int)
    requires Alike(b, u, me, other) && Fair(b, me, other, c) && c.what == Send(to)
    ensures !(c.caller == other && to == me) ==> Alike(AfterSend(b, c, to).0, AfterSend(u, c, to).0, me, other)
    ensures c.caller == other && to == me ==> Alike(AfterSend(b, c, to).0, u, me, other)
  {
    hide Alike, AfterSend, Fair;
    SendWrites(b, c, to);
    SendWrites(u, c, to);
    RequestsKeepAlike(b, u, me, other, c, to);
    if !(c.caller == other && to == me) {
      SendsAnswerAlike(b, u, me, other, c, to);
    }
  }

  /** An id in `b`, renamed, names the same sender in `u` - unless it is the hidden row's, and then nobody. */
  lemma SenderAlike(b: Store, u: Store, me: int, other: int, r: map<int, int>, id: int, receiver: int)
    requires Twins(b, u, me, other) && Renames(r, b, u)
    ensures SenderOf(u, Renamed(r, id), receiver) ==
            if receiver == me && SenderOf(b, id, receiver) == Some(other) then None else SenderOf(b, id, receiver)
  {
    var sb, su := SenderOf(b, id, receiver), SenderOf(u, Renamed(r, id), receiver);
    if sb.Some? && Pair(sb.value, receiver) != Pair(other, me) {
      assert Names(u, Renamed(r, id), sb.value, receiver);
    }
    if su.Some? {
      assert Names(b, id, su.value, receiver);
    }
  }

  lemma HiddenAlike(b: Store, u: Store, me: int, other: int, c: Call, d: Call, sender: int)
    requires d == c.(what := d.what) && Alike(b, u, me, other) && Pair(sender, c.caller) != Pair(other, me)
    ensures if c.caller == other && sender == me then Hidden(b, c, sender, c.caller)
            else Hidden(b, c, sender, c.caller) == Hidden(u, d, sender, c.caller)
  {
  }

  lemma AcceptFromAlike(b: Store, u: Store, me: int, other: int, c: Call, d: Call, sender: int)
    requires d == c.(what := d.what)
    requires Alike(b, u, me, other) && Pending(b, sender, c.caller) && Pair(sender, c.caller) != Pair(other, me)
    ensures c.caller == other && sender == me ==> AcceptFrom(b, c, sender) == (b, NOT_FOUND)
    ensures !(c.caller == other && sender == me) ==>
              && Alike(AcceptFrom(b, c, sender).0, AcceptFrom(u, d, sender).0, me, other)
              && AcceptFrom(b, c, sender).1 == AcceptFrom(u, d, sender).1
  {
    HiddenAlike(b, u, me, other, c, d, sender);
    hide Hidden, BlockRow, InInt4;
  }

  lemma RejectFromAlike(b: Store, u: Store, me: int, other: int, c: Call, d: Call, sender: int)
    requires d == c.(what := d.what)
    requires Alike(b, u, me, other) && Pending(b, sender, c.caller) && Pair(sender, c.caller) != Pair(other, me)
    ensures c.caller == other && sender == me ==> RejectFrom(b, c, sender) == (b, NOT_FOUND)
    ensures !(c.caller == other && sender == me) ==>
              && Alike(RejectFrom(b, c, sender).0, RejectFrom(u, d, sender).0, me, other)
              && RejectFrom(b, c, sender).1 == RejectFrom(u, d, sender).1
  {
  }

  /** The request `me` sent, probed by the other side. */
  ghost predicate ProbesHidden(b: Store, me: int, other: int, c: Call, id: int) {
    c.caller == other && Pair(me, other) in b.requests && b.requests[Pair(me, other)].id == id
  }

  lemma AcceptsAlike(b: Store, u: Store, me: int, other: int, c: Call, d: Call, r: map<int, int>, id: int)
    requires d == c.(what := d.what)
    requires Twins(b, u, me, other) && Renames(r, b, u)
    ensures ProbesHidden(b, me, other, c, id) ==> AfterAccept(b, c, id) == (b, NOT_FOUND)
    ensures !ProbesHidden(b, me, other, c, id) ==>
              && Alike(AfterAccept(b, c, id).0, AfterAccept(u, d, Renamed(r, id)).0, me, other)
              && AfterAccept(b, c, id).1 == AfterAccept(u, d, Renamed(r, id)).1
  {
    SenderAlike(b, u, me, other, r, id, c.caller);
    var row := SenderOf(b, id, c.caller);
    if row.Some? && !(row.value == other && c.caller == me) {
      AcceptFromAlike(b, u, me, other, c, d, row.value);
    }
  }

  lemma RejectsAlike(b: Store, u: Store, me: int, other: int, c: Call, d: Call, r: map<int, int>, id: int)
    requires d == c.(what := d.what)
    requires Twins(b, u, me, other) && Renames(r, b, u)
    ensures ProbesHidden(b, me, other, c, id) ==> AfterReject(b, c, id) == (b, NOT_FOUND)
    ensures !ProbesHidden(b, me, other, c, id) ==>
              && Alike(AfterReject(b, c, id).0, AfterReject(u, d, Renamed(r, id)).0, me, other)
              && AfterReject(b, c, id).1 == AfterReject(u, d, Renamed(r, id)).1
  {
    SenderAlike(b, u, me, other, r, id, c.caller);
    var row := SenderOf(b, id, c.caller);
    if row.Some? && !(row.value == other && c.caller == me) {
      RejectFromAlike(b, u, me, other, c, d, row.value);
    }
  }

  lemma RemovesAlike(b: Store, u: Store, me: int, other: int, c: Call, friend: int)
    requires Alike(b, u, me, other)
    ensures Alike(AfterRemove(b, c, friend).0, AfterRemove(u, c, friend).0, me, other)
    ensures AfterRemove(b, c, friend).1 == AfterRemove(u, c, friend).1
  {
  }

  lemma IncomingAlike(b: Store, u: Store, me: int, other: int, c: Call, r: map<int, int>)
    requires Alike(b, u, me, other) && Renames(r, b, u) && c.caller != other
    ensures IncomingOf(u, c) == RenamedEntries(r, IncomingOf(b, c))
  {
    forall e | e in IncomingOf(b, c) ensures e.(id := Renamed(r, e.id)) in IncomingOf(u, c) {
      assert Pair(e.user, c.caller) in u.requests;
    }
    forall e | e in IncomingOf(u, c) ensures e in RenamedEntries(r, IncomingOf(b, c)) {
      var q := b.requests[Pair(e.user, c.caller)];
      assert Entry(q.id, e.user, q.created) in IncomingOf(b, c);
      assert e == Entry(q.id, e.user, q.created).(id := Renamed(r, q.id));
    }
  }

  lemma OutgoingAlike(b: Store, u: Store, me: int, other: int, c: Call, r: map<int, int>)
    requires Alike(b, u, me, other) && Renames(r, b, u) && c.caller != other
    ensures OutgoingOf(u, c) == RenamedEntries(r, OutgoingOf(b, c))
  {
    forall e | e in OutgoingOf(b, c) ensures e.(id := Renamed(r, e.id)) in OutgoingOf(u, c) {
      assert Pair(c.caller, e.user) in u.requests;
    }
    forall e | e in OutgoingOf(u, c) ensures e in RenamedEntries(r, OutgoingOf(b, c)) {
      var q := b.requests[Pair(c.caller, e.user)];
      assert Entry(q.id, e.user, q.created) in OutgoingOf(b, c);
      assert e == Entry(q.id, e.user, q.created).(id := Renamed(r, q.id));
    }
  }

  lemma FriendListsAlike(b: Store, u: Store, me: int, other: int, c: Call)
    requires Alike(b, u, me, other) && Valid(b) && c.caller != other
    ensures FriendsOf(u, c) == FriendsOf(b, c)
  {
    forall p | p in b.friends && (p.from == c.caller || p.to == c.caller)
      ensures BlockRow(b, c.caller, Partner(p, c.caller)) == BlockRow(u, c.caller, Partner(p, c.caller))
    {
      assert p == Ordered(c.caller, Partner(p, c.caller));
    }
  }

  /** What a status is read off, but for the hidden row. */
  lemma RowsAlike(b: Store, u: Store, me: int, other: int, c: Call, r: map<int, int>, whom: int)
    requires Alike(b, u, me, other) && Renames(r, b, u) && c.caller != other
    ensures Ordered(c.caller, whom) in b.friends ==> BlockRow(b, c.caller, whom) == BlockRow(u, c.caller, whom)
    ensures Pending(b, c.caller, whom) == Pending(u, c.caller, whom)
    ensures Pending(b, c.caller, whom) ==>
              u.requests[Pair(c.caller, whom)].id == Renamed(r, b.requests[Pair(c.caller, whom)].id)
    ensures c.caller == me && whom == other ==> Hidden(b, c, whom, c.caller) && !Pending(u, whom, c.caller)
    ensures !(c.caller == me && whom == other) ==>
              && Pending(b, whom, c.caller) == Pending(u, whom, c.caller)
              && Hidden(b, c, whom, c.caller) == Hidden(u, c, whom, c.caller)
              && (Pending(b, whom, c.caller) ==>
                    u.requests[Pair(whom, c.caller)].id == Renamed(r, b.requests[Pair(whom, c.caller)].id))
  {
  }

  lemma StatusesAlike(b: Store, u: Store, me: int, other: int, c: Call, r: map<int, int>, whom: int)
    requires Alike(b, u, me, other) && Renames(r, b, u) && c.caller != other
    ensures StatusOf(u, c, whom) == RenamedAnswer(r, StatusOf(b, c, whom))
  {
    RowsAlike(b, u, me, other, c, r, whom);
    assert u.friends == b.friends;
    hide Alike, Renames, Hidden, BlockRow, Renamed, Ordered, RenamedEntries;
  }

  lemma SendAnswered(b: Store, u: Store, me: int, other: int, c: Call)
    requires Twins(b, u, me, other) && Fair(b, me, other, c) && c.what.Send?
    ensures Answered(b, u, me, other, c)
  {
    hide Renaming, Renames, Alike, Valid, AfterSend, Fair;
    var to := c.what.to;
    SendKeepsValid(b, c, to);
    SendKeepsValid(u, c, to);
    SendsKeepAlike(b, u, me, other, c, to);
    if !(c.caller == other && to == me) {
      SendsAnswerAlike(b, u, me, other, c, to);
    }
  }

  lemma AcceptAnswered(b: Store, u: Store, me: int, other: int, c: Call)
    requires Twins(b, u, me, other) && c.what.Accept?
    ensures Answered(b, u, me, other, c)
  {
    hide Renaming, Renames, Alike, Valid, AfterAccept;
    var r, id := Renaming(b, u), c.what.id;
    RenamingRenames(b, u);
    var d := c.(what := Accept(Renamed(r, id)));
    AcceptKeepsValid(b, c, id);
    AcceptKeepsValid(u, d, Renamed(r, id));
    AcceptsAlike(b, u, me, other, c, d, r, id);
  }

  lemma RejectAnswered(b: Store, u: Store, me: int, other: int, c: Call)
    requires Twins(b, u, me, other) && c.what.Reject?
    ensures Answered(b, u, me, other, c)
  {
    hide Renaming, Renames, Alike, Valid, AfterReject;
    var r, id := Renaming(b, u), c.what.id;
    RenamingRenames(b, u);
    var d := c.(what := Reject(Renamed(r, id)));
    RejectKeepsValid(b, c, id);
    RejectKeepsValid(u, d, Renamed(r, id));
    RejectsAlike(b, u, me, other, c, d, r, id);
  }

  lemma RemoveAnswered(b: Store, u: Store, me: int, other: int, c: Call)
    requires Twins(b, u, me, other) && c.what.Remove?
    ensures Answered(b, u, me, other, c)
  {
    hide Renaming, Renames, Alike, Valid, AfterRemove;
    RemoveKeepsValid(b, c, c.what.friend);
    RemoveKeepsValid(u, c, c.what.friend);
    RemovesAlike(b, u, me, other, c, c.what.friend);
  }

  lemma ReadAnswered(b: Store, u: Store, me: int, other: int, c: Call)
    requires Twins(b, u, me, other) && (c.what.Incoming? || c.what.Outgoing? || c.what.ListFriends? || c.what.Status?)
    ensures Answered(b, u, me, other, c)
  {
    hide Renaming, Renames, Alike, Valid, IncomingOf, OutgoingOf, FriendsOf, StatusOf, RenamedEntries;
    if c.caller != other {
      var r := Renaming(b, u);
      RenamingRenames(b, u);
      match c.what
      case Incoming => IncomingAlike(b, u, me, other, c, r);
      case Outgoing => OutgoingAlike(b, u, me, other, c, r);
      case ListFriends => FriendListsAlike(b, u, me, other, c);
      case Status(whom) => StatusesAlike(b, u, me, other, c, r, whom);
    }
  }

  /** `Fair` is exact: only an unblocked pair makes that lookup, and its failure tells. */
  lemma UnfairTells(b: Store, u: Store, me: int, other: int, c: Call)
    requires Twins(b, u, me, other) && !Fair(b, me, other, c)
    ensures !Answered(b, u, me, other, c)
  {
    FailedFriendLookupTells(b, u, me, other, c);
    hide Twins, Fair, Renaming;
    assert AfterSend(b, c, other).1.Refused? || AfterSend(b, c, other).1.Created?;
  }

  /** One call, in the blocked store and in its twin: the same answer, exactly if it is fair. */
  lemma CallAnswered(b: Store, u: Store, me: int, other: int, c: Call)
    requires Twins(b, u, me, other)
    ensures Answered(b, u, me, other, c) <==> Fair(b, me, other, c)
  {
    if !Fair(b, me, other, c) {
      UnfairTells(b, u, me, other, c);
    } else {
      match c.what
      case Send(_) => SendAnswered(b, u, me, other, c);
      case Accept(_) => AcceptAnswered(b, u, me, other, c);
      case Reject(_) => RejectAnswered(b, u, me, other, c);
      case Remove(_) => RemoveAnswered(b, u, me, other, c);
      case _ => ReadAnswered(b, u, me, other, c);
    }
  }

  /** Of a send across the block, with a friendship lookup that fails. */
  lemma FailedFriendLookupTells(b: Store, u: Store, me: int, other: int, c: Call)
    requires Alike(b, u, me, other) && c.caller == me && c.what == Send(other)
    ensures AfterSend(b, c, other).1 == AfterSend(u, c, other).1 <==> Fair(b, me, other, c)
  {
    assert PairBlocked(b, me, other) && !PairBlocked(u, me, other);
  }

  // --- Whole runs -----------------------------------------------------------------------

  /** Call after call, everyone but `other` is told in the two stores the same. */
  ghost predicate Indistinguishable(b: Store, u: Store, me: int, other: int, calls: seq<Call>)
    requires Valid(b)
    decreases |calls|
  {
    calls != [] ==>
      && Answered(b, u, me, other, calls[0])
      && Indistinguishable(Handle(b, calls[0]).0,
                           match Counterpart(b, u, me, other, calls[0]) {
                             case None => u
                             case Some(d) => Handle(u, d).0
                           },
                           me, other, calls[1..])
  }

  /** The unblocked store whose other side never wrote. */
  ghost function Unblocked(b: Store, me: int, other: int): Store {
    b.(blocked := b.blocked - {Pair(me, other), Pair(other, me)}, requests := b.requests - {Pair(other, me)})
  }

  /** Every call of the run is fair in the state it finds. */
  ghost predicate FairRun(b: Store, me: int, other: int, calls: seq<Call>)
    decreases |calls|
  {
    calls != [] ==> Fair(b, me, other, calls[0]) && FairRun(Handle(b, calls[0]).0, me, other, calls[1..])
  }

  lemma {:induction false} TwinsStayIndistinguishable(b: Store, u: Store, me: int, other: int, calls: seq<Call>)
    requires Twins(b, u, me, other)
    ensures Indistinguishable(b, u, me, other, calls) <==> FairRun(b, me, other, calls)
    decreases |calls|
  {
    hide Fair, Handle, Counterpart;
    if calls != [] {
      CallAnswered(b, u, me, other, calls[0]);
      if Fair(b, me, other, calls[0]) {
        var u' := match Counterpart(b, u, me, other, calls[0]) { case None => u case Some(d) => Handle(u, d).0 };
        TwinsStayIndistinguishable(Handle(b, calls[0]).0, u', me, other, calls[1..]);
      }
    }
  }

  lemma UnblockedIsTwin(b: Store, me: int, other: int)
    requires Valid(b) && me != other && InInt4(me) && InInt4(other)
    requires BlockRow(b, me, other) && Ordered(me, other) !in b.friends
    ensures Twins(b, Unblocked(b, me, other), me, other)
  {
  }

  /**
   The rule itself. From any store with a block between the two (in either
   direction), no friendship and whatever hidden row the other side left, a
   sequence of calls by anyone lets `me` - or a third party - tell it from the
   store where there is no block and the other side simply has not answered,
   exactly if one of `me`'s sends is told of a failed friendship lookup.
   */
  lemma BlockIsInvisible(b: Store, me: int, other: int, calls: seq<Call>)
    requires Valid(b) && me != other && InInt4(me) && InInt4(other)
    requires BlockRow(b, me, other) && Ordered(me, other) !in b.friends
    ensures Indistinguishable(b, Unblocked(b, me, other), me, other, calls) <==> FairRun(b, me, other, calls)
  {
    hide Indistinguishable, FairRun;
    UnblockedIsTwin(b, me, other);
    TwinsStayIndistinguishable(b, Unblocked(b, me, other), me, other, calls);
  }

  /** With no failing friendship lookup at all, none is told. */
  lemma {:induction false} NoFailureIsFair(b: Store, me: int, other: int, calls: seq<Call>)
    requires forall i :: 0 <= i < |calls| ==> FriendLookup !in calls[i].fails
    ensures FairRun(b, me, other, calls)
    decreases |calls|
  {
    hide Handle;
    if calls != [] {
      NoFailureIsFair(Handle(b, calls[0]).0, me, other, calls[1..]);
    }
  }

  // --- Lifting the block ----------------------------------------------------------------

  function Block(s: Store, blocker: int, target: int): Store {
    s.(blocked := s.blocked + {Pair(blocker, target)}, friends := s.friends - {Ordered(blocker, target)},
       requests := s.requests - {Pair(blocker, target), Pair(target, blocker)})
  }

  function Unblock(s: Store, blocker: int, target: int): Store {
    if Pair(blocker, target) !in s.blocked then s
    else s.(blocked := s.blocked - {Pair(blocker, target)}, friends := s.friends - {Ordered(blocker, target)},
            requests := s.requests - {Pair(blocker, target), Pair(target, blocker)})
  }

  /** Same rows but for their numbers. */
  ghost predicate SameButIds(s: Store, t: Store) {
    && s.users == t.users && s.friends == t.friends && s.blocked == t.blocked && s.requests.Keys == t.requests.Keys
    && forall k :: k in s.requests ==> SameRow(s.requests[k], t.requests[k])
  }

  /** To the sender, the block being lifted is the request being rejected, or their own removal of it. */
  lemma UnblockReadsAsARejection(b: Store, u: Store, me: int, other: int, c: Call)
    requires Twins(b, u, me, other) && Pair(other, me) in b.blocked && Pair(me, other) !in b.blocked
    requires Pending(u, me, other) && c.caller == other && c.fails == {}
    requires c.what == Reject(u.requests[Pair(me, other)].id)
    ensures Handle(u, c).1 == Ok
    ensures SameButIds(Unblock(b, other, me), Handle(u, c).0)
  {
    assert Names(u, u.requests[Pair(me, other)].id, me, other);
  }

  lemma BlockKeepsValid(s: Store, blocker: int, target: int)
    requires Valid(s) && InInt4(blocker) && InInt4(target)
    ensures Valid(Block(s, blocker, target))
  {
  }

  /** A block made now starts from the twin's own state: no friendship, and nothing pending either way. */
  lemma BlockingStartsClean(s: Store, blocker: int, target: int)
    requires Valid(s) && blocker != target && InInt4(blocker) && InInt4(target)
    requires Pair(blocker, target) !in s.blocked && Pair(target, blocker) !in s.blocked
    ensures var b := Block(s, blocker, target);
            && Twins(b, s.(friends := b.friends, requests := b.requests), target, blocker)
            && Twins(b, s.(friends := b.friends, requests := b.requests), blocker, target)
  {
    hide Valid, Alike;
    var b := Block(s, blocker, target);
    BlockKeepsValid(s, blocker, target);
    UnblockedIsTwin(b, blocker, target);
    UnblockedIsTwin(b, target, blocker);
    assert b.blocked - {Pair(blocker, target), Pair(target, blocker)} == s.blocked;
    assert b.blocked - {Pair(target, blocker), Pair(blocker, target)} == s.blocked;
    assert b.requests - {Pair(blocker, target)} == b.requests == b.requests - {Pair(target, blocker)};
  }

  // --- The handlers over the tables ------------------------------------------------------

  class FriendStore {
    var users: map<int, bool>
    var friends: map<Pair, int>
    var requests: map<Pair, Request>
    var blocked: set<Pair>
    var nextId: int

    function State(): Store
      reads this
    {
      Store(users, friends, requests, blocked, nextId)
    }

    /** Rows whose id is `id`, which a serial column makes at most one. */
    method DeleteById(id: int)
      modifies this`requests
      ensures requests == map k | k in old(requests) && old(requests)[k].id != id :: old(requests)[k]
    {
      requests := map k | k in requests && requests[k].id != id :: requests[k];
    }

    /** The recipient's pending row with this id. */
    method FindPending(c: Call, id: int) returns (row: Option<Pair>)
      requires Valid(State())
      ensures row.Some? ==> row.value.to == c.caller && RequestLookup !in c.fails
                            && SenderOf(State(), id, c.caller) == Some(row.value.from)
      ensures row.None? ==> RequestLookup in c.fails || SenderOf(State(), id, c.caller) == None
    {
      if RequestLookup in c.fails {
        return None;
      }
      if k :| k in requests && k.to == c.caller && requests[k].pending && requests[k].id == id {
        assert Names(State(), id, k.from, c.caller);
        row := Some(k);
      } else {
        assert forall f :: Names(State(), id, f, c.caller) ==> Pair(f, c.caller) in requests;
        row := None;
      }
    }

    method SendRequest(c: Call, to: int) returns (answer: Answer)
      modifies this`requests, this`nextId
      ensures (State(), answer) == AfterSend(old(State()), c, to)
    {
      if c.caller == to {
        return Refused(400, "Cannot send friend request to yourself");
      }
      var found := UserLookup !in c.fails && to in users && users[to];
      if !found {
        return Refused(404, "User not found");
      }
      if BlockLookup in c.fails {
        return Refused(500, "Could not verify block status");
      }
      var across := PairBlocked(State(), c.caller, to);
      if !across {
        if FriendLookup in c.fails {
          return Refused(500, "Failed to send request");
        }
        if Ordered(c.caller, to) in friends {
          return Refused(409, "Already friends");
        }
      }
      if RequestLookup in c.fails {
        return Refused(500, "Failed to send request");
      }
      var mine, theirs := Pair(c.caller, to), Pair(to, c.caller);
      var row: Option<Request> := None;
      if !across && theirs in requests && (c.reverseFirst || mine !in requests) {
        row := Some(requests[theirs]);
      } else if mine in requests {
        row := Some(requests[mine]);
      }
      if row.Some? && row.value.pending {
        return Refused(409, "Friend request already pending");
      }
      if RequestWrite in c.fails {
        return Refused(500, "Failed to send request");
      }
      // the serial is drawn even when the insert turns into an update
      var id := if mine in requests then requests[mine].id else nextId;
      requests := requests[mine := Request(id, true, c.now)];
      nextId := nextId + 1;
      answer := Created;
    }

    method AcceptRequest(c: Call, id: int) returns (answer: Answer)
      requires Valid(State())
      modifies this`requests, this`friends
      ensures (State(), answer) == AfterAccept(old(State()), c, id)
    {
      var row := FindPending(c, id);
      if row.None? {
        return NOT_FOUND;
      }
      var key := row.value;
      if Hidden(State(), c, key.from, key.to) {
        return NOT_FOUND;
      }
      if FriendWrite in c.fails {
        return Refused(500, "Failed to accept request");
      }
      if Ordered(key.from, key.to) !in friends {
        friends := friends[Ordered(key.from, key.to) := c.now];
      }
      if StatusWrite !in c.fails {
        requests := map k | k in requests :: if requests[k].id == id then requests[k].(pending := false)
            else requests[k];
        assert requests == old(requests)[key := old(requests)[key].(pending := false)];
      }
      answer := Ok;
    }

    method RejectRequest(c: Call, id: int) returns (answer: Answer)
      requires Valid(State())
      modifies this`requests
      ensures (State(), answer) == AfterReject(old(State()), c, id)
    {
      var row := FindPending(c, id);
      if row.None? {
        return NOT_FOUND;
      }
      if Hidden(State(), c, row.value.from, row.value.to) {
        return NOT_FOUND;
      }
      if RequestWrite !in c.fails {
        DeleteById(id);
        assert requests == old(requests) - {row.value};
      }
      answer := Ok;
    }

    method RemoveFriend(c: Call, friend: int) returns (answer: Answer)
      modifies this`requests, this`friends
      ensures (State(), answer) == AfterRemove(old(State()), c, friend)
    {
      if RequestWrite !in c.fails {
        requests := requests - {Pair(c.caller, friend), Pair(friend, c.caller)};
      }
      if FriendWrite in c.fails {
        return Refused(500, "Failed to remove friend");
      }
      var pair := Ordered(c.caller, friend);
      var removed := pair in friends;
      friends := friends - {pair};
      answer := if removed then Ok else Refused(404, "Friendship not found");
    }

    method FriendshipStatus(c: Call, other: int) returns (answer: Answer)
      ensures answer == StatusOf(State(), c, other)
    {
      if FriendLookup !in c.fails && Ordered(c.caller, other) in friends && !BlockRow(State(), c.caller, other) {
        return Friendship(true, false, false, None);
      }
      var sent, received := Pair(c.caller, other), Pair(other, c.caller);
      if RequestLookup !in c.fails && sent in requests && requests[sent].pending {
        return Friendship(false, true, false, Some(requests[sent].id));
      }
      var row: Option<int> := None;
      if ReverseLookup !in c.fails && received in requests && requests[received].pending {
        row := Some(requests[received].id);
        if Hidden(State(), c, other, c.caller) {
          row := None;
        }
      }
      answer := Friendship(false, false, row.Some?, row);
    }

    method BlockUser(blocker: int, target: int)
      modifies this
      ensures State() == Block(old(State()), blocker, target)
    {
      blocked := blocked + {Pair(blocker, target)};
      requests := requests - {Pair(blocker, target), Pair(target, blocker)};
      friends := friends - {Ordered(blocker, target)};
    }

    method UnblockUser(blocker: int, target: int)
      modifies this
      ensures State() == Unblock(old(State()), blocker, target)
    {
      var removed := Pair(blocker, target) in blocked;
      blocked := blocked - {Pair(blocker, target)};
      if removed {
        requests := requests - {Pair(blocker, target), Pair(target, blocker)};
        friends := friends - {Ordered(blocker, target)};
      }
    }
  }
}
