/**
 Sessions bound to devices: the device-token mint, the attestation bind, the
 revocation of a device, "sign out everywhere" and the authentication middleware,
 interleaved statement by statement as PostgreSQL runs them under READ COMMITTED.

 A transaction in flight is a `Txn`; what it has not committed is nobody else's to
 see. Row locks are read off the transactions that hold them.
 */
module DeviceSessions {
  import opened Wrappers
  import opened Sessions

  datatype Device = Device(user: int, revoked: bool)
  datatype Session = Session(user: int, device: Option<string>, revoked: bool)

  /** The committed rows. `users` holds each account's token version. */
  datatype Db = Db(users: map<int, int>, devices: map<string, Device>, sessions: map<string, Session>)

  /** Work under way between two statements. */
  datatype Txn =
    | MintChecked(device: string, user: int, tv: int)             // signature checked, no lock held
    | MintLocked(device: string, user: int, tv: int, sid: string) // share lock, row not yet visible
    | BindLocked(device: string, user: int, session: Option<string>)  // share lock, binding not yet visible
    | RevokeBegun(device: string, user: int)
    | RevokeMarked(device: string, user: int, locked: bool)       // `locked`: the mark matched the row
    | RevokeSwept(device: string, user: int, locked: bool, sids: set<string>)
    | SignOutSwept(user: int, sids: set<string>)
    | SignOutMarked(user: int, sids: set<string>, marked: set<string>)
    | Renewing(renewed: Claims, legacy: bool)                     // accepted, renewal not yet recorded

  /** `swept`: the devices some revocation has committed for. `tokens`: every token ever handed out. */
  datatype World = World(db: Db, txns: map<nat, Txn>, tokens: set<Claims>, swept: set<string>)

  // --- Acceptance -----------------------------------------------------------------

  /** The row the middleware's one query finds refuses the token. */
  predicate Refused(db: Db, s: Session) {
    s.revoked || (s.device.Some? && (s.device.value !in db.devices || db.devices[s.device.value].revoked))
  }

  predicate TokenSessionLive(db: Db, c: Claims) {
    && c.sub in db.users && db.users[c.sub] == c.tv
    && !(c.sid in db.sessions && db.sessions[c.sid].user == c.sub && Refused(db, db.sessions[c.sid]))
  }

  predicate Accepts(db: Db, c: Claims, now: int) {
    Unexpired(c, now) && TokenSessionLive(db, c)
  }

  // --- Locks ------------------------------------------------------------------------

  predicate Shares(t: Txn, d: string) {
    (t.MintLocked? || t.BindLocked?) && t.device == d
  }

  predicate Excludes(t: Txn, d: string) {
    || ((t.RevokeMarked? || t.RevokeSwept?) && t.locked && t.device == d)
    || (t.SignOutMarked? && d in t.marked)
  }

  predicate NobodyExcludes(w: World, d: string) {
    forall i :: i in w.txns ==> !Excludes(w.txns[i], d)
  }

  predicate NobodyHolds(w: World, d: string) {
    forall i :: i in w.txns ==> !Excludes(w.txns[i], d) && !Shares(w.txns[i], d)
  }

  predicate LiveDevice(db: Db, d: string, user: int) {
    d in db.devices && db.devices[d] == Device(user, false)
  }

  // --- Statements ---------------------------------------------------------------------

  datatype Action =
    | Enrol(device: string, user: int)
    | SignIn(claims: Claims)
    | ReadForMint(txn: nat, device: string)
    | LockForMint(txn: nat, sid: string)
    | CommitMint(txn: nat, now: int)
    | LockForBind(txn: nat, device: string, user: int, session: Option<string>)
    | CommitBind(txn: nat)
    | BeginRevoke(txn: nat, device: string, user: int)
    | MarkDevice(txn: nat)
    | SweepSessions(txn: nat)
    | CommitRevoke(txn: nat)
    | SweepAccount(txn: nat, user: int)
    | MarkAccount(txn: nat)
    | CommitSignOut(txn: nat)
    | SignOutSession(sid: string, user: int)
    | AcceptRequest(txn: nat, claims: Claims, now: int, mintedAt: int, freshSid: string)
    | RecordRenewal(txn: nat)
    | Abort(txn: nat)

  predicate FreshSid(w: World, sid: string) {
    && sid != "" && sid !in w.db.sessions
    && (forall c :: c in w.tokens ==> c.sid != sid)
    && (forall i :: i in w.txns ==> !Carries(w.txns[i], sid))
  }

  /** Whether a statement can run now: its transaction is at that point, and no lock makes it wait. */
  predicate Enabled(w: World, a: Action) {
    match a
    case Enrol(_, user) => user in w.db.users
    case SignIn(c) => FreshSid(w, c.sid) && c.sub in w.db.users
    case ReadForMint(i, d) => i !in w.txns && d in w.db.devices && w.db.devices[d].user in w.db.users
    case LockForMint(i, sid) =>
      i in w.txns && w.txns[i].MintChecked? && FreshSid(w, sid) && NobodyExcludes(w, w.txns[i].device)
    case CommitMint(i, _) => i in w.txns && w.txns[i].MintLocked?
    case LockForBind(i, d, _, _) => i !in w.txns && NobodyExcludes(w, d)
    case CommitBind(i) => i in w.txns && w.txns[i].BindLocked?
    case BeginRevoke(i, d, user) => i !in w.txns && d in w.db.devices && w.db.devices[d].user == user
    case MarkDevice(i) =>
      && i in w.txns && w.txns[i].RevokeBegun?
      && (LiveDevice(w.db, w.txns[i].device, w.txns[i].user) ==> NobodyHolds(w, w.txns[i].device))
    case SweepSessions(i) => i in w.txns && w.txns[i].RevokeMarked?
    case CommitRevoke(i) => i in w.txns && w.txns[i].RevokeSwept?
    case SweepAccount(i, user) => i !in w.txns && user in w.db.users
    case MarkAccount(i) =>
      && i in w.txns && w.txns[i].SignOutSwept?
      && forall d :: d in w.db.devices && LiveDevice(w.db, d, w.txns[i].user) ==> NobodyHolds(w, d)
    case CommitSignOut(i) => i in w.txns && w.txns[i].SignOutMarked? && w.txns[i].user in w.db.users
    case SignOutSession(_, _) => true
    case AcceptRequest(i, c, now, mintedAt, newSid) =>
      i !in w.txns && c in w.tokens && now <= mintedAt && FreshSid(w, newSid) && Accepts(w.db, c, now)
    case RecordRenewal(i) => i in w.txns && w.txns[i].Renewing?
    case Abort(i) => i in w.txns
  }

  function BoundLive(db: Db, d: string, user: int): set<string> {
    set sid | sid in db.sessions && db.sessions[sid] == Session(user, Some(d), false)
  }

  function AccountLive(db: Db, user: int): set<string> {
    set sid | sid in db.sessions && db.sessions[sid].user == user && !db.sessions[sid].revoked
  }

  function RevokeSessions(sessions: map<string, Session>, sids: set<string>): map<string, Session> {
    map sid | sid in sessions :: if sid in sids then sessions[sid].(revoked := true) else sessions[sid]
  }

  function RevokeDevices(devices: map<string, Device>, marked: set<string>): map<string, Device> {
    map d | d in devices :: if d in marked then devices[d].(revoked := true) else devices[d]
  }

  function DeviceToken(t: Txn, now: int): Claims
    requires t.MintLocked?
  {
    Claims(t.user, "", now + DEVICE_TOKEN_TTL_HOURS * HOUR, t.tv, now, t.sid, false)
  }

  /** The committed rows after a statement: only an autocommitted statement or a commit changes them. */
  function NextDb(w: World, a: Action): Db
    requires Enabled(w, a)
  {
    match a
    case Enrol(d, user) =>
      // A revoked device stays revoked, and another account's row is never overwritten.
      if d in w.db.devices then w.db else w.db.(devices := w.db.devices[d := Device(user, false)])
    case SignIn(c) => w.db.(sessions := w.db.sessions[c.sid := Session(c.sub, None, false)])
    case CommitMint(i, _) =>
      var t := w.txns[i];
      w.db.(sessions := w.db.sessions[t.sid := Session(t.user, Some(t.device), false)])
    case CommitBind(i) =>
      var t := w.txns[i];
      if t.session.Some? && t.session.value in w.db.sessions && w.db.sessions[t.session.value].user == t.user
         && w.db.sessions[t.session.value].device.None?
      then w.db.(sessions := w.db.sessions[t.session.value :=
          w.db.sessions[t.session.value].(device := Some(t.device))])
      else w.db
    case CommitRevoke(i) =>
      var t := w.txns[i];
      w.db.(devices := RevokeDevices(w.db.devices, if t.locked then {t.device} else {}),
            sessions := RevokeSessions(w.db.sessions, t.sids))
    case CommitSignOut(i) =>
      var t := w.txns[i];
      Db(w.db.users[t.user := w.db.users[t.user] + 1], RevokeDevices(w.db.devices, t.marked),
         RevokeSessions(w.db.sessions, t.sids))
    case SignOutSession(sid, user) =>
      if sid in w.db.sessions && w.db.sessions[sid].user == user
      then w.db.(sessions := RevokeSessions(w.db.sessions, {sid}))
      else w.db
    case RecordRenewal(i) =>
      var t := w.txns[i];
      if t.legacy && t.renewed.sid !in w.db.sessions
      then w.db.(sessions := w.db.sessions[t.renewed.sid := Session(t.renewed.sub, None, false)])
      else w.db
    case _ => w.db
  }

  /** The transactions after a statement. */
  function NextTxns(w: World, a: Action): map<nat, Txn>
    requires Enabled(w, a)
  {
    match a
    case ReadForMint(i, d) =>
      var dev := w.db.devices[d];
      if dev.revoked then w.txns else w.txns[i := MintChecked(d, dev.user, w.db.users[dev.user])]
    case LockForMint(i, sid) =>
      var t := w.txns[i];
      if LiveDevice(w.db, t.device, t.user) then w.txns[i := MintLocked(t.device, t.user, t.tv, sid)] else w.txns - {i}
    case LockForBind(i, d, user, session) =>
      if LiveDevice(w.db, d, user) then w.txns[i := BindLocked(d, user, session)] else w.txns
    case BeginRevoke(i, d, user) => w.txns[i := RevokeBegun(d, user)]
    case MarkDevice(i) =>
      var t := w.txns[i];
      w.txns[i := RevokeMarked(t.device, t.user, LiveDevice(w.db, t.device, t.user))]
    case SweepSessions(i) =>
      var t := w.txns[i];
      w.txns[i := RevokeSwept(t.device, t.user, t.locked, BoundLive(w.db, t.device, t.user))]
    case SweepAccount(i, user) => w.txns[i := SignOutSwept(user, AccountLive(w.db, user))]
    case MarkAccount(i) =>
      var t := w.txns[i];
      w.txns[i := SignOutMarked(t.user, t.sids, set d | d in w.db.devices && LiveDevice(w.db, d, t.user))]
    case AcceptRequest(i, c, now, mintedAt, newSid) =>
      var sid := if c.sid == "" then newSid else c.sid;
      (match RenewIfStale(c, sid, now, mintedAt)
       case Some(r) => w.txns[i := Renewing(r, c.sid == "")]
       case None => w.txns)
    case CommitMint(i, _) => w.txns - {i}
    case CommitBind(i) => w.txns - {i}
    case CommitRevoke(i) => w.txns - {i}
    case CommitSignOut(i) => w.txns - {i}
    case RecordRenewal(i) => w.txns - {i}
    case Abort(i) => w.txns - {i}
    case _ => w.txns
  }

  /** The token a statement hands out, if it hands one out: never before its session has a row. */
  function Issued(w: World, a: Action): Option<Claims>
    requires Enabled(w, a)
  {
    match a
    case SignIn(c) => Some(c.(tv := w.db.users[c.sub]))
    case CommitMint(i, now) => Some(DeviceToken(w.txns[i], now))
    case RecordRenewal(i) =>
      if w.txns[i].legacy || w.txns[i].renewed.sid in w.db.sessions then Some(w.txns[i].renewed) else None
    case _ => None
  }

  function Next(w: World, a: Action): World
    requires Enabled(w, a)
  {
    World(NextDb(w, a), NextTxns(w, a),
          match Issued(w, a) { case Some(c) => w.tokens + {c} case None => w.tokens },
          if a.CommitRevoke? then w.swept + {w.txns[a.txn].device} else w.swept)
  }

  // --- What every statement keeps ---------------------------------------------------

  /** A transaction names a device only together with that device's own account. */
  predicate WellNamed(db: Db, t: Txn) {
    match t
    case MintChecked(d, u, _) => d in db.devices && db.devices[d].user == u
    case MintLocked(d, u, _, _) => d in db.devices && db.devices[d].user == u
    case BindLocked(d, u, _) => d in db.devices && db.devices[d].user == u
    case RevokeBegun(d, u) => d in db.devices && db.devices[d].user == u
    case RevokeMarked(d, u, locked) => d in db.devices && db.devices[d].user == u && (locked || db.devices[d].revoked)
    case RevokeSwept(d, u, locked, sids) =>
      && d in db.devices && db.devices[d].user == u && (locked || db.devices[d].revoked)
      && BoundLive(db, d, u) <= sids
    case SignOutMarked(u, _, marked) => forall d :: d in marked ==> d in db.devices && db.devices[d].user == u
    case _ => true
  }

  /** A lock is only ever held on a device that is not revoked. */
  ghost predicate LocksLive(w: World) {
    forall i, d {:trigger Shares(w.txns[i], d)} {:trigger Excludes(w.txns[i], d)} ::
      i in w.txns && (Shares(w.txns[i], d) || Excludes(w.txns[i], d)) ==> d in w.db.devices && !w.db.devices[d].revoked
  }

  /** An exclusive lock tolerates no other lock on the same device. */
  ghost predicate Exclusive(w: World) {
    forall i, j, d {:trigger Excludes(w.txns[i], d), Shares(w.txns[j], d)}
                   {:trigger Excludes(w.txns[i], d), Excludes(w.txns[j], d)} ::
      i in w.txns && j in w.txns && Excludes(w.txns[i], d) ==>
        !Shares(w.txns[j], d) && (Excludes(w.txns[j], d) ==> i == j)
  }

  ghost predicate Bound(db: Db) {
    forall sid :: sid in db.sessions && db.sessions[sid].device.Some? ==>
      var d := db.sessions[sid].device.value;
      d in db.devices && db.devices[d].user == db.sessions[sid].user
  }

  /** Revoked, and no live row bound to it. */
  ghost predicate Clean(db: Db, d: string) {
    d in db.devices && db.devices[d].revoked
    && forall sid :: sid in db.sessions && db.sessions[sid].device == Some(d) ==> db.sessions[sid].revoked
  }

  /** Every device some revocation committed for. */
  ghost predicate SweptClean(w: World) {
    forall d :: d in w.swept ==> Clean(w.db, d)
  }

  /** A transaction that will insert a session row, and the sid it will insert. */
  predicate Reserves(t: Txn) { t.MintLocked? || (t.Renewing? && t.legacy) }

  predicate Carries(t: Txn, sid: string) {
    (t.MintLocked? && t.sid == sid) || (t.Renewing? && t.renewed.sid == sid)
  }

  /** A sid waiting to be inserted is nobody else's: not a row's, not a token's, not another transaction's. */
  ghost predicate SidsReserved(w: World) {
    forall i, sid {:trigger Carries(w.txns[i], sid)} ::
      i in w.txns && Reserves(w.txns[i]) && Carries(w.txns[i], sid) ==>
        && sid !in w.db.sessions
        && (forall j :: j in w.txns && j != i ==> !Carries(w.txns[j], sid))
        && (forall c :: c in w.tokens ==> c.sid != sid)
  }

  /** A token belongs to the account its session row belongs to. */
  ghost predicate TokensOwned(w: World) {
    forall c :: c in w.tokens && c.sid in w.db.sessions ==> w.db.sessions[c.sid].user == c.sub
  }

  /** So does a renewal about to be handed out; one that is not its session's first repeats a token's sid. */
  ghost predicate RenewalOwned(w: World, t: Txn) {
    t.Renewing? ==>
      && (t.renewed.sid in w.db.sessions ==> w.db.sessions[t.renewed.sid].user == t.renewed.sub)
      && (!t.legacy ==> exists c :: c in w.tokens && c.sid == t.renewed.sid && c.sub == t.renewed.sub)
  }

  ghost predicate RenewalsOwned(w: World) {
    forall i :: i in w.txns ==> RenewalOwned(w, w.txns[i])
  }

  ghost predicate Inv(w: World) {
    && Named(w) && LocksLive(w) && Exclusive(w) && Bound(w.db) && SweptClean(w) && SidsReserved(w)
    && TokensOwned(w) && RenewalsOwned(w)
  }

  ghost predicate Named(w: World) {
    forall i :: i in w.txns ==> WellNamed(w.db, w.txns[i])
  }

  /** A device keeps its account, and a revoked one stays revoked. */
  predicate DevicesKept(db: Db, later: Db) {
    forall d :: d in db.devices ==>
      d in later.devices && later.devices[d].user == db.devices[d].user
          && (db.devices[d].revoked ==> later.devices[d].revoked)
  }

  lemma StepKeepsDevices(w: World, a: Action)
    requires Enabled(w, a)
    ensures DevicesKept(w.db, Next(w, a).db)
  {
    hide NextTxns, Issued;
  }

  /** Whoever commits a binding holds the share lock. */
  lemma BindsUnderShareLock(w: World, a: Action, sid: string, d: string, user: int)
    requires Enabled(w, a) && sid in BoundLive(Next(w, a).db, d, user) && sid !in BoundLive(w.db, d, user)
    ensures (a.CommitMint? || a.CommitBind?) && a.txn in w.txns && Shares(w.txns[a.txn], d)
  {
    hide NextTxns, Issued;
  }

  /** So nobody who has swept the device finds a live row bound to it afterwards. */
  lemma SweptStaysSwept(w: World, a: Action, i: nat)
    requires Named(w) && LocksLive(w) && Exclusive(w) && Enabled(w, a) && i in w.txns && w.txns[i].RevokeSwept?
    ensures BoundLive(Next(w, a).db, w.txns[i].device, w.txns[i].user)
            <= BoundLive(w.db, w.txns[i].device, w.txns[i].user)
  {
    hide Next, Enabled, BoundLive;
    var t := w.txns[i];
    assert WellNamed(w.db, t) && (t.locked ==> Excludes(t, t.device));
    forall sid | sid in BoundLive(Next(w, a).db, t.device, t.user) ensures sid in BoundLive(w.db, t.device, t.user) {
      if sid !in BoundLive(w.db, t.device, t.user) {
        BindsUnderShareLock(w, a, sid, t.device, t.user);
      }
    }
  }

  lemma StaysNamed(db: Db, later: Db, t: Txn)
    requires WellNamed(db, t) && DevicesKept(db, later)
    requires t.RevokeSwept? ==> BoundLive(later, t.device, t.user) <= BoundLive(db, t.device, t.user)
    ensures WellNamed(later, t)
  {
  }

  lemma NewIsNamed(w: World, a: Action, i: nat)
    requires Named(w) && Enabled(w, a) && i in Next(w, a).txns && (i in w.txns ==> Next(w, a).txns[i] != w.txns[i])
    ensures Next(w, a).db == w.db && WellNamed(w.db, Next(w, a).txns[i])
  {
    hide Issued, FreshSid, NobodyExcludes, NobodyHolds, Accepts, BoundLive, RenewIfStale;
    if i in w.txns {
      assert WellNamed(w.db, w.txns[i]);
    }
  }

  lemma StepKeepsNames(w: World, a: Action)
    requires Inv(w) && Enabled(w, a)
    ensures Named(Next(w, a))
  {
    hide Enabled, Next, WellNamed, SweptClean, SidsReserved, TokensOwned, RenewalsOwned, LocksLive, Exclusive;
    var n := Next(w, a);
    StepKeepsDevices(w, a);
    forall i | i in n.txns ensures WellNamed(n.db, n.txns[i]) {
      if i in w.txns && n.txns[i] == w.txns[i] {
        if w.txns[i].RevokeSwept? {
          SweptStaysSwept(w, a, i);
        }
        StaysNamed(w.db, n.db, w.txns[i]);
      } else {
        NewIsNamed(w, a, i);
      }
    }
  }

  /** A lock that a statement newly takes: on a live device, and nobody holds one that excludes it. */
  lemma NewLock(w: World, a: Action, i: nat, d: string)
    requires Inv(w) && Enabled(w, a)
    requires !a.SweepSessions? && i in Next(w, a).txns && (i in w.txns ==> Next(w, a).txns[i] != w.txns[i])
    requires Shares(Next(w, a).txns[i], d) || Excludes(Next(w, a).txns[i], d)
    ensures Next(w, a).db == w.db && d in w.db.devices && !w.db.devices[d].revoked
    ensures Next(w, a).txns == w.txns[i := Next(w, a).txns[i]]
    ensures forall j :: j in w.txns && j != i ==>
              && !Excludes(w.txns[j], d)
              && (Excludes(Next(w, a).txns[i], d) ==> !Shares(w.txns[j], d))
  {
    if a.MarkAccount? {
      assert LiveDevice(w.db, d, w.txns[i].user);
    }
  }

  /** The sweep takes no lock and drops none. */
  lemma SweepKeepsLocks(w: World, a: Action)
    requires Enabled(w, a) && a.SweepSessions?
    ensures Next(w, a).db == w.db && Next(w, a).txns.Keys == w.txns.Keys
    ensures forall i, d :: i in w.txns ==>
              && Shares(Next(w, a).txns[i], d) == Shares(w.txns[i], d)
              && Excludes(Next(w, a).txns[i], d) == Excludes(w.txns[i], d)
  {
  }

  /** A commit that marks a device held its exclusive lock, and holds it no longer. */
  lemma MarkedByItsLockHolder(w: World, a: Action, d: string)
    requires Inv(w) && Enabled(w, a)
    requires d in w.db.devices && !w.db.devices[d].revoked && d in Next(w, a).db.devices
             && Next(w, a).db.devices[d].revoked
    ensures (a.CommitRevoke? || a.CommitSignOut?) && Excludes(w.txns[a.txn], d)
    ensures Next(w, a).txns == w.txns - {a.txn}
  {
  }

  lemma StepKeepsLocksLive(w: World, a: Action)
    requires Inv(w) && Enabled(w, a)
    ensures LocksLive(Next(w, a))
  {
    var n := Next(w, a);
    forall i, d | i in n.txns && (Shares(n.txns[i], d) || Excludes(n.txns[i], d))
      ensures d in n.db.devices && !n.db.devices[d].revoked
    {
      if a.SweepSessions? {
        SweepKeepsLocks(w, a);
      } else if i in w.txns && w.txns[i] == n.txns[i] {
        assert d in w.db.devices && d in n.db.devices;
        if n.db.devices[d].revoked {
          MarkedByItsLockHolder(w, a, d);
        }
      } else {
        NewLock(w, a, i, d);
      }
    }
  }

  lemma StepKeepsExclusive(w: World, a: Action)
    requires Inv(w) && Enabled(w, a)
    ensures Exclusive(Next(w, a))
  {
    var n := Next(w, a);
    forall i, j, d | i in n.txns && j in n.txns && i != j && Excludes(n.txns[i], d)
      ensures !Shares(n.txns[j], d) && !Excludes(n.txns[j], d)
    {
      if a.SweepSessions? {
        SweepKeepsLocks(w, a);
      } else if !(i in w.txns && w.txns[i] == n.txns[i]) {
        NewLock(w, a, i, d);
      } else if Shares(n.txns[j], d) || Excludes(n.txns[j], d) {
        if !(j in w.txns && w.txns[j] == n.txns[j]) {
          NewLock(w, a, j, d);
        }
      }
    }
  }

  lemma StepKeepsBoundRows(w: World, a: Action)
    requires Inv(w) && Enabled(w, a)
    ensures Bound(Next(w, a).db)
  {
  }

  lemma CommitCleans(w: World, txn: nat)
    requires Bound(w.db) && Named(w) && Enabled(w, CommitRevoke(txn))
    ensures Clean(Next(w, CommitRevoke(txn)).db, w.txns[txn].device)
  {
    var t := w.txns[txn];
    assert WellNamed(w.db, t);
    forall sid | sid in w.db.sessions && w.db.sessions[sid].device == Some(t.device) && !w.db.sessions[sid].revoked
      ensures sid in t.sids
    {
      assert sid in BoundLive(w.db, t.device, t.user);
    }
  }

  lemma StaysClean(w: World, a: Action, d: string)
    requires Bound(w.db) && LocksLive(w) && Enabled(w, a) && Clean(w.db, d) && Bound(Next(w, a).db)
    ensures Clean(Next(w, a).db, d)
  {
    hide Enabled, Next;
    var n := Next(w, a);
    StepKeepsDevices(w, a);
    forall sid | sid in n.db.sessions && n.db.sessions[sid].device == Some(d) ensures n.db.sessions[sid].revoked {
      if !n.db.sessions[sid].revoked {
        assert sid in BoundLive(n.db, d, n.db.devices[d].user) && sid !in BoundLive(w.db, d, n.db.devices[d].user);
        BindsUnderShareLock(w, a, sid, d, n.db.devices[d].user);
      }
    }
  }

  lemma NewlySwept(w: World, a: Action, d: string)
    requires Enabled(w, a) && d in Next(w, a).swept && d !in w.swept
    ensures a.CommitRevoke? && d == w.txns[a.txn].device
  {
  }

  lemma StepKeepsSweptClean(w: World, a: Action)
    requires Inv(w) && Enabled(w, a)
    ensures SweptClean(Next(w, a))
  {
    StepKeepsBoundRows(w, a);
    hide Enabled, Next, SidsReserved, TokensOwned, RenewalsOwned, Exclusive;
    forall d | d in Next(w, a).swept ensures Clean(Next(w, a).db, d) {
      if d in w.swept {
        StaysClean(w, a, d);
      } else {
        NewlySwept(w, a, d);
        CommitCleans(w, a.txn);
      }
    }
  }

  /** Bindings are for good: a row once bound to a device stays, bound to that device. */
  ghost predicate KeepsBindings(db: Db, later: Db) {
    forall sid :: sid in db.sessions ==>
      && sid in later.sessions && later.sessions[sid].user == db.sessions[sid].user
      && (db.sessions[sid].device.Some? ==> later.sessions[sid].device == db.sessions[sid].device)
  }

  lemma StepKeepsBindings(w: World, a: Action)
    requires Inv(w) && Enabled(w, a)
    ensures KeepsBindings(w.db, Next(w, a).db)
    ensures w.swept <= Next(w, a).swept && w.tokens <= Next(w, a).tokens
  {
    if a.CommitMint? {
      assert Carries(w.txns[a.txn], w.txns[a.txn].sid);
    }
  }

  /** The sids a statement newly writes into rows or tokens were free, or its own transaction's. */
  lemma NewSids(w: World, a: Action, sid: string)
    requires Inv(w) && Enabled(w, a)
    requires (sid in Next(w, a).db.sessions && sid !in w.db.sessions)
             || (exists c :: c in Next(w, a).tokens && c !in w.tokens && c.sid == sid)
    ensures || (a.SignIn? && sid == a.claims.sid && FreshSid(w, sid))
            || ((a.CommitMint? || a.RecordRenewal?) && Carries(w.txns[a.txn], sid) && a.txn !in Next(w, a).txns
                && (sid in w.db.sessions ==> !Reserves(w.txns[a.txn]))
                && (sid !in w.db.sessions && sid in Next(w, a).db.sessions ==> Reserves(w.txns[a.txn])))
  {
    if a.CommitMint? || a.RecordRenewal? {
      assert Carries(w.txns[a.txn], if a.CommitMint? then w.txns[a.txn].sid else w.txns[a.txn].renewed.sid);
    }
  }

  /** A transaction that newly carries a sid: nobody waits to insert that sid. */
  lemma NewCarrier(w: World, a: Action, i: nat, sid: string)
    requires Inv(w) && Enabled(w, a)
    requires i in Next(w, a).txns && (i in w.txns ==> Next(w, a).txns[i] != w.txns[i])
    requires Carries(Next(w, a).txns[i], sid)
    ensures Next(w, a).txns == w.txns[i := Next(w, a).txns[i]] && Next(w, a).db == w.db && Next(w, a).tokens == w.tokens
    ensures forall j :: j in w.txns && j != i && Reserves(w.txns[j]) ==> !Carries(w.txns[j], sid)
    ensures Reserves(Next(w, a).txns[i]) ==> FreshSid(w, sid)
  {
  }

  lemma StepKeepsSidsReserved(w: World, a: Action)
    requires Inv(w) && Enabled(w, a)
    ensures SidsReserved(Next(w, a))
  {
    var n := Next(w, a);
    forall i, sid | i in n.txns && Reserves(n.txns[i]) && Carries(n.txns[i], sid)
      ensures sid !in n.db.sessions
      ensures forall c :: c in n.tokens ==> c.sid != sid
      ensures forall j :: j in n.txns && j != i ==> !Carries(n.txns[j], sid)
    {
      if !(i in w.txns && n.txns[i] == w.txns[i]) {
        NewCarrier(w, a, i, sid);
      } else {
        if sid in n.db.sessions && sid !in w.db.sessions {
          NewSids(w, a, sid);
        }
        forall c | c in n.tokens && c !in w.tokens ensures c.sid != sid {
          if c.sid == sid {
            NewSids(w, a, sid);
          }
        }
        forall j | j in n.txns && j != i ensures !Carries(n.txns[j], sid) {
          if Carries(n.txns[j], sid) && !(j in w.txns && n.txns[j] == w.txns[j]) {
            NewCarrier(w, a, j, sid);
          }
        }
      }
    }
  }

  lemma StepKeepsTokensOwned(w: World, a: Action)
    requires Inv(w) && Enabled(w, a)
    ensures TokensOwned(Next(w, a))
  {
    var n := Next(w, a);
    StepKeepsBindings(w, a);
    forall c | c in n.tokens && c.sid in n.db.sessions ensures n.db.sessions[c.sid].user == c.sub {
      if c.sid !in w.db.sessions || c !in w.tokens {
        NewSids(w, a, c.sid);
      }
    }
  }

  /** A renewal starts with a token that is accepted. */
  lemma NewRenewalIsOwned(w: World, a: Action, i: nat)
    requires TokensOwned(w) && Enabled(w, a)
    requires i in Next(w, a).txns && (i in w.txns ==> Next(w, a).txns[i] != w.txns[i])
    ensures Next(w, a).db == w.db && Next(w, a).tokens == w.tokens && RenewalOwned(w, Next(w, a).txns[i])
  {
    hide NobodyExcludes, NobodyHolds, BoundLive, LiveDevice, Accepts;
  }

  lemma RenewalStaysOwned(w: World, a: Action, t: Txn)
    requires Inv(w) && Enabled(w, a) && RenewalOwned(w, t)
             && (exists i :: i in w.txns && i in Next(w, a).txns && w.txns[i] == t)
    ensures RenewalOwned(Next(w, a), t)
  {
    StepKeepsBindings(w, a);
    if t.Renewing? && t.renewed.sid in Next(w, a).db.sessions && t.renewed.sid !in w.db.sessions {
      assert Carries(t, t.renewed.sid);
      NewSids(w, a, t.renewed.sid);
    }
  }

  lemma StepKeepsRenewalsOwned(w: World, a: Action)
    requires Inv(w) && Enabled(w, a)
    ensures RenewalsOwned(Next(w, a))
  {
    hide Enabled, Next, RenewalOwned, Named, SweptClean, SidsReserved, LocksLive, Exclusive;
    var n := Next(w, a);
    forall i | i in n.txns ensures RenewalOwned(n, n.txns[i]) {
      if i in w.txns && n.txns[i] == w.txns[i] {
        RenewalStaysOwned(w, a, n.txns[i]);
      } else {
        NewRenewalIsOwned(w, a, i);
        SameRowsSameOwner(w, n, n.txns[i]);
      }
    }
  }

  lemma SameRowsSameOwner(w: World, n: World, t: Txn)
    requires n.db == w.db && n.tokens == w.tokens && RenewalOwned(w, t)
    ensures RenewalOwned(n, t)
  {
  }

  lemma StepKeepsInv(w: World, a: Action)
    requires Inv(w) && Enabled(w, a)
    ensures Inv(Next(w, a))
  {
    StepKeepsNames(w, a);
    StepKeepsLocksLive(w, a);
    StepKeepsExclusive(w, a);
    StepKeepsBoundRows(w, a);
    StepKeepsSweptClean(w, a);
    StepKeepsSidsReserved(w, a);
    StepKeepsTokensOwned(w, a);
    StepKeepsRenewalsOwned(w, a);
  }

  // --- Whole runs ------------------------------------------------------------------

  ghost predicate Runs(w: World, acts: seq<Action>)
    decreases |acts|
  {
    acts == [] || (Enabled(w, acts[0]) && Runs(Next(w, acts[0]), acts[1..]))
  }

  ghost function After(w: World, acts: seq<Action>): World
    requires Runs(w, acts)
    decreases |acts|
  {
    if acts == [] then w else After(Next(w, acts[0]), acts[1..])
  }

  /** A server that has just started: nothing under way, whatever rows and tokens it already has. */
  ghost predicate Starting(w: World) {
    w.txns == map[] && w.swept == {} && Bound(w.db)
    && forall c :: c in w.tokens && c.sid in w.db.sessions ==> w.db.sessions[c.sid].user == c.sub
  }

  lemma {:induction false} RunKeeps(w: World, acts: seq<Action>)
    requires Inv(w) && Runs(w, acts)
    ensures Inv(After(w, acts))
    ensures w.swept <= After(w, acts).swept && w.tokens <= After(w, acts).tokens
    ensures KeepsBindings(w.db, After(w, acts).db)
    decreases |acts|
  {
    if acts != [] {
      StepKeepsInv(w, acts[0]);
      StepKeepsBindings(w, acts[0]);
      RunKeeps(Next(w, acts[0]), acts[1..]);
    }
  }

  lemma SweptIsRefused(w: World, device: string)
    requires Inv(w) && device in w.swept
    ensures forall sid :: sid in w.db.sessions && w.db.sessions[sid].device == Some(device) ==>
              w.db.sessions[sid].revoked
    ensures forall c, now :: c in w.tokens && c.sid in w.db.sessions && w.db.sessions[c.sid].device == Some(device)
              ==> !Accepts(w.db, c, now)
  {
  }

  /**
   Mint against revoke. However the statements of any number of mints, binds,
   renewals, sign-outs and revocations interleave before a revocation of a
   device commits, and whatever runs after it: no live row is bound to the
   device ever again, and no token on a session bound to it - minted before or
   during the revocation, or renewed from one that was - is ever accepted.
   */
  lemma RevokedDeviceStaysOut(start: World, before: seq<Action>, txn: nat, later: seq<Action>, device: string)
    requires Starting(start) && Runs(start, before)
    requires Enabled(After(start, before), CommitRevoke(txn)) && After(start, before).txns[txn].device == device
    requires Runs(Next(After(start, before), CommitRevoke(txn)), later)
    ensures var end := After(Next(After(start, before), CommitRevoke(txn)), later);
            && (forall sid :: sid in end.db.sessions && end.db.sessions[sid].device == Some(device) ==>
                  end.db.sessions[sid].revoked)
            && (forall c, now :: c in end.tokens && c.sid in end.db.sessions
                  && end.db.sessions[c.sid].device == Some(device)
                  ==> !Accepts(end.db, c, now))
            && (forall c, now :: c in start.tokens && c.sid in start.db.sessions
                  && start.db.sessions[c.sid].device == Some(device)
                  ==> !Accepts(end.db, c, now))
  {
    RunKeeps(start, before);
    var mid := After(start, before);
    StepKeepsInv(mid, CommitRevoke(txn));
    RunKeeps(Next(mid, CommitRevoke(txn)), later);
    var end := After(Next(mid, CommitRevoke(txn)), later);
    assert KeepsBindings(start.db, mid.db) && KeepsBindings(mid.db, Next(mid, CommitRevoke(txn)).db);
    assert device in end.swept;
    SweptIsRefused(end, device);
    hide Inv, Accepts, Enabled, Runs, After, Next;
  }

  /** Every token a mint hands out is on a session bound to the device that proved itself. */
  lemma MintedTokensAreBound(w: World, txn: nat, now: int)
    requires Inv(w) && Enabled(w, CommitMint(txn, now))
    ensures var n := Next(w, CommitMint(txn, now));
            && DeviceToken(w.txns[txn], now) in n.tokens
            && n.db.sessions[DeviceToken(w.txns[txn], now).sid]
                == Session(w.txns[txn].user, Some(w.txns[txn].device), false)
            && (TokenSessionLive(n.db, DeviceToken(w.txns[txn], now)) <==>
                  w.txns[txn].user in n.db.users && n.db.users[w.txns[txn].user] == w.txns[txn].tv)
  {
    assert Shares(w.txns[txn], w.txns[txn].device);
  }

  // --- An aborted revocation ---------------------------------------------------------

  predicate Revoking(t: Txn, d: string) {
    (t.RevokeBegun? || t.RevokeMarked? || t.RevokeSwept?) && t.device == d
  }

  /**
   An aborted revocation costs no mint: it leaves rows, tokens and every other
   transaction as they were, and a mint that had read the device live and waited
   for it gets its row and its token.
   */
  lemma AbortedRevokeCostsNoMint(w: World, revoke: nat, mint: nat, sid: string, now: int)
    requires Inv(w) && revoke in w.txns && mint in w.txns && w.txns[mint].MintChecked?
    requires var d := w.txns[mint].device;
             && Revoking(w.txns[revoke], d) && !w.db.devices[d].revoked
             && forall i :: i in w.txns && i != revoke ==> !Excludes(w.txns[i], d)
    requires FreshSid(w, sid)
    ensures var aborted := Next(w, Abort(revoke));
            && aborted == w.(txns := w.txns - {revoke})
            && Enabled(aborted, LockForMint(mint, sid))
            && Enabled(Next(aborted, LockForMint(mint, sid)), CommitMint(mint, now))
            && var done := Next(Next(aborted, LockForMint(mint, sid)), CommitMint(mint, now));
               && done.db.sessions == w.db.sessions[sid := Session(w.txns[mint].user, Some(w.txns[mint].device), false)]
               && exists c :: c in done.tokens && c.sid == sid && c.exp == now + DEVICE_TOKEN_TTL_HOURS * HOUR
                   && c.sst == now
  {
    var aborted := Next(w, Abort(revoke));
    var locked := Next(aborted, LockForMint(mint, sid));
    var c := DeviceToken(locked.txns[mint], now);
    assert c in Next(locked, CommitMint(mint, now)).tokens;
  }

  /** A commit that marks the device. */
  predicate MarksDevice(w: World, a: Action, d: string) {
    match a
    case CommitRevoke(i) => i in w.txns && w.txns[i].RevokeSwept? && w.txns[i].device == d
    case CommitSignOut(i) => i in w.txns && w.txns[i].SignOutMarked? && d in w.txns[i].marked
    case _ => false
  }

  ghost predicate NeverMarked(w: World, acts: seq<Action>, d: string)
    requires Runs(w, acts)
    decreases |acts|
  {
    acts != [] ==> !MarksDevice(w, acts[0], d) && NeverMarked(Next(w, acts[0]), acts[1..], d)
  }

  /** A mint is refused its row only when, since its read, a revocation or a sign-out everywhere committed. */
  lemma {:induction false} RefusedOnlyAfterACommit(w: World, acts: seq<Action>, mint: nat, sid: string)
    requires Inv(w) && Runs(w, acts)
    requires mint in w.txns && w.txns[mint].MintChecked?
    requires LiveDevice(w.db, w.txns[mint].device, w.txns[mint].user)
    requires NeverMarked(w, acts, w.txns[mint].device)
    requires Enabled(After(w, acts), LockForMint(mint, sid)) && After(w, acts).txns[mint] == w.txns[mint]
    ensures var n := Next(After(w, acts), LockForMint(mint, sid));
            mint in n.txns && n.txns[mint] == MintLocked(w.txns[mint].device, w.txns[mint].user, w.txns[mint].tv, sid)
  {
    UnmarkedStaysLive(w, acts, w.txns[mint].device, w.txns[mint].user);
  }

  lemma {:induction false} UnmarkedStaysLive(w: World, acts: seq<Action>, d: string, user: int)
    requires Inv(w) && Runs(w, acts) && LiveDevice(w.db, d, user) && NeverMarked(w, acts, d)
    ensures LiveDevice(After(w, acts).db, d, user)
    decreases |acts|
  {
    if acts != [] {
      StepKeepsInv(w, acts[0]);
      UnmarkedStaysLive(Next(w, acts[0]), acts[1..], d, user);
    }
  }

  // --- The rows themselves, and the handlers that change them ------------------------

  /** An open connection: its account, its session, and the device it attested or claimed. */
  datatype Socket = Socket(conn: nat, user: int, sid: string, attested: Option<string>, claimed: Option<string>)

  predicate OfDevice(k: Socket, user: int, device: string) {
    k.user == user && (k.attested == Some(device) || k.claimed == Some(device))
  }

  predicate OfSession(k: Socket, user: int, sid: string) {
    k.user == user && sid != "" && k.sid == sid
  }

  const MAX_DEVICES_PER_USER: int := 64

  function LiveDevicesBut(db: Db, user: int, device: string): set<string> {
    set d | d in db.devices && LiveDevice(db, d, user) && d != device
  }

  datatype Enrolment = Enrolled | TooManyDevices | DeviceRevoked | Conflict

  /** The statements of one revocation, in the order the handler runs them. */
  function Revocation(txn: nat, device: string, user: int): seq<Action> {
    [BeginRevoke(txn, device, user), MarkDevice(txn), SweepSessions(txn), CommitRevoke(txn)]
  }

  class SessionStore {
    var users: map<int, int>
    var devices: map<string, Device>
    var sessions: map<string, Session>
    var txns: map<nat, Txn>
    var tokens: set<Claims>
    var swept: set<string>
    var sockets: set<Socket>
    var hungUp: set<Socket>

    function State(): World
      reads this
    {
      World(Db(users, devices, sessions), txns, tokens, swept)
    }

    /**
     The middleware: refuse, or accept and perhaps hand a replacement back - never
     one whose session row was not there, or could not be written.
     */
    method Authenticate(c: Claims, now: int, mintedAt: int, newSid: string, writeFails: bool)
      returns (accepted: bool, renewed: Option<Claims>)
      requires c in tokens && now <= mintedAt && FreshSid(State(), newSid)
      modifies this`sessions, this`tokens
      ensures accepted <==> Accepts(old(State()).db, c, now)
      ensures var due := RenewIfStale(c, if c.sid == "" then newSid else c.sid, now, mintedAt);
              renewed == if accepted && !writeFails && (c.sid == "" || c.sid in old(sessions)) then due else None
      ensures renewed.Some? ==> renewed.value.sid in sessions && tokens == old(tokens) + {renewed.value}
      ensures renewed.None? ==> State() == old(State())
      ensures forall sid :: sid in old(sessions) ==> sid in sessions && sessions[sid] == old(sessions)[sid]
    {
      accepted, renewed := Unexpired(c, now) && TokenSessionLive(State().db, c), None;
      if accepted {
        var renewSid := if c.sid == "" then newSid else c.sid;
        renewed := RenewIfStale(c, renewSid, now, mintedAt);
        if renewed.Some? {
          if writeFails {
            renewed := None;
          } else if c.sid == "" {
            sessions := sessions[newSid := Session(c.sub, None, false)];
          } else if c.sid !in sessions {
            renewed := None;
          }
          if renewed.Some? {
            tokens := tokens + {renewed.value};
          }
        }
      }
    }

    /** The mint's one statement: check the device under a share lock, and reserve the row. */
    method LockForMint(txn: nat, sid: string) returns (inserted: bool)
      requires Enabled(State(), Action.LockForMint(txn, sid))
      modifies this`txns
      ensures State() == Next(old(State()), Action.LockForMint(txn, sid))
      ensures inserted <==> txn in txns
    {
      var t := txns[txn];
      if t.device in devices && devices[t.device].user == t.user && !devices[t.device].revoked {
        txns := txns[txn := MintLocked(t.device, t.user, t.tv, sid)];
        inserted := true;
      } else {
        txns := txns - {txn};
        inserted := false;
      }
    }

    /** The statement commits: the row becomes visible, then the token is minted against it. */
    method CommitMint(txn: nat, now: int) returns (token: Claims)
      requires Enabled(State(), Action.CommitMint(txn, now))
      modifies this`txns, this`sessions, this`tokens
      ensures State() == Next(old(State()), Action.CommitMint(txn, now))
      ensures token in tokens && token.sid in sessions && token.exp == now + HOUR && token.sst == now && !token.ls
    {
      var t := txns[txn];
      sessions := sessions[t.sid := Session(t.user, Some(t.device), false)];
      txns := txns - {txn};
      token := Claims(t.user, "", now + DEVICE_TOKEN_TTL_HOURS * HOUR, t.tv, now, t.sid, false);
      tokens := tokens + {token};
    }

    /** First statement of the revocation: mark the row if it is still live. */
    method MarkDevice(txn: nat)
      requires Enabled(State(), Action.MarkDevice(txn))
      modifies this`txns
      ensures State() == Next(old(State()), Action.MarkDevice(txn))
    {
      var t := txns[txn];
      var matched := t.device in devices && devices[t.device] == Device(t.user, false);
      txns := txns[txn := RevokeMarked(t.device, t.user, matched)];
    }

    /** Second statement: the rows bound to the device, as a snapshot taken now sees them. */
    method SweepSessions(txn: nat)
      requires Enabled(State(), Action.SweepSessions(txn))
      modifies this`txns
      ensures State() == Next(old(State()), Action.SweepSessions(txn))
    {
      var t := txns[txn];
      var sids := set sid | sid in sessions && sessions[sid].user == t.user && sessions[sid].device == Some(t.device)
                            && !sessions[sid].revoked;
      assert sids == BoundLive(State().db, t.device, t.user);
      txns := txns[txn := RevokeSwept(t.device, t.user, t.locked, sids)];
    }

    method CommitRevoke(txn: nat)
      requires Enabled(State(), Action.CommitRevoke(txn))
      modifies this`txns, this`devices, this`sessions, this`swept
      ensures State() == Next(old(State()), Action.CommitRevoke(txn))
    {
      var t := txns[txn];
      if t.locked {
        devices := RevokeDevices(devices, {t.device});
      } else {
        devices := RevokeDevices(devices, {});
      }
      sessions := RevokeSessions(sessions, t.sids);
      txns := txns - {txn};
      swept := swept + {t.device};
    }

    /** The revocation's connection: it has begun, and holds nothing yet. */
    method BeginRevoke(txn: nat, device: string, user: int)
      requires Enabled(State(), Action.BeginRevoke(txn, device, user))
      modifies this`txns
      ensures State() == Next(old(State()), Action.BeginRevoke(txn, device, user))
    {
      txns := txns[txn := RevokeBegun(device, user)];
    }

    /** The transaction with nothing else running: mark, sweep, commit. */
    method RevokeRows(txn: nat, device: string, user: int) returns (sids: set<string>)
      requires txn !in txns && NobodyHolds(State(), device)
      requires device in devices && devices[device].user == user
      modifies this`txns, this`devices, this`sessions, this`swept
      ensures sids == BoundLive(old(State()).db, device, user)
      ensures Runs(old(State()), Revocation(txn, device, user))
      ensures State() == After(old(State()), Revocation(txn, device, user))
    {
      RevocationRuns(State(), txn, device, user);
      hide Enabled, Next, NobodyHolds, BoundLive, Runs, After, Revocation;
      BeginRevoke(txn, device, user);
      MarkDevice(txn);
      SweepSessions(txn);
      sids := txns[txn].sids;
      CommitRevoke(txn);
    }

    /** The handler: 404 for a device that is not the caller's, else the transaction, then the sockets. */
    method RevokeDevice(txn: nat, device: string, user: int) returns (found: bool)
      requires txn !in txns && NobodyHolds(State(), device)
      modifies this
      ensures found <==> device in old(devices) && old(devices)[device].user == user
      ensures !found ==> State() == old(State()) && sockets == old(sockets) && hungUp == old(hungUp)
      ensures found ==>
                && Runs(old(State()), Revocation(txn, device, user))
                && State() == After(old(State()), Revocation(txn, device, user))
      ensures found ==> forall k :: k in old(sockets) ==>
                (k in sockets <==>
                   && !OfDevice(k, user, device)
                   && forall sid :: sid in BoundLive(old(State()).db, device, user) ==> !OfSession(k, user, sid))
      ensures found ==> sockets <= old(sockets) && hungUp == old(hungUp) + (old(sockets) - sockets)
    {
      found := device in devices && devices[device].user == user;
      if found {
        var sids := RevokeRows(txn, device, user);
        HangUp(user, device, sids);
      }
    }

    /** Both halves of the kill: by device, then session by session. */
    method HangUp(user: int, device: string, sids: set<string>)
      modifies this`sockets, this`hungUp
      ensures forall k :: k in old(sockets) ==>
                (k in sockets <==> !OfDevice(k, user, device) && forall sid :: sid in sids ==> !OfSession(k, user, sid))
      ensures sockets <= old(sockets) && hungUp == old(hungUp) + (old(sockets) - sockets)
    {
      var byDevice := set k | k in sockets && OfDevice(k, user, device);
      sockets, hungUp := sockets - byDevice, hungUp + byDevice;
      var left := sids;
      while left != {}
        invariant left <= sids && sockets <= old(sockets)
        invariant forall k :: k in old(sockets) ==>
                    (k in sockets <==>
                       !OfDevice(k, user, device) && forall sid :: sid in sids - left ==> !OfSession(k, user, sid))
        invariant hungUp == old(hungUp) + (old(sockets) - sockets)
        decreases left
      {
        var sid :| sid in left;
        var bySid := set k | k in sockets && OfSession(k, user, sid);
        sockets, hungUp := sockets - bySid, hungUp + bySid;
        left := left - {sid};
      }
    }

    /** Enrolment refuses to revive a revoked device, whatever the caller proves. */
    method EnrolDevice(device: string, user: int) returns (r: Enrolment)
      requires user in users
      modifies this`devices
      ensures r == Enrolled <==>
                && |LiveDevicesBut(old(State()).db, user, device)| < MAX_DEVICES_PER_USER
                && (device !in old(devices) || old(devices)[device] == Device(user, false))
      ensures State() == if r == Enrolled then Next(old(State()), Enrol(device, user)) else old(State())
      ensures r == DeviceRevoked ==> device in devices && devices[device] == Device(user, true)
      ensures forall d :: d in old(devices) && old(devices)[d].revoked ==> d in devices && devices[d].revoked
    {
      var live := set d | d in devices && devices[d].user == user && !devices[d].revoked && d != device;
      assert live == LiveDevicesBut(State().db, user, device);
      if |live| >= MAX_DEVICES_PER_USER {
        return TooManyDevices;
      }
      if device in devices && devices[device].user == user && devices[device].revoked {
        return DeviceRevoked;
      }
      if device in devices && devices[device].user != user {
        return Conflict;
      }
      if device !in devices {
        devices := devices[device := Device(user, false)];
      }
      r := Enrolled;
    }
  }

  /** With nothing else running, the statements follow one another, and the sweep finds what was bound to begin with. */
  lemma RevocationRuns(w: World, txn: nat, device: string, user: int)
    requires txn !in w.txns && NobodyHolds(w, device) && device in w.db.devices && w.db.devices[device].user == user
    ensures var (a, b, c, d) := (BeginRevoke(txn, device, user), MarkDevice(txn), SweepSessions(txn),
            CommitRevoke(txn));
            && Enabled(w, a) && Enabled(Next(w, a), b) && Enabled(Next(Next(w, a), b), c)
            && var swept := Next(Next(Next(w, a), b), c);
               && Enabled(swept, d) && swept.txns[txn].RevokeSwept?
                   && swept.txns[txn].sids == BoundLive(w.db, device, user)
               && Runs(w, Revocation(txn, device, user)) && After(w, Revocation(txn, device, user)) == Next(swept, d)
  {
    var a, b := BeginRevoke(txn, device, user), MarkDevice(txn);
    var begun := Next(w, a);
    assert begun.db == w.db && begun.txns == w.txns[txn := RevokeBegun(device, user)];
    hide BoundLive, Runs, After;
    RunOfFour(w, a, b, SweepSessions(txn), CommitRevoke(txn));
  }

  /** Four statements one after another are a run of four. */
  lemma RunOfFour(w: World, a: Action, b: Action, c: Action, d: Action)
    requires Enabled(w, a) && Enabled(Next(w, a), b) && Enabled(Next(Next(w, a), b), c)
    requires Enabled(Next(Next(Next(w, a), b), c), d)
    ensures Runs(w, [a, b, c, d]) && After(w, [a, b, c, d]) == Next(Next(Next(Next(w, a), b), c), d)
  {
    var w1 := Next(w, a);
    var w2 := Next(w1, b);
    var w3 := Next(w2, c);
    assert [d][1..] == [] && [c, d][1..] == [d] && [b, c, d][1..] == [c, d] && [a, b, c, d][1..] == [b, c, d];
    assert Runs(w3, [d]) && After(w3, [d]) == Next(w3, d);
    assert Runs(w2, [c, d]) && After(w2, [c, d]) == After(w3, [d]);
    assert Runs(w1, [b, c, d]) && After(w1, [b, c, d]) == After(w2, [c, d]);
  }
}
