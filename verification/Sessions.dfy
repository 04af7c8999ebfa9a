/**
 Sliding sessions: how long a token lives, when a request replaces it, and what
 the middleware records before it hands the replacement out.

 A token is an unforgeable record of its claims. Times are whole seconds.
 */
module Sessions {
  import opened Wrappers

  const HOUR: int := 3600
  const DAY: int := 86_400
  const TOKEN_TTL_HOURS: int := 24
  const RENEW_WHEN_REMAINING_HOURS: int := 20
  const MAX_SESSION_DAYS: int := 30
  const LONG_TOKEN_TTL_DAYS: int := 30
  const LONG_MAX_SESSION_DAYS: int := 365
  const RENEW_AFTER_AGE_HOURS: int := TOKEN_TTL_HOURS - RENEW_WHEN_REMAINING_HOURS
  const DEVICE_TOKEN_TTL_HOURS: int := 1
  /** The clock skew a validator tolerates past `exp` (section 4.1.4 of RFC 7519). */
  const LEEWAY: int := 60

  datatype Claims = Claims(sub: int, username: string, exp: int, tv: int, sst: int, sid: string, ls: bool)

  function TokenTtlSecs(long: bool): int {
    if long then LONG_TOKEN_TTL_DAYS * DAY else TOKEN_TTL_HOURS * HOUR
  }

  function SessionCapSecs(long: bool): int {
    if long then LONG_MAX_SESSION_DAYS * DAY else MAX_SESSION_DAYS * DAY
  }

  function TokenExpAt(now: int, sessionStart: int, long: bool): int {
    var full := now + TokenTtlSecs(long);
    if sessionStart > 0 && sessionStart + SessionCapSecs(long) < full
    then sessionStart + SessionCapSecs(long)
    else full
  }

  /** The validator's own judgement of `exp`, leeway included. */
  predicate Unexpired(c: Claims, now: int) {
    now <= c.exp + LEEWAY
  }

  /**
   The replacement for `c`, if one is due. `now` is the clock as the decision
   reads it; `mintedAt` is the second reading, when the replacement is stamped.
   */
  function RenewIfStale(c: Claims, sid: string, now: int, mintedAt: int): Option<Claims> {
    if c.exp <= now then None
    else if c.exp - now > TokenTtlSecs(c.ls) - RENEW_AFTER_AGE_HOURS * HOUR then None
    else
      var started := if c.sst > 0 then c.sst else now;
      if now - started > SessionCapSecs(c.ls) then None
      else if TokenExpAt(now, started, c.ls) <= c.exp then None
      else Some(Claims(c.sub, c.username, TokenExpAt(mintedAt, started, c.ls), c.tv, started, sid, c.ls))
  }

  // --- What one renewal keeps ---------------------------------------------------

  /** The session's cap as a moment. */
  function CapOf(c: Claims): int { c.sst + SessionCapSecs(c.ls) }

  /** A session with a recorded start whose token does not outlive the cap. */
  predicate Capped(c: Claims) { c.sst > 0 && c.exp <= CapOf(c) }

  lemma RenewalKeepsTheSession(c: Claims, sid: string, now: int, mintedAt: int)
    requires Capped(c) && now <= mintedAt
    requires RenewIfStale(c, sid, now, mintedAt).Some?
    ensures var r := RenewIfStale(c, sid, now, mintedAt).value;
            && r.sub == c.sub && r.tv == c.tv && r.sst == c.sst && r.ls == c.ls && r.sid == sid
            && c.exp < r.exp && Capped(r)
            && (r.exp < CapOf(r) ==> r.exp >= c.exp + RENEW_AFTER_AGE_HOURS * HOUR)
  {
  }

  // --- A chain of renewals ----------------------------------------------------

  /** One renewal of a chain: when it was decided and when its token was stamped. */
  datatype Renewal = Renewal(sid: string, now: int, mintedAt: int)

  /** `tokens[0]`, each replaced by the next through one renewal. */
  ghost predicate Chain(tokens: seq<Claims>, steps: seq<Renewal>) {
    && |tokens| == |steps| + 1
    && forall i :: 0 <= i < |steps| ==>
         && steps[i].now <= steps[i].mintedAt
         && RenewIfStale(tokens[i], steps[i].sid, steps[i].now, steps[i].mintedAt) == Some(tokens[i + 1])
  }

  /** How many renewals a token that expires `room` seconds before the cap can still see. */
  function RenewalsLeft(room: int): int
  {
    if room <= 0 then 0 else (room + RENEW_AFTER_AGE_HOURS * HOUR - 1) / (RENEW_AFTER_AGE_HOURS * HOUR)
  }

  lemma {:induction false} ChainKeepsTheSession(tokens: seq<Claims>, steps: seq<Renewal>)
    requires Chain(tokens, steps) && Capped(tokens[0])
    ensures forall i :: 0 <= i < |tokens| ==>
              && tokens[i].sst == tokens[0].sst && tokens[i].tv == tokens[0].tv && tokens[i].ls == tokens[0].ls
              && Capped(tokens[i])
    ensures forall i, j :: 0 <= i < j < |tokens| ==> tokens[i].exp < tokens[j].exp
    ensures |steps| <= RenewalsLeft(CapOf(tokens[0]) - tokens[0].exp)
  {
    if |steps| > 0 {
      assert RenewIfStale(tokens[0], steps[0].sid, steps[0].now, steps[0].mintedAt) == Some(tokens[0 + 1]);
      RenewalKeepsTheSession(tokens[0], steps[0].sid, steps[0].now, steps[0].mintedAt);
      var rest := tokens[1..];
      assert Chain(rest, steps[1..]) by {
        forall i | 0 <= i < |steps[1..]|
          ensures RenewIfStale(rest[i], steps[1..][i].sid, steps[1..][i].now, steps[1..][i].mintedAt)
                  == Some(rest[i + 1])
        { assert steps[1..][i] == steps[i + 1]; }
      }
      ChainKeepsTheSession(rest, steps[1..]);
      forall i | 0 <= i < |tokens|
        ensures i > 0 ==> tokens[i] == rest[i - 1]
      { }
      forall i, j | 0 <= i < j < |tokens| ensures tokens[i].exp < tokens[j].exp {
        if i > 0 {
          assert rest[i - 1].exp < rest[j - 1].exp;
        } else if j > 1 {
          assert rest[0].exp < rest[j - 1].exp;
        }
      }
    }
  }

  /** The bound the documentation's numbers add up to, for a full-length sign-in token. */
  lemma RenewalBound(tokens: seq<Claims>, steps: seq<Renewal>)
    requires Chain(tokens, steps)
    requires tokens[0].sst > 0 && tokens[0].exp == tokens[0].sst + TokenTtlSecs(tokens[0].ls)
    ensures !tokens[0].ls ==> |steps| <= 174
    ensures tokens[0].ls ==> |steps| <= 2010
  {
    ChainKeepsTheSession(tokens, steps);
  }

  /** The token the k-th renewal gives a client that renews every four hours on the dot. */
  function FourHourly(c: Claims, k: nat): Claims {
    c.(exp := c.exp + k * (RENEW_AFTER_AGE_HOURS * HOUR))
  }

  /** The bound is attained: both counts are exact, not estimates. */
  lemma RenewalBoundIsAttained(c: Claims) returns (tokens: seq<Claims>, steps: seq<Renewal>)
    requires c.sst > 0 && c.exp == c.sst + TokenTtlSecs(c.ls)
    ensures Chain(tokens, steps) && tokens[0] == c
    ensures |steps| == if c.ls then 2010 else 174
  {
    var n: nat := if c.ls then 2010 else 174;
    tokens := seq(n + 1, k requires 0 <= k => FourHourly(c, k));
    steps := seq(n, k requires 0 <= k =>
      var at := FourHourly(c, k).exp - (TokenTtlSecs(c.ls) - RENEW_AFTER_AGE_HOURS * HOUR);
      Renewal(c.sid, at, at));
    forall i | 0 <= i < n
      ensures RenewIfStale(tokens[i], steps[i].sid, steps[i].now, steps[i].mintedAt) == Some(tokens[i + 1])
    {
      assert tokens[i] == FourHourly(c, i) && tokens[i + 1] == FourHourly(c, i + 1);
    }
  }

  // --- Never signed out early ----------------------------------------------------

  /** The longest silence a session survives: the TTL less the age at which a request renews. */
  function MaxGap(long: bool): int { TokenTtlSecs(long) - RENEW_AFTER_AGE_HOURS * HOUR }

  /** One request of a client: when the server decided, and when it stamped. */
  datatype Visit = Visit(at: int, mintedAt: int)

  /** The token a client holds after a visit: the replacement if one came back, else the one it had. */
  function AfterVisit(c: Claims, v: Visit): Claims {
    match RenewIfStale(c, c.sid, v.at, v.mintedAt)
    case Some(r) => r
    case None => c
  }

  function AfterVisits(c: Claims, visits: seq<Visit>): Claims
    decreases |visits|
  {
    if visits == [] then c else AfterVisit(AfterVisits(c, visits[..|visits| - 1]), visits[|visits| - 1])
  }

  function LastSeen(c: Claims, visits: seq<Visit>): int {
    if visits == [] then c.sst else visits[|visits| - 1].at
  }

  /** Visits in order, none later than the longest silence after the one before it. */
  ghost predicate Regular(c: Claims, visits: seq<Visit>)
    decreases |visits|
  {
    visits != [] ==>
      var last := visits[|visits| - 1];
      var before := visits[..|visits| - 1];
      && Regular(c, before)
      && LastSeen(c, before) <= last.at <= last.mintedAt
      && last.at <= LastSeen(c, before) + MaxGap(c.ls)
  }

  /** Good until the next visit is due, or until the cap. */
  ghost predicate GoodFrom(c: Claims, seen: int) {
    c.exp > seen + MaxGap(c.ls) || c.exp == CapOf(c)
  }

  lemma {:induction false} VisitsKeepTheToken(c: Claims, visits: seq<Visit>)
    requires c.sst > 0 && c.exp == c.sst + TokenTtlSecs(c.ls)
    requires Regular(c, visits) && LastSeen(c, visits) < CapOf(c)
    ensures var held := AfterVisits(c, visits);
            && held.sst == c.sst && held.ls == c.ls && held.tv == c.tv && held.sid == c.sid
            && Capped(held) && GoodFrom(held, LastSeen(c, visits))
    decreases |visits|
  {
    if visits != [] {
      var last := visits[|visits| - 1];
      var before := visits[..|visits| - 1];
      VisitsKeepTheToken(c, before);
      var held := AfterVisits(c, before);
      if RenewIfStale(held, held.sid, last.at, last.mintedAt).Some? {
        RenewalKeepsTheSession(held, held.sid, last.at, last.mintedAt);
      }
    }
  }

  /**
   A client that never stays away longer than `MaxGap` holds an unexpired token
   at every moment up to the cap, the clamped last stretch included: whatever
   it did before, the token in its hands is good at `t` as long as `t` is no
   later than its next visit has to be.
   */
  lemma NeverSignedOutEarly(c: Claims, visits: seq<Visit>, t: int)
    requires c.sst > 0 && c.exp == c.sst + TokenTtlSecs(c.ls)
    requires Regular(c, visits)
    requires LastSeen(c, visits) <= t <= LastSeen(c, visits) + MaxGap(c.ls)
    requires t < CapOf(c)
    ensures t < AfterVisits(c, visits).exp <= CapOf(c)
  {
    VisitsKeepTheToken(c, visits);
  }

  /** A client one second too quiet can be signed out: the gap in the theorem is exact. */
  lemma OneSecondLongerIsTooLong(long: bool) returns (c: Claims, v: Visit, after: int)
    ensures c.sst > 0 && c.exp == c.sst + TokenTtlSecs(long) && c.ls == long
    ensures c.sst <= v.at <= c.sst + MaxGap(long) && v.at == v.mintedAt
    ensures after == v.at + MaxGap(long) + 1 && after < CapOf(c)
    ensures AfterVisit(c, v).exp == after
    ensures RenewIfStale(AfterVisit(c, v), c.sid, after, after) == None
  {
    c := Claims(7, "tester", 1 + TokenTtlSecs(long), 0, 1, "sid", long);
    // One second before it is old enough to renew.
    v := Visit(RENEW_AFTER_AGE_HOURS * HOUR, RENEW_AFTER_AGE_HOURS * HOUR);
    after := v.at + MaxGap(long) + 1;
  }
}
