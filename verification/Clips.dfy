/** Who has to agree to a clip: the union of what the server saw and what the client declares. */
module ClipApprovers {
  const MAX_DECLARED: nat := 64

  predicate Increasing(s: seq<int>) {
    forall i, j :: 0 <= i < j < |s| ==> s[i] < s[j]
  }

  function Elements(s: seq<int>): set<int> { set x | x in s }

  function Considered(declared: seq<int>): seq<int> {
    if |declared| <= MAX_DECLARED then declared else declared[..MAX_DECLARED]
  }

  /** Everybody who must agree: seen by the log, or declared and able to be there. */
  function Union(log: set<int>, declared: seq<int>, viewers: set<int>, exempt: set<int>, proposer: int): set<int> {
    log + Elements(Considered(declared)) * viewers - {proposer} - exempt
  }

  /** Where `x` goes in a sorted list it is not in. */
  method Insert(s: seq<int>, x: int) returns (r: seq<int>)
    requires Increasing(s) && x !in s
    ensures Increasing(r) && Elements(r) == Elements(s) + {x}
  {
    var i: nat := 0;
    while i < |s| && s[i] < x
      invariant 0 <= i <= |s|
      invariant forall k :: 0 <= k < i ==> s[k] < x
    {
      i := i + 1;
    }
    r := s[..i] + [x] + s[i..];
    forall j, k | 0 <= j < k < |r| ensures r[j] < r[k] {
      assert r[k] == if k < i then s[k] else if k == i then x else s[k - 1];
      assert i < |s| ==> x < s[i];
    }
    ElementsAround(s, x, i);
  }

  lemma ElementsAround(s: seq<int>, x: int, i: nat)
    requires i <= |s|
    ensures Elements(s[..i] + [x] + s[i..]) == Elements(s) + {x}
  {
    assert s == s[..i] + s[i..];
    forall y ensures y in s[..i] + [x] + s[i..] <==> y in s || y == x {
      assert y in s <==> y in s[..i] || y in s[i..];
    }
  }

  lemma Inhabited(s: set<int>)
    ensures s == {} || exists x :: x in s
  {
    if forall x :: x !in s {
      assert s == {};
    }
  }

  method Sorted(all: set<int>) returns (out: seq<int>)
    ensures Increasing(out) && Elements(out) == all
  {
    out := [];
    var left := all;
    while left != {}
      invariant left <= all
      invariant Increasing(out)
      invariant Elements(out) == all - left
      decreases |left|
    {
      Inhabited(left);
      var x :| x in left;
      assert x !in Elements(out);
      out := Insert(out, x);
      left := left - {x};
    }
  }

  method UnionApprovers(log: set<int>, declared: seq<int>, viewers: set<int>, exempt: set<int>, proposer: int)
    returns (out: seq<int>)
    ensures Increasing(out) && Elements(out) == Union(log, declared, viewers, exempt, proposer)
  {
    var all := log;
    var seen := {};
    var k := 0;
    while k < |declared| && k < MAX_DECLARED
      invariant 0 <= k <= |declared| && k <= MAX_DECLARED
      invariant seen == Elements(declared[..k])
      invariant all == log + seen * viewers
    {
      var d := declared[k];
      if d !in seen && d in viewers {
        all := all + {d};
      }
      seen := seen + {d};
      assert declared[..k + 1] == declared[..k] + [d];
      k := k + 1;
    }
    assert declared[..k] == Considered(declared);
    all := all - {proposer};
    all := all - exempt;
    out := Sorted(all);
  }

  /** Nothing the client declares takes anybody the log saw off the list, nor puts a stranger on it. */
  lemma DeclaringOnlyAdds(log: set<int>, declared: seq<int>, viewers: set<int>, exempt: set<int>, proposer: int)
    ensures Union(log, [], viewers, exempt, proposer) <= Union(log, declared, viewers, exempt, proposer)
    ensures Union(log, declared, viewers, exempt, proposer) <= log + viewers
    ensures Union(log, [], viewers, exempt, proposer) == log - {proposer} - exempt
  {
    assert Considered([]) == [];
  }
}

/**
 Clip consent: a clip of a voice call is posted only once everybody the server
 saw in the call has approved it.

 Every handler takes the proposal map's lock for one entry at a time, so the
 protocol is a machine with one step per locked section. A removal is decided in
 one step and carried out in a later one, and anything may happen in between.
 */
module Clips {
  import opened ClipApprovers
  import opened Columns
  import opened Wrappers

  // times in milliseconds
  const PROPOSAL_TTL: int := 1_800_000
  const UPLOAD_GRACE: int := 900_000
  const MAX_APPROVERS: nat := 32

  // --- Proposals --------------------------------------------------------------------

  datatype Ballot = Pending | Approved | Declined

  datatype Flags = Flags(camera: bool, share: bool)

  datatype Voter = Voter(user: int, ballot: Ballot, flags: Flags, inWindow: bool)

  datatype Proposal = Proposal(
    proposer: int, voice: int, target: int, votes: seq<Voter>, solo: bool,
    created: int, expires: int, approvedAt: Option<int>)

  /** What the server knew when the clip was proposed. `accounts`: the ids with a row in `users`. */
  datatype Evidence = Evidence(
    proposer: int, log: set<int>, declared: seq<int>, viewers: set<int>, exempt: set<int>,
    accounts: set<int>, media: map<int, Flags>, alone: bool)

  function Asked(e: Evidence): set<int> {
    Union(e.log, e.declared, e.viewers, e.exempt, e.proposer)
  }

  /** The rows of `users` the lookup returns for the bound ids, cast to the column's width. */
  function Rows(e: Evidence): set<int> {
    (set i | i in Asked(e) :: Wrap32(i)) * e.accounts
  }

  predicate Distinct(rows: seq<int>) {
    forall i, j :: 0 <= i < j < |rows| ==> rows[i] != rows[j]
  }

  /** One voter for each row, in the order the database gives them. */
  function BuildVoters(rows: seq<int>, media: map<int, Flags>, log: set<int>): (r: seq<Voter>)
    ensures |r| == |rows|
  {
    seq(|rows|, i requires 0 <= i < |rows| =>
      Voter(rows[i], Pending, if rows[i] in media then media[rows[i]] else Flags(false, false), rows[i] in log))
  }

  predicate AllApproved(p: Proposal) {
    forall i :: 0 <= i < |p.votes| ==> p.votes[i].ballot.Approved?
  }

  predicate AnyDeclined(p: Proposal) {
    exists i :: 0 <= i < |p.votes| && p.votes[i].ballot.Declined?
  }

  predicate IsVoter(p: Proposal, user: int) {
    exists i :: 0 <= i < |p.votes| && p.votes[i].user == user
  }

  function Users(votes: seq<Voter>): seq<int> {
    seq(|votes|, i requires 0 <= i < |votes| => votes[i].user)
  }

  function Proposed(e: Evidence, voice: int, target: int, rows: seq<int>, now: int): Proposal {
    var votes := BuildVoters(rows, e.media, e.log);
    var solo := votes == [];
    Proposal(e.proposer, voice, target, votes, solo, now,
             now + PROPOSAL_TTL + (if solo then UPLOAD_GRACE else 0), if solo then Some(now) else None)
  }

  function WithBallot(votes: seq<Voter>, user: int, ballot: Ballot): (r: seq<Voter>)
    ensures |r| == |votes| && Users(r) == Users(votes)
  {
    var r := seq(|votes|, i requires 0 <= i < |votes| =>
      if votes[i].user == user then votes[i].(ballot := ballot) else votes[i]);
    assert Users(r) == Users(votes);
    r
  }

  /** The entry after one answer: three clock readings, one to check and two to stamp. */
  function Voted(p: Proposal, user: int, approve: bool, approvedAt: int, stamped: int): Proposal {
    var q := p.(votes := WithBallot(p.votes, user, if approve then Approved else Declined));
    if approve && AllApproved(q) then q.(approvedAt := Some(approvedAt), expires := stamped + UPLOAD_GRACE) else q
  }

  predicate HasVoted(p: Proposal, user: int) {
    exists i :: 0 <= i < |p.votes| && p.votes[i].user == user && !p.votes[i].ballot.Pending?
  }

  predicate MayVote(p: Proposal, user: int, now: int) {
    now < p.expires && IsVoter(p, user) && !HasVoted(p, user)
  }

  // --- The machine ------------------------------------------------------------------

  /** Why a removal was decided. */
  datatype Why = OnDecline | OnCancel(who: int) | OnQuit(who: int) | OnExpiry | OnPost(who: int, channel: int)

  datatype Removal = Removal(id: string, why: Why)

  /** A message that carries a clip: the entry its sender was handed. */
  datatype Post = Post(id: string, sender: int, channel: int, entry: Proposal)

  /** `evidence` keeps what each id was ever proposed with; ids are never issued twice. */
  datatype Desk = Desk(
    proposals: map<string, Proposal>, evidence: map<string, Evidence>,
    owed: multiset<Removal>, posted: seq<Post>, clock: int)

  datatype Action =
    | Propose(id: string, knows: Evidence, voice: int, channel: int, rows: seq<int>, now: int)
    | Vote(id: string, user: int, approve: bool, now: int, approvedAt: int, stamped: int)
    | AskCancel(id: string, user: int)
    | Quit(user: int)
    | Sweep(now: int)
    | AskPost(id: string, user: int, channel: int, now: int)
    | Settle(removal: Removal)
    | Abandon(removal: Removal)

  /**
   A proposal, a sweep and a send may act on a clock they read long before; a vote reads it
   under its entry's lock. `clock` is the latest anyone has read.
   */
  ghost predicate Enabled(s: Desk, a: Action) {
    match a
    case Propose(id, e, _, _, rows, now) =>
      && id !in s.evidence
      && |Asked(e)| <= MAX_APPROVERS && (Asked(e) == {} ==> e.alone)
      && Distinct(rows) && Elements(rows) == Rows(e)
    case Vote(id, user, _, now, approvedAt, stamped) =>
      id in s.proposals && MayVote(s.proposals[id], user, now) && s.clock <= now <= approvedAt <= stamped
    case AskCancel(id, user) => id in s.proposals && s.proposals[id].proposer == user
    case Quit(_) => true
    case Sweep(_) => true
    case AskPost(id, user, channel, now) =>
      && id in s.proposals && now < s.proposals[id].expires
      && s.proposals[id].proposer == user && s.proposals[id].target == channel && s.proposals[id].approvedAt.Some?
    case Settle(r) => r in s.owed
    case Abandon(r) => r in s.owed
  }

  function QuitRemovals(proposals: map<string, Proposal>, user: int): set<Removal> {
    set id | id in proposals && proposals[id].proposer == user :: Removal(id, OnQuit(user))
  }

  function ExpiryRemovals(proposals: map<string, Proposal>, now: int): set<Removal> {
    set id | id in proposals && proposals[id].expires <= now :: Removal(id, OnExpiry)
  }

  function NextProposals(s: Desk, a: Action): map<string, Proposal> {
    match a
    case Propose(id, e, voice, channel, rows, now) => s.proposals[id := Proposed(e, voice, channel, rows, now)]
    case Vote(id, user, approve, now, approvedAt, stamped) =>
      if id in s.proposals then s.proposals[id := Voted(s.proposals[id], user, approve, approvedAt, stamped)]
          else s.proposals
    case Settle(r) => s.proposals - {r.id}
    case _ => s.proposals
  }

  function NextOwed(s: Desk, a: Action): multiset<Removal> {
    match a
    case Vote(id, _, approve, _, _, _) => if approve then s.owed else s.owed + multiset{Removal(id, OnDecline)}
    case AskCancel(id, user) => s.owed + multiset{Removal(id, OnCancel(user))}
    case Quit(user) => s.owed + multiset(QuitRemovals(s.proposals, user))
    case Sweep(now) => s.owed + multiset(ExpiryRemovals(s.proposals, now))
    case AskPost(id, user, channel, _) => s.owed + multiset{Removal(id, OnPost(user, channel))}
    case Settle(r) => s.owed - multiset{r}
    case Abandon(r) => s.owed - multiset{r}
    case Propose(_, _, _, _, _, _) => s.owed
  }

  function NextPosted(s: Desk, a: Action): seq<Post> {
    match a
    case Settle(Removal(id, OnPost(who, channel))) =>
      if id in s.proposals then s.posted + [Post(id, who, channel, s.proposals[id])] else s.posted
    case _ => s.posted
  }

  function Later(a: int, b: int): int { if a < b then b else a }

  function NextClock(s: Desk, a: Action): int {
    match a
    case Propose(_, _, _, _, _, now) => Later(s.clock, now)
    case Vote(_, _, _, _, _, stamped) => stamped
    case Sweep(now) => Later(s.clock, now)
    case AskPost(_, _, _, now) => Later(s.clock, now)
    case _ => s.clock
  }

  function Next(s: Desk, a: Action): Desk {
    Desk(NextProposals(s, a), if a.Propose? then s.evidence[a.id := a.knows] else s.evidence,
         NextOwed(s, a), NextPosted(s, a), NextClock(s, a))
  }

  // --- What every step keeps --------------------------------------------------------

  /** The entry was built from its evidence, one voter per account row. */
  ghost predicate FromEvidence(p: Proposal, e: Evidence) {
    p.proposer == e.proposer && Distinct(Users(p.votes)) && Elements(Users(p.votes)) == Rows(e)
  }

  /** Approved exactly when every listed voter approved - or when nobody was listed. */
  ghost predicate Unanimous(p: Proposal) {
    p.approvedAt.Some? <==> AllApproved(p)
  }

  ghost predicate Entries(s: Desk) {
    forall id :: id in s.proposals ==>
      id in s.evidence && FromEvidence(s.proposals[id], s.evidence[id]) && Unanimous(s.proposals[id])
  }

  /** What a decided removal still knows about an entry that is still there. */
  predicate Justified(p: Proposal, why: Why, clock: int) {
    match why
    case OnDecline => AnyDeclined(p)
    case OnCancel(who) => p.proposer == who
    case OnQuit(who) => p.proposer == who
    case OnExpiry => p.expires <= clock
    case OnPost(who, channel) => p.proposer == who && p.target == channel && p.approvedAt.Some?
  }

  ghost predicate Owing(s: Desk) {
    forall r :: r in s.owed ==>
      r.id in s.evidence && (r.id in s.proposals ==> Justified(s.proposals[r.id], r.why, s.clock))
  }

  ghost predicate Posts(s: Desk) {
    && (forall i :: 0 <= i < |s.posted| ==> GoodPost(s, s.posted[i]))
    && (forall i, j :: 0 <= i < j < |s.posted| ==> s.posted[i].id != s.posted[j].id)
  }

  /** A post names an entry that is gone, that its sender proposed for that channel and that everyone approved. */
  ghost predicate GoodPost(s: Desk, post: Post) {
    && post.id in s.evidence && post.id !in s.proposals
    && post.entry.proposer == post.sender && post.entry.target == post.channel
    && AllApproved(post.entry) && FromEvidence(post.entry, s.evidence[post.id])
  }

  ghost predicate Inv(s: Desk) { Entries(s) && Owing(s) && Posts(s) }

  lemma ProposedFaithfully(e: Evidence, voice: int, channel: int, rows: seq<int>, now: int)
    requires Distinct(rows) && Elements(rows) == Rows(e)
    ensures var p := Proposed(e, voice, channel, rows, now);
            FromEvidence(p, e) && Unanimous(p) && Users(p.votes) == rows
  {
    var votes := BuildVoters(rows, e.media, e.log);
    assert Users(votes) == rows;
    if rows != [] {
      assert votes[0].ballot == Pending;
    }
  }

  lemma ApprovalIsComplete(p: Proposal, user: int, now: int)
    requires Unanimous(p) && MayVote(p, user, now)
    ensures p.approvedAt.None?
  {
    var i :| 0 <= i < |p.votes| && p.votes[i].user == user;
    assert p.votes[i].ballot.Pending?;
  }

  lemma VoteKeepsEntry(p: Proposal, e: Evidence, user: int, approve: bool, now: int, approvedAt: int, stamped: int)
    requires FromEvidence(p, e) && Unanimous(p) && MayVote(p, user, now)
    ensures var q := Voted(p, user, approve, approvedAt, stamped);
            FromEvidence(q, e) && Unanimous(q) && q.proposer == p.proposer && q.target == p.target
  {
    var q := p.(votes := WithBallot(p.votes, user, if approve then Approved else Declined));
    var i :| 0 <= i < |p.votes| && p.votes[i].user == user;
    assert q.votes[i].ballot == if approve then Approved else Declined;
  }

  lemma StepKeepsEntries(s: Desk, a: Action)
    requires Entries(s) && Enabled(s, a)
    ensures Entries(Next(s, a))
  {
    hide FromEvidence, Unanimous, Proposed, Voted, MayVote, Rows, Asked, Distinct, Elements, NextOwed, NextPosted;
    match a
    case Propose(id, e, voice, channel, rows, now) => ProposedFaithfully(e, voice, channel, rows, now);
    case Vote(id, user, approve, now, approvedAt, stamped) =>
      VoteKeepsEntry(s.proposals[id], s.evidence[id], user, approve, now, approvedAt, stamped);
    case _ =>
  }

  /**
   A vote never takes back what a removal was decided on; only an approval moves the expiry, and
   never an expired one's.
   */
  lemma VoteKeepsJustified(p: Proposal, why: Why, user: int, approve: bool, now: int, approvedAt: int, stamped: int,
      clock: int)
    requires Unanimous(p) && MayVote(p, user, now) && clock <= now <= approvedAt <= stamped
    requires Justified(p, why, clock)
    ensures Justified(Voted(p, user, approve, approvedAt, stamped), why, stamped)
  {
    var q := Voted(p, user, approve, approvedAt, stamped);
    ApprovalIsComplete(p, user, now);
    if why.OnDecline? {
      var i :| 0 <= i < |p.votes| && p.votes[i].ballot.Declined?;
      assert p.votes[i].user != user;
      assert q.votes[i].ballot.Declined?;
    }
  }

  lemma DeclineIsJustified(p: Proposal, user: int, now: int, approvedAt: int, stamped: int)
    requires MayVote(p, user, now)
    ensures AnyDeclined(Voted(p, user, false, approvedAt, stamped))
  {
    var i :| 0 <= i < |p.votes| && p.votes[i].user == user;
    assert Voted(p, user, false, approvedAt, stamped).votes[i].ballot.Declined?;
  }

  lemma StepKeepsOwing(s: Desk, a: Action)
    requires Entries(s) && Owing(s) && Enabled(s, a)
    ensures Owing(Next(s, a))
  {
    var n := Next(s, a);
    if a.Vote? && !a.approve {
      DeclineIsJustified(s.proposals[a.id], a.user, a.now, a.approvedAt, a.stamped);
    }
    forall r | r in n.owed
      ensures r.id in n.evidence && (r.id in n.proposals ==> Justified(n.proposals[r.id], r.why, n.clock))
    {
      if r in s.owed && a.Vote? && a.id == r.id {
        VoteKeepsJustified(s.proposals[a.id], r.why, a.user, a.approve, a.now, a.approvedAt, a.stamped, s.clock);
      }
    }
  }

  lemma StepKeepsPosts(s: Desk, a: Action)
    requires Entries(s) && Owing(s) && Posts(s) && Enabled(s, a)
    ensures Posts(Next(s, a))
  {
    var n := Next(s, a);
    forall i | 0 <= i < |n.posted| ensures GoodPost(n, n.posted[i]) {
      if i < |s.posted| {
        assert GoodPost(s, s.posted[i]);
      }
    }
    forall i, j | 0 <= i < j < |n.posted| ensures n.posted[i].id != n.posted[j].id {
      assert GoodPost(s, s.posted[i]);
    }
  }

  lemma StepKeepsInv(s: Desk, a: Action)
    requires Inv(s) && Enabled(s, a)
    ensures Inv(Next(s, a))
  {
    StepKeepsEntries(s, a);
    StepKeepsOwing(s, a);
    StepKeepsPosts(s, a);
  }

  // --- Ballots, declines and expiry -------------------------------------------------

  /** Every entry in both states has the same voters, and whoever had answered still has that answer. */
  ghost predicate BallotsKept(s: Desk, t: Desk) {
    && s.evidence.Keys <= t.evidence.Keys
    && (forall id :: id in s.evidence ==> t.evidence[id] == s.evidence[id])
    && (forall id :: id in s.evidence && id in t.proposals ==>
          id in s.proposals && Kept(s.proposals[id], t.proposals[id]))
    && s.posted <= t.posted
    && s.clock <= t.clock
  }

  ghost predicate Kept(p: Proposal, q: Proposal) {
    && q.proposer == p.proposer && q.target == p.target && Users(q.votes) == Users(p.votes)
    && (p.approvedAt.Some? ==> q == p)
    && |q.votes| == |p.votes|
    && forall i :: 0 <= i < |p.votes| && !p.votes[i].ballot.Pending? ==> q.votes[i].ballot == p.votes[i].ballot
  }

  lemma VoteKeepsBallots(p: Proposal, user: int, approve: bool, now: int, approvedAt: int, stamped: int)
    requires Unanimous(p) && MayVote(p, user, now)
    ensures Kept(p, Voted(p, user, approve, approvedAt, stamped))
  {
    ApprovalIsComplete(p, user, now);
  }

  lemma StepKeepsBallots(s: Desk, a: Action)
    requires Inv(s) && Enabled(s, a)
    ensures BallotsKept(s, Next(s, a))
  {
    hide Unanimous, FromEvidence, Voted, MayVote, Rows, Asked, Proposed, NextOwed, GoodPost, Justified;
    if a.Vote? {
      VoteKeepsBallots(s.proposals[a.id], a.user, a.approve, a.now, a.approvedAt, a.stamped);
    }
  }

  /** Approval is out of reach: the entry is gone, or was declined by somebody, or lapsed unapproved. */
  ghost predicate Dead(s: Desk, id: string) {
    && id in s.evidence
    && (id in s.proposals ==>
          var p := s.proposals[id];
          AnyDeclined(p) || (p.approvedAt.None? && p.expires <= s.clock))
  }

  lemma DeadIsUnapproved(s: Desk, id: string)
    requires Entries(s) && Dead(s, id) && id in s.proposals
    ensures s.proposals[id].approvedAt.None?
  {
    if AnyDeclined(s.proposals[id]) {
      var i :| 0 <= i < |s.proposals[id].votes| && s.proposals[id].votes[i].ballot.Declined?;
      assert !AllApproved(s.proposals[id]);
    }
  }

  lemma DeadStaysDead(s: Desk, a: Action, id: string)
    requires Inv(s) && Enabled(s, a) && Dead(s, id)
    ensures Dead(Next(s, a), id)
  {
    hide FromEvidence, Unanimous, Voted, AnyDeclined, GoodPost, Proposed, Rows, Asked, NextOwed, NextPosted;
    if id in s.proposals && a.Vote? && a.id == id {
      assert Unanimous(s.proposals[id]);
      assert AnyDeclined(s.proposals[id]);
      VoteKeepsJustified(s.proposals[id], OnDecline, a.user, a.approve, a.now, a.approvedAt, a.stamped, s.clock);
    }
  }

  lemma DeadIsNotPosted(s: Desk, a: Action, id: string)
    requires Inv(s) && Enabled(s, a) && Dead(s, id)
    ensures forall i :: |s.posted| <= i < |Next(s, a).posted| ==> Next(s, a).posted[i].id != id
  {
    if id in s.proposals {
      DeadIsUnapproved(s, id);
    }
  }

  // --- Whole runs --------------------------------------------------------------------

  ghost predicate Runs(s: Desk, acts: seq<Action>)
    decreases |acts|
  {
    acts == [] || (Enabled(s, acts[0]) && Runs(Next(s, acts[0]), acts[1..]))
  }

  ghost function After(s: Desk, acts: seq<Action>): Desk
    requires Runs(s, acts)
    decreases |acts|
  {
    if acts == [] then s else After(Next(s, acts[0]), acts[1..])
  }

  function Opened(clock: int): Desk { Desk(map[], map[], multiset{}, [], clock) }

  lemma KeptTwice(s: Desk, t: Desk, u: Desk)
    requires BallotsKept(s, t) && BallotsKept(t, u)
    ensures BallotsKept(s, u)
  {
    forall id | id in s.evidence && id in u.proposals
      ensures id in s.proposals && Kept(s.proposals[id], u.proposals[id])
    {
      assert id in t.proposals;
    }
  }

  lemma {:induction false} RunKeeps(s: Desk, acts: seq<Action>)
    requires Inv(s) && Runs(s, acts)
    ensures Inv(After(s, acts)) && BallotsKept(s, After(s, acts))
    decreases |acts|
  {
    if acts != [] {
      StepKeepsInv(s, acts[0]);
      StepKeepsBallots(s, acts[0]);
      RunKeeps(Next(s, acts[0]), acts[1..]);
      KeptTwice(s, Next(s, acts[0]), After(s, acts));
    } else {
      assert forall id :: id in s.proposals ==> Kept(s.proposals[id], s.proposals[id]);
    }
  }

  /**
   Consent. However votes, cancels, departures, sweeps and sends interleave: every
   message that carries a clip was sent by its proposer to the agreed channel,
   after every listed voter approved; nobody the server's log saw in the call and
   who still has an account was left out, whatever the client declared; and one
   approval posted one message.
   */
  lemma PostedMeansAgreed(clock: int, acts: seq<Action>, k: nat, user: int)
    requires Runs(Opened(clock), acts) && k < |After(Opened(clock), acts).posted|
    ensures var end := After(Opened(clock), acts);
            var post := end.posted[k];
            && post.id in end.evidence
            && var e := end.evidence[post.id];
            && post.sender == e.proposer && post.channel == post.entry.target
            && (forall i :: 0 <= i < |post.entry.votes| ==> post.entry.votes[i].ballot.Approved?)
            && (user in e.log && user != e.proposer && user !in e.exempt && user in e.accounts && InInt4(user) ==>
                  exists i :: 0 <= i < |post.entry.votes| && post.entry.votes[i].user == user
                      && post.entry.votes[i].ballot.Approved?)
            && (forall j :: 0 <= j < |end.posted| && end.posted[j].id == post.id ==> j == k)
  {
    RunKeeps(Opened(clock), acts);
    var end := After(Opened(clock), acts);
    var post := end.posted[k];
    assert GoodPost(end, post);
    var e := end.evidence[post.id];
    if user in e.log && user != e.proposer && user !in e.exempt && user in e.accounts && InInt4(user) {
      assert user in Asked(e);
      assert user in Rows(e);
      assert user in Users(post.entry.votes);
    }
  }

  /** The same of an entry that is approved but not posted yet. */
  lemma ApprovedMeansUnanimous(clock: int, acts: seq<Action>, id: string)
    requires Runs(Opened(clock), acts) && id in After(Opened(clock), acts).proposals
    ensures var p := After(Opened(clock), acts).proposals[id];
            p.approvedAt.Some? <==> forall i :: 0 <= i < |p.votes| ==> p.votes[i].ballot.Approved?
  {
    RunKeeps(Opened(clock), acts);
  }

  /** One decline, or an expiry without approval, and the proposal is never approved nor posted in any later state. */
  lemma {:induction false} DeadForGood(s: Desk, acts: seq<Action>, id: string)
    requires Inv(s) && Runs(s, acts) && Dead(s, id)
    ensures var end := After(s, acts);
            && Dead(end, id)
            && (id in end.proposals ==> end.proposals[id].approvedAt.None?)
            && |s.posted| <= |end.posted|
            && forall i :: |s.posted| <= i < |end.posted| ==> end.posted[i].id != id
    decreases |acts|
  {
    if acts == [] {
      if id in s.proposals {
        DeadIsUnapproved(s, id);
      }
    } else {
      var n := Next(s, acts[0]);
      StepKeepsInv(s, acts[0]);
      StepKeepsBallots(s, acts[0]);
      DeadStaysDead(s, acts[0], id);
      DeadIsNotPosted(s, acts[0], id);
      RunKeeps(n, acts[1..]);
      DeadForGood(n, acts[1..], id);
      var end := After(s, acts);
      forall i | |s.posted| <= i < |end.posted| ensures end.posted[i].id != id {
        if i < |n.posted| { assert end.posted[i] == n.posted[i]; }
      }
    }
  }

  /** Approval happens in one step only: the last voter's own, while the entry was unexpired and nobody had declined. */
  lemma OnlyALiveVoteApproves(s: Desk, a: Action, id: string)
    requires Inv(s) && Enabled(s, a) && id in s.proposals && id in Next(s, a).proposals
    requires s.proposals[id].approvedAt.None? && Next(s, a).proposals[id].approvedAt.Some?
    ensures a.Vote? && a.id == id && a.approve && s.clock <= a.now < s.proposals[id].expires
    ensures var p, q := s.proposals[id], Next(s, a).proposals[id];
            && (forall i :: 0 <= i < |p.votes| ==>
                  p.votes[i].ballot.Approved? || (p.votes[i].user == a.user && p.votes[i].ballot.Pending?))
            && q.expires == a.stamped + UPLOAD_GRACE
  {
    StepKeepsInv(s, a);
    var p, q := s.proposals[id], Next(s, a).proposals[id];
    forall i | 0 <= i < |p.votes|
      ensures p.votes[i].ballot.Approved? || (p.votes[i].user == a.user && p.votes[i].ballot.Pending?)
    {
      assert q.votes[i].ballot.Approved?;
    }
  }

  /** A sweep takes only what has expired, however late it acts: never an approval inside its grace. */
  lemma SweepTakesOnlyExpired(s: Desk, id: string)
    requires Inv(s) && Enabled(s, Settle(Removal(id, OnExpiry))) && id in s.proposals
    ensures s.proposals[id].expires <= s.clock
  {
  }

  /**
   `solo` is decided twice, and the second time by rows: with nobody's consent asked
   a clip is approved at once exactly when no id on the list has an account row -
   which is weaker than the attested "alone" the first test insists on.
   */
  lemma ApprovedAtOnceIff(s: Desk, id: string, e: Evidence, voice: int, channel: int, rows: seq<int>, now: int)
    requires Enabled(s, Propose(id, e, voice, channel, rows, now))
    ensures var p := Next(s, Propose(id, e, voice, channel, rows, now)).proposals[id];
            && (p.approvedAt.Some? <==> forall u :: u in Asked(e) ==> Wrap32(u) !in e.accounts)
            && (p.approvedAt.Some? ==> p.solo && p.expires == now + PROPOSAL_TTL + UPLOAD_GRACE)
            && (p.approvedAt.None? ==> !p.solo && p.expires == now + PROPOSAL_TTL)
  {
    assert rows == [] <==> Elements(rows) == {} by {
      if rows != [] { assert rows[0] in Elements(rows); }
    }
    if u :| u in Asked(e) && Wrap32(u) in e.accounts {
      assert Wrap32(u) in Rows(e);
    }
  }

  /** It happens: user 2 was seen in the call and has no account row any more, and the proposer was not alone. */
  lemma RowlessListIsApprovedAtOnce(id: string, now: int)
    ensures var e := Evidence(1, {2}, [], {1, 2}, {}, {1}, map[], false);
            var s := Desk(map[], map[], multiset{}, [], now);
            var a := Propose(id, e, 7, 8, [], now);
            && Inv(s) && Enabled(s, a) && Asked(e) == {2} && !e.alone
            && Next(s, a).proposals[id].approvedAt == Some(now)
  {
    var e := Evidence(1, {2}, [], {1, 2}, {}, {1}, map[], false);
    assert Considered([]) == [];
    assert 2 in Asked(e) && Asked(e) == {2};
    assert Wrap32(2) == 2;
    assert Rows(e) == {};
    assert Elements([]) == {};
  }

  // --- The map itself, and the sections that change it --------------------------------

  datatype Answer =
    | NotFound
    | AlreadyAnswered
    | Counted(state: string, approved: nat, total: nat)

  function ApprovedCount(votes: seq<Voter>): (n: nat)
    ensures n <= |votes|
  {
    if votes == [] then 0 else (if votes[0].ballot.Approved? then 1 else 0) + ApprovedCount(votes[1..])
  }

  /** The tally the proposer is shown reads "all of them" exactly when the clip is approved. */
  lemma {:induction false} FullTallyIsApproval(votes: seq<Voter>)
    ensures ApprovedCount(votes) == |votes| <==> forall i :: 0 <= i < |votes| ==> votes[i].ballot.Approved?
  {
    if votes != [] {
      FullTallyIsApproval(votes[1..]);
      assert forall i :: 0 < i < |votes| ==> votes[i] == votes[1..][i - 1];
      if votes[0].ballot.Approved? && ApprovedCount(votes[1..]) == |votes| - 1 {
        forall i | 0 <= i < |votes| ensures votes[i].ballot.Approved? {
          if i > 0 { assert votes[1..][i - 1].ballot.Approved?; }
        }
      } else if forall i :: 0 <= i < |votes| ==> votes[i].ballot.Approved? {
        forall i | 0 <= i < |votes[1..]| ensures votes[1..][i].ballot.Approved? {
          assert votes[i + 1].ballot.Approved?;
        }
      }
    }
  }

  class ClipDesk {
    var proposals: map<string, Proposal>

    /** The locked section of a vote. A decline's removal comes after the lock is released. */
    method CastVote(id: string, user: int, approve: bool, now: int, approvedAt: int, stamped: int)
        returns (answer: Answer)
      requires forall k :: k in proposals ==> Distinct(Users(proposals[k].votes))
      modifies this
      ensures answer.NotFound? <==>
                id !in old(proposals) || old(proposals)[id].expires <= now || !IsVoter(old(proposals)[id], user)
      ensures answer.AlreadyAnswered? ==> HasVoted(old(proposals)[id], user)
      ensures !answer.Counted? ==> proposals == old(proposals)
      ensures answer.Counted? <==> id in old(proposals) && MayVote(old(proposals)[id], user, now)
      ensures answer.Counted? ==>
                && proposals == old(proposals)[id := Voted(old(proposals)[id], user, approve, approvedAt, stamped)]
                && answer.total == |old(proposals)[id].votes|
                && answer.approved == ApprovedCount(proposals[id].votes)
                && (answer.state == "approved" <==> approve && answer.approved == answer.total)
                && (answer.state == "declined" <==> !approve)
    {
      if id !in proposals {
        return NotFound;
      }
      var p := proposals[id];
      if p.expires <= now || !IsVoter(p, user) {
        return NotFound;
      }
      assert Distinct(Users(p.votes));
      var idx: nat := 0;
      while p.votes[idx].user != user
        invariant idx < |p.votes|
        invariant forall i :: 0 <= i < idx ==> p.votes[i].user != user
        decreases |p.votes| - idx
      {
        idx := idx + 1;
      }
      forall i | 0 <= i < |p.votes| && p.votes[i].user == user ensures i == idx {
        assert Users(p.votes)[i] == Users(p.votes)[idx];
      }
      if p.votes[idx].ballot != Pending {
        return AlreadyAnswered;
      }
      var q := p.(votes := p.votes[idx := p.votes[idx].(ballot := if approve then Approved else Declined)]);
      assert q.votes == WithBallot(p.votes, user, if approve then Approved else Declined);
      FullTallyIsApproval(q.votes);
      var state := if approve then "pending" else "declined";
      if approve && AllApproved(q) {
        q := q.(approvedAt := Some(approvedAt), expires := stamped + UPLOAD_GRACE);
        state := "approved";
      }
      proposals := proposals[id := q];
      answer := Counted(state, ApprovedCount(q.votes), |q.votes|);
    }

    /** The proposer's last connection went away: collect the ids, then remove them one by one. */
    method CancelProposalsOf(user: int) returns (cancelled: set<string>)
      modifies this
      ensures cancelled == set id | id in old(proposals) && old(proposals)[id].proposer == user
      ensures proposals == old(proposals) - cancelled
    {
      cancelled := set id | id in proposals && proposals[id].proposer == user;
      RemoveAll(cancelled);
    }

    method ReapStale(now: int) returns (expired: set<string>)
      modifies this
      ensures expired == set id | id in old(proposals) && old(proposals)[id].expires <= now
      ensures proposals == old(proposals) - expired
    {
      expired := set id | id in proposals && proposals[id].expires <= now;
      RemoveAll(expired);
    }

    method RemoveAll(ids: set<string>)
      modifies this
      ensures proposals == old(proposals) - ids
    {
      var left := ids;
      while left != {}
        invariant left <= ids && proposals == old(proposals) - (ids - left)
        decreases |left|
      {
        SomeId(left);
        var id :| id in left;
        proposals := proposals - {id};
        left := left - {id};
      }
    }

    lemma SomeId(ids: set<string>)
      ensures ids == {} || exists id :: id in ids
    {
      if forall id :: id !in ids {
        assert ids == {};
      }
    }

    /** The entry goes to one caller: the one whose `remove` found it. */
    method Take(id: string) returns (entry: Option<Proposal>)
      modifies this
      ensures entry == if id in old(proposals) then Some(old(proposals)[id]) else None
      ensures proposals == old(proposals) - {id}
    {
      entry := if id in proposals then Some(proposals[id]) else None;
      proposals := proposals - {id};
    }
  }
}
