# Puca: verified models of the server's state machines

Dafny 4.11 models of the parts of the Puca server whose comments argue about races,
rules of visibility and arithmetic limits, and of the Python script that reads Rust
source to check SQL bind types. `dafny verify dfyconfig.toml` checks everything.

## What is modelled

- **Card tables** (`GameEngine`, `GameTable`, `GameRuns`, `GameTimers`, `GameDeadlines`,
  `GameFrames`, `GameSeats`, `GameRegistry`). The host of an in-call card game is a
  transition system with one step for each lock-holding section, over a table, the set of
  pending timers and the frames sent. Timers are never cancelled; each carries the stamp
  it was made for. The rules engine is a contract (`GameEngine`), and every theorem holds
  for every engine that keeps it. `TableCell` and `Registry` do the same work in place.
- **Hold'em views** (`GameCards`, `GamePots`). What a frame tells each connection, from the
  engine's per-seat view through the wire conversion and the fan-out with its per-seat
  cache; and the pots a view shows.
- **Sessions** (`Sessions`, `DeviceSessions`). Sliding renewal, and device-token mints,
  attestation binds, device revocations, sign-outs and requests interleaved statement by
  statement, with share and exclusive row locks.
- **Friend requests across a block** (`Friends`). The handlers as functions on the tables and
  as methods that change them, and a two-run theorem over whole sequences of calls.
- **Clip consent** (`ClipApprovers` and `Clips`, both in `Clips.dfy`) and **rate limits**
  (`Pruning` and `Limits`, both in `Limits.dfy`).
- **Channel tree** (`Channels`): the parent guards and the recursive delete. (`Columns`: ids
  in the database's four-byte columns.)
- **Rust lexer and splicer** (`PyText` and `RustLiterals` in `RustLiterals.dfy`, `RustTokens`
  in `RustStructure.dfy`, `RustPieces`, `RustReading`, `RustParsing`, `RustBrackets`,
  `BindSpans`, `Splice`, `SpliceMarks`). The script's loops over text, and an independent
  grammar of pieces (code, comments, literals): the scan gets through a file exactly if the
  file is made of such pieces.

Every other module is in the file of its own name; `Wrappers.dfy` holds the result types.

Time, randomness, database failures, permission answers and membership reads are
parameters. A claim about "every run" quantifies over all of them.

## What the proofs found

- `Clips.ApprovedAtOnceIff`: the second `solo` in `propose_clip` is decided by account rows,
  so a clip is approved at once exactly when nobody on the list has a row; the attested
  "alone" is asked for only when the list itself is empty. `RowlessListIsApprovedAtOnce` is
  such a proposal.
- `GameSeats.LateJoinHappens`: `on_join` is the one section that does not look at the
  call again after its await. A player who drops out, comes back and is gone again before
  the table hears of the return keeps their seat with no grace and nothing pending; the
  lemma is the whole run, from a new table. `GameSeats.MoveFollowsIff` gives the exact
  condition under which a step keeps seats and call together.
- `Friends.CallAnswered`: the friendship lookup of a send is made only for an unblocked
  pair, so its failure is the one failure that tells the two cases apart. `Fair` says
  exactly when, and a run is indistinguishable exactly if every call of it is fair.
- `Limits.TenAndTheLateIsExact`: a reserved table open that is given back only after its
  window is over is taken off a later window's count. So five opens in 300 seconds bound the
  opens of any 300 seconds by ten plus the late refunds among them, and no lower bound holds
  of all runs with that many (`LateRefundsLetMore`): ten holds exactly when none is late.
- `SpliceMarks.WrappedIffNoClash`: of disjoint or nested spans every wrapper is whole exactly
  when no span ends where another starts and shared ends come in the right order. Touching
  spans would cross, and the loop's comment (`scripts/check-sql-bind-types.py:1093`) reads as
  if they would not; but the script cannot produce them (`BindSpans.DirectBindSpansWrap`).
- `RustLiterals.LooseEscapeIsRead`: the reader skips the character after `\u` unread, and
  asks `int` alone what an escape is, so it reads literals no Rust file can hold.
  `RustReading.ReadsExactly` says which texts it takes, `RustReading.RustsIffNoneIsLoose` which
  of them are Rust's: those with no loose item. `RustParsing.BlanksExactly` is the same of
  whole files.
- `RustReading.DoubledUnderscoreIsRefused`: Rust lets any underscores stand behind the first
  digit of `\u{…}`; `int` wants a digit on both sides of each, and the script raises
  `ValueError` on the others, `\u{4__1}` among them. `RustLiterals.OrdinaryReadsBack` gives
  both outcomes.
- `RustLiterals.TooManyHashes`: the raw-string opening is looked for in a window of twelve
  characters, so a raw literal with more hashes than fit is not read as a literal.
- `GameTable.Applied` follows the code: an empty event list sends nothing. The comment there
  says nothing changed either; the Hold'em engine's `leave` marks a folded player as leaving and
  reports nothing (`crates/puca-games/src/holdem/mod.rs:630`), so the contract is `Quiet`, not
  "no change".
- `GameSeats.MayNotPlayGetsUp` and `GameFrames.EveryChangeIsTold` claim nothing about a grace that
  ends without a version: three paths drop an `away` entry before a `leave` that may report
  nothing, and the model keeps them.

## Model

| member | source | states |
|---|---|---|
| Sessions.RenewalKeepsTheSession | src/auth.rs:207-240 | A renewal keeps account, token version, sign-in time and kind, pushes `exp` strictly later, never past the cap, and by at least four hours unless it reaches the cap |
| Sessions.ChainKeepsTheSession | src/auth.rs:113-156 | Along any chain of renewals `sst`, `tv`, `ls` never change, `exp` strictly grows within the cap, and the chain's length is bounded by the room left before the cap |
| Sessions.RenewalBound | src/auth.rs:74-118 | From a full sign-in token at most 174 renewals, 2010 for a long session |
| Sessions.RenewalBoundIsAttained | src/auth.rs:74-118 | Both counts are reached by a client that renews every four hours |
| Sessions.NeverSignedOutEarly | src/auth.rs:95-118 | A client never silent for more than TTL less four hours holds an unexpired token at every moment before the cap, the clamped last stretch included |
| Sessions.OneSecondLongerIsTooLong | src/auth.rs:207-222 | One second more silence and a session can end: the gap is exact |
| DeviceSessions.StepKeepsInv | src/device_token.rs:181-308 | Every statement keeps the locks exclusive and on live devices, rows bound to their own account's devices, swept devices clean, and reserved sids nobody else's |
| DeviceSessions.RunKeeps | src/device_handlers.rs:422-456 | So does every interleaving; bindings, sweeps and tokens are never undone |
| DeviceSessions.RevokedDeviceStaysOut | src/device_handlers.rs:400-456 | Once a revocation commits, in every later state every session bound to the device is revoked and no token on such a session, renewed ones included, is accepted |
| DeviceSessions.MintedTokensAreBound | src/device_token.rs:204-308 | Every token a mint hands out is on a row bound to the device that proved itself |
| DeviceSessions.AbortedRevokeCostsNoMint | src/device_handlers.rs:422-456 | An aborted revocation changes no row, token or other transaction, and a waiting mint gets its row and token |
| DeviceSessions.RefusedOnlyAfterACommit | src/device_token.rs:204-208 | A mint is refused its row only when a revocation or a sign-out everywhere committed since its read |
| DeviceSessions.SessionStore.Authenticate | src/auth.rs:341-432 | Accepts exactly the unexpired live tokens; hands out a replacement only when its session row was there or was written |
| DeviceSessions.SessionStore.LockForMint | src/device_token.rs:204-208 | The insert's condition under the share lock is the protocol's step; it reserves a row exactly when it succeeds |
| DeviceSessions.SessionStore.CommitMint | src/device_token.rs:250-323 | The row becomes visible and the token minted against it, one hour, fresh sign-in time |
| DeviceSessions.SessionStore.RevokeRows | src/device_handlers.rs:428-447 | Mark, sweep and commit are the protocol's four steps, and return exactly the live rows bound to the device |
| DeviceSessions.SessionStore.RevokeDevice | src/device_handlers.rs:382-523 | 404 for another's device; otherwise the transaction, then exactly the sockets of the device and of the revoked sessions are closed |
| DeviceSessions.SessionStore.EnrolDevice | src/device_handlers.rs:168-276 | Enrols exactly below the cap and never revives a revoked device nor takes another account's |
| Friends.CallAnswered | src/friend_handlers.rs:59-144 | One call by anyone, in a blocked store and its unblocked twin: same answer up to opaque ids and still twins, exactly if it is not a send told of a failed friendship lookup |
| Friends.TwinsStayIndistinguishable | src/friend_handlers.rs:59-144 | Over any sequence of calls: indistinguishable exactly if every call is fair in the state it finds |
| Friends.BlockIsInvisible | src/friend_handlers.rs:59-99 | From any blocked store without a friendship, with any hidden reverse row, a sequence of calls tells it from the unblocked store whose other side never wrote exactly if one send is told of a failed friendship lookup |
| Friends.FailedFriendLookupTells | src/friend_handlers.rs:212-306 | Exactly when a failed friendship lookup gives a send different answers in the two stores |
| Friends.UnblockReadsAsARejection | src/moderation_handlers.rs:797-862 | Lifting the block leaves, ids aside, what a rejection in the unblocked store leaves |
| Friends.BlockingStartsClean | src/moderation_handlers.rs:686-794 | A block made now starts in the theorem's own starting state, for both parties |
| Friends.FriendStore.FindPending | src/friend_handlers.rs:439-470 | Finds the caller's own pending row with that id, if the lookup works |
| Friends.FriendStore.SendRequest | src/friend_handlers.rs:212-351 | Checks in the handler's order; answer and rows are the specification's |
| Friends.FriendStore.AcceptRequest | src/friend_handlers.rs:439-499 | Friendship first, then the row; hidden requests do not exist |
| Friends.FriendStore.RejectRequest | src/friend_handlers.rs:502-535 | Answered even when the delete failed; hidden requests do not exist |
| Friends.FriendStore.RemoveFriend | src/friend_handlers.rs:538-580 | Clears requests both ways, then the friendship, 404 when there was none |
| Friends.FriendStore.FriendshipStatus | src/friend_handlers.rs:583-666 | The three lookups in order, the received request filtered by the rule |
| Friends.FriendStore.BlockUser | src/moderation_handlers.rs:686-794 | Dissolves the friendship and deletes the pair's pending requests |
| Friends.FriendStore.UnblockUser | src/moderation_handlers.rs:797-862 | Clears the pair's rows only if a block was removed |
| ClipApprovers.UnionApprovers | src/clip_handlers.rs:68-81 | The sorted list of who the log saw and the first 64 declared who may view, without exempt accounts and the proposer |
| ClipApprovers.DeclaringOnlyAdds | src/clip_handlers.rs:48-81 | No declaration takes anybody the log saw off the list, nor puts on it one who cannot view |
| Clips.StepKeepsInv | src/clip_handlers.rs:671-745 | Every section keeps: voters are the account rows asked about; approved means unanimous; a decided removal is still justified; each post was agreed |
| Clips.RunKeeps | src/clip_handlers.rs:692-743 | Over any run the voters of an entry stay who they are, a cast vote never changes, and an approval is never taken back |
| Clips.PostedMeansAgreed | src/clip_handlers.rs:601-745 | However votes, cancels, departures, sweeps and sends interleave, every posted clip was approved by every listed voter, and every account the log saw was listed whatever the client declared |
| Clips.ApprovedMeansUnanimous | src/clip_handlers.rs:692-743 | The same of an approved entry not posted yet |
| Clips.DeadForGood | src/clip_handlers.rs:715-743 | After one decline, or expiry unapproved, never approved nor posted in any later state |
| Clips.OnlyALiveVoteApproves | src/clip_handlers.rs:692-743 | Approval happens in one step only: the last voter's own, unexpired, with no decline |
| Clips.SweepTakesOnlyExpired | src/clip_handlers.rs:825-838 | A sweep's removal, however late it acts, takes only an expired entry |
| Clips.ApprovedAtOnceIff | src/clip_handlers.rs:601-648 | A proposal is approved at once exactly when no id on the list has an account row |
| Clips.RowlessListIsApprovedAtOnce | src/clip_handlers.rs:601-648 | A proposal that is approved at once although the log saw somebody and the proposer was not alone |
| Clips.FullTallyIsApproval | src/clip_handlers.rs:409-440 | The tally shown to the proposer is full exactly when the clip is approved |
| Clips.ClipDesk.CastVote | src/clip_handlers.rs:671-745 | One vote under the entry lock: who may vote, what it stamps, and what its decline then removes |
| Clips.ClipDesk.CancelProposalsOf | src/clip_handlers.rs:812-819 | Removes exactly the proposer's own entries |
| Clips.ClipDesk.ReapStale | src/clip_handlers.rs:825-838 | Removes exactly the expired entries |
| Clips.ClipDesk.Take | src/message_handlers.rs:309-311 | The entry goes to the one caller whose remove found it |
| Columns.Wrap32 | src/clip_handlers.rs:618 | A bound id is cast to the column's width: congruent modulo 2^32, unchanged when it fits |
| Pruning.PruningIsInvisible | src/clip_handlers.rs:825-838 | For any limit whose stale entries answer like missing ones, sweeping any stale entries at any moments changes no answer of any run |
| Limits.ClipWindowSound | src/clip_handlers.rs:445-462 | The clip window is such a limit |
| Limits.DenialLadderSound | src/clip_handlers.rs:445-474 | So is the ladder, because its longest step is no longer than the decay |
| Limits.ClipSweepsAreInvisible | src/clip_handlers.rs:825-838 | The window and the ladder answer as if nothing had ever been swept |
| Limits.CreateWindowSound | src/games.rs:802-823 | So is the table-open window, refunds included |
| Limits.ResyncLimitSound | src/games.rs:825-842 | So is the resync limit |
| Limits.TableSweepsAreInvisible | src/games.rs:802-842 | Both answer as if nothing had ever been swept |
| Limits.AtMostTenAndTheLate | src/games.rs:802-823 | However a user's reservations and refunds interleave: in any 300 seconds at most ten tables open, and one more for each refund given back there after its own window |
| Limits.LateRefundsLetMore | src/games.rs:802-823 | For every n, a run that gives back only what was granted, n of it late, opens ten and n within 300 seconds; with n = 0 ten are reached |
| Limits.TenAndTheLateIsExact | src/games.rs:802-823 | A number bounds the opens of all runs with at most n late refunds exactly if it is at least 10 + n |
| Limits.TenHoldsIffNoneIsLate | src/games.rs:802-823 | Ten bounds them exactly if none is late |
| Limits.ChallengesSound | src/device_token.rs:76-104 | Pending challenges are such a limit once the issue was admitted |
| Limits.ChallengeSweepsAreInvisible | src/device_token.rs:82-104 | Sweeping them changes no answer, given that each issue was admitted |
| Limits.PendingIsLastIssued | src/device_token.rs:82-104 | What is pending for a nonce is its last issue, not redeemed since |
| Limits.RedeemedOnceAndInTime | src/device_token.rs:97-104 | A nonce is redeemed exactly when it was issued for that device, in time, and nothing has redeemed or reissued it since |
| Limits.ClipLimits.CheckRate | src/clip_handlers.rs:445-462 | The ladder first, then the window; a wait costs nothing of the window |
| Limits.ClipLimits.BumpDenial | src/clip_handlers.rs:464-474 | One rung up, or back to the first after the decay |
| Limits.ClipLimits.Sweep | src/clip_handlers.rs:832-833 | Drops exactly the stale entries |
| Limits.TableLimits.TakeCreate | src/games.rs:802-816 | One open of the window, with its sweep |
| Limits.TableLimits.RefundCreate | src/games.rs:819-823 | Gives one back, never below none |
| Limits.TableLimits.TakeResync | src/games.rs:825-842 | One resync a second a connection, with its sweep |
| Limits.DeviceChallenges.IssueFor | src/device_token.rs:82-90 | Sweeps, then admits under the cap |
| Limits.DeviceChallenges.TakeNonce | src/device_token.rs:97-104 | Removes the nonce in any case; the device only in time |
| Channels.AncestorChain | src/permissions.rs:892-907 | The collections above a channel, outermost first, each once, ending at the first seen twice; on a forest all of them |
| Channels.NoNewLoop | src/channel_handlers.rs:740-756 | A new link to something that is neither the channel nor below it closes no loop |
| Channels.CreateKeepsForest | src/channel_handlers.rs:305-321 | An accepted create leaves a forest of same-server collections |
| Channels.ReparentKeepsForest | src/channel_handlers.rs:553-562 | So does an accepted reparent, its check and write taken as one |
| Channels.DeleteKeepsForest | src/channel_handlers.rs:826-849 | So does a delete |
| Channels.ForestAlways | src/channel_handlers.rs:746-767 | So does any sequence of them |
| Channels.Doomed | src/channel_handlers.rs:826-838 | The recursive query finds exactly the descendants, on any graph, in at most as many rounds as it finds rows |
| Channels.CascadeIsTheForeignKeys | src/channel_handlers.rs:826-849 | That set is the least one holding the channel and closed under the foreign key's cascade |
| Channels.LoopGoesTogether | src/channel_handlers.rs:826-849 | Deleting any channel of a loop, of whatever length, takes the same channels, the whole loop among them |
| Channels.ChannelTable.ParentWouldLoop | src/channel_handlers.rs:746-756 | True exactly when the channel is above the parent among the server's channels, or the read failed |
| Channels.ChannelTable.CreateChannel | src/channel_handlers.rs:278-321 | Accepts exactly what the rule allows and keeps the forest |
| Channels.ChannelTable.UpdateParent | src/channel_handlers.rs:494-562 | Accepts a parent exactly when it is a same-server collection, not the channel, not below it; keeps the forest |
| Channels.ChannelTable.DeleteChannel | src/channel_handlers.rs:793-892 | Allowed exactly when the caller sees everything besides the named channel that goes along; removes exactly the closure |
| RustLiterals.ReadLiteral | scripts/check-sql-bind-types.py:217-260 | The script's loops compute the reading specified, every index error included |
| RustLiterals.ReadQuoted | scripts/check-sql-bind-types.py:230-260 | So does the loop from inside an ordinary literal |
| RustLiterals.ReadEscape | scripts/check-sql-bind-types.py:236-256 | One escape, continuations included |
| RustLiterals.OrdinaryReadsBack | scripts/check-sql-bind-types.py:217-260 | An ordinary literal, whatever surrounds it, reads as its value and ends just past its quote - exactly if no escape has underscores `int` refuses; then it is a ValueError |
| RustLiterals.LiteralRead | scripts/check-sql-bind-types.py:217-260 | The same of any items the loop can tell apart, Rust's or not: read for what `int` makes of their escapes, or a ValueError where it refuses one |
| RustLiterals.EscapeMeans | scripts/check-sql-bind-types.py:217-260 | Any value, escaped, means itself |
| RustLiterals.AnyValueReadsBack | scripts/check-sql-bind-types.py:217-260 | Escaping any value into a literal and reading it gives the value back |
| RustLiterals.RawReadsBack | scripts/check-sql-bind-types.py:217-229 | A raw literal with enough hashes reads as its body, its line ends as LF |
| RustLiterals.TooManyHashes | scripts/check-sql-bind-types.py:217-222 | With more hashes than the window holds, no literal is seen |
| RustLiterals.LooseEscapeIsRead | scripts/check-sql-bind-types.py:250-254 | A literal without the opening brace of its escape is read all the same |
| RustLiterals.LooseIsNoLiteral | scripts/check-sql-bind-types.py:250-254 | And no Rust literal is written so |
| RustLiterals.CrlfReadsTheSame | scripts/check-sql-bind-types.py:224-260 | Turning every LF of an ordinary literal into CR LF leaves what reading it comes to |
| RustLiterals.RawCrlfReadsTheSame | scripts/check-sql-bind-types.py:217-229 | And a raw one's |
| RustReading.ItemsAreUnique | scripts/check-sql-bind-types.py:230-260 | A text is the inside of a literal in one way at most |
| RustReading.BodyReadsExactly | scripts/check-sql-bind-types.py:230-260 | From inside a quote the loop succeeds exactly where items it can tell apart, their escapes taken by `int`, stand up to a quote |
| RustReading.ReadsExactly | scripts/check-sql-bind-types.py:217-260 | The reader succeeds exactly on such literals and on raw ones whose opening it sees |
| RustReading.RustsIffNoneIsLoose | scripts/check-sql-bind-types.py:247-254 | Of the ordinary ones those are Rust's that have no loose item: no escape without its brace or outside its range, no bare CR, nothing its prefix forbids |
| RustReading.DoubledUnderscoreIsRefused | scripts/check-sql-bind-types.py:250-254 | A Rust literal the reader raises ValueError on |
| RustTokens.SkipComment | scripts/check-sql-bind-types.py:266-281 | Nested block comments, to the matching close or the end of the file |
| RustTokens.SkipTokenAt | scripts/check-sql-bind-types.py:266-298 | The token at an index: comments, raw and prefixed strings, char literals |
| RustTokens.BlankRange | scripts/check-sql-bind-types.py:312-315 | Spaces in place over a range, line breaks kept |
| RustTokens.Blank | scripts/check-sql-bind-types.py:301-317 | The in-place loop computes `BlankFrom`, and ends |
| RustTokens.BlankFrom | scripts/check-sql-bind-types.py:301-317 | The text is as long as it was, every CR and LF in place, everything else kept or a space |
| RustPieces.BlankExact | scripts/check-sql-bind-types.py:266-317 | On any well-placed sequence of code, comments and literals, blanking ends and blanks each piece for itself |
| RustParsing.BlanksExactly | scripts/check-sql-bind-types.py:301-317 | The scan gets through a file exactly if the file is made of well-placed pieces, and then blanks it piece for piece |
| RustParsing.InsideFound | scripts/check-sql-bind-types.py:266-281 | Any text is the inside of a block comment, nested ones and all, that closes or runs to the file's end so many levels deep |
| RustParsing.OpeningIsFound | scripts/check-sql-bind-types.py:266-298 | Where the scan finds nothing, nothing opens |
| RustParsing.PieceFound | scripts/check-sql-bind-types.py:266-298 | Each step of the scan passes one whole piece |
| RustPieces.CommentWalks | scripts/check-sql-bind-types.py:266-281 | Scanning a nested comment ends where the comment ends |
| RustPieces.CharMeans | scripts/check-sql-bind-types.py:283-298 | What the char-literal pattern takes is a char literal |
| RustPieces.RawMeans | scripts/check-sql-bind-types.py:283-290 | What is taken for a raw opening is one |
| RustPieces.NothingSkipped | scripts/check-sql-bind-types.py:266-298 | Where nothing opens the scan finds nothing |
| RustPieces.StructureExact | scripts/check-sql-bind-types.py:301-317 | A bracket, comma or semicolon stands in the blanked text exactly where the code has one outside comments and literals |
| RustBrackets.Balanced | scripts/check-sql-bind-types.py:320-331 | The first closing that brings the depth back to nothing, or an index error exactly when there is none |
| RustBrackets.OpenUntilPartner | scripts/check-sql-bind-types.py:320-331 | Everything before the partner stays open |
| RustBrackets.PartnerIsTheCodes | scripts/check-sql-bind-types.py:301-331 | In blanked text the partner is the code's own |
| RustBrackets.DepthIsTheCodes | scripts/check-sql-bind-types.py:301-331 | The depth read off blanked text is the code's depth |
| RustBrackets.TopCommaIsTheCodes | scripts/check-sql-bind-types.py:334-348 | The top-level commas of blanked text are the code's own |
| RustBrackets.SplitTop | scripts/check-sql-bind-types.py:334-348 | Consecutive pieces separated by top-level commas, with nothing but white space left behind |
| RustBrackets.PiecesRejoin | scripts/check-sql-bind-types.py:334-348 | The pieces rejoined with commas are the text, up to a blank tail |
| RustBrackets.EveryTopCommaSplits | scripts/check-sql-bind-types.py:334-348 | Every top-level comma is one of the splits |
| RustBrackets.Trim | scripts/check-sql-bind-types.py:351-361 | White space at both ends and one trailing comma go, nothing else |
| Splice.ProbedCopy | scripts/check-sql-bind-types.py:1086-1095 | The sorted insertion loop, every insertion inside the text |
| Splice.SortedKeeps | scripts/check-sql-bind-types.py:1093-1094 | The sort keeps the insertions and orders them back to front |
| Splice.BackToFrontIsAtOnce | scripts/check-sql-bind-types.py:1093-1095 | Inserting one by one, back to front, puts every insertion at its original offset |
| Splice.AllAtOnce | scripts/check-sql-bind-types.py:1086-1095 | What the loop makes of a file is all its probes woven in at once |
| Splice.DeletingRestores | scripts/check-sql-bind-types.py:1086-1095 | Deleting the inserted text restores the source |
| Splice.EachSpanIsWrapped | scripts/check-sql-bind-types.py:1086-1095 | With distinct end-points the text is what comes before, the probe's opening, its span with what went into it, the closing, and the rest |
| Splice.WrappersNest | scripts/check-sql-bind-types.py:1086-1095 | In the text a span holds the whole wrapper of a probe nested in it: opening, span, closing |
| Splice.WrappersStandApart | scripts/check-sql-bind-types.py:1086-1095 | Of two disjoint spans one whole wrapper stands before the other in the text |
| SpliceMarks.MarkedSpellsTheText | scripts/check-sql-bind-types.py:1086-1095 | The loop run on marked characters spells what the loop writes |
| SpliceMarks.EnclosesItsSpan | scripts/check-sql-bind-types.py:1093-1095 | Between a probe's opening and closing stand exactly the characters of its own span, whatever the other spans are |
| SpliceMarks.AllWholeIff | scripts/check-sql-bind-types.py:1093-1095 | For any spans, every wrapper is whole inside every other exactly when each pair is apart or nested the way the list orders it |
| SpliceMarks.WrappedIffNoClash | scripts/check-sql-bind-types.py:1093-1095 | For disjoint or nested spans: exactly when no end is another's start and shared ends are in the right order |
| SpliceMarks.TouchingSpansCross | scripts/check-sql-bind-types.py:1093-1095 | Where one span ends and another starts, among any others and in either list order, the wrappers cross |
| BindSpans.ReadCall | scripts/check-sql-bind-types.py:791-793 | A call's argument between its bracket and the partner, trimmed; an error exactly when there is no partner |
| BindSpans.PartnersNest | scripts/check-sql-bind-types.py:320-331 | A bracket opened inside another closes inside it |
| BindSpans.TwoSpans | scripts/check-sql-bind-types.py:1030-1036 | The spans of two calls are strictly apart or strictly nested |
| BindSpans.BindSpansWrap | scripts/check-sql-bind-types.py:1015-1036 | So the script's spans share no end, and every wrapper of a file is whole, given that no call stands in another's type arguments |
| BindSpans.DirectBindSpansWrap | scripts/check-sql-bind-types.py:1015-1036 | Of calls without type arguments that follows from each being listed once |
| GameEngine.DealWanted | src/games.rs:181-197 | A wanted deal is due in more than no time and at most the bet window |
| GameEngine.QuietWantsTheSame | src/games.rs:181-208 | A call that reports nothing changes neither whether a deal is wanted nor who sits |
| GameTable.ScheduleTwice | src/games.rs:349-396 | Bringing the clocks in line again with the table unchanged changes and arms nothing |
| GameTable.TableCell.ScheduleTurn | src/games.rs:349-364 | The clock for exactly the decision waited for |
| GameTable.TableCell.ScheduleDeal | src/games.rs:365-384 | A deal scheduled exactly when wanted, and never later than it was |
| GameTable.TableCell.ScheduleIdle | src/games.rs:385-396 | The idle close armed exactly when nobody sits |
| GameTable.TableCell.ScheduleClocks | src/games.rs:349-396 | The three in order are `Schedule`, with the timers it spawns |
| GameTable.TableCell.Send | src/games.rs:299-324 | One frame for each recipient, with its own seat's view |
| GameTable.TableCell.Apply | src/games.rs:329-337 | Nothing for no events; otherwise one version, the clocks, then the frames |
| GameTable.TableCell.Bump | src/games.rs:341-345 | One version, the clocks, then plain views |
| GameTable.TableCell.TurnClockRanOut | src/games.rs:543-553 | Only the engine's current decision times out |
| GameTable.TableCell.DealIsDue | src/games.rs:556-569 | Only the scheduled generation deals |
| GameTable.TableCell.IdleRanOut | src/games.rs:572-582 | Closes only for the armed generation with nobody seated |
| GameTable.TableCell.GraceRanOut | src/games.rs:587-604 | Only the entry with the timer's own stamp ends, with or without a departure |
| GameTable.TableCell.EmptyCheck | src/games.rs:607-621 | Closes only for its own mark and an empty call |
| GameTable.TableCell.Departures | src/games.rs:685-716 | Each departed seat goes away once, its grace starts, and one bump tells all |
| GameTable.TableCell.RoomEmptied | src/games.rs:720-731 | The mark under the lock; its check is owed until spawned |
| GameTable.TableCell.Joined | src/games.rs:743-775 | The newcomer's view first, then what coming back changed |
| GameTable.TableCell.ComeBack | src/games.rs:756-774 | A seated user's return: the grace ends, and who may not play gets up |
| GameTable.TableCell.MakeStandUp | src/games.rs:780-797 | Gets up exactly a seated user of an open table |
| GameTable.TableCell.PlayerRemoved | src/games.rs:1224-1250 | Nothing when the seat changed hands |
| GameTable.TableCell.SatDown | src/games.rs:1163-1191 | An accepted sit is reported, a refused one changes nothing |
| GameTable.TableCell.OwnSeatOp | src/games.rs:1253-1320 | The game first, then the seat, then the engine |
| GameTable.TableCell.ResyncOne | src/games.rs:1193-1207 | The asker's own view, at the current version |
| GameTable.TableCell.OpenTable | src/games.rs:1142-1147 | The first section schedules and sends without looking at `closed` |
| GameTable.TableCell.MarkedClosed | src/games.rs:645-656 | Exactly one caller closes |
| GameTimers.StepArmed | src/games.rs:349-396 | Every section of every step leaves an open, once scheduled table armed |
| GameTimers.NoLostWakeup | src/games.rs:543-621 | After any run: a clock for exactly the current decision, a deal scheduled iff wanted, the idle close armed iff nobody sits, away seats occupied, and each of these and the empty mark has a pending timer with its exact stamp |
| GameTimers.StaleTimersDoNothing | src/games.rs:543-621 | A timer with any other stamp changes nothing and sends nothing |
| GameTimers.ClosedStays | src/games.rs:543-621 | A closed table's timers, joins and departures find it closed and do nothing |
| GameDeadlines.StepMoves | src/games.rs:349-396 | Every step but the opening moves the version by one and schedules, or leaves both alone |
| GameDeadlines.DecisionDeadlineIsFixed | src/games.rs:349-364 | While a decision is waited for its deadline never moves, whatever else happens |
| GameDeadlines.ShownClockIsSettled | src/games.rs:267-274 | The clock a view shows is such a deadline |
| GameDeadlines.DealNeverLater | src/games.rs:365-384 | While a deal stays wanted its deadline never moves later |
| GameDeadlines.NewDealIsSoon | src/games.rs:181-197 | A newly wanted deal is due within the bet window |
| GameDeadlines.FirstBettorWaits | src/games.rs:65-73 | From the bet that made a deal wanted, however the table changes meanwhile, the deal is due within the bet window |
| GameFrames.StepReported | src/games.rs:299-345 | Every step sends plain views of the old version, then one frame to each recipient if the version moved by one |
| GameFrames.OrderedFrames | src/games.rs:299-345 | Over any run versions never go back; event frames of a connection strictly grow; two connections given one version's events got the same events |
| GameFrames.EveryChangeIsTold | src/games.rs:329-345 | A reported change moves the version by exactly one and every recipient is told once |
| GameRegistry.Registry.constructor | crates/puca-games/src/registry.rs:94-96 | Empty, its first id clamped to the safe range |
| GameRegistry.Registry.OpenIn | crates/puca-games/src/registry.rs:100-110 | One table a call and a cap; a refusal changes nothing and names what is open |
| GameRegistry.LookupFindsTheOpenTable | src/games.rs:475-477 | After any run a call and an id find the one table of that call and id not taken out; a table taken out is found by nobody until its id comes round |
| GameRegistry.Registry.TakeOut | src/games.rs:628-643 | Takes out the entry only with its own id, both maps together |
| GameRegistry.Registry.TablesOf | src/games.rs:667-677 | Exactly the server's tables |
| GameRegistry.OneTableOneCloser | src/games.rs:572-677 | However opens, marks and finishes interleave: the maps' keys agree, a call has at most one unclosed table, each table is closed by at most one step |
| GameRegistry.FinishTakesItsOwn | src/games.rs:628-643 | A close, however late it finishes, takes out its own table and no newer one |
| GameRegistry.IdComesRound | crates/puca-games/src/registry.rs:94-110 | An id comes round after 2^53 - 1 opens |
| GameRegistry.IdsDiffer | crates/puca-games/src/registry.rs:94-110 | And not before |
| GameRegistry.StaleIdsMiss | src/games.rs:475-477 | A stale id finds a later table only 2^53 - 1 or more opens later |
| GameSeats.SeatsFollowTheCall | src/games.rs:587-797 | After any run in which no join is told too late, who sits is in the call, in a grace, leaving, or among departures not yet drained |
| GameSeats.MoveFollowsIff | src/games.rs:743-775 | A step keeps that exactly when it is not a join told too late |
| GameSeats.LateJoinStrandsASeat | src/games.rs:743-775 | What a join told too late does, from any state |
| GameSeats.LateJoinHappens | src/games.rs:685-775 | A run of allowed steps from a new table to a seat nobody follows |
| GameSeats.SettleFollows | src/games.rs:685-716 | Draining departures keeps every seat followed |
| GameSeats.MayNotPlayGetsUp | src/games.rs:757-774 | A returning user who may not play is seated afterwards only as leaving |
| GameCards.UsersRoundTrip | src/games_wire.rs:57-66 | Every 64-bit user id survives the trip through a player id; a player id survives exactly if it fits 64 bits |
| GameCards.LookupsAgree | src/games.rs:156-161 | The seat found by user and the seat found by player are the same |
| GameCards.Send | src/games.rs:299-324 | The fan-out with its per-seat cache gives every connection the view of its own user's seat |
| GameCards.ViewTells | crates/puca-games/src/holdem/mod.rs:1141-1192 | Two tables that differ in cards only look the same to a viewer or spectator exactly when the viewer's own cards and the shown hands are the same |
| GameCards.FramesTell | src/games.rs:276-324 | All frames of any set of users together, over all their connections and the wire conversion of views and events, are the same exactly when the cards they are to see and the events are |
| GameCards.EventsTell | src/games_wire.rs:973-1038 | The wire keeps events apart: boards and shown hands are read off it as they were |
| GameCards.HostSendsTheseViews | src/games.rs:299-306 | The host's fan-out sends each connection the view of the seat found here |
| GameCards.CardsKeepTheWidth | src/games_wire.rs:586-653 | Whether and how many characters of cards a seat shows never depends on the cards |
| GameCards.SeatShows | src/games_wire.rs:586-624 | What a viewer is sent of a seat: own or shown cards, backs while the hand is live, nothing otherwise |
| GameCards.CodeTells | crates/puca-games/src/cards.rs:1-14 | Card codes are two characters, differ for different cards and are never the card back |
| GameCards.ShowingTells | crates/puca-games/src/holdem/mod.rs:1090-1098 | Whether a hand may be shown gives nothing away; showing it gives away that hand and no other |
| GameCards.ChipsAddUp | docs/GAMES.md:212-221 | The pots and the bets in front of the players make up the pot total |
| GameCards.ShownPotsNarrow | docs/GAMES.md:212-221 | No pot is empty or offered to a folded seat, and each side pot's contenders are fewer than the one's before |
| GamePots.BuildPots | crates/puca-games/src/holdem/mod.rs:500-525 | The loop over the levels computes the pots specified |
| GamePots.PotsConserve | crates/puca-games/src/holdem/mod.rs:498-525 | The pots hold exactly what was put in |
| GamePots.MayWinItsMatch | crates/puca-games/src/holdem/mod.rs:484-525 | A live seat can win from each seat at most its own stake; only the highest live stake can win what is above |
| GamePots.PotsNarrow | docs/GAMES.md:212-221 | Positive pots, none for a folded seat, contenders strictly shrinking |

## Left out

- The rules of Hold'em and Blackjack: the host's theorems hold for every engine within the contract of `GameEngine`; of Hold'em only views, pots and the showing of a hand are modelled, on values rather than in place.
- GameCards.ChipsAddUp: asks that who was dealt into a live hand still has the seat, and that a street's bets are part of the hand's: both are kept by the engine's own moves, which are not modelled.
- Blackjack views: the engine itself hands out the dealer's hole card as hidden.
- Timers alike in every field are one entry of a set that may fire more than once, instead of a multiset.
- DeviceSessions.SessionStore.RevokeDevice: the grants and share invites the handler also revokes are not modelled, because no session check reads them.
- Channels.ChannelTable.DeleteChannel: takes the read of the closure and the delete as one, as the forest theorem does for a reparent.
- BindSpans.BindSpansWrap: asks that no other call's bracket stands between a call's dot and its bracket, as in type arguments that hold a `bind` call; `DirectBindSpansWrap` needs no such thing where there are no type arguments.
- `GameEnded` and refusal frames, and what the create arm sends in a table closed under it: nothing is claimed about them.
- GameSeats.SeatsFollowTheCall: excludes joins told too late, because the property is false for them; `MoveFollowsIff` is the exact condition.
- The other checks of `propose_clip` (window bounds, permissions, target channel, the cap on live proposals) and the one-live-proposal rule, which two overlapping proposals can both pass.
- The decline ladder may be bumped by two overlapping declines; nothing is claimed to happen once.
- A reparent's check and its write are separate statements in the server; the forest theorem takes them as one.
- Which row the unblocked two-direction lookup of a send returns is a parameter; nothing is stated about it.
- `friend_handlers` lists and `accept_request` against concurrent handlers: each handler is taken whole.
- The audit, wake, notification and socket-registration side effects of the handlers.
- SRP, JWT signing, Ed25519, hashing and random bytes: tokens are unforgeable records, nonces and session ids fresh values.
- Python's `str.isspace`, word characters and `int(…, 16)` are parameters constrained only where a lemma says so; a number too large for `chr` is a ValueError whatever its size.
- Char literals whose `\u{…}` holds underscores are no pieces of their own, as the script's pattern does not take them: it reads them as code.
- SQL type normalisation, cargo runs, and the resolution of constants and `let` bindings in the script.
- `permissions.rs` other than `ancestor_chain`: who views what is a parameter.
