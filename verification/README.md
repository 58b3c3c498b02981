# Teamree: a verified model of the relay and of the shared algorithms

A Dafny model of the parts of Teamree where a mistake would be hardest to see: the relay that pairs two peers and
splices their frames, the two hosts that run it, and the self-contained algorithms both ends share. `dafny verify
dfyconfig.toml` checks all of it.

**The relay.** Two peers present one opaque token; the relay parks the first, pairs it with the second, and from then on
forwards binary frames between them unread. The code is re-entrant: closing a peer leaves the table, leaving closes the
partner, and the partner leaves again.

- `RelayCore` has the code's own two classes, fields updated in place and calling each other as the code does; the
  recursion ends because every re-entrant call finds a smaller table. Each method is proved to leave the world exactly as
  a flat function of `RelayModel` says, in which nothing calls back.
- `RelayInvariant` proves that every event keeps sessions and table in exact agreement; `RelayRun` strings events into
  runs; `RelayHistory` says what one event may do to one session and its socket's log; `RelayTheorems`, `RelaySweep` and
  `RelayBudgets` prove what holds of every run.
- `RelayAnswers`, `RelayPairing` and `RelayDeadlines` say the same things from the outside, after any run and off the sockets'
  logs and the clock alone: how each frame, arrival, hang-up and shutdown is answered and who else notices, who is told what
  about a pairing, and who a sweep sends away and why.
- `RelayHost` is the container host's loop around the core. `Admission` is its per-address accounting and the pruning of
  the table behind it, `AdmissionAnswers` how an upgrade is answered given only what came before. `RateLimit` is the token
  bucket under all the budgets: what any run of charges lets through and, exactly, what it refuses.
- `WorkerModel`, `WorkerRun`, `WorkerStory`, `WorkerAnswers` and `WorkerHost` are the Durable Object host, which keeps nothing in memory
  between events. The class `WorkerHost.RendezvousPair` rebuilds `RelayCore`'s own objects from what its sockets have attached, lets them
  act, and writes the attachments back; the theorems compare it with a host that never forgets.

**Shared algorithms.** `FuzzyPath` (go-to-file ranking, a dynamic program against the best of all readings) and `FuzzyTiers`
(what its scores say about a path's text), `PaneRoom`, `PanePlacement`, `PaneSlack` and `PaneLaws` (the split layout, where a
new pane goes, what the room check's tolerance costs, and what a placement leaves alone), `TaskTree` and `TreeOrder` (the walk
under a worktree and its order), `Nesting` and `NestReasons` (which moves are refused, and for what reason), `FrameDecoder`
(newline-delimited framing under any chunking), `FormUrl` and `Invitations` (the invitation link, in `Invitation.dfy`), `Patch`
and `RunCompare` (the unified diff parser and cutting a patch by file), with `PatchPrint`, `PatchQuote` and `RunPrint` (patches,
quoted paths and whole runs written as git writes them and read back), `Settle`, `SettleLaws` and `Greedy` (the ledger sample's
arithmetic, what a balance is made of, and when it pays the largest first). `Sorting`, `Text` and `Wrappers` are what several of
them stand on.

Where the code works by changing things step by step, the model does too, and the method's contract equates it with a
function about which the promises are proved. Relay events have one clock reading each, given as an argument.

## What does not hold as it reads

- `src/shared/fuzzyPath.ts:7` says a tier is worth more than any score inside a tier. That is so exactly for queries of at
  most 454 characters, or 455 with the path's length taken off (`FuzzyPath.TierIsAboveExactly`). What the comment is for
  holds beyond that: with a query within its cap of 512 characters a better tier always wins, short of a path of 436,800
  characters, because the better path holds the query in one run as well (`FuzzyPath.BetterTierWinsWithinCaps`).
- `examples/ledger/src/settle.js:38` says the largest debt is paid from the largest credit, repeatedly. The queues are sorted
  once, so a head that is partly paid may no longer be the largest: with creditors 10 and 9 and debtors 8, 6 and 5 the second
  payment goes to the creditor with 2 left, though the other is owed 9 (`Greedy.LargestIsPassedOver`). When it does hold is
  read off the sums of the sorted amounts (`Greedy.LargestPaysLargestExactly`). The bound on the number of payments does not
  depend on it.
- `src/shared/invitation.ts:55-64` prints any fields, but lines 143-161 trim what they read and refuse a control character or
  an empty field, so not every printed invitation comes back as it was. `Invitations.InvitationComesBack` says exactly which do.
- `src/shared/paneRoom.ts:114` says a pane that lost width or height kept its least. The check lets a pane through that lost,
  or is short by, at most EPSILON: a pane at exactly its least can end one EPSILON under it (`PaneSlack.PaneEndsShort`). The
  check is never stricter than the comment, and as good as its word exactly when nobody is so near
  (`PaneSlack.CheckIsExact`); for a pane joining a row that is a matter of the row's sizes (`PaneSlack.JoinedRowIsExact`).
  However many placements follow one another, each costs at most an EPSILON (`PaneSlack.RoomOverRuns`). That bound is reached
  by trees whose sizes alone change (`PaneSlack.SlackAddsUp`); whether insertions alone can reach it is not claimed.
- `src/shared/patch.ts:152-165` cuts a header without quotes at its last ` b/`. A file that kept its path, when the path itself
  holds ` b/`, is therefore taken for one that came from elsewhere; a file that moved is put right by its own rename lines. A
  patch written as git writes it is read back as the files it was written from exactly when no file that kept its path has such
  a one (`PatchPrint.PatchComesBack`).
- `src/shared/patch.ts:172-176` undoes git's quoting one escape after the other, so a `t` or `n` that stands behind a backslash
  in the path itself is taken for an escape: the file `a\tb` is read as `a\`, a tab and `b`. A quoted path comes back as it was
  exactly when it has no backslash before a `t` or an `n` (`PatchQuote.QuotedIsRead`).
- `relay/src/core/peerSession.ts:211-218`, the branch for a session the table has lost, is never reached by a host that
  keeps its table (`RelayTheorems.NobodyIsSentAwayForNothing`).
- A Durable Object counts a parked peer's wait from its arrival, not from its hello (`relay/src/workers/rendezvousPair.ts:195`).
  Nobody can tell, exactly as long as no alarm falls where the one is over and the other is not
  (`WorkerStory.HelloIsForgottenExactly`).

## Model

| member | source | states |
|---|---|---|
| RateLimit.TokenBucket.Take | relay/src/core/rateLimit.ts:25-34 | a take changes the bucket and answers as one charge of the specification does, whatever the clock reads |
| RateLimit.TokenBucket.Restore | relay/src/core/rateLimit.ts:21-22 | a bucket read back is the bucket that was written |
| RateLimit.StaysInRange | relay/src/core/rateLimit.ts:25-34 | over any run of charges tokens stay between none and the burst |
| RateLimit.AdmitsAtMostRate | relay/src/core/rateLimit.ts:25-34 | what a run lets through is at most the burst plus the rate times the clock's forward movement |
| RateLimit.BackwardStepAddsNothing | relay/src/core/rateLimit.ts:26-28 | a clock stepping back hands out no budget |
| RateLimit.ContinuesFromSnapshot | relay/src/core/rateLimit.ts:35 | stopping anywhere and going on from the snapshot admits exactly the same |
| RateLimit.FrameFitsAfterASecond | relay/src/core/config.ts:127-129 | a second after its last charge a bucket no slower than the cap takes any one frame within the cap |
| RateLimit.RefusedExactly | relay/src/core/rateLimit.ts:25-34 | over any run, whatever the clock does, a charge is refused exactly when what the run began with, or a bucket full at some earlier charge, with all that accrued since and less what was let through since, is below its cost |
| RateLimit.ModestIsAdmitted | relay/src/core/rateLimit.ts:25-34 | a run no stretch of which asks for more than a full bucket and what accrues meanwhile is let through whole |
| RelayCore.Rendezvous.Join | relay/src/core/rendezvous.ts:39-77 | the table's answer to a token: parked when alone, paired with whoever waits, or the live pair ended with "superseded" and the newcomer parked in its place, the closes re-entering the table notwithstanding |
| RelayCore.Rendezvous.Pair | relay/src/core/rendezvous.ts:48-65 | the waiting peer and the arriving one become partners under one fresh id, and only the arriving one is told to initiate |
| RelayCore.Rendezvous.Supersede | relay/src/core/rendezvous.ts:67-76 | the newcomer is in the row before either old half is closed, and stays in it |
| RelayCore.Rendezvous.Leave | relay/src/core/rendezvous.ts:80-100 | a parked peer's row goes, a paired peer's row goes and its partner alone is told; anyone not in the row changes nothing |
| RelayCore.Rendezvous.EndSession | relay/src/core/rendezvous.ts:104-113 | both halves of the peer's own session are given one reason and neither is told it was left; otherwise nothing changes |
| RelayCore.Rendezvous.ExpiredWaiters | relay/src/core/rendezvous.ts:120-127 | exactly the peers parked past the budget |
| RelayCore.Rendezvous.Restore | relay/src/core/rendezvous.ts:130-140 | one session is parked, two are paired, anything else restores nothing; nobody is told |
| RelayCore.Rendezvous.Clear | relay/src/core/rendezvous.ts:144-147 | the table is emptied and no session touched |
| RelayCore.Rendezvous.DropSession | relay/src/core/rendezvous.ts:159-163 | one paired row and both its partner links go, and nothing else |
| RelayCore.PeerSession.Restore | relay/src/core/peerSession.ts:80-108 | a session rebuilt from its snapshot is the session it was taken of |
| RelayCore.PeerSession.OnText | relay/src/core/peerSession.ts:138-181 | a text frame's whole effect on every session, row and socket |
| RelayCore.PeerSession.OnHello | relay/src/core/peerSession.ts:348-373 | a hello parks, pairs or supersedes; anything else closes the session as a bad hello |
| RelayCore.PeerSession.JudgeText | relay/src/core/peerSession.ts:150-180 | frame token, size cap, byte budget, kind and backlog, in that order, each refusal with its own code |
| RelayCore.PeerSession.JudgeBinary | relay/src/core/peerSession.ts:188-208 | greeting, size cap, both budgets and pairing, in that order, each refusal with its own code |
| RelayCore.PeerSession.Forward | relay/src/core/peerSession.ts:210-231 | leaves the world as the splice of the specification does, which `RelayAnswers.ContentIsAnswered` reads off the sockets: to the partner and nowhere else, or the partner that has stopped reading sent off |
| RelayCore.PeerSession.OnBinary | relay/src/core/peerSession.ts:183-231 | a content frame's whole effect: refused for a reason, or counted and put on the partner's socket |
| RelayCore.PeerSession.Deliver | relay/src/core/peerSession.ts:260-265 | an open socket gets the payload unchanged, a socket not open gets nothing |
| RelayCore.PeerSession.MarkPaired | relay/src/core/peerSession.ts:271-276 | the session is paired under the id and told so, and whether it initiates (`RelayPairing.LaterHelloInitiates` says who is told that) |
| RelayCore.PeerSession.Close | relay/src/core/peerSession.ts:283-294 | the session hears the reason once, its row goes, its partner hears it was left; the re-entrant calls add nothing and end |
| RelayCore.PeerSession.ReleaseRendezvous | relay/src/core/peerSession.ts:375-378 | a session, already closed, lets go of its row, and its partner is told it was left |
| RelayCore.PeerSession.OnPong | relay/src/core/peerSession.ts:233-236 | a pong is a sign of life and changes nothing else |
| RelayCore.PeerSession.NoteHeard | relay/src/core/peerSession.ts:239-241 | the last sign of life never moves back |
| RelayCore.PeerSession.OnSocketClosed | relay/src/core/peerSession.ts:244-258 | a socket's end takes a live session and its row with it and tells the partner, once |
| RelayCore.PeerSession.Sweep | relay/src/core/peerSession.ts:297-338 | greeting, idle and keepalive deadlines, in that order |
| RelayCore.PeerSession.KeepAlive | relay/src/core/peerSession.ts:315-337 | a peer unheard for an interval is pinged, and cut off without a handshake when that ping went unanswered for another |
| RelayCore.PeerSession.EndForSilence | relay/src/core/peerSession.ts:342-346 | both halves hear "idle" |
| RelayCore.LeaveIsFlat | relay/src/core/rendezvous.ts:95-99 | closing the partner from inside a leave finds nothing more to release |
| RelayCore.EndSessionIsFlat | relay/src/core/rendezvous.ts:108-111 | dropped before either close, so neither close re-enters the table |
| RelayCore.SupersedeIsFlat | relay/src/core/rendezvous.ts:71-76 | the late closes of a superseded pair leave the newcomer's row alone |
| RelayInvariant.EndingTogetherKeepsInv | relay/src/core/rendezvous.ts:80-113 | closing a row and exactly the sessions in it keeps sessions and table in agreement |
| RelayInvariant.ReleaseEndsTogether | relay/src/core/peerSession.ts:283-294 | however a live session ends it takes its row and its partner with it, and no one else |
| RelayInvariant.HelloKeepsInv | relay/src/core/peerSession.ts:348-373 | a hello keeps sessions and table in agreement, whichever way it is answered |
| RelayInvariant.TextKeepsInv | relay/src/core/peerSession.ts:138-181 | so does any text frame |
| RelayInvariant.BinaryKeepsInv | relay/src/core/peerSession.ts:183-231 | so does any content frame |
| RelayInvariant.SweepOneKeepsInv | relay/src/core/peerSession.ts:297-338 | so does one session's sweep |
| RelayInvariant.ExpiryKeepsInv | relay/src/node/server.ts:237-239 | so does sending the overdue waiters away |
| RelayInvariant.PartnersAreMates | relay/src/core/rendezvous.ts:37-60 | a partner is another live paired session of the same token, whose partner one is |
| RelayInvariant.HelloSupersedes | relay/src/core/rendezvous.ts:67-76 | a hello on a live pair ends both of its halves and parks the newcomer, as if the two had happened one after the other |
| RelayHistory.HelloEffect | relay/src/core/peerSession.ts:348-373 | a hello either gives two unpaired sessions one fresh session id, or pairs nobody and tells whoever it closes the truth |
| RelayHistory.BinaryEffect | relay/src/core/peerSession.ts:183-231 | a content frame either reaches the partner whole, or the sender has been closed or the partner's socket is no longer open |
| RelayHistory.CloseIsHonest | relay/src/core/peerSession.ts:283-294 | a close for a fault of one's own is told to that session, and its partner is told it was left |
| RelayHistory.EndSessionIsHonest | relay/src/core/rendezvous.ts:104-113 | a pair ended by the relay is told alike, and nobody else is told anything |
| RelayHistory.HangupIsHonest | relay/src/core/peerSession.ts:244-258 | a hang-up puts nothing on the socket that went and tells the partner it was left |
| RelayHistory.SweepIsHonest | relay/src/node/server.ts:235-240 | a whole sweep closes nobody without the reason that is true of it |
| RelayTheorems.TableIsExact | relay/src/core/rendezvous.ts:34-100 | after every run `partners` is exactly the symmetric, irreflexive relation of the paired rows; waiting means alone in a waiting row of one's token, paired means in a paired row of it; no closed session is in a row |
| RelayTheorems.ContentIsThePartnersPrefix | relay/src/core/peerSession.ts:210-231 | after every run the content on a session's socket is a prefix, in order and unchanged, of what its one mate of the same token sent after pairing, and all of it while the mate lives and the socket is open |
| RelayTheorems.EveryPeerHearsOneStory | relay/src/core/peerSession.ts:271-294 | every socket's log follows one grammar: at most one waiting, one paired, content only after it, at most one close and nothing after |
| RelayTheorems.ClosesTellTheTruth | relay/src/core/protocol.ts:38-61 | closed mates were told alike (superseded, idle, going away) or one a fault of its own and the other that its partner was gone; a session never paired was told its own fault |
| RelayTheorems.PartnerGoneIsTrue | relay/src/core/rendezvous.ts:95-99 | "partner gone" goes only to a session whose mate closed on its own account |
| RelayTheorems.NobodyIsSentAwayForNothing | relay/src/core/peerSession.ts:211-218 | no session is told the relay is going away unless it is, so the lost-session branch is unreachable |
| RelayTheorems.SupersessionTellsBoth | relay/src/core/rendezvous.ts:67-76 | a hello on a live session gives both old halves "superseded" and leaves the newcomer waiting |
| RelayTheorems.ClosedSessionsAreHarmless | relay/src/core/rendezvous.ts:79-94 | however long a closed session goes on, nothing it does touches the table or anyone else or is answered, so a late close evicts nobody |
| RelayTheorems.StoryOfEveryRun | relay/src/core/peerSession.ts:138-338 | the invariant behind the theorems above holds after every run |
| RelayAnswers.ContentIsAnswered | relay/src/core/peerSession.ts:183-231 | after any run, a content frame the sender may send and can pay for crosses to its partner, or sends a partner off that has stopped reading; any other ends its sender for the first reason that is true of it; nobody else changes |
| RelayAnswers.AllowedFrameArrives | relay/src/core/peerSession.ts:222-231 | after any run, a frame within cap and budgets to a partner that reads leaves both paired and the partner's content longer by exactly it |
| RelayAnswers.SlowPartnerIsSentOff | relay/src/core/peerSession.ts:220-227 | after any run, to a partner past the backlog bound no content goes: it hears "slow consumer", the sender "partner gone" |
| RelayAnswers.TextIsAnswered | relay/src/core/peerSession.ts:147-180 | after any run, a ping after the hello within its means is answered by one pong; any other text frame ends the session for the first reason that is true of it |
| RelayAnswers.ArrivalIsLetIn | relay/src/core/peerSession.ts:80-108 | a peer that arrives is greeting, its socket open and empty and its budgets full; nobody else notices |
| RelayAnswers.HangupIsAnswered | relay/src/core/peerSession.ts:244-258 | a live session whose socket ends hears nothing, its row goes, its partner hears it was left and nobody else notices |
| RelayAnswers.ShutdownIsAnswered | relay/src/node/server.ts:271-287 | every live session hears that the relay is going away, and the table is empty |
| RelayPairing.HelloIsAnswered | relay/src/core/rendezvous.ts:39-77 | after any run, a hello parks whoever says it, or pairs it with the one parked under its token, or ends the live session there and parks it, each socket concerned gaining exactly that; a first text that is no hello ends its session |
| RelayPairing.LaterHelloInitiates | relay/src/core/rendezvous.ts:61-64 | of two mates of any run each said one hello; at the later of the two each open socket got one notice, and the one whose hello that was, and it alone, was told to initiate |
| RelayPairing.LoneHearsOnlyToWait | relay/src/core/peerSession.ts:361-364 | a session never paired hears at most that it waits, exactly when its hello found its socket open |
| RelayPairing.WaitersNeverInitiate | relay/src/core/rendezvous.ts:61-64 | a socket told it waits is never told it initiates |
| RelayPairing.HelloIsSaidOnce | relay/src/core/peerSession.ts:143-148 | over any run no session says an accepted hello twice |
| RelayDeadlines.SweepHasItsReasons | relay/src/core/peerSession.ts:296-346 | in every sweep of every run whoever is sent off was late, had waited out its parking, or was in a pair of which one half fell silent or stopped answering, and hears which; whoever is late goes; everyone else is left alone but for a ping that is due |
| RelayDeadlines.EveryRunRemembers | relay/src/core/peerSession.ts:140-141 | after any run a live session's last sign of life is the clock of the last event it was heard in, and it awaits a pong exactly when a ping on its log has had none |
| RelayDeadlines.CutOffIsDeserved | relay/src/core/peerSession.ts:315-331 | an open socket is cut off only when an earlier sweep put a ping on it, an interval ago at least, no pong has come since and its last sign of life is an interval old |
| RelaySweep.SweepMeetsEveryDeadline | relay/src/node/server.ts:235-242 | after a sweep no live session is past its greeting, parking or idle deadline |
| RelaySweep.SweepIsIdempotent | relay/src/core/peerSession.ts:319-321 | a second sweep at the same instant changes nothing |
| RelaySweep.LivelyPairIsNeverIdle | relay/src/core/peerSession.ts:307-313 | a pair whose halves were both heard or spliced within the idle budget is never closed as idle |
| RelayBudgets.BudgetsStayInRange | relay/src/core/peerSession.ts:96-107 | after every run both budgets of every session are between empty and a second's worth |
| RelayBudgets.QuietSecondBuysAFrame | relay/src/core/config.ts:123-129 | over any run a paired session quiet for a second may send a frame exactly when it is within both the size cap and the byte rate, which is why the configuration wants the rate no lower |
| RelayHost.RelayServer.Accept | relay/src/node/server.ts:216-226 | a completed upgrade is the connecting step of a run |
| RelayHost.RelayServer.Sweep | relay/src/node/server.ts:235-240 | expiring the waiters one by one and then visiting every connection is the sweeping step of a run |
| RelayHost.RelayServer.SocketClosed | relay/src/node/server.ts:158-170 | a socket's end is the hanging-up step of a run |
| RelayHost.RelayServer.Close | relay/src/node/server.ts:283-286 | shutting down tells every live session the same, none that it was left |
| Admission.CountsAreExact | relay/src/node/server.ts:158-214 | over any run every record's count is its live and half-open connections, none over its share, and no record with a connection is pruned |
| Admission.PruningIsUnobservable | relay/src/node/server.ts:89-93 | every upgrade is answered as by a host that forgets nothing, as long as the clock never steps back and a full table never has to be pruned |
| Admission.StepAlike | relay/src/node/server.ts:172-214 | one event, with and without the idle records: the same answer, and tables that still cannot be told apart |
| Admission.FullAfterAMinute | relay/src/node/server.ts:105-109 | a handshake bucket left alone for a minute is as good as new |
| AdmissionAnswers.LedgerIsExact | relay/src/node/server.ts:158-226 | after any run who is under way and who is connected is exactly what the answers and the completions, abandonments and closes since leave |
| AdmissionAnswers.UpgradeIsAnswered | relay/src/node/server.ts:172-207 | over any run an upgrade is let in or counted as too fast only while the host is up, on its path, below its cap of connections and its address below its share; otherwise it is told which |
| AdmissionAnswers.UpgradeIsAnsweredInFull | relay/src/node/server.ts:172-207 | over any ordinary run the whole answer follows from what came before, the last word being that of a minute's budget drawn on by the address's own tries alone |
| Admission.Gate.RecordFor | relay/src/node/server.ts:95-114 | the address has a record, seen now; a full table is first pruned of whoever has no connection |
| Admission.Gate.Prune | relay/src/node/server.ts:89-93 | exactly the records without a connection and idle for longer go |
| Admission.Gate.OnUpgrade | relay/src/node/server.ts:172-207 | every check in the code's order, and an admitted upgrade is counted at once |
| Admission.Gate.OnComplete | relay/src/node/server.ts:216-226 | the connection answers for the count from here on |
| Admission.Gate.OnAbandon | relay/src/node/server.ts:209-214 | an upgrade that never completed gives its count back |
| Admission.Gate.OnClosed | relay/src/node/server.ts:158-164 | a connection gives its count back once |
| Admission.Gate.OnSweep | relay/src/node/server.ts:241 | the sweep drops the records idle for a minute |
| WorkerModel.RebuiltIsAlike | relay/src/workers/rendezvousPair.ts:163-199 | the table rebuilt from attachments alone is the one that was forgotten, but for which half is named first, the instant of pairing, and a parked peer's wait counting from its arrival |
| WorkerModel.TableIsRestored | relay/src/workers/rendezvousPair.ts:186-196 | every token has a row after the rebuilding exactly when it had one, and the same |
| WorkerModel.PartnersAreRestored | relay/src/core/rendezvous.ts:137-139 | the partner relation comes back exactly |
| WorkerModel.JoinAlike | relay/src/core/rendezvous.ts:39-77 | a table so rebuilt answers a token as the forgotten one would have |
| WorkerModel.BinaryAlike | relay/src/core/peerSession.ts:183-231 | so for a content frame |
| WorkerModel.SweepAlike | relay/src/workers/rendezvousPair.ts:149-155 | so for a sweep |
| WorkerRun.ForgettingIsUnobservable | relay/src/workers/rendezvousPair.ts:108-199 | after any run the object that forgets everything between events has the same sockets, sessions and socket logs as one that never forgets |
| WorkerRun.KeepingKeepsHostInv | relay/src/workers/rendezvousPair.ts:88-160 | after any run sessions and table agree, only tokens that name the object are held and at most three sockets greet |
| WorkerRun.AtMostTwoHoldSlots | relay/src/workers/rendezvousPair.ts:204-218 | at most the two halves of one pairing hold pairing slots |
| WorkerRun.NobodyIsRefused | relay/src/workers/rendezvousPair.ts:88-106 | after any run an arrival is accepted |
| WorkerStory.OnlyTheLongestSilentIsToldCapacity | relay/src/workers/rendezvousPair.ts:97-98 | over any run, whoever was told "capacity" was, at the arrival that had it told, the longest greeting of three, never paired and told nothing before |
| WorkerStory.HelloIsForgottenExactly | relay/src/workers/rendezvousPair.ts:186-196 | at every point of a run the object is as one that remembers each hello, exactly when no alarm falls where a wait is over from the arrival and not from the hello, or the other way round |
| WorkerStory.ForgettingWhileClocksAgree | relay/src/workers/rendezvousPair.ts:149-199 | until then sockets, sessions and socket logs are the same as those of a host that forgets nothing at all |
| WorkerStory.ParkedFate | relay/src/core/rendezvous.ts:120-127 | a sweep without pings closes a parked peer exactly when its wait is over |
| WorkerAnswers.ArrivalIsAnswered | relay/src/workers/rendezvousPair.ts:88-106 | after any run a newcomer is let in, last in order and with full budgets; nobody else notices unless three are silent, the most there ever are: then one of those silent longest is told there is no room and no other is touched |
| WorkerAnswers.StrangerIsTurnedAway | relay/src/workers/rendezvousPair.ts:115-122 | after any run a silent peer whose hello names another object is told it was a bad hello and takes no place; nobody else hears of it |
| WorkerHost.RendezvousPair.Rehydrate | relay/src/workers/rendezvousPair.ts:163-199 | the loops over sockets and tokens build exactly the world the attachments describe |
| WorkerHost.RendezvousPair.Persist | relay/src/workers/rendezvousPair.ts:278-287 | every session's state is written back to its socket |
| WorkerHost.RendezvousPair.OnText | relay/src/workers/rendezvousPair.ts:108-128 | a text frame is the saying step of a run; a hello for another object is turned away first |
| WorkerHost.RendezvousPair.OnBinary | relay/src/workers/rendezvousPair.ts:108-128 | a content frame is the sending step of a run |
| WorkerHost.RendezvousPair.OnClose | relay/src/workers/rendezvousPair.ts:130-141 | a close is the departing step of a run |
| WorkerHost.RendezvousPair.OnAlarm | relay/src/workers/rendezvousPair.ts:149-160 | the alarm is the sweeping step of a run |
| WorkerHost.RendezvousPair.Census | relay/src/workers/rendezvousPair.ts:204-218 | how many hold a pairing slot, and who is greeting, in order |
| WorkerHost.RendezvousPair.Accept | relay/src/workers/rendezvousPair.ts:88-106 | accepted exactly while a pairing slot is free, with room made among the greeting sockets |
| WorkerHost.RendezvousPair.FindOldest | relay/src/workers/rendezvousPair.ts:228-232 | the first of those greeting longest |
| WorkerHost.RebuiltKeepsHostInv | relay/src/workers/rendezvousPair.ts:163-199 | what is rebuilt satisfies the invariant it was forgotten with |
| FuzzyPath.IsSubsequence | src/shared/fuzzyPath.ts:75-81 | true exactly when the characters can be read in order somewhere in the text |
| FuzzyPath.FuzzyPathScore | src/shared/fuzzyPath.ts:21-58 | null exactly when the path cannot be read as the query; otherwise tier, best reading and length, the best being over every way to read it |
| FuzzyPath.NextRow | src/shared/fuzzyPath.ts:44-54 | the inner loop fills one row of the table |
| FuzzyPath.TableBoundsEveryReading | src/shared/fuzzyPath.ts:42-54 | no reading is worth more than the table says |
| FuzzyPath.TableIsAchieved | src/shared/fuzzyPath.ts:42-54 | every score in the table is the worth of some reading |
| FuzzyPath.OptimumIsBest | src/shared/fuzzyPath.ts:57 | the last row's maximum is the best over all readings, and there is one exactly when the path can be read |
| FuzzyPath.TierHoldsARun | src/shared/fuzzyPath.ts:10-19 | above the lowest tier the path holds the query in one run |
| FuzzyPath.BetterTierWins | src/shared/fuzzyPath.ts:7-19 | a better tier outscores a worse one whatever else the two paths score, for queries and paths up to a stated length |
| FuzzyPath.BetterTierWinsWithinCaps | src/shared/methods.ts:439 | with a query within its cap, always, short of a path of 436,800 characters |
| FuzzyPath.TierIsAboveExactly | src/shared/fuzzyPath.ts:7-8 | TIER is above every in-tier score exactly for queries of at most 454 characters, 455 once the path's length is taken off |
| FuzzyPath.DashesAreWorthMost | src/shared/fuzzyPath.ts:28-40 | a query of dashes is worth the most any query of its length can be, on any path of dashes |
| FuzzyPath.RankPaths | src/shared/fuzzyPath.ts:60-73 | the first `limit` of the ranking, and whether anything was cut off |
| FuzzyPath.RankingIsExact | src/shared/fuzzyPath.ts:60-73 | a ranking holds exactly the paths that match, each with its score, best first and equals in path order, however the paths were arranged |
| FuzzyTiers.ScoreReadsTheText | src/shared/fuzzyPath.ts:10-58 | the score is ten thousand for each tier of the path's own text, the best reading, and a hundredth off for each character |
| FuzzyTiers.BetterNamesOutscore | src/shared/fuzzyPath.ts:10-19 | a path whose name is the query, with its extension or without, outscores any whose name is not; one whose name starts with it any whose does not; one that holds it in one run any that does not |
| FuzzyTiers.ShorterOutscores | src/shared/fuzzyPath.ts:56-57 | of two paths alike to the query the shorter outscores the longer |
| FuzzyTiers.PlaceIsWorth | src/shared/fuzzyPath.ts:28-40 | a place is worth eight where a word starts, three in the name, and one |
| FuzzyTiers.ReadingIsWorth | src/shared/fuzzyPath.ts:50-51 | a reading is worth its places and ten for each right behind the one before |
| FuzzyTiers.TypingDoesNotMatter | src/shared/fuzzyPath.ts:12-23 | a space more or less in the query, or a letter in the other case, changes no score |
| FuzzyTiers.RankingInOrder | src/shared/fuzzyPath.ts:71 | of any two paths of a ranking the one in front has more points, or as many and no later a path |
| PaneRoom.SharesDivideTheWhole | src/shared/paneRoom.ts:176-183 | whatever the sizes on record, the shares are non-negative and give out all of the whole |
| PaneRoom.PaneRects | src/shared/paneRoom.ts:32-56 | the walk with its running offset draws the recursive layout |
| PaneRoom.SpansFill | src/shared/paneRoom.ts:44-52 | spans and gutters fill a split to the edge when it has room for its gutters |
| PaneRoom.TilesTile | src/shared/paneRoom.ts:32-56 | when every split has room for its gutters each pane lies in the box and no two overlap |
| PaneRoom.LayoutDrawsTiles | src/shared/paneRoom.ts:34-53 | what is drawn is the tiles, each in its place |
| PaneRoom.TabGroupIsOneTile | src/shared/paneRoom.ts:39-42 | a tab group draws each tab in the whole of one tile |
| PaneRoom.MinExtentIsNeeded | src/shared/paneRoom.ts:86-91 | under any sizes, panes that all have their least are in a box of at least the least extent |
| PaneRoom.MinExtentIsEnough | src/shared/paneRoom.ts:86-91 | a box of at least the least extents has sizes that give every pane its least both ways |
| PaneRoom.MinExtentIsExact | src/shared/paneRoom.ts:85-91 | a box has the least extents exactly when some sizes give every pane its least |
| PanePlacement.LayoutDrawsLeaves | src/shared/paneRoom.ts:31-56 | every leaf is drawn once, in reading order |
| PanePlacement.InsertKeepsLeaves | src/shared/paneRoom.ts:146-162 | every pane stays in its order and the new one comes in once, behind the target |
| PanePlacement.InsertNeedsTarget | src/shared/paneRoom.ts:146-152 | a tree is left as it is exactly when the target is not in it |
| PanePlacement.InsertKeepsSizes | src/shared/paneRoom.ts:146-162 | one positive size a child, one in all, stays so |
| PanePlacement.InsertJoinsSplit | src/shared/paneRoom.ts:142-145 | a split along the direction above the target is joined; only without one is a split made |
| PanePlacement.PlacePaneWithin | src/shared/paneRoom.ts:100-112 | only a tree that leaves room is returned, and none only when beside every pane, both ways, none does |
| PanePlacement.NoPlaceMeansNone | src/shared/paneRoom.ts:131-140 | every placement there is has been tried when none is found |
| PanePlacement.LargestIsTriedFirst | src/shared/paneRoom.ts:132-134 | largest pane first, equals in reading order |
| PanePlacement.EveryPaneIsTriedBothWays | src/shared/paneRoom.ts:135-139 | beside every pane, along both directions |
| PanePlacement.PlacingKeepsPanes | src/shared/paneRoom.ts:131-140 | whatever is tried costs no pane and no size its form |
| PanePlacement.RoomIsKept | src/shared/paneRoom.ts:114-129 | where every pane had its least, a tree that leaves room has it still, but for one more EPSILON |
| PaneLaws.ChildrenInOrder | src/shared/paneRoom.ts:42-52 | a split draws its children one behind the other from its edge, a gutter between any two, each over its whole breadth and in proportion to the sizes on record, or alike when none counts |
| PaneLaws.InsertRearrangesOne | src/shared/paneRoom.ts:142-162 | beside a pane rearranges the nearest split along the direction above it, which the new pane joins right behind the child that holds the target, all made even, or halves the target where there is none; whatever is drawn before and behind stays where it was |
| PaneLaws.FirstPlaceTried | src/shared/paneRoom.ts:93-97 | the first place is beside a pane of the largest share, along its longer side |
| PaneLaws.ShareFollowsArea | src/shared/paneRoom.ts:132-133 | a pane of more area has no smaller a share |
| PaneSlack.CheckIsExact | src/shared/paneRoom.ts:114-129 | whatever keeps the promise passes, and what passes keeps it exactly when no pane lost something and is short, but only just |
| PaneSlack.LeastIsKeptExactly | src/shared/paneRoom.ts:114-129 | where every pane had its least, a tree that passes leaves every pane its least exactly when nobody is excused by EPSILON |
| PaneSlack.JoinedRowIsExact | src/shared/paneRoom.ts:124-127 | a pane joining a row: from the sizes alone, exactly when the check passes and exactly when every pane has its least width |
| PaneSlack.EvenSpanIsEnough | src/shared/paneRoom.ts:153-157 | an evened row gives each pane so much exactly when the box is as wide as that many of them and their gutters |
| PaneSlack.PaneEndsShort | src/shared/paneRoom.ts:114-129 | a pane at exactly its least, in a row another joins: the check passes and the pane ends an EPSILON short |
| PaneSlack.RoomOverRuns | src/shared/paneRoom.ts:100-112 | over any run of trees each passing against the one before, every pane is short by at most an EPSILON a tree |
| PaneSlack.SlackAddsUp | src/shared/paneRoom.ts:115-129 | for every length there are such trees, their sizes alone changing, that reach the bound |
| TaskTree.Walker.Under | src/shared/taskTree.ts:11-16 | the walk over one shared set of ids is the function of what it had seen, and ends on cyclic records too |
| TaskTree.WalkFindsOnce | src/shared/taskTree.ts:10-16 | each id is found once, when first seen |
| TaskTree.WalkLeavesNone | src/shared/taskTree.ts:11-16 | nothing passed has a child not seen |
| TaskTree.DescendantsAreTheReachable | src/shared/taskTree.ts:5-18 | on any records, exactly what parent links lead to, each id once, each after its parent |
| TreeOrder.DescendantsInTurn | src/shared/taskTree.ts:5-18 | in a forest each child comes in the order of the records with everything under it at once behind it |
| Nesting.Ancestry | src/shared/nesting.ts:82-92 | the loop climbs to a missing record or the first repetition |
| Nesting.HeightWalk.Height | src/shared/nesting.ts:95-103 | the walk counts the levels the function does and has seen the same |
| Nesting.ChainIsClimb | src/shared/nesting.ts:82-92 | the ancestry is as long as the climb to the top |
| Nesting.FoundIsBelow | src/shared/taskTree.ts:6-18 | the walk under a worktree finds exactly those a climb leads from |
| Nesting.HeightIsExact | src/shared/nesting.ts:94-103 | in a forest nothing is further below than the height, and something is as far |
| Nesting.CycleIsExact | src/shared/nesting.ts:67-69 | a move keeps a forest exactly when the new parent is neither the worktree nor below it |
| Nesting.DepthIsExact | src/shared/nesting.ts:72-76 | the two lengths added are within the limit exactly when everything moved ends up within it |
| Nesting.LimitsAreExact | src/shared/nesting.ts:70-79 | the two limit checks pass exactly when the records after the move are within both limits |
| Nesting.RefusalIsExact | src/shared/nesting.ts:46-80 | over a forest a move is allowed exactly when it is movable, leaves a forest, and when limited leaves depth and fan-out within limits |
| Nesting.MovesKeepForest | src/shared/nesting.ts:46-80 | over any run of allowed moves a forest stays a forest |
| Nesting.LimitedMovesKeepLimits | src/shared/nesting.ts:70-79 | over any run of limited moves, records within the depth and fan-out limits stay within them |
| NestReasons.FirstTrueReason | src/shared/nesting.ts:46-80 | over a forest a move is refused for the first reason that is true of it, each read off the records and their links, and allowed when none is |
| FrameDecoder.Decoder.Decode | src/shared/protocol.ts:80-102 | one chunk: the values of the lines it ends, or a failure that leaves the buffer empty; what is buffered is what was left over, its count exact and within the cap |
| FrameDecoder.ChunkingIsInvisible | src/shared/protocol.ts:73-103 | however the input is cut, what comes out is what a reader of the whole would get |
| FrameDecoder.FailsExactly | src/shared/protocol.ts:89-99 | feeding fails exactly when at the end of some chunk a line so far does not parse or the tail is over the cap |
| FrameDecoder.DecodeUndoesEncode | src/shared/protocol.ts:56-103 | any run of frames within the cap, cut into any chunks, comes out as the values that went in, nothing left over |
| FormUrl.DecodeUndoesEncode | src/shared/invitation.ts:56-62 | every string comes back from its UTF-8 bytes |
| FormUrl.TextComesBack | src/shared/invitation.ts:56-62 | every string comes back from its form-encoded text |
| FormUrl.PairsUndoForm | src/shared/invitation.ts:56-63 | every list of pairs comes back from its query, however the last value is spelt |
| Invitations.ParseInvitation | src/shared/invitation.ts:104-174 | the checks, and the loop that fills the record, in the code's order |
| Invitations.TerminatedReadsAlike | src/shared/invitation.ts:66-72 | spelling a final full stop as an escape changes nothing that is read, and no printed value ends in one |
| Invitations.LinkIsFound | src/shared/invitation.ts:181-189 | a printed link is found in any text without another before it, followed by any peelable marks and then white space or the end |
| Invitations.FieldsComeBack | src/shared/invitation.ts:140-173 | the fields are accepted as printed exactly when each is there, trimmed and free of control characters |
| Invitations.InvitationComesBack | src/shared/invitation.ts:54-189 | in either form and any such surroundings a link gives the invitation it was printed from, exactly when the format carries it |
| Patch.ParsePatch | src/shared/patch.ts:44-129 | the loop with its file, hunk and counters reads the patch the step function does |
| Patch.HeaderComesBack | src/shared/patch.ts:131-143 | a header as git writes it, a count of one left out and any heading after it, is read as its four numbers |
| Patch.NumbersAreCounted | src/shared/patch.ts:107-121 | in any text every hunk line's numbers are its header's starts moved on by the earlier lines of that side |
| Patch.RunComposes | src/shared/patch.ts:57-58 | reading lines and then more lines is reading them all |
| Patch.FromFileStart | src/shared/patch.ts:62-65 | from the start of a file on, what was read before has no say |
| PatchPrint.HunkComesBack | src/shared/patch.ts:71-121 | a hunk as git writes it, each line behind its marker, is read back with exactly its numbers, kinds, texts and remarks |
| PatchPrint.HeaderOfPlain | src/shared/patch.ts:152-166 | a header without quotes is read as its two paths when the second does not hold what parts them |
| PatchPrint.HeaderOfAmbiguous | src/shared/patch.ts:161-165 | when it does, a file that kept its path is taken for one that came from elsewhere |
| PatchPrint.FileComesBack | src/shared/patch.ts:81-129 | a file as git writes it, added, deleted, moved or changed, binary or in hunks, is read back as it was exactly when it was moved or its path does not hold what parts the two paths of a header |
| PatchPrint.PatchComesBack | src/shared/patch.ts:44-129 | a patch of any number of files is read back as those files exactly when each is |
| PatchQuote.QuotedIsRead | src/shared/patch.ts:172-176 | any path, quoted and read, comes back with a tab for each `t` and a line break for each `n` right behind a backslash, so as it was exactly when there is none |
| PatchQuote.QuotedHeader | src/shared/patch.ts:155-160 | a header of two quoted paths is read as both |
| PatchQuote.QuotedSide | src/shared/patch.ts:145-150 | and so is the path of a side line |
| RunCompare.PiecesJoin | src/shared/runCompare.ts:28 | cutting a patch loses no text |
| RunCompare.ParsedOfBoth | src/shared/patch.ts:44-129 | cut where a file starts, a patch parses as its two parts do, one after the other |
| RunCompare.PiecesHoldEveryFile | src/shared/runCompare.ts:28-29 | the pieces hold exactly the files of the whole patch, in order |
| RunCompare.PiecesAreUncut | src/shared/runCompare.ts:28-30 | no piece holds more than the one file that is taken from it |
| RunCompare.PatchByFile | src/shared/runCompare.ts:26-39 | the loop fills the table of the pieces |
| RunCompare.PatchByFileLosesNothing | src/shared/runCompare.ts:25-39 | a path has an entry exactly when the whole patch has a file of it, and the entry is cut from the last |
| RunCompare.ComparisonSwaps | src/shared/runCompare.ts:41-59 | comparing two runs the other way round gives the same rows, sides exchanged and the same ones called the same |
| RunCompare.CompareRuns | src/shared/runCompare.ts:41-50 | one row for each path either run touched, in order, saying what each did there and whether it is the same |
| RunPrint.PiecesOfPrinted | src/shared/runCompare.ts:28 | a patch as git writes it is cut into exactly the files it was written from |
| RunPrint.RowOfPrinted | src/shared/runCompare.ts:41-59 | the row of a path has each run's own text and counts for it, or none, and calls the two the same exactly when both made the one change |
| RunPrint.CountIsPlaces | src/shared/runCompare.ts:34-35 | a count is the number of lines of the kind |
| RunPrint.CountsBalance | src/shared/runCompare.ts:31-35 | lines added less lines removed is how many more lines the hunks have after the change than before it |
| Settle.SplitShares | examples/ledger/src/settle.js:11-15 | as many parts as people, no two more than a cent apart, the larger first |
| Settle.SharesAreExact | examples/ledger/src/settle.js:3-15 | the parts sum back to the amount |
| Settle.Balances | examples/ledger/src/settle.js:22-35 | one row for everybody mentioned, by name, holding what they paid less their shares; the rows sum to what nobody was named to share |
| Settle.BumpsTotal | examples/ledger/src/settle.js:26-30 | every entry credits exactly what it debits |
| SettleLaws.PositionIsLaidOutLessBorne | examples/ledger/src/settle.js:26-30 | a person's position is what they laid out less the parts of each entry that fall to them |
| SettleLaws.ShareIsPart | examples/ledger/src/settle.js:11-15 | a share is the amount, and what is missing to the next even division from its place on, divided |
| SettleLaws.FirstPayment | examples/ledger/src/settle.js:37-58 | the first payment is from the largest debt to the largest credit, of equals the first by name, and of as much as either has |
| Settle.Settle | examples/ledger/src/settle.js:45-66 | the loop over two indices makes the payments of the specification |
| Settle.EveryPaymentIsDue | examples/ledger/src/settle.js:56-63 | every payment is positive, from somebody who owes to somebody who is owed |
| Settle.PaymentsMove | examples/ledger/src/settle.js:56-63 | exactly the smaller of what is owed and what is owing is moved |
| Settle.ZeroSumSettles | examples/ledger/src/settle.js:37-66 | rows that sum to zero end at zero, in fewer payments than people out of balance |
| Settle.SettlesExactlyZeroSums | examples/ledger/src/settle.js:68-76 | settling leaves everybody square exactly when the rows sum to zero |
| Settle.SettlementForgetsOrder | examples/ledger/src/settle.js:43-51 | the same rows in any order settle payment for payment alike |
| Greedy.LargestPaysLargestExactly | examples/ledger/src/settle.js:38-39 | every payment is from the largest debt to the largest credit of its moment exactly when, in the sorted amounts, whatever the others end inside of is left with no less than the next |
| Greedy.QueuesExactly | examples/ledger/src/settle.js:53-63 | the heads of two queues are the largest at every payment exactly when both lead to begin with and the sums cover |
| Greedy.PeopleExactly | examples/ledger/src/settle.js:56-63 | the heads leading at every payment is the same as nobody, at any payment, owing more than the payer or being owed more than the payee |
| Greedy.LargestIsPassedOver | examples/ledger/src/settle.js:38-39 | creditors 10 and 9, debtors 8, 6 and 5: the second payment is 2 to one owed 2, while another is owed 9 |
| Settle.SettleLedger | examples/ledger/src/settle.js:22-66 | from entries to payments everybody has paid exactly what they had a share in |
| Sorting.SortedByKey | src/shared/paneRoom.ts:132-134 | sorting by a key puts the largest first and leaves equals in the order they came |
| Sorting.SortedForgetsOrder | examples/ledger/src/settle.js:49-51 | under a total order the same things sort the same |

## Left out

- WebSocket, HTTP, TLS, the runtime's timers and alarms: a socket is an open flag, a backlog and a log of what was put on it, and once not open it stays so; `terminate` is one entry in that log, although the Durable Object host spells it as a close.
- Close reasons in words, log records and references, the health endpoint, environment parsing beyond the byte-rate inequality.
- A hello arrives as what `parseHello` makes of it and any text frame with its UTF-8 length; client addresses and request paths arrive read.
- Random references are numbers never given out twice.
- PatchPrint.FileComesBack: paths git writes without quotes; headers and side lines of quoted paths are `PatchQuote`'s. Copies, which the parser reads as moves, are not written, and a quoted path on a rename line stays quoted, as in the code.
- AdmissionAnswers.UpgradeIsAnsweredInFull: excludes what Admission.PruningIsUnobservable does.
- RelayDeadlines.CutOffIsDeserved: assumes a keepalive interval above zero, as the configuration does.
- A session's and an address record's token buckets are held as values in the objects that own them; `RateLimit.TokenBucket` is the object form.
- Numbers are unbounded and budgets, sizes and lengths are reals: rounding is not modelled. Fuzzy scores are kept in hundredths.
- RelaySweep.SweepMeetsEveryDeadline: assumes a keepalive interval above zero, as the configuration does, and likewise RelaySweep.SweepIsIdempotent.
- RelayTheorems.PartnerGoneIsTrue: an event's effects are taken together, so which of the two was closed first within it is not in the statement; in the classes a session lets go, and has its partner told, only once it is closed (`RelayCore.PeerSession.ReleaseRendezvous`). A mate that hung up or stopped answering was itself told nothing.
- Admission.PruningIsUnobservable: excludes a table full of addresses, whose pruning really does forget budgets, and clocks that step back.
- Admission: the server-wide cap counts completed connections, as the code does.
- WorkerRun.ForgettingIsUnobservable: every attachment is readable, each event is atomic (the code awaits a hash between rebuilding and writing back), and a socket stays attached until its close is handed over; the host compared with counts a parked peer's wait from its arrival, as the code's restoring does (`WorkerStory.HelloIsForgottenExactly` compares with one that does not).
- WorkerStory.HelloIsForgottenExactly: assumes the host sends no pings, as this one never does.
- WorkerRun.NobodyIsRefused: the hash is injective and the object has a name.
- The Worker's unknown-socket answer, unreadable attachments and arming the alarm.
- Case folding, white space and path characters in `FuzzyPath` are those of ASCII; in `Patch` and `RunCompare` a newline is the only line break.
- FuzzyPath.BetterTierWinsWithinCaps: says nothing of paths of 436,800 characters or more, which no file system holds.
- PaneRoom.MinExtentIsExact: every split has a child, as every split of a layout does; sizes are finite numbers, a tab group is marked as one, and what its tabs show is not part of the model.
- `paneSizeFrom` and `paneCellsIn`, which only divide by a cell's size.
- Nesting: the words of a refusal, and everything git may still refuse.
- FrameDecoder.DecodeUndoesEncode: JSON is any codec that writes a value on one line with nothing around it and reads it back; frame kinds are not modelled.
- Invitations.ParseInvitation: the branch for a link the URL parser refuses, since it refuses none of the form that is found; bytes that are not UTF-8 are replaced one at a time; hints are left out, and so are the parser's other stripping of tabs and newlines, which no token holds, `withoutCredentials` and the older invitation text.
- `siblingRuns`, which is one filter.
- Settle.Balances: `localeCompare` is any total order of names.
- Theme and contrast, syntax tables, windows, menus, commands, the cloning and waiting workflows: tables, drawing, or orchestration of processes.
