# Cordn: a verified model of its delivery service and multi-device client

Cordn is an MLS delivery service. A coordinator numbers the opaque messages of
each group and hands them out; clients replay that order. Several devices of one
identity share one MLS leaf, so two of them can commit from the same state. Each
then has to work out which Commit the group follows, and to take over its
sibling's state from sealed documents that link back to one another by `prev`.

This project models that system in Dafny and proves what it is for: devices that
raced converge, nothing in the log is lost or handled twice, subscribers get
every message once and in order, the two storage backends mean the same, and no
limit, queue, codec or snapshot breaks under any sequence of uses. Where the code
does not do what it promises, the model keeps the code as it is, a lemma names
the failing input, and another says exactly when the promise holds.

`dafny verify dfyconfig.toml` checks everything.

## How the model is laid out

| file | part of the system |
|---|---|
| `Base.dfy` | optional values, results, filtered sequences |
| `Mls.dfy` | MLS as an abstract function: a state, what it opens, what processing gives |
| `GroupSync.dfy` | one log entry and one batch, branch by branch |
| `ClientRuns.dfy` | whole runs of a client against a growing log that others write to meanwhile; stranded Commits |
| `IngestLaws.dfy` | ingestion told field by field; removal; own posts coming back |
| `Documents.dfy` | document chains, the lowest-document search, the fork-point search, fingerprint retention |
| `Forks.dfy`, `ForkLaws.dfy` | race evidence, fork resolution, document application; when branches are compared and what decides |
| `ForkConvergence.dfy`, `LaterForks.dfy` | convergence of every device: at the race, and long after it |
| `ChainCatchUp.dfy` | the chain walk, the partition of a gap, replay under per-epoch states |
| `NoRollback.dfy` | every call that changes a tracked group: nothing lowers its epoch or cursors; which chains can |
| `Publisher.dfy`, `ChainContents.dfy` | the writer of a chain, what readers find on it, and which states it carries |
| `Session.dfy` | the session's group objects, updated in place, proved against the functions above |
| `Lanes.dfy` | the promise-chained lane per group |
| `MessageQueue.dfy`, `Delivery.dfy`, `Coordinator.dfy`, `GroupWatch.dfy` | live delivery, from the queue to the client's watch |
| `Storage.dfy`, `StorageLaws.dfy`, `SqliteStorage.dfy`, `InMemoryStorage.dfy`, `StorageParity.dfy` | the tables' one meaning, both backends, and parity |
| `Acks.dfy`, `PendingOperations.dfy`, `SessionStore.dfy` | Welcomes, join requests, acknowledgements and retries |
| `PendingLink.dfy` | own Commits as ingestion sees them and as operations with deliveries: the same |
| `KeyPackageQuota.dfy`, `RateLimit.dfy` | abuse limits |
| `AppDataDictionary.dfy`, `ByteText.dfy`, `GroupRef.dfy`, `GroupMetadata.dfy` | wire codecs |
| `MergedHistory.dfy`, `GroupMerge.dfy`, `Snapshot.dfy`, `SnapshotRestore.dfy` | saving a session and bringing it back |

Code that works in place is modelled in place: classes with the source's fields,
arrays that are spliced while someone else holds them, loops with invariants.
Each method is proved against a function, and the promises are proved about that
function - among them laws that say, field by field or row by row and without
naming it, what it does.

## What is assumed

MLS, sealing and hashing are abstract functions. The theorems that need it say
so in a premise: processing never lowers the epoch (`NeverGoesBack`), and a
message that leaves the epoch as it is leaves the group's fingerprint and the own
leaf as they are (`EpochNamesContext`). What a message does to a state is only
ever assumed of states with a given fingerprint, never of every state that has
an epoch's number: third parties follow the first Commit (`FollowsFirst`), as the
coordinator's order makes them do; what they seal on the group's line opens on
that line (`ChainCatchUp.Steady`), and a third party's Commit is none the group
takes for its own (`ChainCatchUp.KnowsItsOwn`); nothing stored up to an own Commit leads out
of the epoch that Commit made, read under the state it made
(`Publisher.StaysUntil`), and two queued own Commits with the same bytes are both
applied once one of them is answered (`Publisher.Echoable`). Uploads get
fresh addresses, because documents are addressed by the hash of what is stored.
A chain is walked down to the local epoch before it is replayed
(`NoRollback.NoneOlder`, discharged by `WalkedStepsAreNewer`).

Text is the bytes of its UTF-8 form; which bytes are UTF-8 is a parameter. The
decoder drops one byte-order mark from the front, as the host's does.

Each call on a session is one step, except that others may post between an
operation's catch-up and its own post. The clock, the network, the coordinator's
answers and failures, and the moment at which a finalizer fails are parameters
that range over everything.

## Where the code and its promise part

- **A marker outlives its race.** The session remembers that its own Commit won
  or lost, with the epoch, and fork resolution never compares that epoch
  (`packages/cli/src/session.ts:2038-2041`); the multi-device specification ties
  the evidence to one race. `ForkConvergence.MarkerDecides` gives the exact
  condition under which a set marker leads to the right branch,
  `RaceConvergesIff` for a whole race from the log; `StaleWinNeverConverges` is an
  input where a loser stays behind, whatever documents follow, and an old loss
  leads a winner away.
- **Branches are not always compared at the race.** A document of another branch
  is compared at the epoch after the last state it shares with the device's memory,
  or at the common epoch when both have reached the same one
  (`packages/cli/src/session.ts:1378-1432`), and cursors of a later epoch say
  nothing of who won. `LaterForks.PureComparesAtRaceIff` says exactly when the
  comparison is at the race, `LaterDocumentsConverge`, `FirstStaysFirst` and
  `SecondEndsOnFirst` what follows; `ComparedElsewhereIff` is the exact outcome
  elsewhere. `EqualLaterEpochs`, `StaleMemoryComparesLater` (with
  `CrossingLeavesStaleMemory`), `ForgottenBaseIsTakenOverIff` and
  `OwnDecisionShutsFirstOut` are the inputs that lead away from the first branch.
- **An echo in a batch that throws is forgotten.** Confirmations are collected
  over a batch and applied at its end; the cursor has already moved
  (`packages/cli/src/session.ts:2271-2349`). `SettledExactlyWhenBatchCompletes`,
  `EchoIsLostIffOneOffends`, `StrandedForever` and `EchoThenThrow` say when and
  for how long.
- **A chained catch-up can step back inside itself**: each range starts from its
  step's state without a look at the epoch the ranges before it have reached
  (`packages/cli/src/session.ts:1621-1631`). The call as a whole does not lower
  the epoch it started from (`NeverRollsBack`, `SafeIffNoneOlder`);
  `StepBehindFalls` is an input where a range's gain is undone, `ReplayFallsIff`
  the exact condition, `ReplayFallsIffCounted` one that can be counted before the
  call, and `OwnLineNeverFalls` says that it takes a step of another branch.
- **A commit point counts as published too early**, before the live document is
  stored; and a Commit recovered from its echo has none
  (`FailedUploadLosesPoint`, `RecoveredCommitHasNoPoint`). `WriterAndReaderAgree`
  and `RecoveredCommitBorneIff` say exactly which epochs bear their Commit's
  cursor.
- **The document at a Commit's cursor need not carry the Commit's state**: a send
  before the publication moves the live state on while the cursor stays
  (`ChainContents.SentBeforePublished`); `AtTheCommitIff` is the exact condition.
- **A chain loses its order** when a writer adopts a document from below its own
  tip (`AdoptionBreaksOrder`); `OrderKeptExactlyOnTop` is the exact condition.
- **A chain step that does not decode cuts the replay short**
  (`LostBeyondUndecodable`), and an empty last range leaves the state of the last
  non-empty one: no claim is made that a catch-up ends on the tip's state.
- **Idle eviction hands out tokens early** unless it is off, an idle period
  refills a bucket or no token is ever granted (`BurstsGranted`,
  `ToppedUpGranted`, `BoundHoldsExactlyWhenIdleRefills`).
- **With the last-resort limit off** the total limit does not bound last-resort
  key packages (`TotalLimitHoldsIff`).
- **A re-request after its row was retired** is stamped with the bare clock, so an
  old acknowledgement can hit it (`OldAckHitsNewRowIff`).
- **Admin keys are compared as typed**, not lower-cased, when encoding
  (`DecodesToNormalFormIff`, `TwoSpellings`).
- **Text that begins with a byte-order mark** comes back without it
  (`GroupRef.DecodeUndoesEncode`, `GroupMetadata.DecodesToNormalFormIff`), and a
  group id that is only the mark comes back empty (`BareMarkIsLost`).
- **An eight-byte length prefix** keeps only its low 32 bits, as a signed number
  (`WideAdvancesIff`); the scan of a dictionary need not move on after one.
- **Aborting a queue with a falsy error** leaves it open (`FalsyAbortLeavesOpen`),
  and aborting a watch before its subscription exists does nothing
  (`GroupWatch.Watch.Abort`).
- **Registering a subscriber twice for a group** upsets its count
  (`AddKeepsCountExactlyWhenNew`); the code never does it.
- The repository's README says that `subscribeGroupMessages` replays the backlog first; the
  code only registers for live records
  (`packages/coordinator/src/coordinator.ts:318-333`), and no claim is made of it.

## Model

| member | source | states |
|---|---|---|
| `Documents.LowestDocumentAtEpoch` | packages/cli/src/session.ts:2136-2172 | The hop loop gives the lowest-cursor document at an epoch among those met before the walk ends, drops below the epoch or stops decoding |
| `Documents.LowestAtIsMinimum` | packages/cli/src/session.ts:2136-2172 | That document bears a cursor no document of the epoch undercuts and is one of them; there is none exactly when the readable part of the walk has no document of the epoch |
| `Documents.LowestAtIsFirstMet` | packages/cli/src/session.ts:2156-2168 | Among documents of equal cursor the search keeps the one met first |
| `Documents.ChainMeetsLocal` | packages/cli/src/session.ts:2182-2222 | The hop loop answers as the walk does when read document by document |
| `Documents.MeetingIsGreatestAgreement` | packages/cli/src/session.ts:2182-2222 | Where epochs never rise going back: `descends` exactly when chain and held fingerprint agree at the local epoch, `forkedAt` exactly the greatest earlier epoch where they agree, and neither exactly when they agree nowhere |
| `Documents.TrimFingerprints` | packages/cli/src/session.ts:1835-1850 | The eviction loop leaves the greatest epochs, at most sixteen |
| `Documents.RetainsGreatest` | packages/cli/src/session.ts:1835-1850 | Over any history of notes a device holds at most sixteen epochs, always the greatest ones noted, each with the latest fingerprint noted for it |
| `Session.GroupSession.Ingest` | packages/cli/src/groupSync.ts:104-310 | The branch sequence of ingestion (own echo, own outbound, stale, removal-like, rejection, application, state change) leaves exactly the group and the disposition that the laws on entries and batches (`IngestLaws`) pin field by field |
| `Session.GroupSession.Receive` | packages/cli/src/session.ts:2272-2322 | An own Commit is recognised by its posted wrapper before anything is opened; what does not open is passed over and moves both cursors |
| `Session.GroupSession.ApplyIncoming` | packages/cli/src/session.ts:2253-2364 | Entries one at a time, each under the state the previous one left; confirmations and rejections are settled only if no entry throws |
| `Session.GroupSession.CatchUpIfActive` | packages/cli/src/session.ts:2224-2234 | An inactive group is marked removed; a watched one goes on without a fetch; otherwise the operation goes on only if everything past the fetch cursor was taken in and the group is still active |
| `Session.GroupSession.TakeStreamed` | packages/cli/src/session.ts:2253-2364 | A stream record batch is ingested exactly as a fetched one |
| `Session.GroupSession.ConfirmPending` | packages/cli/src/pendingEpochOperations.ts:93-135 | Echoed Commits are marked, then confirmed ones finalized in order until a finalizer fails |
| `Session.GroupSession.RejectPending` | packages/cli/src/pendingEpochOperations.ts:169-201 | Exactly the operations with a rejected Commit leave the queue |
| `Session.GroupSession.CommitLost` | packages/cli/src/session.ts:1863-1904 | The probe over the entries before the own Commit decides won, lost or nothing learned; the group is not touched |
| `Session.GroupSession.AdoptCommit` | packages/cli/src/session.ts:1820-1832 | The race evidence is gathered under the old state, then state, commit point and marker are set |
| `Session.GroupSession.AskThirdParties` | packages/cli/src/session.ts:1968-2019 | The two probes are advanced in step and the first entry readable under exactly one of them decides |
| `Session.GroupSession.Outranked` | packages/cli/src/session.ts:2086-2129 | The commit cursors on both chains decide, then the live documents, in the order of the code |
| `Session.GroupSession.ResolveFork` | packages/cli/src/session.ts:2027-2075 | Coordinator order, third parties, recorded decision and rank are consulted in this order; the decision recorded and the issue raised are those of the tier that decided |
| `Session.GroupSession.ApplyEntry` | packages/cli/src/session.ts:1348-1459 | A document of a held group is ignored, taken as an advance or resolved as a fork, with all the group state that goes with it, as the laws on documents (`ForkLaws`) say |
| `Session.DeviceSession.ApplyDocumentEntry` | packages/cli/src/session.ts:1301-1459 | One document seeds its group or changes the one group it belongs to, and leaves every other group object as it was |
| `Session.GroupSession.StatesFrom` | packages/cli/src/session.ts:1603-1609 | The local state, then one state per chain step up to the first that does not decode |
| `Session.GroupSession.ReplayChain` | packages/cli/src/session.ts:1585-1635 | The ranges of a fetched gap are ingested one after the other, each under its step's state, and the replay stops where one fails |
| `Session.GroupSession.SendMessage` | packages/cli/src/session.ts:1002-1041 | Catch-up unless the group is watched, whatever others post meanwhile, then post and own record at the cursor the log gives; the operation ends where catch-up fails or the group is not active |
| `Session.GroupSession.PostCommit` | packages/cli/src/session.ts:626-794 | Catch-up unless watched, whatever others post meanwhile, then queueing, post and adoption; an unanswered post leaves the Commit queued and the state unchanged |
| `Session.GroupSession.AcceptNewer` | packages/cli/src/session.ts:940-990 | A Welcome for a held group replaces the state only if its epoch is greater, keeps history, clears queued operations and raises both cursors to the join cursor |
| `ForkLaws.ForkIsCompared` | packages/cli/src/session.ts:1378-1432 | A document of the local epoch with another state, or a newer one whose readable chain last agrees with what the device has held at an epoch before its own, is never fast-forwarded: the branches are compared at the epoch after that agreement, the decision recorded and the issue raised name it and the branch kept or taken, and every field of the group is as that outcome demands |
| `ForkLaws.FastForwardedIff` | packages/cli/src/session.ts:1409-1432 | A newer document is taken over without a comparison if and only if its chain agrees with the device at the local epoch or nowhere at all |
| `ForkLaws.UnreadableChainIsTakenOver` | packages/cli/src/session.ts:1409-1416 | Without access to the chain every newer document is taken over |
| `ForkLaws.QuietDocuments` | packages/cli/src/session.ts:1370-1395 | An older or unreadable document, or the very state held, moves nothing but the memory and, for a later document of that state, the record of the document |
| `ForkLaws.SeededIff` | packages/cli/src/session.ts:1301-1346 | A device without the group is seeded from a document that decodes and from no other, at the document's cursor |
| `ForkLaws.EvidenceInOrder` | packages/cli/src/session.ts:2027-2075 | Which evidence decides a comparison: the marker of an own race whatever else there is, else the third parties, else the decision recorded for that very epoch, else the order of the cursors on the two chains or of the live documents; the recorded basis is the evidence that decided |
| `ForkLaws.RankersAgree` | packages/cli/src/session.ts:2086-2129 | Two devices that each hold the document the other is handed rank the two branches alike |
| `ForkLaws.OwnPlaceIsLowest` | packages/cli/src/session.ts:2100-2118 | The place of the own branch is the lowest cursor of that epoch on its document's chain and at its commit point, and there is none exactly when neither has one |
| `ForkConvergence.VerdictSparesTheSilent` | packages/cli/src/session.ts:1968-2019 | While no third party writes on a branch, the verdict never names it |
| `ForkLaws.VerdictIsFirstOneSided` | packages/cli/src/session.ts:1968-2019 | The verdict names a branch if and only if some entry opens there with an event of somebody else or a new epoch, does not open on the other, is no own message, and no earlier entry does so for either branch |
| `ForkConvergence.RulingFollowsFirst` | packages/cli/src/session.ts:2027-2129 | Whichever of the three tiers decides, it decides for the branch whose Commit came first |
| `ForkConvergence.DeliveryMoves` | packages/cli/src/session.ts:1348-1459 | One document of either branch moves a device - at the base, on either branch, or fresh - to the side the race demands |
| `ForkConvergence.EveryDeviceConverges` | packages/cli/src/session.ts:1348-1459 | For every device and any list of documents of the two branches, in any order and with repetitions, the device ends on the first Commit's branch once that branch has been seen |
| `LaterForks.ComparedAtRace` | packages/cli/src/session.ts:1409-1459 | Both branches long moved on: whenever a document of one, of any later epoch, is compared with the other at the epoch of the race, every tier names the first Commit's branch - a device on it stays, one on the second moves over |
| `LaterForks.LaterDocumentMoves` | packages/cli/src/session.ts:1348-1459 | One document of either branch and any later epoch, fairly compared, leaves a device on the first branch there, and takes one on the second over if it is of the first branch and not older than the device's state |
| `LaterForks.LaterDocumentsConverge` | packages/cli/src/session.ts:1348-1459 | Any list of such documents, in any order and with repetitions, from any side: whoever was on the first branch, or saw a document of it that was not out of date, is on it in the end; whoever did not is on the second |
| `LaterForks.PureComparesAtRaceIff` | packages/cli/src/session.ts:1409-1432 | A device that remembers its own branch only compares a document of the other at the epoch of the race if and only if both are of that epoch, or the document is newer, the device still remembers the base and the document's chain passes through it |
| `LaterForks.PureOwnComparedIff` | packages/cli/src/session.ts:1409-1432 | A newer document of the own branch is compared at the epoch of the race if and only if the base is the last state its chain and the device's memory share |
| `LaterForks.FirstStaysFirst` | packages/cli/src/session.ts:1348-1459 | A device on the first branch that remembers the base stays there through any documents of either branch up to fifteen epochs past it, as long as none of the second branch is of a later epoch that the device is ever at |
| `LaterForks.WinnerStays` | packages/cli/src/session.ts:1348-1459 | The same from the winner's own Commit on: what it remembers follows from its Commit and is no premise |
| `LaterForks.SecondEndsOnFirst` | packages/cli/src/session.ts:1348-1459 | A device on the second branch that remembers base and race stays there until the first document of the first branch and ends on that one, whatever it is handed in whatever order, as long as the first branch's documents are the newer ones |
| `LaterForks.LoserMovesOver` | packages/cli/src/session.ts:1348-1459 | The same from the loser's own Commit on |
| `LaterForks.ComparedElsewhereIff` | packages/cli/src/session.ts:2027-2075 | Wherever else the branches are compared, the device ends on the first if and only if it carries a true marker, a third party spoke, or the decision or cursor order of that epoch happens to name it |
| `LaterForks.EqualLaterEpochs` | packages/cli/src/session.ts:1378-1408 | The failing input: both branches have reached the same later epoch, and an unmarked device of the first goes over to the second if and only if that has the lower cursor there |
| `LaterForks.StaleMemoryComparesLater` | packages/cli/src/session.ts:2182-2222 | The failing input: the device remembers a state of the other branch that the document's chain passes through, so the branches are compared later than at the race |
| `LaterForks.CrossingLeavesStaleMemory` | packages/cli/src/session.ts:1434-1451 | Moving over to the first branch with a newer document leaves such a memory behind |
| `LaterForks.ForgottenBaseIsTakenOverIff` | packages/cli/src/session.ts:1409-1432 | The failing input: a newer document of the other branch is taken over without a comparison if and only if no epoch up to the base is both remembered and on its chain |
| `LaterForks.OwnDecisionShutsFirstOut` | packages/cli/src/session.ts:2052-2061 | The failing input: a decision left by comparing the second branch with itself at the epoch of the race keeps the first branch out |
| `ForkConvergence.WinnerLearnsNoLoss` | packages/cli/src/session.ts:1863-1904 | The device whose Commit came first concludes that it won |
| `ForkConvergence.LoserLearnsLoss` | packages/cli/src/session.ts:1863-1904 | The device whose Commit came second finds its sibling's Commit before its own and concludes that it lost |
| `ForkConvergence.RacerIsReadyIff` | packages/cli/src/session.ts:1820-1904 | After its own Commit a racer satisfies the premises of convergence if and only if the marker it then carries does not contradict the outcome of this race |
| `ForkConvergence.RacerConverges` | packages/cli/src/session.ts:1348-1459 | From the common base, through its own Commit, to any exchange of documents, a racer whose evidence is true or absent and whose marker does not contradict the race ends on the first Commit's branch |
| `ForkConvergence.LogTellsTruth` | packages/cli/src/session.ts:1863-1904 | When the log before the own Commit holds the sibling's Commit, or nothing that could have won, the race probe's conclusion is true; there is none exactly when the log cannot be fetched and no sibling's Commit was skipped |
| `ForkConvergence.RaceConvergesFromLog` | packages/cli/src/session.ts:1348-1459 | A whole race from the log: catch-up or stream, the posts that land meanwhile, the own Commit, then documents of both branches in any order. The device ends on the first Commit's branch; what the probe concludes follows from the log and is no premise |
| `ForkConvergence.RaceConvergesIff` | packages/cli/src/session.ts:1348-1459 | Given one document of the other branch: such a racer ends on the first Commit's branch through every list of documents that shows it if and only if it came to its Commit without a marker, with one true of this race, or - coming second - with evidence that overwrites it. An old loss misleads a winner as an old win misleads a loser |
| `ForkConvergence.MarkerDecides` | packages/cli/src/session.ts:2036-2048 | With any marker set, a document of the other branch leads to the first Commit's branch if and only if the marker is true of this race: its epoch is never compared |
| `ForkConvergence.StaleWinNeverConverges` | packages/cli/src/session.ts:1863-1904 | The failing input: a win remembered from an earlier race and an unreachable coordinator in this one keep a device on the losing branch through every list of documents of the two branches, whatever the other evidence says |
| `GroupSync.IngestOneKeeps` | packages/cli/src/groupSync.ts:104-310 | Whatever branch is taken, the epoch does not fall, the frontier moves to the entry exactly when it is handled, and history grows by exactly the message reported as stored, never over an own outbound one |
| `IngestLaws.EntryIsTold` | packages/cli/src/groupSync.ts:104-310 | One entry, read field by field: what it says to the group - its outcome, unless it is an own echo or an own message - fixes the state, the history, the complaints, the removal fields, the skipped sibling, which queued Commit becomes part of the state, and what is confirmed or rejected; everything else stays |
| `IngestLaws.RemovedIffTakenOut` | packages/cli/src/groupSync.ts:175-304 | After a batch the group is removed if and only if it was before or some handled entry takes this member out: a state that is removed, a state change that has lost the own leaf, or a removal-like error neither of a queued Commit nor from the own leaf. `removedAt` is the cursor of the last such entry, and an active group stays active exactly when there is none |
| `IngestLaws.BatchTellsAll` | packages/cli/src/groupSync.ts:205-281 | A batch adds to the history exactly the readable events whose author is the authenticated sender, and to the complaints exactly what its handled entries complain of, in log order |
| `IngestLaws.BatchSettles` | packages/cli/src/groupSync.ts:104-294 | A batch confirms an own Commit if and only if some handled entry brings it back or puts it into effect, and rejects it if and only if some handled entry shows it refused or unreadable |
| `ClientRuns.BatchHandlesOnce` | packages/cli/src/session.ts:2253-2336 | A batch handles an initial part of what was fetched, each entry once and in order, all of it unless an entry throws |
| `ClientRuns.HandledExactlyOnce` | packages/cli/src/session.ts:2253-2336 | Over any run of posts by others - also between an operation's catch-up and its own post -, streamed batches, own sends, own Commits and syncs, watched or not, every entry of the passed interval has exactly one disposition, the inbound history is exactly what those stored, and no two stored messages share a cursor |
| `IngestLaws.PostsIffStillIn` | packages/cli/src/session.ts:2224-2234 | A send or Commit reaches the log, right behind what others posted meanwhile, if and only if the group is active, its catch-up completes and settles, and no entry of it takes this member out; otherwise the log stays as it was |
| `IngestLaws.TakesInWhatIsDue` | packages/cli/src/session.ts:2224-2234 | An active group's sync with a reachable coordinator takes in everything it has not passed, a stream the next entries, and the frontier gets past all of it if and only if no entry offends under the state it meets |
| `IngestLaws.OutForGood` | packages/cli/src/session.ts:2224-2234 | Over every run a group that is out stays out, no operation adds to the log, and nothing of the group changes but the mark set by the first operation that looks |
| `IngestLaws.TakenOutPostsNoMore` | packages/cli/src/groupSync.ts:175-304 | Once an entry has taken this member out, no send and no Commit of any continuation of the run adds to the log |
| `IngestLaws.OwnMessageIsNeverProcessed` | packages/cli/src/groupSync.ts:121-131 | An answered send is in the history at the cursor of its record, and whatever run follows, no batch that brings that record ever processes it |
| `IngestLaws.OwnCommitComesBack` | packages/cli/src/groupSync.ts:105-119 | An answered Commit is in state and queue, and its record, when it comes back, is not processed again but confirms it |
| `ClientRuns.RaceReadsWhatLanded` | packages/cli/src/session.ts:1863-1888 | The race probe reads exactly the unread entries stored before the own Commit: every post that landed between catch-up and post is among them, and what lands later makes no difference |
| `ClientRuns.SettledExactlyWhenBatchCompletes` | packages/cli/src/session.ts:2319-2349 | A waiting Commit stops waiting if and only if the batch that handled its echo or rejection ran to its end (and, for a rejection, every finalizer succeeded) |
| `ClientRuns.CompletesIffNoneOffends` | packages/cli/src/groupSync.ts:104-310 | A batch runs to its end if and only if no entry, under the state it meets, is an application message without an authenticated sender or cannot be processed |
| `ClientRuns.EchoIsLostIffOneOffends` | packages/cli/src/session.ts:2319-2349 | A Commit whose echo a batch handles keeps waiting if and only if some entry of that batch offends under the state it meets |
| `ClientRuns.StrandedForever` | packages/cli/src/session.ts:2253-2364 | A Commit whose echo was passed in a batch that threw stays queued and unconfirmed in every continuation of the run in which no later record is that Commit again |
| `ClientRuns.EchoThenThrow` | packages/cli/src/groupSync.ts:104-310 | The failing input: an own echo followed by an application message without an authenticated sender, fetched together |
| `NoRollback.DocumentAdvances` | packages/cli/src/session.ts:1370-1442 | Any document - stale, replayed, forked or unreadable - leaves epoch and last cursor no lower |
| `NoRollback.NeverRollsBack` | packages/cli/src/session.ts:941-1635 | No sequence of ingestion, own posts, documents, chained catch-ups and Welcomes lowers a tracked group's epoch or last cursor, each call taken as one step, and the fetch cursor never passes the last cursor |
| `NoRollback.WelcomeRenews` | packages/cli/src/session.ts:940-990 | A Welcome that is not newer changes nothing; a newer one leaves exactly its state, an empty queue and the old history, raises both cursors to where it was joined, and is removed only if its state is; a backlog is ingested from there |
| `NoRollback.WalkedStepsAreNewer` | packages/cli/src/multiDevice.ts:524-552 | The steps a walk collects satisfy that theorem's premise: none is older than the epoch it was walked down to |
| `NoRollback.SafeIffNoneOlder` | packages/cli/src/session.ts:1585-1635 | A chain can lower the group's epoch, for some log and library, if and only if a step that can be entered is older than the local epoch |
| `NoRollback.ReplayFallsIff` | packages/cli/src/session.ts:1603-1631 | Within a replay the epoch never falls if and only if no range takes the group beyond the step whose state the next non-empty range reinstates |
| `NoRollback.ReplayFallsIffCounted` | packages/cli/src/session.ts:1603-1631 | Where it is known which records move each range's branch on, a replay that runs to its end lowers the epoch on its way if and only if a step is older than the step before it plus the third-party Commits in between; nothing has to be opened or processed to tell |
| `NoRollback.OwnLineNeverFalls` | packages/cli/src/session.ts:1603-1631 | Along snapshots of the group's own line no step is ever behind, whatever throws or fails: it takes a step of another branch |
| `NoRollback.StepBehindFalls` | packages/cli/src/session.ts:1603-1631 | The failing input: two third-party Commits at 15 and 25 take the group from epoch e to e + 2, and the step of epoch e + 1 at 30 is reinstated for the entry at 35 |
| `ChainCatchUp.CollectSteps` | packages/cli/src/multiDevice.ts:524-550 | The walk collects the lowest-cursor document of every newer epoch, and gives up exactly when an address on the way cannot be read |
| `ChainCatchUp.SortByCursor` | packages/cli/src/multiDevice.ts:551-552 | The steps come out sorted by cursor, each of them once |
| `ChainCatchUp.WalkGroupChain` | packages/cli/src/multiDevice.ts:515-552 | One step per newer epoch on the chain, its lowest-cursor document, in cursor order; nothing exactly when the chain breaks |
| `ChainCatchUp.RangesJoin` | packages/cli/src/session.ts:1611-1624 | Consecutive ranges laid end to end are the one range between their outer boundaries |
| `ChainCatchUp.NothingIsLost` | packages/cli/src/session.ts:1585-1635 | When every step decodes, the ranges laid end to end are the whole gap: each message in exactly one range, in cursor order |
| `ChainCatchUp.LostBeyondUndecodable` | packages/cli/src/session.ts:1603-1631 | When a step does not decode, exactly the messages up to its cursor are replayed; the gap is replayed in full if and only if none lies beyond |
| `ChainCatchUp.CatchUpHandlesRanges` | packages/cli/src/session.ts:1621-1634 | A catch-up that runs to its end handles exactly the replayed ranges, in order |
| `ChainCatchUp.TriedInTheRightEpoch` | packages/cli/src/session.ts:1585-1635 | If each usable step is the group's state on its line right after the Commit at its cursor and every Commit of the shared leaf has a step, whatever the group has sent or queued itself and whatever throws: the messages tried are an initial part of the gap, each tried under exactly the fingerprint it was sealed in - those handled and at most one that threw, and all that the chain lets be replayed when the catch-up runs to its end |
| `ChainCatchUp.OtherBranchesAreFree` | packages/cli/src/session.ts:1585-1635 | That theorem asks nothing of states off the line: two libraries that agree on the line's states meet its premises alike |
| `Publisher.DocumentPublisher.Publish` | packages/cli/src/multiDevice.ts:310-392 | Which documents are stored, with which state, linked to what, and what is remembered of the tip, the commit point and the applied document, for every combination of stored and failed uploads |
| `Publisher.WalkIsChain` | packages/cli/src/multiDevice.ts:515-552 | A reader sees the writer's chain as far as its hops go |
| `Publisher.OrderKeptExactlyOnTop` | packages/cli/src/multiDevice.ts:341-391 | A publication keeps epochs and cursors falling along the chain if and only if its first document lies neither in epoch nor in cursor below the tip |
| `Publisher.WriterAndReaderAgree` | packages/cli/src/multiDevice.ts:310-392 | In every run of one writer that keeps its chain, neither epoch nor cursor rises going back; an own Commit's epoch bears nothing below the Commit's cursor, and the search finds exactly that cursor if and only if the epoch's first chained document did not come too late |
| `Publisher.HopsFindCommit` | packages/cli/src/session.ts:2136-2172 | Readers bounded by a number of hops find the Commit's cursor exactly when a document bearing it lies within them |
| `Publisher.LowestNeverChanges` | packages/cli/src/multiDevice.ts:310-392 | Re-publishing, and everything else the writer does, leaves the lowest cursor found at a published epoch as it was |
| `Publisher.NothingMissedWhenStored` | packages/cli/src/multiDevice.ts:341-391 | When no upload fails, no own Commit's epoch is published too late |
| `Publisher.FailedUploadLosesPoint` | packages/cli/src/multiDevice.ts:346-383 | The failing input: the commit point counts as published before the live document is stored, so a retry chains only a later cursor |
| `Publisher.RecoveredCommitHasNoPoint` | packages/cli/src/groupSync.ts:140-200 | A Commit recovered from its echo after a lost answer leaves no commit point, and a publication there is one live document at the frontier |
| `Publisher.RecoveredCommitBorneIff` | packages/cli/src/multiDevice.ts:310-392 | A catch-up or stream that takes up an own Commit from its echo, then any run: the first publication of that epoch makes readers find a cursor no lower than the echo's, and the Commit's own if and only if nothing past the echo has been ingested by then |
| `Publisher.AdoptionBreaksOrder` | packages/cli/src/multiDevice.ts:341-391 | The failing input: a writer that adopts a document from below its own tip publishes out of order |
| `ChainContents.EveryDocumentCarries` | packages/cli/src/multiDevice.ts:341-391 | In every run of one writer each chained live document carries the state and frontier of its moment, and each commit-point document exactly the state its Commit made, at the cursor where that landed |
| `ChainContents.AtTheCommitIff` | packages/cli/src/multiDevice.ts:341-391 | A document at an own Commit's epoch and cursor carries the state the Commit made if and only if it is a commit-point document or a live one published while the client still held that state; a live one got there only before the frontier passed the Commit |
| `ChainContents.SentBeforePublished` | packages/cli/src/multiDevice.ts:341-391 | The failing input: an own send before the publication leaves a live document at the Commit's cursor with another state |
| `ChainContents.PublishingLeaves` | packages/cli/src/multiDevice.ts:341-391 | For every combination of uploads: what a publication leaves of the commit point and of the device's own place, and nothing else of the group |
| `ChainContents.CatchUpFindsCommits` | packages/cli/src/multiDevice.ts:515-552 | Whoever catches up from the writer's chain gets, for every own Commit that shows on its near part, one step at that Commit's cursor with exactly the state the Commit made |
| `ChainContents.ChainIsSnapshots` | packages/cli/src/multiDevice.ts:515-552 | The chain's part in the premise of `ChainCatchUp.TriedInTheRightEpoch`, derived from the writer's run |
| `Lanes.LaneTable.Register` | packages/cli/src/session.ts:1716-1729 | An operation waits on the lane its alias had and becomes that alias's lane |
| `Lanes.LaneTable.Release` | packages/cli/src/session.ts:1731-1741 | Ended, returning or throwing, a lane removes the alias only if no later one took its place |
| `Lanes.LaneTable.IdleForExport` | packages/cli/src/session.ts:243-248 | The table is found empty exactly when no operation is waiting or running |
| `Lanes.StartsExactlyWhenAliasIsFree` | packages/cli/src/session.ts:1716-1742 | A body may start exactly when every earlier operation on its own alias has ended, whatever other aliases do and whether those failed |
| `Lanes.LanesAreSafe` | packages/cli/src/session.ts:1716-1742 | For any order of arrivals, resumptions, endings and failures, bodies of one alias never overlap and start in arrival order, and an alias has an entry exactly while one of its operations has not ended |
| `Lanes.EmptyExactlyWhenDone` | packages/cli/src/session.ts:243-248 | An empty table means that every operation has ended, so an export then pairs no half-done state |
| `MessageQueue.AsyncMessageQueue.Enqueue` | packages/coordinator/src/coordinator.ts:56-68 | A pushed value goes to the first waiter or is held; after the end it is dropped |
| `MessageQueue.AsyncMessageQueue.Dequeue` | packages/coordinator/src/coordinator.ts:92-123 | Held values first, then the abort error, then done, else a waiter; moving the index and compacting the array change nothing of this |
| `MessageQueue.AsyncMessageQueue.Shut` | packages/coordinator/src/coordinator.ts:70-79 | Closing twice is closing once; everyone who waits is told the stream is done |
| `MessageQueue.AsyncMessageQueue.Fail` | packages/coordinator/src/coordinator.ts:81-90 | Everyone who waits gets the error; held values stay |
| `MessageQueue.NothingLostOrReordered` | packages/coordinator/src/coordinator.ts:46-130 | Over any interleaving, values handed out followed by values held are the values accepted, in order; waiters exist only when nothing is held; the end is reported only after everything accepted |
| `MessageQueue.DrainedBeforeEnd` | packages/coordinator/src/coordinator.ts:92-123 | Once done or the error has been answered, every accepted value has been handed out |
| `MessageQueue.EndsAsTold` | packages/coordinator/src/coordinator.ts:56-123 | Readers are told the truth: finished only if a close or return ended the queue, failed with a reason only if an abort with that reason did or an abort was falsy, and nobody waits once the queue has ended |
| `MessageQueue.FalsyAbortLeavesOpen` | packages/coordinator/src/coordinator.ts:56-90 | An abort ends the queue if and only if its error is truthy: after `abort(undefined)` pushes are still accepted |
| `Delivery.BacklogOfGroup` | packages/coordinator/src/coordinator.ts:312-316 | The backlog fetched for distinct groups holds, per group, exactly the log past the wanted cursor |
| `Delivery.ExactlyOnceInOrder` | packages/coordinator/src/coordinator.ts:297-442 | For distinct groups and every interleaving of posts with registration, replay and flush, what a subscriber has been given of a group is at all times an initial part of the log past its cursor, and all of it once live |
| `Delivery.WatchDeliversSuffixOnce` | packages/cli/src/groupWatch.ts:29-53 | Fetch, then subscribe from where the fetch led: the two together hand over the whole suffix once, whatever is posted meanwhile |
| `Delivery.SplitFlushLoses` | packages/coordinator/src/coordinator.ts:376-381 | Why the flush has to be one step: a record let through between the end of the replay and the flush makes the buffered one look old |
| `Coordinator.BacklogSubscriber.Push` | packages/coordinator/src/coordinator.ts:346-363 | A live record is buffered during the replay; afterwards the reader's queue receives it exactly if it lies past the last cursor emitted for its group |
| `Coordinator.BacklogSubscriber.CatchUp` | packages/coordinator/src/coordinator.ts:364-381 | Replay and flush emit what the model says, and the queue receives exactly that |
| `Coordinator.DeliveredIsEmitted` | packages/coordinator/src/coordinator.ts:346-363 | A live record reaches the reader's queue exactly if the subscriber emits it, and never during a replay |
| `Coordinator.MessageCoordinator.PostGroupMessage` | packages/coordinator/src/coordinator.ts:297-306 | The record gets the group's next cursor and goes to every subscriber of the group: into the queue its reader drains if the subscriber is live and has not got it, into its buffer during a replay; no other state changes |
| `Coordinator.MessageCoordinator.SubscribeMany` | packages/coordinator/src/coordinator.ts:335-392 | Registration in every group, then replay and flush, into a fresh subscriber and queue; the counts stay right |
| `Coordinator.MessageCoordinator.Unsubscribe` | packages/coordinator/src/coordinator.ts:385-431 | The queue ends, the subscriber leaves its groups, and the counts stay right |
| `Coordinator.MessageCoordinator.ActiveSubscriptionCount` | packages/coordinator/src/coordinator.ts:448-450 | The count is the number of distinct subscribers registered in some group |
| `Coordinator.AddKeepsCountExactlyWhenNew` | packages/coordinator/src/coordinator.ts:394-409 | Registering keeps the counts right if and only if the subscriber was not registered for that group already |
| `Coordinator.LiveCountIsRight` | packages/coordinator/src/coordinator.ts:394-450 | Over any run of subscriptions and cancellations the count is the number of distinct registered subscribers |
| `Coordinator.WhoIsThereAfterAdding` | packages/coordinator/src/coordinator.ts:394-409 | A registration puts the subscriber in exactly the groups named and moves nobody else |
| `Coordinator.WhoIsThereAfterRemoving` | packages/coordinator/src/coordinator.ts:411-431 | A cancellation takes it out of exactly those, and moves nobody else |
| `Coordinator.SubscribeIsUninterruptedRun` | packages/coordinator/src/coordinator.ts:335-392 | What the imperative subscription leaves is the interleaving in which nothing is posted between its steps |
| `GroupWatch.FetchReachesEnd` | packages/cli/src/session.ts:1179-1251 | Fetching and ingesting past a cursor leads to the end of the log |
| `GroupWatch.ReachIsGreatest` | packages/cli/src/session.ts:1179-1251 | Ingestion ends on the greatest cursor there was and never moves back |
| `GroupWatch.Watch.Begin` | packages/cli/src/groupWatch.ts:29-46 | The messages of the first fetch are handed over before the subscription is taken from the cursor they led to |
| `GroupWatch.Watch.Abort` | packages/cli/src/groupWatch.ts:23-51 | Before the subscription exists an abort does nothing and its reason is forgotten |
| `GroupWatch.Watch.Failed` | packages/cli/src/groupWatch.ts:52-66 | A stream error is swallowed exactly when it is the abort that was asked for |
| `GroupWatch.WatchGroup` | packages/cli/src/groupWatch.ts:15-72 | A whole watch hands over the log past the starting cursor, each message once and in order |
| `Storage.PerformKeeps` | packages/coordinator/src/storage/sqliteStorage.ts:490-640 | Every operation keeps references unique, one request per requester and at most a hundred per group, and each group's cursors dense from 1 |
| `Storage.ConsumeSpendsRegularsFirst` | packages/coordinator/src/storage/sqliteStorage.ts:355-364 | Consuming by identity gives a regular key package whenever there is one, else a last-resort one that stays, and leaves all others |
| `Storage.FetchIsSuffix` | packages/coordinator/src/storage/sqliteStorage.ts:760-770 | A fetch gives exactly the group's messages past the cursor, in cursor order |
| `StorageLaws.KeepingKeyPackages` | packages/coordinator/src/storage/sqliteStorage.ts:642-682 | Publishing, listing, looking up and removing, row by row: what is kept, what is answered and in what order |
| `StorageLaws.HandingOut` | packages/coordinator/src/storage/sqliteStorage.ts:495-522 | A reference gives that key package; an identity its oldest regular one, or, without one, its newest, which is a last resort and stays; a regular one is gone and no other row is touched |
| `StorageLaws.HandingOutNothing` | packages/coordinator/src/storage/sqliteStorage.ts:495-522 | An identifier that is no reference and owns nothing gets nothing and changes nothing |
| `StorageLaws.FetchingWelcomes` | packages/coordinator/src/storage/sqliteStorage.ts:523-535 | Exactly the target's Welcomes whose reference and stamp are both acknowledged are deleted, the target's others are answered in the order stored, and nothing else is touched |
| `StorageLaws.FetchingRequests` | packages/coordinator/src/storage/sqliteStorage.ts:536-548 | The same of a group's join requests, by requester and stamp |
| `StorageLaws.FetchingManyRequests` | packages/coordinator/src/storage/sqliteStorage.ts:549-577 | For several groups: exactly the requests acknowledged in their own group are deleted, and the answer is group by group in the order asked |
| `StorageLaws.ExpiringWelcomes` | packages/coordinator/src/storage/sqliteStorage.ts:716-722 | Exactly the Welcomes stamped before a positive threshold go, and their number is answered |
| `StorageLaws.ExpiringRequests` | packages/coordinator/src/storage/sqliteStorage.ts:748-754 | Exactly the requests stamped before a positive threshold go, and their number is answered |
| `StorageLaws.AskingToJoin` | packages/coordinator/src/storage/sqliteStorage.ts:578-612 | A repeated request takes the earlier one's place whatever the group holds; a new one is refused without effect exactly when the group holds a hundred, and goes last otherwise |
| `StorageLaws.FetchingMessages` | packages/coordinator/src/storage/sqliteStorage.ts:760-770 | A group's messages past the cursor, in the order stored |
| `StorageLaws.FetchingManyMessages` | packages/coordinator/src/storage/sqliteStorage.ts:772-817 | Group by group in the order asked, each group's messages past its own cursor |
| `StorageLaws.Numbering` | packages/coordinator/src/storage/sqliteStorage.ts:613-639 | A message gets the cursor after its group's last, and the group's routing is that cursor |
| `SqliteStorage.SqliteStorage.PublishKeyPackage` | packages/coordinator/src/storage/sqliteStorage.ts:642-655 | A reference already stored is refused and nothing changes; answer and tables as in the common meaning |
| `SqliteStorage.SqliteStorage.ListAllKeyPackages` | packages/coordinator/src/storage/sqliteStorage.ts:664-667 | Every row, in the table's order; answer and tables as in the common meaning |
| `SqliteStorage.SqliteStorage.RemoveKeyPackage` | packages/coordinator/src/storage/sqliteStorage.ts:674-682 | The row with the reference goes, and no other; answer and tables as in the common meaning |
| `SqliteStorage.SqliteStorage.ConsumeKeyPackage` | packages/coordinator/src/storage/sqliteStorage.ts:495-522 | By reference first, else the row the query's order puts first, as one atomic step; answer and tables as in the common meaning |
| `SqliteStorage.SqliteStorage.FetchPendingWelcomes` | packages/coordinator/src/storage/sqliteStorage.ts:523-535 | Acknowledged Welcomes are deleted before the rest is read in id order; answer and tables as in the common meaning |
| `SqliteStorage.SqliteStorage.DeleteExpiredWelcomes` | packages/coordinator/src/storage/sqliteStorage.ts:716-722 | Exactly the Welcomes older than the threshold go, and their number is returned; answer and tables as in the common meaning |
| `SqliteStorage.SqliteStorage.StoreJoinRequest` | packages/coordinator/src/storage/sqliteStorage.ts:578-612 | The requester's row is refreshed where it stands, else one is inserted if the group is not full; answer and tables as in the common meaning |
| `SqliteStorage.SqliteStorage.FetchPendingJoinRequests` | packages/coordinator/src/storage/sqliteStorage.ts:536-548 | Acknowledged requests are deleted before the rest is read; answer and tables as in the common meaning |
| `SqliteStorage.SqliteStorage.FetchManyPendingJoinRequests` | packages/coordinator/src/storage/sqliteStorage.ts:549-577 | All groups' acknowledgements are applied before anything is read, in the order of the groups asked; answer and tables as in the common meaning |
| `SqliteStorage.SqliteStorage.DeleteExpiredJoinRequests` | packages/coordinator/src/storage/sqliteStorage.ts:748-754 | Exactly the requests older than the threshold go, and their number is returned; answer and tables as in the common meaning |
| `SqliteStorage.SqliteStorage.AppendGroupMessage` | packages/coordinator/src/storage/sqliteStorage.ts:613-639 | The group's next cursor is allocated; when no safe integer is left nothing changes; answer and tables as in the common meaning |
| `SqliteStorage.SqliteStorage.FetchManyGroupMessages` | packages/coordinator/src/storage/sqliteStorage.ts:772-817 | One query over all groups gives the groups' suffixes in the order asked; answer and tables as in the common meaning |
| `SqliteStorage.SqliteStorage.GetGroupRouting` | packages/coordinator/src/storage/sqliteStorage.ts:848-858 | The last cursor of a group that has one; answer and tables as in the common meaning |
| `InMemoryStorage.InMemoryStorage.PublishKeyPackage` | packages/coordinator/src/storage/inMemoryStorage.ts:47-55 | The record goes to the end of its identity's array; answer and meaning as in the common meaning |
| `InMemoryStorage.InMemoryStorage.ListKeyPackagesForIdentity` | packages/coordinator/src/storage/inMemoryStorage.ts:57-61 | The caller gets the storage's own array, not a copy; answer and meaning as in the common meaning |
| `InMemoryStorage.InMemoryStorage.ListAllKeyPackages` | packages/coordinator/src/storage/inMemoryStorage.ts:63-73 | The nested loop collects every record of every identity's array, identity by identity; answer and meaning as in the common meaning |
| `InMemoryStorage.InMemoryStorage.RemoveKeyPackage` | packages/coordinator/src/storage/inMemoryStorage.ts:84-97 | The record is spliced out in place, so every holder of the array sees it shrink; an emptied array is dropped; answer and meaning as in the common meaning |
| `InMemoryStorage.InMemoryStorage.ConsumeKeyPackage` | packages/coordinator/src/storage/inMemoryStorage.ts:99-106 | By reference first, else the first regular record of the identity, else its last record, which stays if last-resort; answer and meaning as in the common meaning |
| `InMemoryStorage.InMemoryStorage.FetchPendingWelcomes` | packages/coordinator/src/storage/inMemoryStorage.ts:118-144 | Acknowledged Welcomes are filtered out before the rest is returned; answer and meaning as in the common meaning |
| `InMemoryStorage.InMemoryStorage.DeleteExpiredWelcomes` | packages/coordinator/src/storage/inMemoryStorage.ts:146-167 | The lists are filtered key by key and the losses add up to the count; answer and meaning as in the common meaning |
| `InMemoryStorage.InMemoryStorage.StoreJoinRequest` | packages/coordinator/src/storage/inMemoryStorage.ts:169-197 | The requester's record is updated in place, else one is pushed if the list is not full; answer and meaning as in the common meaning |
| `InMemoryStorage.InMemoryStorage.FetchPendingJoinRequests` | packages/coordinator/src/storage/inMemoryStorage.ts:199-225 | Acknowledged requests are filtered out before the rest is returned; answer and meaning as in the common meaning |
| `InMemoryStorage.InMemoryStorage.FetchManyPendingJoinRequests` | packages/coordinator/src/storage/inMemoryStorage.ts:227-237 | Group by group, each retired and read in turn - with the same result as retiring all first; answer and meaning as in the common meaning |
| `InMemoryStorage.InMemoryStorage.DeleteExpiredJoinRequests` | packages/coordinator/src/storage/inMemoryStorage.ts:239-260 | The lists are filtered key by key and the losses add up to the count; answer and meaning as in the common meaning |
| `InMemoryStorage.InMemoryStorage.AppendGroupMessage` | packages/coordinator/src/storage/inMemoryStorage.ts:262-280 | The group log's counter gives the next cursor; answer and meaning as in the common meaning |
| `InMemoryStorage.InMemoryStorage.FetchManyGroupMessages` | packages/coordinator/src/storage/inMemoryStorage.ts:293-297 | The groups' suffixes in the order asked; answer and meaning as in the common meaning |
| `InMemoryStorage.InMemoryStorage.GetGroupRouting` | packages/coordinator/src/storage/inMemoryStorage.ts:299-301 | The last cursor of a group that has one; answer and meaning as in the common meaning |
| `InMemoryStorage.ReadEarlyIsReadLate` | packages/coordinator/src/storage/inMemoryStorage.ts:227-237 | Reading each group right after retiring its requests gives what reading after all retirements gives |
| `InMemoryStorage.FilterSplits` | packages/coordinator/src/storage/inMemoryStorage.ts:146-167 | Filtering list by list is filtering the table they split |
| `StorageParity.StepMemory` | packages/coordinator/src/storage/inMemoryStorage.ts:47-358 | Every operation on the maps of arrays gives the answer and the tables of the common meaning |
| `StorageParity.StepSqlite` | packages/coordinator/src/storage/sqliteStorage.ts:642-858 | Every operation on the ordered rows does too, except a repeated reference and an exhausted cursor, which are refused without effect |
| `StorageParity.RunBoth` | packages/coordinator/src/storage/inMemoryStorage.ts:38-358 | For every operation sequence with unique references, both backends give the same answers, operation by operation; of listing all key packages the answers are compared as multisets |
| `Acks.Inbox.StoreWelcome` | packages/coordinator/src/coordinator.ts:213-242 | A Welcome that says the same as a pending one is answered by that one; otherwise it is stamped past every pending one of its reference |
| `Acks.Inbox.StoreJoinRequest` | packages/coordinator/src/coordinator.ts:255-272 | A request is stamped past the pending one of the same requester and refreshes it, or is refused when the group is full |
| `Acks.Inviting` | packages/coordinator/src/coordinator.ts:213-242 | What is answered says what was to be delivered and is pending; nothing is added exactly when a pending Welcome says the same, otherwise one is, with the least stamp that the clock has reached and no pending Welcome of that reference has |
| `Acks.Asking` | packages/coordinator/src/coordinator.ts:255-272 | A request gets the least stamp that the clock has reached and the pending one has not, takes its place or goes last, and only a new one for a full group is refused |
| `Acks.AcksNameOneRecord` | packages/coordinator/src/coordinator.ts:213-272 | For any clock: pending Welcomes of a target have distinct (ref, createdAt) and say different things, and a group holds one row per requester and at most a hundred |
| `Acks.AskingAgainRaisesStamp` | packages/coordinator/src/coordinator.ts:255-272 | Re-requesting while pending strictly raises createdAt, whatever the clock shows |
| `Acks.EarlierAckSparesRefreshed` | packages/coordinator/src/storage/inMemoryStorage.ts:169-225 | While the row stays pending, an acknowledgement from any earlier fetch does not retire the row a re-request left |
| `Acks.OldAckHitsNewRowIff` | packages/coordinator/src/coordinator.ts:255-272 | After the row was retired, an old acknowledgement retires the next request if and only if the clock shows exactly the old stamp |
| `KeyPackageQuota.EnforceKeyPackageQuota` | packages/server/src/coordinatorMethods.ts:282-339 | The check reads the length of the very array its removals shrink; what it removes and answers is the rule on rows |
| `KeyPackageQuota.RemoveListed` | packages/server/src/coordinatorMethods.ts:303-306 | Removing records one by one through the storage shrinks the caller's array to what is left, and touches no other identity |
| `KeyPackageQuota.PublishKeyPackage` | packages/server/src/coordinatorMethods.ts:356-395 | Check, then publish, on the shared storage |
| `KeyPackageQuota.PublishKeepsLimits` | packages/server/src/coordinatorMethods.ts:282-339 | With both limits at least 1, a publish keeps every identity within both limits, and a rejected one removes nothing |
| `KeyPackageQuota.RefusedIffFull` | packages/server/src/coordinatorMethods.ts:282-339 | Within the limits a key package is refused if and only if its identity holds as many as allowed and none makes room; a last resort takes the place of the oldest one when there are as many as allowed, every regular one stays, and no other identity is touched |
| `KeyPackageQuota.QuotaHolds` | packages/server/src/coordinatorMethods.ts:282-339 | Every state reachable from an empty store keeps each identity within both limits |
| `KeyPackageQuota.AliasedCountDiffersIff` | packages/server/src/coordinatorMethods.ts:282-339 | Exactly when counting the shrunken array instead of the original one changes the answer: never while the limits hold |
| `KeyPackageQuota.TotalLimitHoldsIff` | packages/server/src/coordinatorMethods.ts:290-325 | The total limit holds in every run if and only if the last-resort limit is switched on |
| `PendingOperations.PendingTable.Enqueue` | packages/cli/src/pendingEpochOperations.ts:84-91 | The operation goes last in its own group's queue; other groups are untouched |
| `PendingOperations.PendingTable.Get` | packages/cli/src/pendingEpochOperations.ts:137-151 | The first operation with the Commit, if there is one |
| `PendingOperations.PendingTable.ConfirmOperations` | packages/cli/src/pendingEpochOperations.ts:93-135 | Operation objects are marked in place, confirmed ones finalized in order until a store call fails; queue, inbox and count are those of the model |
| `PendingOperations.PendingTable.RejectOperations` | packages/cli/src/pendingEpochOperations.ts:169-201 | Exactly the operations with a named Commit leave the queue and are marked rejected in place; other groups are untouched |
| `PendingOperations.PendingTable.DropPendingAddMemberForTarget` | packages/cli/src/pendingEpochOperations.ts:153-167 | Exactly the additions of that member leave the queue |
| `PendingOperations.FinalizeOnlyConfirmed` | packages/cli/src/pendingEpochOperations.ts:105-135 | Only confirmed operations are finalized; a failing pass leaves the operation it failed on queued and confirmed, a successful one leaves no confirmed operation |
| `PendingOperations.FinalizeDelivers` | packages/cli/src/pendingEpochOperations.ts:105-135 | Every finalized addition has its Welcome pending at the coordinator |
| `PendingOperations.FinalizeSendsOnlyConfirmed` | packages/cli/src/pendingEpochOperations.ts:52-63 | A pass stores no Welcome but those of confirmed operations |
| `PendingOperations.FinalizedIsFetched` | packages/cli/src/pendingEpochOperations.ts:52-63 | For every finalized addition its member, fetching right after the pass, finds a Welcome with that key package reference, those bytes and that join cursor |
| `PendingOperations.FinalizesFromTheFront` | packages/cli/src/pendingEpochOperations.ts:105-135 | What a pass finalizes is an initial part of the confirmed operations in queue order, and the rest stays in order |
| `PendingOperations.GetsThroughIff` | packages/cli/src/pendingEpochOperations.ts:105-135 | A pass gets through if and only if every delivery it needs is answered |
| `PendingOperations.EchoesFinalize` | packages/cli/src/pendingEpochOperations.ts:93-135 | Confirming Commits whose deliveries are answered finalizes exactly the operations that were confirmed or are now |
| `PendingOperations.TakesExactlyTheNamed` | packages/cli/src/pendingEpochOperations.ts:153-201 | Rejecting takes out exactly the operations with a named Commit, dropping a member exactly its additions |
| `PendingOperations.OneWelcomePerConfirmedAdd` | packages/cli/src/pendingEpochOperations.ts:93-201 | Over any run, with any failures, lost answers and retries: every enqueued operation is in exactly one of queued, finalized, rejected and dropped, none is finalized before its echo, and no two pending Welcomes say the same |
| `PendingOperations.RetryDeliversOnce` | packages/cli/src/pendingEpochOperations.ts:105-135 | After a delivery whose answer was lost, the retry finds its Welcome pending and adds none |
| `PendingLink.SettlingIsSame` | packages/cli/src/session.ts:2337-2349 | Settling a batch as message ingestion models it and on the operations with their Welcome deliveries leaves the same Commits waiting, for every outcome of the deliveries |
| `RateLimit.TokenBucketRateLimiter.Check` | packages/server/src/rateLimit.ts:32-70 | The call evicts idle buckets, refills and spends as the model decides; a refused call keeps what it has been refilled |
| `RateLimit.TokenBucketRateLimiter.EvictIdleBuckets` | packages/server/src/rateLimit.ts:72-82 | The loop drops exactly the buckets idle for the whole period |
| `RateLimit.GrantsArePaidFor` | packages/server/src/rateLimit.ts:32-70 | From any state, what one key is granted never exceeds its bucket's level plus the refill since |
| `RateLimit.RefusedIffOverdrawn` | packages/server/src/rateLimit.ts:32-70 | The matching lower bound: a call is refused if and only if the burst is below one token or, for some earlier accepted call of the key, the calls accepted from it on plus this one exceed the burst plus the refill since |
| `RateLimit.RefusedLeavesNoTrace` | packages/server/src/rateLimit.ts:51-68 | Leaving a refused call out of a run changes no other answer, wherever eviction is off, an idle period refills a bucket or no token is ever granted |
| `RateLimit.FaithfullyNoTrace` | packages/server/src/rateLimit.ts:51-68 | The same of a limiter that never evicts, whatever its idle period |
| `RateLimit.EvictionIsUnobservable` | packages/server/src/rateLimit.ts:72-82 | If eviction is off, an idle period refills a bucket or the burst is below one token, the limiter answers as one that never evicts, for any mix of keys |
| `RateLimit.WindowBound` | packages/server/src/rateLimit.ts:32-82 | In any stretch of a run the calls accepted for one key number at most the burst plus the refill over the stretch |
| `RateLimit.BurstsGranted` | packages/server/src/rateLimit.ts:72-82 | The failing input: any number of bursts, one idle period apart, are all granted in full |
| `RateLimit.ToppedUpGranted` | packages/server/src/rateLimit.ts:32-82 | The failing input for a burst that is not whole: bursts topped up to one more call, an idle period apart |
| `RateLimit.BoundHoldsExactlyWhenIdleRefills` | packages/server/src/rateLimit.ts:32-82 | For any burst, rate and idle period: the bound holds in every run if and only if eviction is off, an idle period refills a bucket, or the burst is below one token |
| `AppDataDictionary.ReadVarBytes` | packages/core/src/lastResortKeyPackage.ts:47-73 | The loop over the length bytes reads what the format says, errors included |
| `AppDataDictionary.DecodeUndoesEncode` | packages/core/src/lastResortKeyPackage.ts:21-73 | Every byte string below 2^30 is read back, wherever it stands and whatever follows |
| `AppDataDictionary.NarrowAdvances` | packages/core/src/lastResortKeyPackage.ts:47-73 | After a 1-, 2- or 4-byte prefix, decoding strictly advances and gives the bytes it passed over |
| `AppDataDictionary.WideAdvancesIff` | packages/core/src/lastResortKeyPackage.ts:47-73 | An 8-byte prefix names the signed value of its low 32 bits, so decoding advances if and only if they are below 2^31 or among the seven greatest |
| `AppDataDictionary.ScanForMarker` | packages/core/src/lastResortKeyPackage.ts:114-130 | Where every turn moves the offset on, the scan ends and gives the answer of the scan read component by component |
| `AppDataDictionary.EncodedDictionaryIsLastResortIff` | packages/core/src/lastResortKeyPackage.ts:99-133 | The extension built from a dictionary counts as last-resort if and only if the dictionary holds the marker with empty data |
| `AppDataDictionary.TrailingBytesFail` | packages/core/src/lastResortKeyPackage.ts:99-133 | Bytes after the dictionary make the extension unreadable, and other kinds of extension are never looked into |
| `AppDataDictionary.EnsuringIsIdempotent` | packages/core/src/lastResortKeyPackage.ts:85-97 | Ensuring the marker keeps every extension, makes the key package last-resort and does nothing the second time |
| `GroupRef.ParseTlv` | packages/core/src/groupRef.ts:177-200 | The buckets hold, per type, exactly the values of the entries in their order; malformed input gives the parser's error |
| `GroupRef.EncodeTlvEntry` | packages/core/src/groupRef.ts:164-175 | Type, length and value are written to an array of exactly that size; a value that does not fit one length byte is refused |
| `GroupRef.EncodeGroupRef` | packages/core/src/groupRef.ts:54-94 | The entries pushed are those of the reference, in the order of the code, or its first error; a string of more than 5000 characters is refused |
| `GroupRef.ParseUndoesEncode` | packages/core/src/groupRef.ts:164-200 | Any list of entries parses back to itself, wherever its bytes stand |
| `GroupRef.EncodeUndoesParse` | packages/core/src/groupRef.ts:177-200 | Whatever parses is exactly the bytes of its entries |
| `GroupRef.EncodesIffCarriable` | packages/core/src/groupRef.ts:54-94 | A reference can be encoded if and only if its id, coordinator and relays are carriable and the string around their bytes has at most 5000 characters |
| `GroupRef.EncodedBytes` | packages/core/src/groupRef.ts:54-94 | The bytes: each relay as type 2, then the key as type 1, then the id as type 0, each with its length |
| `GroupRef.DecodeUndoesEncode` | packages/core/src/groupRef.ts:54-154 | Every reference that can be encoded decodes, to itself if and only if neither its id nor a relay begins with a byte-order mark |
| `GroupRef.BareMarkIsLost` | packages/core/src/groupRef.ts:145-153 | The failing input: an id that is nothing but the mark decodes to an empty id, which cannot be encoded |
| `GroupRef.DecodedIsCanonicalizable` | packages/core/src/groupRef.ts:103-154 | Whatever decodes, entries in any order and unknown ones among them, can be encoded again if and only if its id was more than a mark, and then decodes to itself if and only if no text begins with a second mark |
| `GroupMetadata.DecodeAdminPubkeys` | packages/cli/src/groupMetadata.ts:118-132 | The loop cuts the field into 32-byte keys and refuses other lengths and repeated keys |
| `GroupMetadata.DecodeUndoesFields` | packages/cli/src/groupMetadata.ts:47-61 | Length-prefixed fields read back as written, wherever they stand |
| `GroupMetadata.EncodesIffFits` | packages/cli/src/groupMetadata.ts:134-147 | Metadata can be encoded if and only if its admin keys are keys, no two typed the same, and every field fits 16 bits |
| `GroupMetadata.DecodesToNormalFormIff` | packages/cli/src/groupMetadata.ts:78-185 | What was encoded decodes if and only if no two admin keys are equal after lower-casing, and then to its normal form if and only if no text begins with a byte-order mark |
| `GroupMetadata.TrailingBytesAreRefused` | packages/cli/src/groupMetadata.ts:149-185 | Whatever decodes, nothing may follow it |
| `GroupMetadata.TwoSpellings` | packages/cli/src/groupMetadata.ts:78-90 | The failing input: one key in two spellings is always encoded and never decoded again |
| `GroupMetadata.DecodedIsNormal` | packages/cli/src/groupMetadata.ts:149-185 | Whatever decodes is in normal form and can be encoded, and decodes to itself again if and only if no text begins with a second mark |
| `SessionStore.CappedRefSet.Add` | packages/cli/src/sessionStore.ts:64-78 | The eviction loop keeps set and insertion order in step and forgets the oldest only when the cap is reached |
| `SessionStore.RemembersNewest` | packages/cli/src/sessionStore.ts:46-79 | A member is still there after any additions that leave fewer than the cap after it |
| `SessionStore.NewestRemain` | packages/cli/src/sessionStore.ts:46-79 | After any new keys exactly the newest ones up to the cap are left, in the order they came |
| `SessionStore.AcceptedIsRememberedIff` | packages/cli/src/sessionStore.ts:205-213 | An accepted Welcome is remembered if and only if fewer than a thousand others have been accepted after it |
| `SessionStore.DeliveryStore.PutWelcome` | packages/cli/src/sessionStore.ts:175-179 | An accepted Welcome is not put back; otherwise it keeps its place or goes last |
| `SessionStore.DeliveryStore.RetireWelcome` | packages/cli/src/sessionStore.ts:205-213 | The acknowledgement is queued, the Welcome gone and remembered, and nothing is ever both waiting and accepted |
| `SessionStore.DeliveryStore.ClearConsumedWelcomes` | packages/cli/src/sessionStore.ts:289-297 | Exactly the acknowledged keys leave the coordinator's queue, and an emptied queue is not kept |
| `SessionStore.ClearingLeavesNoneEmpty` | packages/cli/src/sessionStore.ts:289-297 | An answered fetch that empties its queue leaves no queue behind |
| `SessionStore.NoAckIsLost` | packages/cli/src/sessionStore.ts:261-297 | Over any run of overlapping, failing, unanswered and answered fetches, with acknowledgements queued while they are under way, one that was queued is still queued or its coordinator has been told |
| `SessionStore.ClearingAllLoses` | packages/cli/src/sessionStore.ts:289-297 | An acknowledgement queued between a fetch's peek and its answer stays queued; clearing the whole queue there would lose it |
| `MergedHistory.DedupeBy` | packages/cli/src/session.ts:114-122 | The filter with its seen-set keeps the first value of every key, in order |
| `MergedHistory.TidyIs` | packages/cli/src/session.ts:346-353 | A merged history is in cursor order, has every (cursor, id) exactly once, and holds nothing else |
| `MergedHistory.TidyKeepsFirstOfEach` | packages/cli/src/session.ts:346-353 | Every item is still there, known by cursor and id together, exactly once and in cursor order, and of several copies the first one stays |
| `MergedHistory.TidyEarly` | packages/cli/src/session.ts:346-353 | Merging in stages gives what merging at once gives: the sort is stable and the first copy wins either way |
| `GroupMerge.OneGroupPerId` | packages/cli/src/session.ts:306-353 | After a restore each group id has exactly one group, its saved copies merged in order |
| `GroupMerge.MergeTakesGreatest` | packages/cli/src/session.ts:336-343 | The merged group keeps the first alias and the state, coordinator and status of the first copy with the greatest epoch |
| `GroupMerge.MergeTakesLatest` | packages/cli/src/session.ts:344-345 | Its cursors are the greatest of its copies' |
| `GroupMerge.MergedHistoryIs` | packages/cli/src/session.ts:346-353 | A lone copy keeps its history as it is; several have theirs joined, each item kept once, in cursor order |
| `GroupMerge.CanonicalIs` | packages/cli/src/session.ts:306-336 | A saved alias leads to the alias under which its group was first saved |
| `GroupMerge.GroupsRestoreIff` | packages/cli/src/session.ts:324-332 | Restoring groups fails if and only if two different groups were first saved under one alias |
| `Snapshot.EachCommitOnce` | packages/cli/src/session.ts:354-374 | Under every alias waits exactly what was moved there, each Commit once, first come first |
| `Snapshot.OperationsFollowTheirGroup` | packages/cli/src/session.ts:354-374 | Each saved operation waits exactly once, under the alias its group was first saved under |
| `Snapshot.RestoreSettles` | packages/cli/src/session.ts:282-375 | Whatever the snapshot held, what comes back has one alias per group, one copy of everything, nothing both accepted and waiting |
| `Snapshot.ComesBackIff` | packages/cli/src/session.ts:250-375 | A snapshot comes back as it was if and only if it was settled in this sense |
| `Snapshot.ExportRestoreExport` | packages/cli/src/session.ts:250-375 | Saving a settled session, restoring it and saving again gives the same snapshot |
| `Snapshot.ExportOrdersWelcomes` | packages/cli/src/session.ts:250-281 | Saving lists the Welcomes by the time they were received, keeping the order of equal times, and leaves the rest as it is |
| `Snapshot.SecondRestoreIsExact` | packages/cli/src/session.ts:250-375 | Whatever was restored once, saved and restored again stays exactly as it is |
| `Snapshot.RestoresIff` | packages/cli/src/session.ts:282-375 | A snapshot is refused if and only if two key packages share an alias or two groups were first saved under one |
| `SnapshotRestore.ClientStore.RestoreGroups` | packages/cli/src/session.ts:306-353 | The loop over saved groups leaves the merged groups and the aliases they went to, or reports the duplicate |
| `SnapshotRestore.ClientStore.RestorePendingOperations` | packages/cli/src/session.ts:354-374 | The nested loop over saved operations leaves each under its surviving alias, skipping Commits already there |
| `SnapshotRestore.ClientStore.RestoreAccepted` | packages/cli/src/sessionStore.ts:367-375 | Accepted ids are added oldest first, under the cap |
| `SnapshotRestore.ClientStore.RestoreSnapshot` | packages/cli/src/session.ts:282-375 | The whole restore, in the order of the code, fills an empty store with exactly the restored image or reports the failure |

## Left out

- MLS itself, ciphers, hashing, signatures, NIP-44 sealing, UTF-8 and JSON: abstract, as described above. Of bech32 only the length of the string is modelled.
- Transport, relays, tip publication, the meta document, tombstones, media, the REPL, configuration, logging and input schemas.
- File locks, outbox and inbox directories and encrypted state files.
- Interleaving inside a call: `applyDocumentEntry` does not use the group's lane, so it could run in the middle of another operation; the model takes each call as one step and lets only others' posts fall inside it.
- ForkConvergence.EveryDeviceConverges: two branches from one base state only, here and in `LaterForks`; with three or more, a recorded decision blocks a later comparison by rank and the outcome depends on the order of arrival. Documents are of the race's own epoch; those of later epochs are the subject of `LaterForks`.
- LaterForks.LaterDocumentsConverge: asks that each document, when it arrives, is compared at the race or not at all, because without it the claim is false (`EqualLaterEpochs`, `StaleMemoryComparesLater`, `ForgottenBaseIsTakenOverIff`, `OwnDecisionShutsFirstOut`). Own Commits and ingestion between the documents are not part of its runs.
- LaterForks.FirstStaysFirst: the bound of fifteen epochs is the code's memory of sixteen states; past it the base is forgotten.
- ForkConvergence.RaceConvergesFromLog: asks for a marker that does not contradict the race, because without it the claim is false (`RaceConvergesIff`).
- ChainCatchUp.TriedInTheRightEpoch: asks that usable steps are the states right after their Commits. For the writer's own Commits `ChainContents.ChainIsSnapshots` derives this from the writer's run; of steps at third parties' epochs it is a premise. A chain whose epoch lacks its commit point is not covered, and `Publisher.WriterAndReaderAgree` and `RecoveredCommitBorneIff` say when that happens. It asks, too, that a third party's Commit in the gap is not one the group counts as sent or queued by itself. The converse of its last clause fails: an entry that throws last has been tried, and the catch-up has not run to its end.
- Publisher.WriterAndReaderAgree: one writer process that keeps its chain; documents written meanwhile by a sibling, and adoption of a document (`AdoptionBreaksOrder`), are outside its runs.
- Delivery.ExactlyOnceInOrder: distinct group ids in one subscription; with a repeated id the last cursor given wins.
- AppDataDictionary.ScanForMarker: no dictionaries on which a turn of the scan fails to move the offset on, which takes an eight-byte prefix with a negative low half (`WideAdvancesIff`); what the loop does from there is not modelled.
- InMemoryStorage.InMemoryStorage.PublishKeyPackage: asks for a reference not stored yet; the maps accept a repeated one that the rows refuse, which is outside parity.
- KeyPackageQuota.PublishKeyPackage: the same, on the shared storage.
- InMemoryStorage.InMemoryStorage.AppendGroupMessage: cursors are unbounded integers here; the ordered rows refuse the first unsafe one and parity is claimed for shorter runs.
- InMemoryStorage: Welcomes and join requests are sequences in maps, where the source pushes into and updates arrays that a fetch may have handed out; a caller that keeps such an array would see later records appear in it. The same holds of a group's message array, which `fetchGroupMessages` without a cursor hands out as it stands (`packages/coordinator/src/storage/inMemoryStorage.ts:286-288`), and of the routing record. Only key package arrays, whose aliasing a caller depends on, are modelled as shared objects.
- StorageParity.RunBoth: says nothing of the order in which all key packages are listed, because the two backends differ in it.
- SqliteStorage: the SQL engine, its indices and migrations; tables are row sequences in id order and each transaction is one step.
- RateLimit.WindowBound: exact arithmetic on `real`; rounding of floating-point tokens is not modelled.
- Lanes.LanesAreSafe: a promise resolves when its chain has; the order of microtasks between two resolutions is left open, so every order is covered.
- GroupWatch.WatchGroup: a watch that nobody else ingests beside; errors and retries of the fetch are the caller's.
- Client-side conversions between cursors and the wire's optional `after` at 0.
- JavaScript's order of object keys: keys that look like integers move to the front when a snapshot's objects are read back; tables here keep insertion order.
- Snapshot.RestoresIff: a client state that does not decode, a snapshot version or an identity that does not match also make a restore throw; these checks come first or per group and are not modelled.
- SnapshotRestore.ClientStore.RestoreSnapshot: starts from an empty store, as every caller does; what a restore that throws leaves half-filled is not stated.
- Group metadata and relay hints inside a group's state, and alias naming, beyond what restore and merge do with them.
- Sync issues suppressed after a Welcome, and the events emitted to listeners.
- Sorting of fetch results that are already in cursor order.
