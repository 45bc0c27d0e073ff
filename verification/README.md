# hrdr: models and proofs

hrdr is a coding agent. This project models the parts of it where a mistake loses somebody's work: the
journal through which one process hands a session to another, the compaction of a conversation that no
longer fits its model, the stores for attachments and credentials, the shared spending cap, the model
catalog cache, and two small parsers everything else leans on. Each module says what the code does, step
by step where the code changes things step by step, and proves what the repository's comments and tests
promise of it, or exactly when it holds.

## How to read it

| files | part of the system |
|---|---|
| `Bytes`, `StoredPayload`, `Frame` | the bytes of a journal frame: words, JSON body, encoder, decoder |
| `Scan`, `CrashSafety`, `Integrity` | reading a journal a crash may have torn, appending to it, and what its checksums promise of the bytes read |
| `HandoffJournal`, `ClaimOutcome`, `ClaimProtocol`, `ClaimReach`, `JournalLocks` | the journal's operations, what a failed one leaves, their interleavings, which claims succeed, its per-path lock |
| `Messages`, `TailChoice`, `TailBound`, `ToolProtocol` | messages and token estimates, choosing the kept tail, exactly what it is, tool calls and their results |
| `ShrinkLadder`, `History`, `Agent`, `RetryBound` | the shrink ladder, what every history keeps, the agent's transactions, bounded retries |
| `Attachments`, `BlobGc` | the content-addressed store: save, resume, collection against concurrent saves |
| `AuthStore`, `Budget`, `Catalog` | credentials, spending cap, catalog cache |
| `Whitespace`, `Frontmatter`, `ModelRef` | frontmatter splitter, `provider://model` |

Code that computes is a function; code that changes things is a method or a class, proved against a
function whose own properties are then proved as lemmas; concurrency is a state machine over the steps
the code takes, and the theorems are about every run of it. Results of the hash, the JSON parser, the
clock, the disk, the network and the model are parameters. What is assumed of them is written in a
predicate and nowhere else: `Frame.Sound` (the parser reads back what the printer wrote),
`Attachments.NoCollision` and `Catalog.DistinctDigests` (no collision among the finitely many inputs in
play; a 64-digit digest cannot be injective on all strings). `Frame.SoundIsSatisfiable` shows the first can
be met.

## Where the code and its comments part

The model follows the code. In these places the repository's prose says more than the code does, and the
project proves exactly what holds:

- A failed proactive compaction is said to be retried at most four times. That is so when five retry
  growths exceed the headroom above the trigger, so for every window of 64 tokens or more, but not for
  some smaller ones, and not at the largest window, where the growth saturates
  (`RetryBound.AtMostFiveFailures`, `SmallWindowFailsSixTimes`, `SaturatedWindowNeverStops`).
- The ladder's estimator is said to equal the built request exactly. It saturates where the slow count
  wraps, so the two differ just when a window and the summary it carries pass 32 bits
  (`ShrinkLadder.EstimatorRefines`), as they do on a history of four messages
  (`ShrinkLadder.EstimatorSaturates`).
- A history with its tool output elided can cost more than the full one: a body a little over the limit grows
  by the note (`ShrinkLadder.ElisionCanGrow`). Which bodies do is a matter of their byte lengths
  (`ShrinkLadder.ElisionShrinksExactly`).
- The tail is said to begin at a real user turn, which is given as the reason a history holds one summary.
  Where the history's estimate fits 32 bits, it does, or is empty, just when there is no turn to keep, the
  newest turn fits the budget or is one message, or it ends in tool results that leave no room for the
  message before them (`TailBound.TailBeginsAtTurn`); one long turn keeps an answer instead (`TailBound.LongTurnKeepsAnAnswer`).
  The invariant holds all the same (`History.OneSummaryForever`).
- The tail is said to be bounded by its budget. Where sums pass 32 bits the estimates wrap, and a tail of any
  size can read as small: two user messages with a huge image each are kept under every budget
  (`TailBound.WrappedReadingKeepsAll`). For one policy the tail is bounded just when its own cost fits 32 bits
  (`TailBound.BoundedExactly`); for every policy, just when every turn and every split the walk can make does
  (`TailBound.AlwaysBoundedExactly`).
- A failed append is said to leave the committed frame in place for retry. After a claim that got as far as
  writing, the Commit is still newest just when the Claim's frame did not land whole
  (`ClaimOutcome.CommitStaysNewest`). If only the final sync fails, the whole `Claim` is in the file and newest
  (`ClaimOutcome.SyncFailureLeavesTheClaim`); no later claimant gets that Commit
  (`ClaimProtocol.SupersededIsNeverClaimed`).
- An append checks neither the record limit nor the byte limit that a scan enforces, so the append that
  crosses one succeeds and the next scan fails: exactly when (`ClaimOutcome.AppendThenScan`), and at a journal of
  each kind (`ClaimOutcome.AppendCrossesRecordLimit`, `ClaimOutcome.AppendCrossesByteLimit`).
- The spending cap is said to be checked before a model call. A round that overflows compacts, which checks,
  and then sends its request again on the check it began with, so one agent can be billed twice past the cap
  (`Budget.OneAgentTwoCalls`). One call an agent is the bound just when no agent recovers from an overflow
  (`Budget.OneCallEachExactly`); one more for each that does is the bound always (`Budget.OvershootBounded`).
- An unlocked save's blobs are protected by the grace period only while less than that period lies between
  the touch and the sweep; at the period itself the blob is lost (`BlobGc.SlowUnlockedSaveLosesItsBlob`).
  Exactly which sweeps are safe is `BlobGc.SweepIsSafeExactly`.
- Two writes of the credential store within one tick of the filesystem's clock are said to leave a stale
  credential for one round at most. The cache itself serves the stale map to every load until the file's
  time changes again (`AuthStore.StaleHit`, `AuthStore.CoarseClockServesStale`). Loads never answer stale just
  when versions that carry one time, and all between them, hold the same entries
  (`AuthStore.LoadsLinearizeExactly`).
- The lock is said to serialize the credential store's writers. A hand that does not take it is not one of them:
  a store deleted while a save is between its read and its write comes back (`AuthStore.DeleteDuringSaveIsUndone`). An edit survives until
  the next one just when no save has read before it, but one that read the very file it leaves
  (`AuthStore.EditSurvivesExactly`).
- A blob already in the store is not rewritten, for its name is its contents. A damaged one stays, and the
  attachment saved over it is lost (`Attachments.DamagedBlobStays`); a conversation comes back just when none
  of its attachments meets such a blob or another attachment's digest (`Attachments.SaveThenResumeExactly`).
- `ModelRef::new` accepts a provider that holds the separator; such a reference prints as a different one
  (`ModelRef.SeparatorInProviderIsLost`), and no other does (`ModelRef.RefRoundTrips`).

## Model

Paths in the second column are relative to the repository.

| member | source | states |
|---|---|---|
| Bytes.LeRoundTrip | crates/hrdr-agent/src/handoff_journal.rs:631-632 | a little-endian word of any width reads back as the number it was written from |
| StoredPayload.BodyBytes | crates/hrdr-agent/src/handoff_journal.rs:298-304 | every body the printer can emit opens with the same four bytes and never holds an `H`, so the magic cannot occur in one |
| StoredPayload.EncodeRoundTrip | crates/hrdr-agent/src/handoff_journal.rs:298-304 | the printed form loses nothing: a strict parser of it returns every stored payload, whatever its hash, lease and bytes |
| Frame.SoundIsSatisfiable | crates/hrdr-agent/src/handoff_journal.rs:298-304 | the one assumption made of the JSON parser can be met |
| Frame.Code | crates/hrdr-agent/src/handoff_journal.rs:266-272 | the code written for a state decodes to that state |
| Frame.MakeFrame | crates/hrdr-agent/src/handoff_journal.rs:609-639 | the encoder refuses a source with PID zero and a body over 64 KiB, and yields a frame for every other record |
| Frame.FrameRoundTrip | crates/hrdr-agent/src/handoff_journal.rs:609-639 | a written frame, whatever bytes follow it, is valid for its session and reads back as its own record |
| Frame.SmallIsFrameable | crates/hrdr-agent/src/handoff_journal.rs:609-639 | a record with a real source and a payload of up to 16,000 bytes always has a frame |
| Frame.ValidExtends | crates/hrdr-agent/src/handoff_journal.rs:843-862 | whether a frame is valid, and what it decodes to, depends on its own bytes alone |
| Frame.NoInnerFrame | crates/hrdr-agent/src/handoff_journal.rs:820-862 | no frame of any session can start strictly inside a frame the encoder produced: not in its epoch, state, body or checksum |
| Frame.NoFrameInTorn | crates/hrdr-agent/src/handoff_journal.rs:820-862 | nor in any prefix of one, so a torn write never hides a frame |
| Scan.ReadPartial | crates/hrdr-agent/src/handoff_journal.rs:864-874 | however the reads are cut short, the bytes gathered are exactly those available up to what was asked |
| Scan.HasValidLaterFrame | crates/hrdr-agent/src/handoff_journal.rs:825-841 | true just when a complete frame of this session starts anywhere past the damage |
| Scan.TerminalCorruption | crates/hrdr-agent/src/handoff_journal.rs:719-735 | damage is a torn tail to cut exactly when no valid frame lies behind it, else an error |
| Scan.ReadFrame | crates/hrdr-agent/src/handoff_journal.rs:653-699 | one frame at the cursor: complete, with its digest right, or which way it is damaged; on raw bytes in `Integrity.ScanReadsExactly` |
| Scan.ScanJournal | crates/hrdr-agent/src/handoff_journal.rs:641-717 | the streaming scan, for any file and any short reads, gives the answer of the reference function on its bytes |
| Scan.ScanExact | crates/hrdr-agent/src/handoff_journal.rs:641-735 | a scan answers just when the journal is within both limits and what follows its longest run of valid frames is nothing or holds no valid frame; then it reports that run's last record and end |
| Scan.NothingValidIsTruncated | crates/hrdr-agent/src/handoff_journal.rs:719-735 | if a scan answers with a cut, no frame it would accept starts at or after the cut |
| Scan.DamageBeforeIntactIsError | crates/hrdr-agent/src/handoff_journal.rs:820-841 | a damaged frame with an intact frame of this session anywhere behind it is an error, never a truncation |
| Scan.CheckFrame | crates/hrdr-agent/src/handoff_journal.rs:781-811 | the lockless reader accepts a frame just when its digest, body, source and payload all check; on raw bytes in `Integrity.LatestReadsExactly` |
| Scan.LatestChecksummedSource | crates/hrdr-agent/src/handoff_journal.rs:769-818 | the lockless reader's loop gives the state and source of the last frame, or fails on the first flaw, exactly as its reference function says |
| Scan.ReadersAgree | crates/hrdr-agent/src/handoff_journal.rs:764-818 | when every frame is bound to the session, any answer of the lockless reader is the scan's last state and source, with nothing to truncate |
| CrashSafety.JournalSnoc | crates/hrdr-agent/src/handoff_journal.rs:514-521 | a journal with one more frame is the old bytes followed by that frame |
| CrashSafety.LogIsRun | crates/hrdr-agent/src/handoff_journal.rs:641-717 | a written log is read back frame by frame wherever it starts and whatever follows it |
| CrashSafety.ScanOfTornJournal | crates/hrdr-agent/src/handoff_journal.rs:641-735 | a journal with any torn tail scans to all its complete frames and nothing else |
| CrashSafety.CrashSafeAppend | crates/hrdr-agent/src/handoff_journal.rs:491-522 | whatever prefix of a new frame reached the disk, the next scan finds the new record if it is whole, else the old one with the cut at the old length; it answers exactly when the limits hold |
| Integrity.ScanReadsExactly | crates/hrdr-agent/src/handoff_journal.rs:641-735 | on the raw bytes: a scan answers if and only if the file is within both limits and opens with a run of frames, each with its magic, version, state byte and session, whose last 32 bytes are the digest of all before them, and no such frame lies behind the run; the answer is the run's last record and where to cut |
| Integrity.LatestReadsExactly | crates/hrdr-agent/src/handoff_journal.rs:769-818 | the lockless reader answers if and only if the whole file is such a run, whatever session its frames name |
| Integrity.DamagedIsNeverAnswered | crates/hrdr-agent/src/handoff_journal.rs:692-698 | a frame whose digest is not that of its bytes is answered from by neither reader: the scan cuts there when nothing intact follows and errs when something does |
| Integrity.FlippedByteIsNeverAnswered | crates/hrdr-agent/src/handoff_journal.rs:843-862 | so is a written frame with any epoch, state or body byte changed, if the hash tells the two apart |
| HandoffJournal.ScanOfHolding | crates/hrdr-agent/src/handoff_journal.rs:641-717 | a scan of any file that holds a log and perhaps a torn tail sees that log, and its repair leaves exactly the log's bytes |
| HandoffJournal.AppendOntoHolding | crates/hrdr-agent/src/handoff_journal.rs:570-590 | scan, repair and a partial write change the tail only: the log, or the log with the new record when the frame is whole |
| HandoffJournal.Journal.Scanned | crates/hrdr-agent/src/handoff_journal.rs:641-717 | the journal's own scan of its file |
| HandoffJournal.AfterAppendHolds | crates/hrdr-agent/src/handoff_journal.rs:570-590 | whatever the disk does, the file then holds the log and the record if scan, open, truncation and the whole write went through, and the log alone if not |
| HandoffJournal.Journal.AppendFrameLocked | crates/hrdr-agent/src/handoff_journal.rs:570-590 | succeeds exactly when scan, open, any truncation, the whole write and the sync do; success leaves exactly the old frames and the new one; a failure leaves the old log, or the new one when only the sync failed |
| HandoffJournal.Journal.Append | crates/hrdr-agent/src/handoff_journal.rs:485-522 | the same, with the source always this process's own lease; without one, or when the frame cannot be built, it is refused with that error and the file is untouched |
| HandoffJournal.Journal.ClaimableBy | crates/hrdr-agent/src/handoff_journal.rs:598-607 | the newest record, if it is a Commit and the source test passes; for a recovery that is a source dead or replaced, for a successor a source that is its own lease; else which of the two errors |
| HandoffJournal.ClaimsExactly | crates/hrdr-agent/src/handoff_journal.rs:127-133 | on a file that holds a log ending in a Commit, a claim is written if and only if there are grounds (recovery: dead or replaced; successor: the very lease that committed), the payload is accepted, there is a lease, the frame fits and the disk carries the append out |
| HandoffJournal.Journal.ClaimBy | crates/hrdr-agent/src/handoff_journal.rs:547-568 | a claim succeeds exactly when the newest record is a Commit whose source test and validation pass, there is a lease, the frame can be built and the append succeeds; then the file is the old frames plus one Claim of the same epoch and payload; any failure before the write leaves the file as it was, one in it leaves the old log, or the log with the Claim just when its frame landed |
| ClaimOutcome.HeldLogIsUnique | crates/hrdr-agent/src/handoff_journal.rs:641-717 | a file holds one log at most |
| ClaimOutcome.CommitStaysNewest | crates/hrdr-agent/src/handoff_journal.rs:537-568 | after a claim that got as far as writing, the Commit is still newest if and only if the Claim's frame did not land whole; only then does the session ask for recovery |
| ClaimOutcome.SyncFailureLeavesTheClaim | crates/hrdr-agent/src/handoff_journal.rs:537-590 | when the sync alone fails, the claim is reported as failed and yet is the newest record |
| ClaimOutcome.AppendThenScan | crates/hrdr-agent/src/handoff_journal.rs:570-590 | an append the disk carries out succeeds whatever the size; the next scan answers if and only if the journal is within both limits |
| ClaimOutcome.AppendCrossesRecordLimit | crates/hrdr-agent/src/handoff_journal.rs:641-717 | one record more than the limit is appended with success and cannot be scanned |
| ClaimOutcome.AppendCrossesByteLimit | crates/hrdr-agent/src/handoff_journal.rs:641-717 | so is the first byte-limit crossing, with few records |
| ClaimProtocol.NextPreservesInv | crates/hrdr-agent/src/handoff_journal.rs:485-607 | every step of every thread, crashes included, keeps the protocol invariant |
| ClaimProtocol.AtMostOneClaim | crates/hrdr-agent/src/handoff_journal.rs:541-568 | over every interleaving of appends and claims across threads and processes, each Commit yields at most one successful claim; it stands directly after its Commit with the same epoch and payload; a recovery had the source dead or replaced, a successor is the committing instance |
| ClaimProtocol.CompleteFramesSurvive | crates/hrdr-agent/src/handoff_journal.rs:485-590 | no crash, repair or race ever removes a complete frame |
| ClaimProtocol.ScanSeesNewest | crates/hrdr-agent/src/handoff_journal.rs:641-717 | along any run, whatever a scan answers is the newest record ever completed |
| ClaimProtocol.RejectedValidationKeepsCommit | crates/hrdr-agent/src/handoff_journal.rs:559-562 | a failed validation leaves the Commit newest and the file as it was |
| ClaimProtocol.ClaimedIsNotClaimable | crates/hrdr-agent/src/handoff_journal.rs:598-607 | with a Claim newest, every later claimant is sent away |
| ClaimProtocol.SupersededIsNeverClaimed | crates/hrdr-agent/src/handoff_journal.rs:541-607 | along any run, once any frame stands behind a Commit, even one of a claim reported as failed, no later claimant gets it |
| ClaimReach.CheckExactly | crates/hrdr-agent/src/handoff_journal.rs:598-607 | in any state the protocol reaches, the check lets a claimant on if and only if the newest record is a Commit and it has those grounds |
| ClaimReach.ClaimCanFollow | crates/hrdr-agent/src/handoff_journal.rs:541-568 | every run that ends in a Commit goes on, for a claimant with grounds, to the Claim being written and reported |
| ClaimReach.SuccessorClaims | crates/hrdr-agent/src/handoff_journal.rs:541-568 | a run: the committing process comes back in a new image and claims its own Commit |
| ClaimReach.RecoveryClaims | crates/hrdr-agent/src/handoff_journal.rs:541-568 | a run: it dies, another finds it dead or replaced, and claims |
| JournalLocks.LockTable.JournalLock | crates/hrdr-agent/src/handoff_journal.rs:749-762 | two live handles hold the same lock exactly when they are on the same path, through any drops and prunings of the weak table |
| JournalLocks.LockTable.SamePathSameLock | crates/hrdr-agent/src/handoff_journal.rs:749-762 | so they exclude each other exactly then |
| Messages.EstimateWraps | crates/hrdr-agent/src/compaction.rs:677-699 | the history's estimate is its exact sum wrapped at 32 bits |
| Messages.MessageCosts | crates/hrdr-agent/src/compaction.rs:677-699 | a message with a text, a call and an attachment costs a token for each four bytes of text, name and arguments, four more, and what the endpoint's dialect counts for the image |
| Messages.ElisionKeepsCharacters | crates/hrdr-agent/src/compaction.rs:589-607 | an elided tool result keeps whole UTF-8 characters, and all of them that fit in 400 bytes |
| Messages.EstimateIsExact | crates/hrdr-agent/src/compaction.rs:677-699 | if the whole history fits 32 bits, every window's estimate is exact |
| TailChoice.AlignPastToolResults | crates/hrdr-agent/src/compaction.rs:536-541 | the first message at or after the start that is not a tool result |
| TailChoice.CandidatesAre | crates/hrdr-agent/src/compaction.rs:489-516 | the turns the tail may start at: messages the user sent, not the harness in the user's role, with fewer than the kept number of such messages behind them |
| TailChoice.EarliestFittingUnique | crates/hrdr-agent/src/compaction.rs:492-530 | "earliest start whose suffix fits, else the newest" names one start |
| TailChoice.CompactionTailStart | crates/hrdr-agent/src/compaction.rs:500-530 | the walk's own answer, wrapped sums included; where sums fit 32 bits, the earliest of the last turns whose whole suffix fits the budget, else the newest turn, else the end of the history |
| TailChoice.MegaTurnTailStart | crates/hrdr-agent/src/compaction.rs:563-585 | the same message by message inside one turn, moved past tool results |
| TailChoice.ChooseTail | crates/hrdr-agent/src/compaction.rs:777-822 | the whole selection of `compact`, with its two inner splits, is the reference choice, wrapped or not; the tail never starts on a tool result |
| TailChoice.ChosenTailBounded | crates/hrdr-agent/src/compaction.rs:777-822 | the tail kept fits the budget or is one message at most |
| TailBound.TailBeginsAtTurn | crates/hrdr-agent/src/compaction.rs:1027-1032 | the kept tail is empty or begins at a real user turn if and only if there is no turn to keep, the newest fits or is one message, or it ends in tool results that do not fit with the message before them |
| TailBound.NothingToSplit | crates/hrdr-agent/src/compaction.rs:796-822 | when everything behind the prompt fits, splitting the whole history leaves nothing to summarize |
| TailBound.LongTurnKeepsAnAnswer | crates/hrdr-agent/src/compaction.rs:786-795 | one long turn: the tail kept begins at an answer |
| TailBound.BoundedExactly | crates/hrdr-agent/src/compaction.rs:777-822 | whatever the history and policy, the tail chosen is within the budget or one message if and only if its own cost fits 32 bits |
| TailBound.AlwaysBoundedExactly | crates/hrdr-agent/src/compaction.rs:777-822 | it is so under every policy if and only if every turn behind the first message fits 32 bits, and so does every split of the first turn that some budget makes |
| TailBound.WrappedReadingKeepsAll | crates/hrdr-agent/src/compaction.rs:784-795 | two turns with an image of 2^31 tokens each, as an OpenAI-shaped endpoint counts patches, are both kept under every budget |
| ToolProtocol.ProtocolConcat | crates/hrdr-agent/src/compaction.rs:1038-1043 | two histories in which every result follows its call and every call is answered join into one |
| ToolProtocol.ProtocolSuffix | crates/hrdr-agent/src/compaction.rs:531-541 | a suffix that does not start on a tool result keeps the property |
| ToolProtocol.ProtocolOfElided | crates/hrdr-agent/src/compaction.rs:589-607 | eliding tool bodies keeps it |
| ToolProtocol.RepairCompletes | crates/hrdr-agent/src/turn_loop.rs:350-383 | after the repair every call is answered, whatever the history was, and anchored results stay anchored |
| ToolProtocol.RepairOnlyInserts | crates/hrdr-agent/src/turn_loop.rs:350-383 | nothing is dropped, moved or rewritten: the repaired history is the old one with interrupted results in between |
| ToolProtocol.StubbedExactly | crates/hrdr-agent/src/turn_loop.rs:362-380 | a stub is added for exactly the calls that no result in their run answers |
| ToolProtocol.RepairIdentity | crates/hrdr-agent/src/turn_loop.rs:350-383 | a history with nothing dangling is left exactly as it is |
| ToolProtocol.RepairDanglingToolCalls | crates/hrdr-agent/src/turn_loop.rs:350-383 | the in-place insertion loop computes that repair |
| ShrinkLadder.NextStage | crates/hrdr-agent/src/compaction.rs:319-327 | the ladder steps down one rung at a time and ends |
| ShrinkLadder.CompactStageHistory | crates/hrdr-agent/src/compaction.rs:418-437 | the memoized builder gives the stage's history, whose window is that of `ShrinkLadder.WindowsAre`, and keeps the memo true |
| ShrinkLadder.WindowsAre | crates/hrdr-agent/src/compaction.rs:392-436 | at half, quarter and eighth, what goes out of the elided history is its suffix from the first message at or behind the last half, quarter or eighth (two at least, if there are two) that is no tool result, behind the carried summary where that is cut off |
| ShrinkLadder.WindowSizes | crates/hrdr-agent/src/compaction.rs:613-619 | without tool results that is exactly so many messages, plus the summary |
| ShrinkLadder.EstimateStageHistory | crates/hrdr-agent/src/compaction.rs:368-411 | the in-place count, with the same memo |
| ShrinkLadder.EstimatorRefines | crates/hrdr-agent/src/compaction.rs:361-411 | counting in place equals building and then counting, for every history and stage, if and only if the carried sum fits 32 bits |
| ShrinkLadder.EstimatorSaturates | crates/hrdr-agent/src/compaction.rs:361-411 | a history of four messages on which the count saturates and the built history reads as nothing |
| ShrinkLadder.EstimatorExact | crates/hrdr-agent/src/compaction.rs:361-411 | so on every history whose elided form fits 32 bits it is the exact token count of what would be sent |
| ShrinkLadder.WindowsNested | crates/hrdr-agent/src/compaction.rs:613-619 | from the elided stage on, each stage keeps a suffix of what the one before kept |
| ShrinkLadder.StagesShrink | crates/hrdr-agent/src/compaction.rs:418-471 | and never costs more, its carried summary included |
| ShrinkLadder.ElisionCanGrow | crates/hrdr-agent/src/compaction.rs:589-607 | from the full stage to the elided one the order can turn |
| ShrinkLadder.ElisionShrinks | crates/hrdr-agent/src/compaction.rs:589-607 | but not for a body that is long enough or short enough |
| ShrinkLadder.ElisionShrinksExactly | crates/hrdr-agent/src/compaction.rs:589-607 | eliding does not make a message dearer if and only if it is left alone, the text kept and the note round to no more than the body, or attachments saturate the count |
| ShrinkLadder.FirstViableStage | crates/hrdr-agent/src/compaction.rs:1092-1118 | the least stage that fits what is left of the window, the last when none does |
| ShrinkLadder.FirstStageExactly | crates/hrdr-agent/src/compaction.rs:1092-1118 | the stage a summarization starts at, as window, answer allowance, slack and fixed parts decide it: the least that fits, Eighth if none does, Full if nothing is left to size against |
| ShrinkLadder.EscalationStaysWithinBudget | crates/hrdr-agent/src/compaction.rs:976-984 | once a stage below the full one fits, every stage escalation can reach fits |
| ShrinkLadder.StageKeepsProtocol | crates/hrdr-agent/src/compaction.rs:418-471 | every stage's history keeps the tool protocol, for all divisors and lengths |
| ShrinkLadder.StageCarriesSummaryOnce | crates/hrdr-agent/src/compaction.rs:439-471 | every stage sends the prior summary exactly once when there is one |
| History.RepairKeepsInv | crates/hrdr-agent/src/compaction.rs:761-773 | the repair before a compaction keeps prompt, summary and the history invariant |
| History.RequestWellFormed | crates/hrdr-agent/src/compaction.rs:943-957 | every request sent at any stage is well formed for a strict server and carries the summary exactly once |
| History.CompactionKeepsInv | crates/hrdr-agent/src/compaction.rs:1012-1043 | the rebuilt history keeps the tool protocol and has one summary, at index 1 |
| History.OneSummaryForever | crates/hrdr-agent/src/compaction.rs:1022-1043 | over any run of pushes, repairs and compactions, splits inside a turn included, a summary is only ever at index 1 |
| Agent.Summarize | crates/hrdr-agent/src/compaction.rs:905-994 | the answer and the requests sent are exactly those of the outcomes: each request one rung down for every overflow before it, the last one deciding |
| Agent.SummaryExactly | crates/hrdr-agent/src/compaction.rs:939-994 | it succeeds if and only if a request is answered with a summary and all before it let the loop go on: retried, an overflow with a rung left, or one of the first two tool calls |
| Agent.SummaryWhen | crates/hrdr-agent/src/compaction.rs:939-994 | outcome by outcome: the first request answered with a summary, with nothing before it but failures worth retrying, two tool calls at most, and one overflow for each rung the stage lies below the first |
| Agent.RequestShape | crates/hrdr-agent/src/compaction.rs:905-957 | each request is the session's own prompt, the stage's history, and the instruction as one user message |
| Agent.AgentState.RefreshSystemPrompt | crates/hrdr-agent/src/agent_impl.rs:830-861 | replaces or prepends the prompt, moves the cache boundary with it, and touches nothing behind it; on failure nothing changes |
| Agent.AgentState.Plan | crates/hrdr-agent/src/compaction.rs:774-822 | repair, then the chosen cut, which is safe and best; nothing to do just when there is none, or for a proactive pass without enough to gain, which `Agent.AgentState.NoCutExactly` says in tokens |
| Agent.AgentState.InstallSummary | crates/hrdr-agent/src/compaction.rs:1012-1053 | the history becomes prompt, summary and chosen tail; the read-file set and failure mark are cleared |
| Agent.AgentState.Compact | crates/hrdr-agent/src/compaction.rs:743-1066 | the answer, the history left and the requests sent are exactly those of its course: too short, no cut, refused with its error, or replaced; the reading is gone whatever happens; a failure changes nothing but repairs; the invariant is kept; every request was well formed |
| Agent.AgentState.ReplacesExactly | crates/hrdr-agent/src/compaction.rs:743-1066 | the history is replaced if and only if there is a cut to make and a request the loop reaches is answered with a summary that is not blank |
| Agent.AgentState.NoCutExactly | crates/hrdr-agent/src/compaction.rs:864-886 | with a cut chosen, a proactive pass against a known window of 16 tokens or more gives up if and only if neither the last reading nor the present context is a sixteenth of the window above the history that would be left, with its summary at the whole allowance; any other pass never does (sums within 32 bits) |
| Agent.AgentState.FirstRequestFits | crates/hrdr-agent/src/compaction.rs:899-923 | the first request is the least shrunk that the window has room for next to allowance, slack, prompt, tools and instruction |
| Agent.AgentState.ReplacedHistory | crates/hrdr-agent/src/compaction.rs:1012-1053 | the history it leaves, message by message: the prompt, one summary message behind its framing, and the tail from the cut on |
| Agent.AgentState.MaybeSelfCompact | crates/hrdr-agent/src/compaction.rs:1245-1307 | learns its own window first where it has none; compacts just when the effective reading is past the trigger and past the last failure by the growth; fails if and only if that compaction does, and remembers the reading; a replaced history clears the mark |
| Agent.AgentState.InvalidateContextWindow | crates/hrdr-agent/src/agent_impl.rs:1595-1599 | forgets the window and the failure mark |
| Agent.AgentState.AdoptResolved | crates/hrdr-agent/src/agent_impl.rs:1237-1275 | the identity, its dialect and a forgotten window change together |
| Agent.AgentState.Clear | crates/hrdr-agent/src/agent_impl.rs:790-806 | a fresh conversation holds the prompt alone, with nothing read, nothing spent and an id of its own |
| Agent.AgentState.SwitchModelRef | crates/hrdr-agent/src/agent_impl.rs:1110-1197 | the exact answer: unresolved, nothing to make room for, the compaction's error, still too large, or the report; on any error history, read-file set, reading, failure mark, cache split and identity are those at entry; on success after a compaction the context is below the target's trigger |
| RetryBound.FailuresFitAboveFloor | crates/hrdr-agent/src/compaction.rs:1326-1344 | along any run without a success, one growth lies between failures, whatever readings come and go |
| RetryBound.FailuresPossible | crates/hrdr-agent/src/compaction.rs:1309-1344 | `k` failures within the window can happen if and only if `k - 1` growths fit in the headroom |
| RetryBound.AtMostFiveFailures | crates/hrdr-agent/src/compaction.rs:1334-1344 | the documented bound holds if and only if five growths do not fit |
| RetryBound.LargeWindowsBound | crates/hrdr-agent/src/compaction.rs:1334-1344 | so it holds for every window of at least 64 tokens and every reserve |
| RetryBound.RunRounds | crates/hrdr-agent/src/turn_loop.rs:591 | the agent itself, checking round after round up to its first success: each probe is that round's effective reading and whether its compaction fails, the failures are those of the probes, the mark left is theirs, and the bound holds |
| RetryBound.SmallWindowFailsSixTimes | crates/hrdr-agent/src/compaction.rs:1334-1344 | and fails for a window of 60 |
| RetryBound.SaturatedWindowNeverStops | crates/hrdr-agent/src/compaction.rs:1326-1344 | at the largest window there is no bound |
| Attachments.FromMime | crates/hrdr-llm/src/media.rs:134-143 | the exact inverse of the recorded type name |
| Attachments.BlobStore.WriteFiles | crates/hrdr-agent/src/attachment_store.rs:248-262 | one message's blobs are added, none is rewritten; a failure names a blob that could not be written |
| Attachments.BlobStore.WriteBlobs | crates/hrdr-agent/src/attachment_store.rs:230-264 | blobs are only ever added, and on success the store is the reference result; it succeeds if every write does |
| Attachments.ReadBlob | crates/hrdr-agent/src/attachment_store.rs:267-303 | an attachment comes back just when the disk holds bytes of the recorded length, digest and type, and then it is described by the very reference it came from |
| Attachments.LossReasons | crates/hrdr-agent/src/attachment_store.rs:99-120 | what each of the four reasons means, both ways |
| Attachments.ResolveFiles | crates/hrdr-agent/src/attachment_store.rs:325-339 | the attachments restored, the losses and the note, in reference order |
| Attachments.ResolveAttachments | crates/hrdr-agent/src/attachment_store.rs:319-356 | the in-place resume computes the reference result, for any disk: one that changes between stat and read, and between two reads of one blob; what it tells the model is in `Attachments.LossesAreTold` |
| Attachments.PutAllKeeps | crates/hrdr-agent/src/attachment_store.rs:230-264 | after a save the store has every attachment's bytes under its digest, and is as honest as before, whatever else it holds |
| Attachments.SaveThenResume | crates/hrdr-agent/src/attachment_store.rs:211-356 | saving then resuming restores every message exactly, in order, with no losses, into any store whose blobs agree with the attachments |
| Attachments.HonestStoreSaves | crates/hrdr-agent/src/attachment_store.rs:211-356 | so into every store whose blobs are under their own digests, and leaves it such a one |
| Attachments.SaveThenResumeExactly | crates/hrdr-agent/src/attachment_store.rs:225-264 | into any store at all, it does so if and only if no two attachments share a digest with different bytes and none meets a blob under its digest that is not its own |
| Attachments.DamagedBlobStays | crates/hrdr-agent/src/attachment_store.rs:225-255 | a damaged blob is not replaced by a save of the attachment whose digest names it, and the attachment does not come back |
| Attachments.FilesConserved | crates/hrdr-agent/src/attachment_store.rs:267-339 | each reference is restored, as an attachment it describes, or lost with the reason the read gave |
| Attachments.RestoredPlusLost | crates/hrdr-agent/src/attachment_store.rs:319-356 | for arbitrary references and disk, restored plus lost is referenced |
| Attachments.RestoredIsReferenced | crates/hrdr-agent/src/attachment_store.rs:319-356 | nothing is made up: each attachment was there, in front, or matches a reference for that message; text only grows, and only on a loss |
| Attachments.LossesAreNamed | crates/hrdr-agent/src/attachment_store.rs:305-318 | the message text has a line for every loss |
| Attachments.LossesAreTold | crates/hrdr-agent/src/attachment_store.rs:118-140 | no loss is silent: for every reference that could not be read, the resumed text holds its filename, a colon and the reason the read gave, on a line |
| Attachments.ReasonsDiffer | crates/hrdr-agent/src/attachment_store.rs:118-125 | no reason text is another or begins another |
| Attachments.LineReadsBack | crates/hrdr-agent/src/attachment_store.rs:137-140 | so a line tells one file and one reason |
| Attachments.LossReportedOnce | crates/hrdr-agent/src/attachment_store.rs:315-318 | after a resume from any store, damaged blobs and all, a save leaves the store as it is and a second resume gives the same messages and loses nothing more |
| Attachments.SecondResumeExactly | crates/hrdr-agent/src/attachment_store.rs:315-318 | when disk and store changed in between, that is so if and only if what was restored is savable in the new store |
| BlobGc.StepKeepsInv | crates/hrdr-agent/src/session.rs:1187-1215 | every step of savers, collector and clock keeps live blobs and what each job in progress relies on, given only that a sweep is safe when it begins |
| BlobGc.PromptRunKeepsBlobs | crates/hrdr-agent/src/attachment_store.rs:40-52 | with unlocked saves that keep within the grace period, no live blob is collected in any interleaving |
| BlobGc.SweepIsSafeExactly | crates/hrdr-agent/src/attachment_store.rs:40-52 | from any state a run keeps, a sweep can lose no live blob in any continuation if and only if, when it begins, each blob that a session names, or that a save under way has touched for the last time, is marked or younger than the grace period |
| BlobGc.LockedRunKeepsBlobs | crates/hrdr-agent/src/attachment_store.rs:170-204 | with locked saves no timing matters at all |
| BlobGc.SlowUnlockedSaveLosesItsBlob | crates/hrdr-agent/src/attachment_store.rs:40-52 | an unlocked save that waits before writing its session: a collection beginning meanwhile can unlink its blob if and only if the wait is the grace period or more, and then the session names a missing blob |
| BlobGc.BlobDir.SweepBlobs | crates/hrdr-agent/src/attachment_store.rs:372-396 | the sweep removes exactly the entries with 64 lowercase hex digits for a name that are not kept and not less than an hour old, save those that cannot be unlinked; an unreadable age protects nothing |
| BlobGc.SweptAreVictims | crates/hrdr-agent/src/session.rs:2120-2151 | the sweep steps of the state machine are that sweep |
| BlobGc.SaveRuns | crates/hrdr-agent/src/attachment_store.rs:170-264 | a save that may begin can always go on to its end; its session names exactly its blobs, all there and new |
| BlobGc.CollectionRuns | crates/hrdr-agent/src/session.rs:2120-2151 | so can a collection, and by itself it collects exactly the blobs no session names that are an hour old |
| AuthStore.StoreFile.SaveEntryAt | crates/hrdr-agent/src/auth_store.rs:132-177 | one entry is inserted, every other stays; a store that cannot be read or parsed is left as it is, with an error |
| AuthStore.OauthLoadCache.LoadOauthEntryAt | crates/hrdr-agent/src/auth_store.rs:242-255 | the credentials the provider has in the map served, if its entry is an OAuth one: the cached map when its time is the file's, else what can be read now; a miss is cached if the file could be seen; nothing else changes |
| AuthStore.LoadAlone | crates/hrdr-agent/src/auth_store.rs:242-255 | a load of the state machine that nothing interrupts answers and caches as that call does |
| AuthStore.SaveAlone | crates/hrdr-agent/src/auth_store.rs:132-177 | a save that has the lock to itself can be made exactly where the store is absent or can be read, and inserts its entry there |
| AuthStore.FinishLinearizes | crates/hrdr-agent/src/auth_store.rs:242-255 | a load that finishes answers from the version whose map was cached or the one its stat saw, whichever is later, while versions of one time agree |
| AuthStore.LoadsLinearize | crates/hrdr-agent/src/auth_store.rs:208-255 | in every interleaving of saves, edits, deletes and loads over coherent versions, a load answers what the file held at some moment of the call |
| AuthStore.LoadsLinearizeExactly | crates/hrdr-agent/src/auth_store.rs:208-255 | every run over a history of versions does so if and only if versions that carry one time, and all between them, load alike |
| AuthStore.TickingLoadsLinearize | crates/hrdr-agent/src/auth_store.rs:208-225 | so it does whenever times strictly increase |
| AuthStore.StaleHit | crates/hrdr-agent/src/auth_store.rs:217-225 | a cached map under a time the changed file still has is served though the file no longer held it, and again at every load until the time changes |
| AuthStore.CoarseClockServesStale | crates/hrdr-agent/src/auth_store.rs:217-225 | over two versions that carry the same time, a run in which the first is answered while only the second is there |
| AuthStore.SavesFold | crates/hrdr-agent/src/auth_store.rs:132-177 | in every interleaving the store is one of its outside states with all saves since folded in, in lock order, or a file that is no store, as it was left; undisturbed saves make that the last outside state |
| AuthStore.FoldLosesNothing | crates/hrdr-agent/src/auth_store.rs:123-130 | in that fold the last save of a key wins and no other entry is lost |
| AuthStore.EditSurvivesExactly | crates/hrdr-agent/src/auth_store.rs:132-177 | from any state a run keeps, an edit or delete by hand stays what the store has grown from, with exactly the saves written since, in every continuation up to the next edit, if and only if no save has read before it but one that read the very file it leaves |
| AuthStore.DeleteDuringSaveIsUndone | crates/hrdr-agent/src/auth_store.rs:151-176 | a run: a delete by hand between a save's read and write is undone |
| Budget.CostMeter.ResetSessionCost | crates/hrdr-agent/src/budget.rs:60-64 | zeroes the total and clears the flag |
| Budget.CostMeter.SetSessionCost | crates/hrdr-agent/src/budget.rs:72-74 | seeds the total and cannot touch the flag |
| Budget.Spender.CurrentCostRates | crates/hrdr-agent/src/budget.rs:18-30 | the memo never answers for another model |
| Budget.Spender.Preflight | crates/hrdr-agent/src/budget.rs:87-103 | exhausted exactly at or past the cap, whatever the model; unenforceable exactly below it with a model nobody can price and no leave for that; the catalog is asked only when its answer matters |
| Budget.Spender.AccountUsage | crates/hrdr-agent/src/budget.rs:117-190 | the shared total grows by the price, the flag is set by an unpriced call, the session figure appears once there is one |
| Budget.OvershootBounded | crates/hrdr-agent/src/budget.rs:76-103 | in every interleaving of agents sharing the counter, with overflow recoveries, the total stays below the cap plus one dearest call for each agent and one more for each that was let through for a recovery |
| Budget.OvershootPerAgent | crates/hrdr-agent/src/turn_loop.rs:1369-1400 | so two calls an agent always bound it, and one each when nobody recovers |
| Budget.OvershootReached | crates/hrdr-agent/src/budget.rs:87-103 | every total below that bound is reached, whichever agents recover |
| Budget.OneCallEachExactly | crates/hrdr-agent/src/turn_loop.rs:1535-1602 | one dearest call an agent bounds every run if and only if no agent is allowed to recover |
| Budget.OneAgentTwoCalls | crates/hrdr-agent/src/turn_loop.rs:1369-1400 | one agent just below its cap that recovers from an overflow is billed twice past it |
| Budget.CounterIsTheLedger | crates/hrdr-agent/src/budget.rs:49-74 | the total is the last seed or reset plus every priced call since; the flag is set exactly when the conversation had an unpriced call |
| Catalog.ResolveCatalog | crates/hrdr-agent/src/chatgpt_models.rs:466-537 | rows are stale, fresh or built-in exactly by outcome and whether the cache is the caller's own, of this schema and client; fetched rows are the caller's; what is written is what was answered, with its entity tag, stamped now |
| Catalog.CatalogCache.ChatgptModelCatalog | crates/hrdr-agent/src/chatgpt_models.rs:554-592 | one call: the network is skipped exactly without force on the caller's own cache of this schema and client that is less than five minutes old; which entity tag is sent, what is answered and what the cache becomes |
| Catalog.CallAlone | crates/hrdr-agent/src/chatgpt_models.rs:554-592 | a call of the state machine that nothing interrupts can always be made, and answers and leaves the cache as that call does |
| Catalog.ResolveIsolates | crates/hrdr-agent/src/chatgpt_models.rs:466-537 | from a rightly labelled cache, the answer is the caller's own rows and what is written is rightly labelled |
| Catalog.AccountsAreIsolated | crates/hrdr-agent/src/chatgpt_models.rs:547-592 | in every interleaving of calls by any accounts, fresh and stale rows were fetched as the caller's account |
| Catalog.CacheStaysLabelled | crates/hrdr-agent/src/chatgpt_models.rs:547-592 | in every state reached, the cache and every entry still to be written hold rows of the account their digest names |
| Catalog.AccountlessCallsKeepOut | crates/hrdr-agent/src/chatgpt_models.rs:555-561 | calls without an account never read or write the cache |
| Catalog.ReadBodyCapped | crates/hrdr-agent/src/chatgpt_models.rs:602-617 | the whole body just when it all arrives and fits, else the first thing that stopped it; never more than the cap is held |
| Catalog.BreaksOnce | crates/hrdr-agent/src/chatgpt_models.rs:594-617 | a stream breaks off at one place only, and not at all if it fits |
| Whitespace.TrimSlice | crates/hrdr-agent/src/model_ref.rs:68-70 | trimming cuts off whitespace at both ends, leaves none there, and leaves trimmed text alone |
| Frontmatter.FindClosingFence | crates/hrdr-agent/src/agents_dir.rs:367-376 | the loop finds the start of the first line that right-trims to the fence |
| Frontmatter.SplitOfPrinted | crates/hrdr-agent/src/agents_dir.rs:337-363 | splitting undoes printing, for any body and frontmatter lines, with every variant of byte-order mark, line ending, blanks and trailing whitespace |
| Frontmatter.CrlfSplits | crates/hrdr-agent/src/agents_dir.rs:322-376 | a file splits though its lines end in carriage returns and spaces or tabs follow its fences |
| Frontmatter.SplitIsPrinting | crates/hrdr-agent/src/agents_dir.rs:337-363 | any answer on any text is a split at the first closing fence that loses only the mark and the fence lines |
| Frontmatter.SplitsExactlyPrintings | crates/hrdr-agent/src/agents_dir.rs:322-363 | so a text splits into two parts if and only if it is such a printing of them |
| ModelRef.ProviderNameIdempotent | crates/hrdr-agent/src/model_ref.rs:68-84 | canonicalizing a provider name twice is doing it once |
| ModelRef.Aliases | crates/hrdr-agent/src/model_ref.rs:68-84 | which names mean which provider, whatever their case and the whitespace around them; any other name is a provider of its own |
| ModelRef.ParsesExactly | crates/hrdr-agent/src/model_ref.rs:229-250 | the reference a text with a separator names, split at the first one, and the one cause of each error |
| ModelRef.SpecParsesExactly | crates/hrdr-agent/src/model_ref.rs:337-369 | which of the three shapes a text is |
| ModelRef.RefRoundTrips | crates/hrdr-agent/src/model_ref.rs:206-250 | a reference survives printing and parsing if and only if its provider holds no separator |
| ModelRef.SeparatorInProviderIsLost | crates/hrdr-agent/src/model_ref.rs:206-226 | a reference that is built without complaint and reads back as another |
| ModelRef.ParsedRefRoundTrips | crates/hrdr-agent/src/model_ref.rs:229-250 | so every parsed reference does |
| ModelRef.SpecRoundTrips | crates/hrdr-agent/src/model_ref.rs:337-369 | a spec of any of the three shapes survives if and only if its printed form is unambiguous |
| ModelRef.ParsedSpecRoundTrips | crates/hrdr-agent/src/model_ref.rs:337-369 | so every parsed spec does |
| ModelRef.ApplyResolves | crates/hrdr-agent/src/model_ref.rs:316-325 | only a bare provider has no answer; the answer is an identity that survives printing, and resolving again changes nothing |

## Left out

- SHA-256, `serde_json`, zstd and the modification-time and rename calls of the operating system: parameters or single steps. The journal's own printer is modelled byte for byte.
- Process liveness, `SessionLock`, and the reaping of stale store locks: the locks are held until released.
- `HandoffPayload::parse` and `validate_deferred_update`: the payload check is a parameter, and both its outcomes are covered.
- Opening a journal: reading the snapshot and hashing it. A journal is given with its session hash.
- Debug builds panic where a 32-bit sum overflows; the model has the release build, which wraps.
- Agent.Summarize: the attempts' outcomes are a finite list, and a list that ends early counts as an error. What a future dropped in the middle leaves behind is not modelled, nor the retry policy's own count and delays.
- Agent.AgentState.Compact: the trigger and framing prose, usage events and the billing of the summary are not part of the model; the prices of attachments are given per message.
- Agent.AgentState.SwitchModelRef: the client settings, the dropped parameters and the probed-window flag that ride on the identity are one value; a token refresh during the compaction is left out.
- Agent.AgentState.Clear: aborting the background sub-agents and forgetting a suppressed goal nudge are left out.
- RetryBound.Failures: one window throughout; a window learned in the middle of a run is a reset.
- BlobGc.StepKeepsInv: looking for a blob and touching it is one step, as is checking an age and unlinking; a failed touch is allowed only to a save that holds the lock; sessions are read one file at a time but each file at once, and compressed copies are not told apart.
- AuthStore.LoadsLinearize: one path, one process's cache beside any number of writers; a change of permissions alone, which leaves the time as it was, is left out.
- AuthStore.SavesFold: a map is its entries, not the order or spacing they were printed in.
- Budget.OvershootBounded: costs are exact reals, not floating point, and a call's price under a card is a parameter. A seed while calls are outstanding starts the count afresh: the bounds are over what the counter was last set to.
- Catalog.AccountsAreIsolated: an outside hand that writes the cache file with another account's rows is left out; deleting or spoiling it is not. Parsing the response body is not part of the model.
- Frontmatter.SplitOfPrinted: text is a sequence of characters, so offsets count characters and not UTF-8 bytes; the YAML inside the fences is not parsed.
- Turn loop, tools, MCP, terminal interface, sub-agent plumbing, update coordinator, messaging, command expansion, listings, slugs and event labels: subprocess and display code, or members that would only be easy.
