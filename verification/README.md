# Verified model of the Project Nexus services

A Dafny model of the parts of Project Nexus that carry state or a hard algorithm: the turn chunker, the
family hub (inbox, sessions, drains), the scoped memory service, weight tiering, the bearer-token store and
the small scoring algorithms of the bench. `dafny verify dfyconfig.toml` checks all of it.

Code that changes things step by step is a class or a method with its loops, proved against a specification
function; the promises are then proved about those functions, and about whole runs of them.

| files | what they model |
|---|---|
| `Text`, `Splitter`, `SplitCuts`, `Packer`, `PackBounds`, `ChunkTurn` | turning a conversation turn into chunks, for any tokenizer |
| `FamilyInbox`, `HubSessions`, `Brainstem` | the hub's two durable stores and the turn, chat, presence and drain code |
| `HubRuns`, `HubDelivery`, `HubDrain`, `HubTurns`, `HubCustody` | the hub as a transition system: FIFO inboxes, when answers are final, turn counters, accepted replies |
| `HubMemory` | hub and memory service together: exactly when a remembered reply is in the store |
| `Scopes`, `ChromaStore`, `EmbedderService`, `Timeline`, `Migration` | scoped memory, its endpoints, the household feed and the scope migration |
| `MemoryRuns`, `Isolation`, `Retrieval` | what reachable stores keep, non-interference between members, exact retrieval |
| `PresenceRuns`, `Briefing`, `BriefingRuns`, `FetchLimit` | presence over whole runs, the wake-up briefing and its window, and the fetch limit behind it |
| `Tiering`, `TieringRuns` | staging and eviction, and both of them cut into file-system steps with crashes |
| `TokenStore`, `TokenRuns`, `Base64`, `ScryptString` | the cached token file shared by many instances; the hash string and its parser |
| `Builder`, `Stats` | workflow validation and reachability; percentiles and bootstrap intervals |
| `Wrappers`, `Decimal`, `StableSort` | options and results, decimal printing, Python's stable sort |

What is outside is an argument: the tokenizer, the encoder and its distance, the scrypt function, random ids
and draws, clock readings, whether the cortex answers, whether the memory service accepts a write, whether a
flush reaches the disk, what a file copy leaves behind.

Places where the code does less than its comments or documentation say. The model follows the code; each has a
failing input and the exact condition.

- A chunk can exceed the 400-token target (`chunker.py:101-103`). A window of pieces of up to P tokens never passes
  `SizeBound`, and no smaller bound holds (`SizeBoundIsLeast`): 849 tokens by default. A text within the threshold is
  returned whole, 450 tokens by default. So over all texts the least bound is the larger of the two
  (`ChunkBoundIsLeast`), and the target is kept exactly when there is no overlap and the threshold does not exceed it
  (`ChunkTargetIff`).
- A turn's text tells who said what as long as no user text holds the member's heading (`SameTextSameTurn`); with the
  heading inside, one text can stand for two turns (`ForgedHeading`). A turn that is split also loses white space at
  the chunks' edges (`SplitForgetsSpace`), and without overlap nothing else (`SameDocumentsSameInk`).
- A drain may leave messages queued for an awake member: exactly when the cortex, or a first contact's session,
  fails for one of them (`WakeAnswersOldest`, `AwakeWithQueue`).
- A hub restart does not always lose nothing (`family_state.py:10-12`), because a failing flush is only logged.
  Messages survive exactly when every restart finds the file with as many of them, answered and queued as in memory
  (`NeverLosesIff`); any later write makes a lost flush good (`WriteCatchesUp`). A letter accepted without its flush is
  gone (`LostFlushLosesLetter`), an answer recorded without it is queued again (`LostFlushReopens`), and a sleep edge
  is forgotten (`EdgesRightIff`, `LostEdgeForgotten`).
- Completing a message does not check that it is still queued. Answers are final exactly when every completion
  finds its message queued and every restart finds the answers on disk (`AnswersFinalIff`); two overlapping drains
  break that (`OverlapReplacesAnswer`).
- Messages of a member dropped from the registry do not stay on disk (`family_state.py:82-83`): they return exactly
  when nothing wrote the inbox file while the member was away (`DroppedMemberSurvives`).
- A restart forgets turns exactly when the session file is behind the turns written (`RebootKeepsBooks`,
  `AlwaysBooksIff`): after a lost flush of a turn's counter (`RestartAfterTurnIff`, `LostRecordRepeatsIndex`).
- The memory service answers 200 and the hub reports "remembered" even when the store ignores a chunk whose id it
  holds. A turn is stored exactly when no earlier one was written under its session and index (`StoredIff`); after
  a lost counter or a lost acknowledgement that fails (`LostRecordLosesReply`, `LostAckLosesTurn`).
- The household feed fetches 1000 rows in insertion order before sorting, so it can miss the newest event exactly
  when there are more than 1000 shared rows (`FetchLimitExact`).
- Eviction compares sizes, not content: content is kept exactly when every file it may delete equals its first lower
  copy (`ContentKeptIff`, `EvictionTrustsSizes`).
- An instance serves every request as one shared token list would exactly when its reload has nothing to miss and
  its writes get through under a stamp that misleads no cache (`EventAgreesIff`). A reused stamp hides a write
  (`ReusedStampHidesWrite`), a failed flush leaves the token with one instance (`FailedCreateLingers`), and an instance
  that cannot read the changed file writes a revoked token back (`StaleWriteRevives`).
- What a member keeps to itself still shows in a promotion's refusal: 400 for a private row that exists, 404 for one
  that does not, and in no other answer (`ResponsesUnchangedIff`).

Reading notes. Python dictionaries whose order matters are sequences. `str` order is by code point. A Chroma
collection is a sequence of rows in insertion order; `add` ignores ids it already holds; a query is an exact
filtered top-k with ties in insertion order. Equal SHA-256 digests mean equal bytes. `hide` statements only
narrow what the verifier looks at.

## Model

| member | source | states |
|---|---|---|
| `Text.SplitUnique` | nodes/embedder_4070/chunker.py:59 | the leftmost, non-overlapping split is the only list of parts that joins back to the text with every cut at the first occurrence |
| `Text.SplitIsSplit` | nodes/embedder_4070/chunker.py:59 | `str.split` as modelled has those properties for every text and separator |
| `Splitter.SplitOnLossless` | nodes/embedder_4070/chunker.py:51-64 | splitting on one separator joins back to the text and leaves no empty piece unless nothing was cut |
| `Splitter.SeparatorLeads` | nodes/embedder_4070/chunker.py:51-64 | cutting on a separator: every piece but the first opens with it, and no piece holds it anywhere else |
| `Splitter.RecursiveSplit` | nodes/embedder_4070/chunker.py:67-92 | the recursion terminates and returns the pieces the specification describes |
| `Splitter.RefinePieces` | nodes/embedder_4070/chunker.py:86-92 | the loop over the pieces splits exactly those that are too big, in order |
| `Splitter.RecursiveLossless` | nodes/embedder_4070/chunker.py:67-92 | for any tokenizer, text, target and starting separator the pieces concatenate to exactly the text |
| `Splitter.RecursiveFits` | nodes/embedder_4070/chunker.py:73-78 | every piece is within the target or is a single character |
| `Splitter.LoneCharacterStays` | nodes/embedder_4070/chunker.py:77-84 | an oversize single character passes every separator in one piece |
| `Splitter.ResplitIsIdentity` | nodes/embedder_4070/chunker.py:67-92 | splitting any returned piece again returns just that piece |
| `Splitter.RecursiveNonEmpty` | nodes/embedder_4070/chunker.py:64-92 | a non-empty text never yields an empty piece |
| `Splitter.CoarsestSeparatorWins` | nodes/embedder_4070/chunker.py:29-44 | the coarsest separator that cuts an oversize text decides: if its pieces fit they are the result |
| `SplitCuts.UncutMeans` | nodes/embedder_4070/chunker.py:51-64 | a text that a separator does not cut holds it nowhere but at its very start |
| `SplitCuts.CutsAreNeeded` | nodes/embedder_4070/chunker.py:67-92 | no finer cut while a coarser separator would do: around the cut between any two neighbouring pieces there is a stretch that is over the target, that no coarser separator cuts, and in which every cut of the separator used is made |
| `SplitCuts.WordsStayWhole` | nodes/embedder_4070/chunker.py:29-92 | a cut between two characters lies in a stretch over the target without space or line break past its start |
| `SplitCuts.RecursiveIsPasses` | nodes/embedder_4070/chunker.py:67-92 | the recursion gives what one pass per separator over all pieces gives |
| `Packer.TailOf` | nodes/embedder_4070/chunker.py:117-130 | the overlap tail and its token sum are those of the seed that the specification picks |
| `Packer.Pack` | nodes/embedder_4070/chunker.py:95-141 | the greedy loop returns the stripped non-empty texts of the specified windows |
| `Packer.PackWindowsGreedy` | nodes/embedder_4070/chunker.py:101-141 | windows start at piece 0, end at the last, advance strictly, close only when the next piece does not fit, and start on the shortest tail reaching the overlap |
| `Packer.GreedyPackingUnique` | nodes/embedder_4070/chunker.py:101-141 | only one list of windows fits that description |
| `PackBounds.PackLossless` | nodes/embedder_4070/chunker.py:132-141 | cut back to what each window adds, the windows join to exactly the packed text |
| `PackBounds.NoOverlapPartitions` | nodes/embedder_4070/chunker.py:118-121 | without overlap each window starts where the previous one ended |
| `PackBounds.PackSizeBound` | nodes/embedder_4070/chunker.py:113-137 | with pieces of at most P tokens no window's sum passes max(target, P), or max(target, overlap - 1 + 2P) with overlap |
| `PackBounds.NoOverlapRespectsTarget` | nodes/embedder_4070/chunker.py:101-103 | without overlap every window is within the target if and only if every piece is |
| `PackBounds.SizeBoundIsLeast` | nodes/embedder_4070/chunker.py:113-137 | for every target, overlap and piece size at least 1 that maximum is the least bound that always holds |
| `PackBounds.TargetKeptIff` | nodes/embedder_4070/chunker.py:101-103 | all windows of all inputs keep the target if and only if P fits in it without overlap, and overlap - 1 + 2P does with overlap |
| `ChunkTurn.Chunk` | nodes/embedder_4070/chunker.py:144-163 | returns the text whole up to the threshold, else the packed pieces |
| `ChunkTurn.ChunkSizeBound` | nodes/embedder_4070/chunker.py:67-163 | unless a single character outweighs the target, no chunk, split or returned whole, passes both the threshold and 2 * target + overlap - 1 (target without overlap) |
| `ChunkTurn.ChunkBoundIsLeast` | nodes/embedder_4070/chunker.py:67-163 | over all texts and tokenizers that give no single character more than the target, the larger of the two is the least bound on chunks, for every threshold, target and overlap |
| `ChunkTurn.ChunkTargetIff` | nodes/embedder_4070/chunker.py:101-163 | every chunk of every such text keeps the target if and only if the threshold is within it and there is no overlap (or the target is 0) |
| `ChunkTurn.ChunksCoverText` | nodes/embedder_4070/chunker.py:139-163 | every chunk is a stretch of the text, in order, and every non-white-space character lies in one of them |
| `ChunkTurn.NoChunksIffBlank` | nodes/embedder_4070/chunker.py:139-163 | no chunk at all exactly for an over-threshold text of white space |
| `ChunkTurn.TurnAlwaysChunks` | nodes/embedder_4070/server.py:202-213 | the "empty document after chunking" error cannot happen for any user and assistant text |
| `ChunkTurn.ChunksAreWell` | nodes/embedder_4070/chunker.py:144-163 | a text over the threshold becomes the trimmed texts of the greedy packing, to the target and with the overlap, of pieces that make up the text, fit, and are cut only where they have to be |
| `ChunkTurn.TurnTextUnique` | nodes/embedder_4070/server.py:145-149 | a turn's text is each side's words, trimmed, under its own heading, and nothing else |
| `ChunkTurn.TurnIsHeld` | nodes/embedder_4070/server.py:145-213 | the documents of a turn are stretches of that text, in order, that hold every character of either side that is not white space |
| `ChunkTurn.SmallTurnWhole` | nodes/embedder_4070/server.py:145-213 | a turn within the threshold is one document, its whole text |
| `ChunkTurn.SameTextSameTurn` | nodes/embedder_4070/server.py:145-149 | unless a user text holds the other heading, two turns have the same text if and only if both sides said the same, up to outer white space |
| `ChunkTurn.ForgedHeading` | nodes/embedder_4070/server.py:145-149 | with the heading inside, one text stands for two different turns |
| `ChunkTurn.SameDocumentsSameInk` | nodes/embedder_4070/chunker.py:139-163 | without overlap two texts with the same documents have the same characters in the same order, white space apart |
| `ChunkTurn.SplitForgetsSpace` | nodes/embedder_4070/chunker.py:139-163 | white space apart only: with one token for a character, two for anything longer and a target of 1, all texts with the same other characters have the same documents |
| `FamilyInbox.FamilyState.constructor` | nodes/brainstem_4070/family_state.py:41-58 | boot gives every registered member the default presence and what the file holds for it |
| `FamilyInbox.FamilyState.Load` | nodes/brainstem_4070/family_state.py:66-88 | reads v1 and v2 files, skips unusable ones and unregistered members |
| `FamilyInbox.FamilyState.Flush` | nodes/brainstem_4070/family_state.py:90-107 | writes exactly the loaded members, or leaves the old file |
| `FamilyInbox.FamilyState.SetPresence` | nodes/brainstem_4070/family_state.py:115-129 | unknown members and states are refused without change; else exactly that state is stored for that member, no inbox and no other presence changes, and sleep and wake edges are stamped |
| `FamilyInbox.PresenceIsStored` | nodes/brainstem_4070/family_state.py:120-129 | the same of one step: state, both edges, other members and the file |
| `FamilyInbox.FlushThenBoot` | nodes/brainstem_4070/family_state.py:66-107 | what a flush wrote the next boot reads back, inbox and edges; presences start from the default |
| `FamilyInbox.BootFromOther` | nodes/brainstem_4070/family_state.py:66-88 | a v1 file gives inboxes and no edges; no usable file gives neither |
| `FamilyInbox.FamilyState.Enqueue` | nodes/brainstem_4070/family_state.py:140-168 | the letter goes last in its member's inbox, queued |
| `FamilyInbox.FamilyState.CompleteMessage` | nodes/brainstem_4070/family_state.py:193-204 | the named record becomes answered with the reply; an unknown id changes nothing |
| `FamilyInbox.AnswerGoesToLetter` | nodes/brainstem_4070/family_state.py:193-204 | the record keeps its letter and place, gets status, reply and time, and nothing else changes |
| `FamilyInbox.QueuedAreUnanswered` | nodes/brainstem_4070/family_state.py:178-185 | the snapshot holds exactly the unanswered messages, each as often as the inbox |
| `FamilyInbox.QueuedIsTail` | nodes/brainstem_4070/family_state.py:178-185 | in an answered-then-queued inbox the snapshot is the unanswered tail |
| `FamilyInbox.EnqueueKeepsOrder` | nodes/brainstem_4070/family_state.py:153-168 | a fresh letter keeps answered-before-queued and leaves the rest of the inbox alone |
| `FamilyInbox.AnswerKeepsOrder` | nodes/brainstem_4070/family_state.py:193-204 | answering a message whose elders are answered keeps the order |
| `HubSessions.KeyInjective` | nodes/brainstem_4070/sessions.py:42-44 | member ids have no colon (core/family.py:96-103), so distinct (person, member) pairs have distinct keys |
| `HubSessions.ColonBreaksKey` | nodes/brainstem_4070/sessions.py:42-44 | with a colon in a member id two pairs share a key |
| `HubSessions.HubSessionStore.GetOrMint` | nodes/brainstem_4070/sessions.py:69-86 | a known pair keeps its session; a new one is minted at turn 0 and flushed, and a failing flush raises with the entry kept in memory |
| `HubSessions.HubSessionStore.RecordTurn` | nodes/brainstem_4070/sessions.py:88-103 | stores the counter of a known pair and flushes; an unknown pair changes nothing |
| `Brainstem.Service.RunTurn` | nodes/brainstem_4070/server.py:444-475 | a remembered turn is written at the current index and advances it; a failed write does neither |
| `Brainstem.Service.LiveMemberTurn` | nodes/brainstem_4070/server.py:609-650 | mint or reuse, seed the counter, run the turn, record the durable counter unless the cortex was down |
| `Brainstem.Service.DrainInbox` | nodes/brainstem_4070/server.py:653-745 | answers the snapshot in order, stops at the first failed turn, returns how many were answered |
| `Brainstem.Service.MemberPresence` | nodes/brainstem_4070/server.py:782-803 | 404 and 400 change nothing; else exactly the new state is stored; waking drains the inbox, other states do not |
| `Brainstem.Service.MemberChat` | nodes/brainstem_4070/server.py:1039-1123 | routes by presence: refuse while waking, queue while asleep or busy, answer otherwise |
| `HubRuns.CompletionTarget` | nodes/brainstem_4070/server.py:682-711 | a completion answers the very message under the drain's cursor, whatever was enqueued meanwhile |
| `HubRuns.StepKeepsInv` | nodes/brainstem_4070/family_state.py:66-204 | every atomic step keeps all inboxes answered-then-queued in memory and on disk, and all drains aligned, even when flushes fail |
| `HubRuns.RunKeepsInv` | nodes/brainstem_4070/server.py:653-712 | the same over every interleaving of enqueues, presence changes, overlapping drains, chats and restarts |
| `HubDelivery.RestartKeepsIff` | nodes/brainstem_4070/family_state.py:66-107 | a restart keeps a member's messages in place, and answered ones answered, if and only if the file has as many with the same statuses; it keeps the answers if and only if the file has those too |
| `HubDelivery.StepProgress` | nodes/brainstem_4070/family_state.py:90-204 | no step but such a restart loses, overtakes or reopens a message, whether or not its flush succeeds |
| `HubDelivery.NothingLost` | nodes/brainstem_4070/server.py:653-712 | every message of a registered member keeps its place over any run, none is lost, overtaken or reopened; flushes may be lost as long as each restart finds the messages on disk |
| `HubDelivery.NeverLosesIff` | nodes/brainstem_4070/family_state.py:10-12 | over a run nothing is ever lost if and only if each restart finds them there |
| `HubDelivery.WriteCatchesUp` | nodes/brainstem_4070/family_state.py:90-107 | any write of the file, for whichever member, makes earlier lost flushes good |
| `HubDelivery.DurableRunOnDisk` | nodes/brainstem_4070/family_state.py:90-107 | if every flush succeeds, every restart finds messages and answers on disk |
| `HubDelivery.LostFlushLosesLetter` | nodes/brainstem_4070/family_state.py:106-107 | a letter accepted while the flush fails is gone after a restart |
| `HubDelivery.LostFlushReopens` | nodes/brainstem_4070/family_state.py:193-204 | a message answered while the flush fails is queued again after a restart |
| `HubDelivery.AnsweredOnce` | nodes/brainstem_4070/server.py:653-712 | if a member's drains do not overlap and restarts find the answers on disk, each message is answered at most once and the answer never changes |
| `HubDelivery.OverlapReplacesAnswer` | nodes/brainstem_4070/server.py:653-712 | two overlapping drains answer one message twice, the second reply replacing the first |
| `HubDelivery.StepFinalIff` | nodes/brainstem_4070/family_state.py:193-204 | a step leaves every answer given so far as it is if and only if it completes no message that is already answered, and, when it is a restart, the file has the answers |
| `HubDelivery.AnswersFinalIff` | nodes/brainstem_4070/server.py:653-712 | over any run, drains overlapping or not, flushes lost or not, answers never change if and only if every completion finds its message still queued and every restart finds the answers on disk |
| `HubDelivery.AwayRun` | nodes/brainstem_4070/family_state.py:81-105 | while a member is away the file keeps its messages until some step writes it, and then never again |
| `HubDelivery.DroppedMemberSurvives` | nodes/brainstem_4070/family_state.py:81-105 | dropped, anything at all, taken back: the member's messages return if and only if there were none or no step in between wrote the file |
| `HubDrain.DrainRefines` | nodes/brainstem_4070/server.py:682-745 | the drain loop is a run of the atomic steps, so the run invariants hold of it |
| `HubDrain.DrainAnswers` | nodes/brainstem_4070/server.py:682-712 | the loop answers a prefix of its snapshot and leaves every other message as it was |
| `HubDrain.DrainStops` | nodes/brainstem_4070/server.py:682-703 | the loop stops at the first message whose turn the cortex fails or whose sender gets no session, and raises in the latter case |
| `HubDrain.WakeAnswersOldest` | nodes/brainstem_4070/server.py:698-711 | waking answers the oldest messages up to that one; nothing stays queued if and only if for every message the cortex answers and its sender has, or at its first message gets, a session |
| `HubDrain.AwakeWithQueue` | nodes/brainstem_4070/server.py:698-703 | a member that wakes while the cortex is down is awake with its message still queued |
| `HubTurns.TurnKeepsBooks` | nodes/brainstem_4070/server.py:622-649 | a turn, failing anywhere, keeps indices 0..k-1 written, k in the session store's memory and k at run time |
| `HubTurns.RebootKeepsBooks` | nodes/brainstem_4070/sessions.py:46-61 | a restart finds the books balanced if and only if the session file is up to date with every session that has written |
| `HubTurns.RestartAfterTurnIff` | nodes/brainstem_4070/sessions.py:97-103 | a restart right after a turn finds them balanced if and only if the counter's flush succeeded or the turn wrote nothing |
| `HubTurns.RunKeepsBooks` | nodes/brainstem_4070/server.py:609-712 | the same over whole runs of chats, drained turns and restarts, lost flushes allowed as long as a later one precedes the restart |
| `HubTurns.AlwaysBooksIff` | nodes/brainstem_4070/server.py:609-712 | over a run the books always balance if and only if every restart finds the file up to date |
| `HubTurns.RecordedRunIsGood` | nodes/brainstem_4070/sessions.py:88-103 | which is so when every counter's flush succeeds |
| `HubTurns.SessionsNotShared` | nodes/brainstem_4070/sessions.py:69-86 | two writes share a session if and only if person and member are the same |
| `HubTurns.NoTurnWrittenTwice` | nodes/brainstem_4070/server.py:448-472 | within a session later writes have larger indices, across restarts |
| `HubTurns.LostRecordRepeatsIndex` | nodes/brainstem_4070/sessions.py:97-103 | if the durable counter's flush fails before a restart, an index is written twice |
| `HubCustody.RunKeepsLog` | nodes/brainstem_4070/server.py:690-710 | over any run, overlapping drains and lost flushes included, a polled reply that claims to be remembered was accepted under exactly that session, index, person, member, prompt and answer |
| `HubMemory.StoredIff` | nodes/embedder_4070/server.py:185-253 | among any other requests, a turn's rows are all in the final store if and only if no earlier turn was served under its session and turn index |
| `HubMemory.BooksNeverRepeat` | nodes/brainstem_4070/server.py:448-472 | while the books balance no turn repeats an earlier one's session and index |
| `HubMemory.RunKeepsCustody` | nodes/brainstem_4070/server.py:690-710 | over any run whose restarts find the session file up to date, the exchange behind a polled reply that claims to be remembered is in the store, every chunk of it: rows private to the member, labelled with session and turn, whose documents hold prompt and answer word for word |
| `HubMemory.LostRecordLosesReply` | nodes/brainstem_4070/sessions.py:97-103 | a lost counter and a restart: the next polled reply claims to be remembered and is not in the store |
| `HubMemory.LostAckLosesTurn` | nodes/brainstem_4070/server.py:451-475 | a write that lands without its acknowledgement takes the next turn's place in the store |
| `Scopes.MemberScopes` | nodes/embedder_4070/scopes.py:45-58 | a member reads, and may write, exactly its private, its experiential and the household scope |
| `Scopes.OwnScopesAreDisjoint` | nodes/embedder_4070/scopes.py:37-48 | no member can read another's private or experiential scope, whatever the ids |
| `Scopes.WhereMeaning` | nodes/embedder_4070/scopes.py:66-78 | the filter admits a row iff its scope is readable, its session is the one asked for, if any, and its turn is not the excluded one |
| `Scopes.PromotedIdInjective` | nodes/embedder_4070/scopes.py:109-113 | distinct sources have distinct promoted ids |
| `Scopes.ParticipantsReadBack` | nodes/embedder_4070/scopes.py:81-84 | the label lists the trimmed names that are not blank, in order, and unless a name holds a comma they can be read back |
| `Scopes.PlanScopeBackfill` | nodes/embedder_4070/scopes.py:149-175 | the two lists grown in the loop are the plan for exactly the rows without a scope, up to the shorter input |
| `ChromaStore.Collection.AddDocuments` | nodes/embedder_4070/chroma_store.py:43-60 | appends the rows whose ids are new |
| `EmbedderService.Embedder.MemoryWrite` | nodes/embedder_4070/server.py:185-253 | refuses a missing session, a foreign scope or an unknown origin without change; else offers the store one row per chunk, at least one, whose documents hold both sides of the turn, and answers with all their ids |
| `EmbedderService.AllowedMeans` | nodes/embedder_4070/server.py:152-200 | which session headers, scopes and origins are accepted |
| `EmbedderService.RowsHoldTurn` | nodes/embedder_4070/server.py:202-213 | the rows' documents are the turn's text whole within the threshold, else split where needed and packed to target and overlap |
| `EmbedderService.RowsKnowTheirTurn` | nodes/embedder_4070/server.py:219-253 | each row has its own embedding, its id, and the fifteen labels of its turn |
| `EmbedderService.Embedder.MemoryEvent` | nodes/embedder_4070/server.py:298-318 | adds one shared row, or refuses a blank summary or source without change |
| `EmbedderService.Embedder.MemoryPromote` | nodes/embedder_4070/server.py:360-411 | already promoted, unknown row, wrong scope, missing embedding and success are told apart; only success adds a row |
| `EmbedderService.PromotionOutcome` | nodes/embedder_4070/server.py:368-411 | with a copy there already it is a no-op that says so; else 404 for an unknown row, 400 for one outside the private scope, and only otherwise a copy |
| `EmbedderService.PromotedRowSays` | nodes/embedder_4070/scopes.py:116-146 | the copy has text, vector and labels of its source, except that it is shared and says where it comes from |
| `Retrieval.QueryReadsOwnScopes` | nodes/embedder_4070/server.py:256-280 | every match is a stored row in a scope the member may read |
| `Retrieval.RankedIsWanted` | nodes/embedder_4070/server.py:256-280 | a query ranks each stored row it is about, as often as it is stored, and no other |
| `Retrieval.QueryIsExact` | nodes/embedder_4070/chroma_store.py:63-88 | matches come nearest first, and no ranked row left out is nearer than one returned |
| `Retrieval.WrittenIsReadable` | nodes/embedder_4070/server.py:185-280 | what a member writes passes its own filter, whatever the session, and shared rows pass everyone's |
| `Retrieval.WrittenIsStored` | nodes/embedder_4070/server.py:185-253 | after a write a chunk's own row is in the store if and only if its id was new or that very row was there already |
| `Retrieval.WriteAddsEachChunk` | nodes/embedder_4070/server.py:185-253 | the store grows by one row per chunk if and only if none of the turn's ids was taken |
| `Retrieval.ExcludedTurn` | nodes/embedder_4070/scopes.py:76-77 | excluding a turn hides exactly the chunks written under that session and turn index |
| `Retrieval.SessionOnly` | nodes/embedder_4070/scopes.py:74-75 | asking for a session finds exactly the chunks written under it |
| `Retrieval.EventIsShared` | nodes/embedder_4070/scopes.py:87-106 | a sensor event is readable by every member, appears among the shared rows and carries its own time |
| `Retrieval.EventSaysWho` | nodes/embedder_4070/server.py:298-318 | its row is the trimmed summary, embedded, under an id and labels that name the sensor and the reporter |
| `Timeline.FeedIsNewest` | nodes/embedder_4070/server.py:331-357 | the feed is sorted newest first, fills the clamped limit, and nothing fetched but left out is newer |
| `Timeline.FeedSize` | nodes/embedder_4070/server.py:331-357 | as many as asked for, at least 1 and at most 200, if there are that many shared rows |
| `Timeline.StrLeMeans` | nodes/embedder_4070/server.py:340 | timestamps compare by the first character in which they differ, a prefix coming first |
| `Timeline.FeedIsShared` | nodes/embedder_4070/server.py:344-357 | the feed shows shared rows only |
| `StableSort.SortFilter` | nodes/embedder_4070/server.py:340 | sorting commutes with filtering, so rows with equal timestamps keep their order |
| `StableSort.StableSortUnique` | nodes/embedder_4070/server.py:340 | any stable sorted permutation is the one the model computes |
| `Briefing.EventsAreNewestSince` | nodes/brainstem_4070/server.py:901-910 | within the fetch limit the events are the 50 newest shared rows at or after the cutoff |
| `Briefing.NewestSinceMeans` | nodes/brainstem_4070/server.py:904-910 | in plain words: newest first, at most 50, shared, not before the cutoff, and what is left out gave way to a full list of rows no older |
| `Briefing.BriefingEvents` | nodes/brainstem_4070/server.py:880-927 | so are the events of the briefing built from the service's feed, with its own cutoff |
| `Briefing.BriefingQueue` | nodes/brainstem_4070/server.py:897-900 | the queue lists id, sender and arrival of exactly the unanswered messages, in order |
| `FetchLimit.FetchLimitLosesNewest` | nodes/embedder_4070/chroma_store.py:98-102 | for every number of shared rows above 1000, posted events lead from an empty store to one where the newest is missed |
| `FetchLimit.FetchLimitExact` | nodes/embedder_4070/server.py:344-357 | the promise holds in every reachable store with n shared rows if and only if n is at most 1000 |
| `Briefing.BriefingHidesContents` | nodes/brainstem_4070/server.py:880-927 | two queues that differ only in what the messages say give the same briefing |
| `Briefing.BriefingIsShared` | nodes/brainstem_4070/server.py:901-910 | every event in a briefing is a stored shared row |
| `BriefingRuns.EdgesRightIff` | nodes/brainstem_4070/family_state.py:115-138 | over any run the store has the last sleep edge at every moment if and only if every restart finds it on disk |
| `BriefingRuns.BriefingSinceLastSleep` | nodes/brainstem_4070/server.py:880-895 | over any such run of wakes, drains, chats and restarts the briefing starts at the last time the member was put to sleep, or a day ago if it never was |
| `BriefingRuns.BriefingOverRun` | nodes/brainstem_4070/server.py:880-927 | over any such run its events are the 50 newest shared rows since that time |
| `BriefingRuns.LostEdgeForgotten` | nodes/brainstem_4070/family_state.py:106-107 | a sleep edge whose flush fails is forgotten by the next restart |
| `PresenceRuns.RunPresence` | nodes/brainstem_4070/family_state.py:115-129 | over any run a member has the presence last accepted for it since the hub started, or the default |
| `PresenceRuns.ChatFollowsPresence` | nodes/brainstem_4070/server.py:1039-1123 | so a chat is queued exactly when that is asleep or busy, refused exactly when it is waking, and else answered live |
| `PresenceRuns.ChatLeaves` | nodes/brainstem_4070/server.py:1055-1105 | a queued chat is last in the inbox and costs no turn, a refused one leaves nothing, a live one leaves the inbox alone |
| `PresenceRuns.StepEdgesIff` | nodes/brainstem_4070/family_state.py:121-129 | a step moves sleep and wake edge as it says if and only if it is no restart that misses them on disk |
| `PresenceRuns.DurableRunKeepsEdges` | nodes/brainstem_4070/family_state.py:90-138 | if every flush succeeds both edges are, over any run and its restarts, those of its last sleep and its last wake |
| `MemoryRuns.ChunkIdNotPromoted` | nodes/embedder_4070/server.py:221 | no chunk id can collide with a promoted id |
| `MemoryRuns.EventIdNotPromoted` | nodes/embedder_4070/server.py:309 | nor can an event id |
| `MemoryRuns.OpKeepsInv` | nodes/embedder_4070/server.py:185-411 | every operation keeps each promoted row's private source in place with the same document and embedding, and every scoped row unchanged |
| `MemoryRuns.RunKeepsInv` | nodes/embedder_4070/server.py:185-411 | the same for every reachable store |
| `MemoryRuns.PromoteOnce` | nodes/embedder_4070/server.py:360-411 | promotion adds exactly one copy with the same document, embedding and other metadata, and leaves the source; a second promotion changes nothing and says so |
| `Isolation.KeptStep` | nodes/embedder_4070/server.py:185-411 | an operation that is kept acts alike on the store with and without the dropped rows |
| `Isolation.StoresAgree` | nodes/embedder_4070/server.py:185-411 | after every prefix the two stores differ in the dropped, hidden rows only |
| `Isolation.NonInterference` | nodes/embedder_4070/scopes.py:45-78 | deleting any of a member's own-scope writes that nothing promotes changes no other member's query and no timeline |
| `Isolation.ResponsesUnchangedIff` | nodes/embedder_4070/server.py:360-411 | nor any other answer, except, and exactly, that of a promotion naming a deleted row while it is stored and not copied |
| `Isolation.ChunkIdInjective` | nodes/embedder_4070/server.py:191-222 | a chunk id determines session, turn index and chunk index |
| `Isolation.DistinctTurnsFresh` | nodes/embedder_4070/server.py:191-222 | turns under distinct (session, turn index) pairs share no row id |
| `Isolation.DistinctTurnsGiveFreshIds` | nodes/embedder_4070/server.py:191-309 | a run from the empty store in which no turn is written twice uses every dropped id once, events included |
| `Migration.MigratePage` | scripts/migrate_memory_scopes.py:96-107 | one page is planned, counted and, with apply, migrated; other rows are untouched |
| `Migration.Migrate` | scripts/migrate_memory_scopes.py:89-119 | for every page size the loop equals one backfill of all rows, and the counts reconcile |
| `Migration.ApplyPage` | scripts/migrate_memory_scopes.py:103-107 | updating by id with the page's plan migrates exactly that page |
| `Migration.BackfillScopesEverything` | nodes/embedder_4070/scopes.py:149-175 | afterwards every row has a scope, the unscoped ones the private scope, owner, origin and participants given; scoped rows and all other metadata are as before |
| `Migration.BackfillIdempotent` | scripts/migrate_memory_scopes.py:16-17 | a second run, even for another member, finds nothing to update |
| `Tiering.Storage.Find` | nodes/model_manager_4090/tiering.py:66-72 | hot if it is there, else warm, else cold, else none |
| `Tiering.Storage.EnsureHot` | nodes/model_manager_4090/tiering.py:75-117 | not found, already hot, a copy that raises and leaves its staging file, failed checksum and success are told apart; nothing but the staging name and, on success, the final name changes |
| `Tiering.Storage.EvictFromHot` | nodes/model_manager_4090/tiering.py:137-177 | removes exactly the shortest prefix of the candidates that frees enough, or all, and nothing else: what went was unpinned, no staging file and backed by a lower copy of its length, and no such file that is left was used before it |
| `Tiering.CandidatesAreEligible` | nodes/model_manager_4090/tiering.py:150-165 | the candidates are the eligible files of the listing, each once, least recently used first |
| `Tiering.CandidatesMean` | nodes/model_manager_4090/tiering.py:150-165 | in plain words: the hot files that are unpinned, not named as staging and have a lower copy of the same length |
| `Tiering.CutUnique` | nodes/model_manager_4090/tiering.py:167-177 | the number of files evicted is determined |
| `TieringRuns.StepKeepsSafe` | nodes/model_manager_4090/tiering.py:95-117 | each file-system step and a crash at any point keeps lower tiers, the set of weights and the wholeness of hot files |
| `TieringRuns.NothingLostOrTorn` | nodes/model_manager_4090/tiering.py:10-15 | whole runs with crashes anywhere: no weights disappear, a hot file is its old bytes or a complete lower copy |
| `TieringRuns.ContentPreserved` | nodes/model_manager_4090/tiering.py:66-177 | if all copies agree at the start they always do, and evicting and staging again restores the same bytes |
| `TieringRuns.PinnedStay` | nodes/model_manager_4090/tiering.py:152 | a weights file pinned at every eviction never leaves the hot tier, over any run and crash, whatever space is asked for |
| `TieringRuns.ContentKeptIff` | nodes/model_manager_4090/tiering.py:66-177 | over all runs and crashes every file keeps its content if and only if each file that eviction may delete equals its first lower copy |
| `TieringRuns.EvictionTrustsSizes` | nodes/model_manager_4090/tiering.py:155-161 | two copies of one size and different content are enough to lose the hot one |
| `TieringRuns.StagingIsRun` | nodes/model_manager_4090/tiering.py:95-106 | an uninterrupted staging is a run of the steps |
| `TieringRuns.FailedCopyIsRun` | nodes/model_manager_4090/tiering.py:97 | so is a copy that raises |
| `TieringRuns.EvictionIsRun` | nodes/model_manager_4090/tiering.py:167-177 | so is an uninterrupted eviction |
| `TokenStore.Store.ReloadIfChanged` | nodes/brainstem_4070/auth.py:275-299 | a missing file empties the cache, an unchanged stamp or an unreadable file keeps it, any other reloads |
| `TokenStore.Store.ListEntries` | nodes/brainstem_4070/auth.py:319-324 | returns the entries after a reload |
| `TokenStore.Store.Create` | nodes/brainstem_4070/auth.py:326-344 | a blank or taken name is refused; else the entry is appended and flushed; a failing flush raises with the entry kept in memory |
| `TokenStore.Store.Revoke` | nodes/brainstem_4070/auth.py:346-355 | removes the named entry, and flushes only if there was one; a failing flush raises |
| `TokenStore.Store.Verify` | nodes/brainstem_4070/auth.py:357-387 | the last matching entry is returned with its use recorded, or none; a failing flush is swallowed |
| `TokenStore.Store.FindMatch` | nodes/brainstem_4070/auth.py:369-377 | the walk over all entries finds the last match |
| `TokenStore.MintedLooksLikeToken` | nodes/brainstem_4070/auth.py:200-214 | every minted token has the shape that verification asks for, and different secrets give different tokens |
| `TokenStore.CreateMeans` | nodes/brainstem_4070/auth.py:326-344 | blank, taken and new names, without the white space around them; a new entry is unused and goes last |
| `TokenStore.RevokeMeans` | nodes/brainstem_4070/auth.py:346-355 | all entries of that name go, all others stay |
| `TokenStore.VerifyMeans` | nodes/brainstem_4070/auth.py:357-387 | a token verifies exactly when it has the shape and some hash accepts it; the last such entry gets its time and one more use |
| `TokenRuns.WriteKeepsInvIff` | nodes/brainstem_4070/auth.py:301-315 | for an instance that sees the current list, a request that changes it keeps equal stamps meaning equal entries if and only if its write gets through under a nonzero stamp that no other cache holds with other entries, or fails while the stamp held is not the file's |
| `TokenRuns.EventAgreesIff` | nodes/brainstem_4070/auth.py:275-387 | an instance serves every request as the shared list would if and only if there is no file, it is readable, unchanged or as cached, and whatever a request writes gets through under a harmless stamp |
| `TokenRuns.EventAgrees` | nodes/brainstem_4070/auth.py:275-387 | equal stamps mean equal entries, names stay distinct, and one request is answered as the shared list would |
| `TokenRuns.StoresActAsOneList` | nodes/brainstem_4070/auth.py:275-387 | any number of instances over any run answer exactly as one shared uncached list |
| `TokenRuns.CreatedVerifies` | nodes/brainstem_4070/auth.py:326-387 | a token created at one instance verifies at every instance, under its name, over any run in which it is not revoked |
| `TokenRuns.RevokedNeverVerifies` | nodes/brainstem_4070/auth.py:346-387 | once one instance has revoked a name, no instance verifies a token under it over any run until it is created anew |
| `TokenRuns.OthersUndisturbed` | nodes/brainstem_4070/auth.py:326-387 | no request disturbs the name or hash of an entry it is not about |
| `TokenRuns.ReusedStampHidesWrite` | nodes/brainstem_4070/auth.py:283-284 | a write under a stamp already cached elsewhere goes unseen |
| `TokenRuns.StaleWriteRevives` | nodes/brainstem_4070/auth.py:285-289 | an instance that cannot read the changed file and then creates a token writes a revoked one back |
| `TokenRuns.FailedCreateLingers` | nodes/brainstem_4070/auth.py:338-343 | a create whose flush fails raises, and its own instance alone goes on listing the token |
| `Base64.DecodeEncode` | nodes/brainstem_4070/auth.py:108-109 | base64 decoding undoes encoding for all bytes |
| `Base64.EncodeFree` | nodes/brainstem_4070/auth.py:106-115 | encoded fields never contain the separator |
| `Base64.StandardVectors` | nodes/brainstem_4070/auth.py:108-109 | the encoding is that of RFC 4648: the vectors of its section 10 |
| `Decimal.ParsePrint` | nodes/brainstem_4070/auth.py:107-126 | reading a printed number gives the number |
| `Decimal.OneMoreDigit` | nodes/brainstem_4070/auth.py:107 | a decimal digit appended is ten times the number plus the digit |
| `ScryptString.ParsePrintHash` | nodes/brainstem_4070/auth.py:106-134 | the parser recovers N, r, p, salt and digest of every printed hash string |
| `ScryptString.VerifyExact` | nodes/brainstem_4070/auth.py:113-147 | a stored hash accepts a token iff scrypt on it gives the recorded digest |
| `ScryptString.HashedTokenVerifies` | nodes/brainstem_4070/auth.py:95-147 | the hashed token verifies, for every salt |
| `ScryptString.HashText` | nodes/brainstem_4070/auth.py:95-110 | the stored string to the letter, with its parameters |
| `Builder.ValidateBuilderOutput` | bench/eval/tasks/builder.py:153-200 | no verdict exactly for an accepted workflow; otherwise the workflow has the named problem |
| `Builder.AcceptedIff` | bench/eval/tasks/builder.py:153-200 | accepted if and only if none of the fourteen problems is there |
| `Builder.CheckNodes` | bench/eval/tasks/builder.py:162-171 | every node is an object with name and whitelisted type, or a node with the named problem exists |
| `Builder.CheckConnections` | bench/eval/tasks/builder.py:177-186 | every connection joins known nodes, or one with the named problem exists |
| `Builder.BuildMaps` | bench/eval/tasks/builder.py:218-226 | the two maps list exactly the edges between nodes |
| `Builder.Visit` | bench/eval/tasks/builder.py:234-242 | the stack walk terminates and visits exactly the reachable nodes |
| `Builder.StructuralExecSim` | bench/eval/tasks/builder.py:203-243 | true iff there is exactly one node without incoming edges and every node is reachable from it |
| `Builder.Score` | bench/eval/tasks/builder.py:96-107 | valid iff accepted; executes iff accepted and structurally sound |
| `Builder.AcceptedKeepsEdges` | bench/eval/tasks/builder.py:214-226 | for accepted workflows there is a node and the edge guard drops no edge |
| `Builder.GraphIsWritten` | bench/eval/tasks/builder.py:214-226 | the graph has a node for every name and an edge for every connection of the workflow, and no more |
| `Stats.PercentilesAgree` | bench/eval/scoring.py:16-32 | the two percentile implementations agree for every fraction in [0, 1] |
| `Stats.PercentileMonotone` | bench/stats.py:13-24 | on ascending samples percentiles grow with the fraction and stay within the sample's range |
| `Stats.PercentileAtRank` | bench/stats.py:20-24 | at the fraction k / (n - 1) the percentile is exactly the k-th value |
| `Stats.PercentileIsStraight` | bench/stats.py:20-24 | between two neighbouring ranks it runs straight from the one value to the other |
| `Stats.ScoringClamps` | bench/eval/scoring.py:16-32 | a fraction outside [0, 1] counts as the nearer end |
| `Stats.SummaryOrdered` | bench/stats.py:27-45 | min <= p50 <= p95 <= p99 <= max and min <= mean <= max, after any monotone rounding |
| `Stats.SummaryMeans` | bench/stats.py:27-45 | minimum, maximum, the average of the values, and p50, p95 and p99 wherever they fall on a value or half way |
| `Stats.BootstrapCi` | bench/eval/scoring.py:35-73 | degenerate inputs give degenerate intervals; the nested loops compute the specified quantiles of the resample means |
| `Stats.BootstrapInterval` | bench/eval/scoring.py:47-73 | for all draws the interval stays within the values' range and lo <= hi for confidence >= 0 (hi <= lo for <= 0) |
| `Stats.BootstrapEnds` | bench/eval/scoring.py:68-73 | the ends are the percentiles of the resample means half the confidence below and above the middle |
| `Stats.MeanOfDrawn` | bench/eval/scoring.py:60-67 | each resample mean is the average of the values drawn |

## Left out

- HTTP, FastAPI routing, request clients, MQTT, Docker, the CLI and web clients and the dashboard: input, output and user interface.
- The tokenizer, embedding vectors, HNSW search, argon2, scrypt and SHA-256 themselves: foreign code, taken as arguments or as equality of bytes.
- Retrieval and prompt assembly inside a turn, metrics, the briefing attached to a drain's first turn, and the spoken briefing: they change neither the counters, the inbox nor memory.
- Two turns of one session at the same time: a turn is one step (a crash between its memory write and its durable counter is a turn whose flush is lost, then a restart).
- The legacy `/generate` endpoint, whose client-chosen session id shares the counter map: hub-minted ids are assumed distinct from it.
- An inbox store without a path, malformed token entries and session entries: the parsed, well-typed file is where the model starts (unusable inbox, session and token files are modelled).
- File-system interleavings inside one `TokenStore` call: operations are atomic.
- Extra leniency of Python's `base64.b64decode` and `int()` on malformed fields; both reject them here.
- Floating-point rounding: arithmetic is over the reals.
- JSON, YAML and fenced-block extraction: the builder model starts from the parsed value.
- `ModelManager`, registry loading, the STM ring buffer, heartbeat registry, best-of-N selection, code execution scoring and the remaining bench tasks: subprocesses, presentation, or members too easy to earn a place.
- HubTurns.RunKeepsBooks: assumes that each restart finds the session file up to date, because without it the property is false (`AlwaysBooksIff`).
- HubMemory.RunKeepsCustody: assumes the same, and that no write landed without its acknowledgement, because otherwise it is false (`StoredIff`).
- HubDelivery.NothingLost: assumes that each restart keeps the member registered and finds its messages on disk, because otherwise it is false (`DroppedMemberSurvives`, `NeverLosesIff`).
- BriefingRuns.BriefingSinceLastSleep: assumes that each restart finds the sleep edge on disk, because otherwise it is false (`EdgesRightIff`).
- Isolation.NonInterference: assumes that the dropped rows' ids are used by nothing else, which `DistinctTurnsGiveFreshIds` derives for runs in which no turn is written twice.
- TokenRuns.StoresActAsOneList: assumes that a reload misses nothing and that writes get through under harmless stamps, because otherwise it is false (`EventAgreesIff`, `StaleWriteRevives`).
- Migration.Migrate: the collection's ids are unique and its page order is stable, as the store guarantees.
