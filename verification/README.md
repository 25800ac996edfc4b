# Verified models of the Moxie appliance

Dafny models of the parts of this repository whose correctness is not visible from one
function body, with proofs of what they promise. `dafny verify dfyconfig.toml` checks the
whole project.

- **The durable JSON store** (`StoreProtocol`, `StoreSafety`, `StoreAccounting`,
  `JsonStore`). A step system of any number of store instances (processes) with any number of
  threads: the in-process re-entrant lock, the advisory lock on a sidecar file, per-thread
  nesting, timeouts, temp file and rename, failed writes and reads, and a crash of any
  instance at any point. Safety is proved over every reachable state, and the methods of one
  store object against the same operations.
- **The telemetry log and view** (`Telemetry`, `Ingest`, `IngestTheorems`, `RepairRace`). A
  ring of numbered packets and a daily roll-up with a watermark, written separately, so either
  write can be lost; the driver that numbers, reconciles, folds and appends; exactly-once
  counting over every run, also while any number of reads repair the roll-up without the
  ingest's lock.
- **The text pipeline** (`Text`, `Segmenter`, `Speech`, `Vocab`, `AutoMarkup`, `Clauses`,
  `ClauseTheorems`, `Floor`, `FloorTheorems`, `FloorSpacing`, `FloorMarks`, `FloorStage`,
  `Planner`, `Performing`, `PlannerTheorems`, `PlannerLimits`, `PlanBeats`, `PlanMarks`). A
  streaming sentence splitter equal to its batch form; two generators of behaviour markup that
  leave the spoken words alone, observed through `strip_markup`, and what every mark of a floor
  line, every beat of a plan and every mark of a rendered plan is.
- **Accounts, codes and robots** (`Pairing`, `PairingTheorems`). Three transactions over four
  tables, and what they keep over every run of the endpoints that write those tables.
- **Codecs and bounded records** (`Wire`, `Tidying`, `Cards`, `TagTheorems`, `CardTheorems`, `MemoryItems`,
  `MemoryStore`, `MemoryTheorems`, `MemoryRecord`, `MemoryRecordTheorems`, `Roster`,
  `RosterTheorems`, `Presence`).

`Basics` and `Wrappers` hold what several of them share.

Text is a sequence of characters with the exact whitespace and emoji classes the patterns
use; letter and digit tables, the cue tables, the digest behind gesture positions, item ids,
case folding and text decoding are parameters, so every theorem holds for any of them.

## Where the code and its description differ

Each of these is proved with a concrete input, and, unless the line says that it goes one way,
with the exact condition.

- The planner stops at 96 beats. A comment says the rest is "performed as plain text"
  (mqtt/moxie_sdk/performance.py:69-70); the loop ends and the words are not performed
  (`PlannerLimits.CapDropsWords`). The performance is complete exactly when no audible word
  lies beyond the cap (`PlannerTheorems.PlannerWords`).
- The floor lays an arm gesture on top of a whole-body tree when the model hinted one on the
  first sentence (`Floor.TreeAndArm`).
- Talking gestures are placed five words apart and clear of a sentence's last two words, but a
  question or an exclamation is wrapped in a delivery span and emits all of its gestures after
  it: two of them stand side by side, after the last word (`FloorSpacing.WrappedTalksTouch`).
  They are apart exactly when no sentence is wrapped around two or more
  (`FloorSpacing.LineSpacing`), and clear of the last words exactly when a wrapped sentence has
  none and no hint of one falls on a first sentence of one or two words
  (`FloorSpacing.SentenceTail`).
- `claim_robot` compares records with the id as given but stores a record whose identity is
  the trimmed id: the one-account rule holds for every state exactly for trimmed or blank ids
  (`PairingTheorems.ClaimRule`). Its only caller trims. Editing a record checks no other
  account (`PairingTheorems.EditKeepsExclusive`). Over a run the rule holds exactly when every
  claim and edit is safe in its state (`PairingTheorems.OneAccountPerIdentity`). Registering a
  used code opens it again (`PairingTheorems.RegisteringReopens`).
- A card whose second `launch` tag is malformed is accepted, although the guard is described
  as "exactly one `launch`" (`CardTheorems.MalformedSecondTagIsAccepted`).
- A read error inside an append is answered with the default, so the append forgets the list
  (`StoreAccounting.FailedReadLosesItems`, exactly as `BlindAppendForgets` says). A lock file
  that cannot be opened leaves no exclusion (`StoreAccounting.UnlockedAppendsLoseAnItem`); this
  goes one way: with every lock file open no update is lost (`StoreSafety.NoLostUpdate`), and
  not every run without one loses something.
- A ring of capacity 0 can hand a packet's number to the next one
  (`IngestTheorems.EmptyRingReusesNumbers`): exactly when an ingest loses its roll-up write and
  its ring write drops a number the roll-up does not know (`IngestTheorems.NumbersStayNew`).
- A read of the roll-up writes its repair back without the ingest's lock, and takes the roll-up
  before the ring, where a comment says that every observer reads the ring first
  (mqtt/supervisor/moxie_runtime/telemetry.py:86-88). An ingest in between whose packet did not
  reach the ring is wiped out by the write-back (`RepairRace.RacingRepairLosesAPacket`), and its
  number may come back (`RepairRace.RacingRepairReusesANumber`). The total is exact if and only
  if nothing was wiped out or evicted unfolded (`RepairRace.RaceCounts`), and numbers stay new
  exactly when no step lets the highest one fall (`RepairRace.RaceNumbersStayNew`).
- A correction of one remembered item is written through the caps of the whole record: it can
  cost another namespace, or its own, although the item is answered as corrected
  (`MemoryRecordTheorems.CorrectionLosesAnother`, `CorrectionLosesItself`). It changes nothing
  else exactly when the corrected record is within the caps
  (`MemoryRecordTheorems.EditStoresTheCorrection`).
- Correcting an item and learning its old sentence again puts one id on two items
  (`MemoryTheorems.RelearningACorrectedText`); erasing an id also takes foreign records of
  the list that carry it (`MemoryTheorems.EraseTakesForeignValues`).
- A run that opens with a loss and a find inside the flicker window announces a departure
  nobody arrived for, with a presence of 0 seconds (`Presence.LeavingFirst`).

## Model

| member | source | states |
|---|---|---|
| StoreSafety.NoLostUpdate | mqtt/moxie_sdk/store.py:279-318 | over every interleaving of instances, threads, timeouts and crashes the file is the committed operations in commit order, each applied to what its predecessor left |
| StoreSafety.CommitWrites | mqtt/moxie_sdk/store.py:320-408 | in every reachable state with its lock files open a commit leaves: of a write its document, of an update its function of the record as it is at that moment, of an append the newest items of that record and its own; a failed read counts as the default, and no other record changes |
| StoreSafety.MutualExclusion | mqtt/moxie_sdk/store.py:226-318 | two threads inside one record, of one instance or of two, are one thread, and it holds the advisory lock |
| StoreSafety.LocksBalance | mqtt/moxie_sdk/store.py:226-318 | in every reachable state a thread has at most one descriptor per record, depth is positive exactly while the record is held, and a thread outside every block holds nothing |
| StoreAccounting.RunsAreSerial | mqtt/moxie_sdk/store.py:350-433 | the record is the serial execution of its commits whenever no read inside a transaction failed |
| StoreAccounting.RunConserves | mqtt/moxie_sdk/store.py:350-433 | over every run and for calls of any kind (all of them, the appends, the deletes and so on), those begun are committed, refused, killed by a crash or still in flight |
| StoreAccounting.AppendsReplay | mqtt/moxie_sdk/store.py:389-408 | replaying appends with one cap leaves the last min(cap, number) of the items, oldest first |
| StoreAccounting.UpdatesAddUp | mqtt/moxie_sdk/store.py:320-355 | over every interleaving in which each committed operation on a record puts its own items behind what it has read, the record is what it was and then all of those items, in commit order |
| StoreAccounting.AppendsAccounted | mqtt/moxie_sdk/store.py:389-408 | in a crash-free run at rest, from any record: the appends begun are those in the record plus those refused; what was there comes first; with a cap the record is the newest items of that cap; with nothing appended it is as it was |
| StoreAccounting.UnlockedAppendsLoseAnItem | mqtt/moxie_sdk/store.py:297-300 | the fallback without a lock: two committed appends, one item on disk |
| StoreAccounting.BlindAppendForgets | mqtt/moxie_sdk/store.py:389-408 | after any log an append computed from a failed read leaves another record than a good read would if and only if the record held items and the cap lets more than one stand |
| StoreAccounting.FailedReadLosesItems | mqtt/moxie_sdk/store.py:200-207 | a reachable, locked run in which a failed read costs the record its items |
| JsonStore.WaitFlock | mqtt/moxie_sdk/store.py:244-267 | the polling loop is the recursive wait: granted or refused, with the requested sleep and the number of polls, and never reports less waiting than it asked for |
| JsonStore.PollBounds | mqtt/moxie_sdk/store.py:244-267 | polling ends, sleeps at most the budget and exactly the budget when refused, polls no more often than the budget holds base delays, and is granted by the first poll that succeeds |
| JsonStore.SleepsAddUp | mqtt/moxie_sdk/store.py:244-267 | what is slept in all is the budget, or, if less, one half millisecond, one, and two for each further refused poll, each with its jitter |
| JsonStore.ClampDiscardsNothing | mqtt/moxie_sdk/store.py:79-88 | clamping the exponent changes no delay, for any attempt |
| JsonStore.Store.Begin | mqtt/moxie_sdk/store.py:279-318 | entering a block: granted as a re-entry, without the advisory lock when its file does not open, or within the budget; otherwise everything taken is given back and the refusal counted |
| JsonStore.Store.End | mqtt/moxie_sdk/store.py:279-318 | leaving a block on any way out restores lock count, depth and descriptors |
| JsonStore.Store.WritePath | mqtt/moxie_sdk/store.py:357-378 | the new document or the old one, never a part; no temp file is left |
| JsonStore.Store.LockedWrite | mqtt/moxie_sdk/store.py:350-355 | written exactly when granted and writable; every lock as before |
| JsonStore.Store.AppendPath | mqtt/moxie_sdk/store.py:389-408 | the list with the item, trimmed, returned and on disk, or nothing changes; a failed read counts as an empty list |
| JsonStore.Store.LockedDelete | mqtt/moxie_sdk/store.py:418-433 | true exactly when a file was there and is gone |
| Telemetry.RollUpPacket | mqtt/moxie_sdk/telemetry.py:296-337 | the in-place fold is the specified one: day, names, extremes, watermark, total, retired days |
| Telemetry.Prune | mqtt/moxie_sdk/telemetry.py:296-337 | retiring the oldest day until the cap holds keeps exactly the newest days and counts the rest |
| Telemetry.TopMeans | mqtt/moxie_sdk/telemetry.py:296-337 | a day is kept exactly when fewer than `cap` of the days are later |
| Telemetry.FoldCountsOnce | mqtt/moxie_sdk/telemetry.py:243-337 | folding a packet adds one to the row of the day of its own time if that lies between the start of 2020 and a day after arrival, else of the day it arrived, under its name while there is room, with first and last around that time; no other row changes, the days kept are the newest, dropped days, total, watermark and time of update are exact |
| Telemetry.RowStaysTruthful | mqtt/moxie_sdk/telemetry.py:296-337 | a row stays exact: count, first and last time, and per-name counts that sum to it over at most the name cap plus one |
| Telemetry.ViewRefinesGroupBy | mqtt/moxie_sdk/telemetry.py:243-337 | after any history the view is the unbounded group-by of the packets by the day they count for, cut to its newest days, each row exact over the whole history, the total its length |
| Ingest.ComputeNextSeq | mqtt/moxie_sdk/telemetry.py:363-375 | one above every number the ring or the roll-up knows |
| Ingest.ReconcileRollup | mqtt/moxie_sdk/telemetry.py:391-398 | the loop folds the missing packets in order of their numbers |
| Ingest.ReconcileCompletes | mqtt/moxie_sdk/telemetry.py:378-398 | after reconciling nothing is unfolded, and reconciling again changes nothing, for any roll-up and any ring |
| Ingest.FoldingWithoutReconcileSkips | mqtt/moxie_sdk/telemetry.py:129-141 | folding first moves the watermark past a lost packet for good |
| Ingest.Recorder.Persist | mqtt/supervisor/moxie_runtime/telemetry.py:83-121 | number, reconcile, fold, write the roll-up, append to the ring, with each write's fate open |
| Ingest.Recorder.ReadView | mqtt/supervisor/moxie_runtime/telemetry.py:45-65 | a read answers with the reconciled view of the two records it read, which an ingest may have outdated, and writes it back when something was missing |
| IngestTheorems.RunKeepsGood | mqtt/supervisor/moxie_runtime/telemetry.py:83-121 | every run in which no step forgets a number keeps the books: what is folded, on the ring, or lost |
| IngestTheorems.ExactlyOnce | mqtt/moxie_sdk/telemetry.py:342-398 | for every run in which either write of any ingest may be lost, each repair is one step and no step forgets a number: each durable packet counts once, no two share a number, and the total is exact if and only if none was evicted unfolded |
| IngestTheorems.NumbersStayNew | mqtt/moxie_sdk/telemetry.py:363-375 | over every run from unnumbered records each number handed out is new if and only if no step loses its roll-up write while a ring of capacity 0 drops a number past the watermark |
| IngestTheorems.StepReuses | mqtt/moxie_sdk/telemetry.py:363-375 | after any step of such a run the next number is already in use if and only if the step was that one |
| IngestTheorems.KeptTwice | mqtt/supervisor/moxie_runtime/telemetry.py:83-121 | once the next number is in use, the next packet that is kept gives two durable packets one number |
| IngestTheorems.EmptyRingReusesNumbers | mqtt/moxie_sdk/telemetry.py:363-375 | a run with a ring of capacity 0 in which two durable packets share a number |
| RepairRace.RaceCounts | mqtt/supervisor/moxie_runtime/telemetry.py:45-121 | over every interleaving of ingests with any number of reads, each reading the roll-up, then the ring, then writing back, in which no step rewinds: every stored packet is counted once, evicted unfolded or wiped out by a write-back, and the total is exact if and only if there are none of the last two |
| RepairRace.CoveredRacesCount | mqtt/supervisor/moxie_runtime/telemetry.py:45-121 | if every ingest that falls into a read puts its packet on the ring or writes nothing, nothing is ever wiped out and no number reused: the total misses the evicted packets alone |
| RepairRace.ApartIsCovered | mqtt/supervisor/moxie_runtime/telemetry.py:45-121 | so in particular when no ingest falls between the steps of a read |
| RepairRace.RaceNumbersStayNew | mqtt/moxie_sdk/telemetry.py:363-375 | over every such interleaving each number is new among all packets ever stored if and only if no step lets the highest known number fall |
| RepairRace.RacingRepairLosesAPacket | mqtt/supervisor/moxie_runtime/telemetry.py:45-65 | an interleaving with three packets stored, none evicted and two counted |
| RepairRace.RacingRepairReusesANumber | mqtt/supervisor/moxie_runtime/telemetry.py:45-65 | one after which a stored packet is in neither record and its number is the next |
| Segmenter.SentenceSegmenter.FindBoundary | mqtt/moxie_sdk/segment.py:103-131 | the index loop finds the first boundary |
| Segmenter.SentenceSegmenter.Feed | mqtt/moxie_sdk/segment.py:80-94 | feeding releases exactly the sentences draining finds complete, and keeps the rest |
| Segmenter.SentenceSegmenter.Flush | mqtt/moxie_sdk/segment.py:96-100 | flushing releases what is left, trimmed, and empties the buffer |
| Segmenter.SegmentText | mqtt/moxie_sdk/segment.py:150-153 | the batch form is one feed and a flush |
| Segmenter.TerminatesMeans | mqtt/moxie_sdk/segment.py:40-147 | `!` and `?` always end a sentence; a full stop does if and only if no other one is beside it, no digit is on both sides, and the longest run of letters, digits and dots before it is neither an abbreviation of the table nor a single letter |
| Segmenter.BoundaryIsFirst | mqtt/moxie_sdk/segment.py:103-147 | the scan finds exactly the first cut that leaves a long enough sentence ended by such a terminal and its closers, with a gap and more text after it; none when there is none |
| Segmenter.BoundaryExtends | mqtt/moxie_sdk/segment.py:103-147 | a boundary found in a buffer stays the first one under any extension |
| Segmenter.DrainExtends | mqtt/moxie_sdk/segment.py:80-94 | draining, growing the remainder and draining again is draining all at once |
| Segmenter.StreamingEqualsBatch | mqtt/moxie_sdk/segment.py:80-153 | for every text and every cutting into chunks the streamed sentences are the batch ones |
| Segmenter.SegmentKeepsWords | mqtt/moxie_sdk/segment.py:80-153 | segmentation adds, drops and reorders no word |
| Segmenter.BoundaryIsFinished | mqtt/moxie_sdk/segment.py:103-147 | what is cut off is long enough and ends like a sentence |
| Segmenter.SegmentPieces | mqtt/moxie_sdk/segment.py:80-153 | every piece but the last is finished; every piece is trimmed and not empty |
| Text.TidyIsJoin | mqtt/moxie_sdk/tts.py:39-47 | collapsing and trimming whitespace is joining the words by single spaces |
| Speech.StripFlatten | mqtt/moxie_sdk/tts.py:21-47 | what is spoken of any line of marks, tags and text is its cleaned words, joined |
| AutoMarkup.Render | mqtt/moxie_sdk/automarkup.py:441-462 | the loop renders the token stream with one space between its words |
| AutoMarkup.PiecesSpeak | mqtt/moxie_sdk/automarkup.py:441-462 | any clean token stream renders to a line that speaks its word tokens |
| AutoMarkup.RenderingSpeaksTheText | mqtt/moxie_sdk/automarkup.py:441-462 | a clean stream with the text's own words is spoken as the text |
| Clauses.ComputeClauseBounds | mqtt/moxie_sdk/automarkup.py:254-262 | the loop computes the clause bounds |
| Clauses.BoundsTile | mqtt/moxie_sdk/automarkup.py:254-262 | the clauses tile the word indices of a sentence |
| ClauseTheorems.ClausesEndAtMarks | mqtt/moxie_sdk/automarkup.py:254-262 | the clauses are the sentence's words cut exactly after those that end in a clause mark |
| ClauseTheorems.BoundsAreClauses | mqtt/moxie_sdk/automarkup.py:254-262 | a span is a clause bound if and only if it starts the sentence or follows a mark, ends it or is ended by one, and has none inside |
| ClauseTheorems.GenreIs | mqtt/moxie_sdk/automarkup.py:229-236 | a sentence is a question or excited if and only if it ends in that mark, closers and then gaps aside |
| Clauses.ClauseRunsKeepWords | mqtt/moxie_sdk/performance.py:334-336 | cutting a sentence into clauses keeps its words in order |
| Floor.PlaceGestures | mqtt/moxie_sdk/automarkup.py:401-438 | the loops place the specified gestures |
| FloorMarks.GesturesAre | mqtt/moxie_sdk/automarkup.py:401-438 | a word of a sentence shows a gesture if and only if the caps leave room and it is the hint on the line's first word, what the word's clause cues, or the talking gesture a whole number of strides behind the last of those, where the digest lets it through, clear of the sentence's end |
| FloorSpacing.SentenceSpacing | mqtt/moxie_sdk/automarkup.py:334-367 | the talking gestures a sentence emits have at least five spoken words between any two if and only if it is not wrapped in a delivery span or fewer than two were placed in it |
| FloorSpacing.SentenceTail | mqtt/moxie_sdk/automarkup.py:334-367 | none is emitted in or after the last two words if and only if a wrapped sentence has none, and another one has no hint of that gesture on a first sentence of at most two words |
| FloorSpacing.LineSpacing | mqtt/moxie_sdk/automarkup.py:268-374 | for every text, table and hint all talking gestures of the line are at least five words apart if and only if no sentence is wrapped around two or more |
| FloorSpacing.WrappedTalksTouch | mqtt/moxie_sdk/automarkup.py:351-367 | a question of 14 words emits two talking gestures side by side after its last word |
| FloorTheorems.OneSentenceCounts | mqtt/moxie_sdk/automarkup.py:401-438 | a sentence emits at most three arm gestures, and the line never more than six |
| Floor.TreeAndArm | mqtt/moxie_sdk/automarkup.py:401-438 | a sentence with a tree has no arm gesture, if and only if not the first with a hint |
| Floor.Annotate | mqtt/moxie_sdk/automarkup.py:268-374 | the imperative generator is the specified token stream, rendered |
| FloorStage.LineIsStaged | mqtt/moxie_sdk/automarkup.py:268-374 | the emitted tokens, whole: before the first sentence the cued icon, on chunk 0 one mood (a known hint's, else the text's) at the clamped strength, and the stinger; around every word exactly its pause, span end or opening, and gesture; behind a delivery span its gestures and behind the cueing sentence the look's or the first cued tree; breaks exactly between sentences and behind a leading interjection; then rest and the cleared screen |
| FloorStage.AnnotatedIsStaged | mqtt/moxie_sdk/automarkup.py:268-374 | for every text, table, hint and setting the generator returns the text as it is, exactly if it is blank, marked or has no sentence, or such a line rendered |
| FloorTheorems.FloorKeepsWords | mqtt/moxie_sdk/automarkup.py:46-48 | for every text, table, hint and setting the floor changes no spoken word |
| FloorTheorems.FloorIsIdempotent | mqtt/moxie_sdk/automarkup.py:268-374 | annotating an annotated line changes nothing, for any text and whatever either caller asks for; the first pass changes the text exactly when it is plain and holds a sentence |
| FloorTheorems.LineRules | mqtt/moxie_sdk/automarkup.py:320-328 | a line has at most six arm gestures and one tree, exactly one mood on chunk 0 and none later |
| Planner.MakePlan | mqtt/moxie_sdk/performance.py:354-509 | the planner's loops lay out the specified beats up to the cap, or refuse the line |
| PlanBeats.PlanObeys | mqtt/moxie_sdk/performance.py:339-509 | for every text and stage: refused exactly if blank, marked, overlong or without a sentence; else every beat, given only those before it, stands between two talking positions of a clause and speaks the words between, and has exactly the gesture (the hint, the act's, the clause's cue, or the talking one while there is room), face, strength, tree, gaze, icon, sound, delivery and pause the line calls for, up to the cap |
| Planner.LayBeats | mqtt/moxie_sdk/performance.py:408-495 | the beat loop is the full layout cut at the cap |
| Performing.ValidatePerformance | mqtt/moxie_sdk/performance.py:586-643 | the gate's loop is the specified projection, with every refused value and its slot recorded in order |
| Performing.ValidateProjects | mqtt/moxie_sdk/performance.py:586-643 | the gate names only known ids, keeps every word, and is the identity exactly on what already does |
| Performing.ValidateSlots | mqtt/moxie_sdk/performance.py:586-643 | slot by slot: a beat keeps each value its own catalog has and loses each other one, whatever else is refused |
| Performing.ValidateLine | mqtt/moxie_sdk/performance.py:586-643 | and so does the line with its act, emotion, signal and mood; its intensity is moved into range |
| Performing.ValidateRecordsWhat | mqtt/moxie_sdk/performance.py:568-643 | a value is newly recorded if and only if some beat or the line has it in the named slot and no catalog has it |
| Performing.ValidateRecords | mqtt/moxie_sdk/performance.py:568-643 | the record of drops only grows, and grows exactly when some id, mood, beat intensity or pause is refused: an empty id is none, and the line's own intensity is corrected without a record |
| Performing.RenderPlan | mqtt/moxie_sdk/performance.py:649-690 | the render loop produces the specified line |
| PlanMarks.PlanIsPlayed | mqtt/moxie_sdk/performance.py:649-690 | a rendered plan is, beat by beat, exactly the marks its fields call for (screen, face, sound, effect, tree or else gaze, arm, in that order), its words in their delivery and its pause, rendered as the floor renders its tokens, then rest, and the screen cleared if an icon was shown |
| Performing.RenderSpeaks | mqtt/moxie_sdk/performance.py:649-690 | a rendered performance speaks its beats' words in order |
| PlannerTheorems.PlannerWords | mqtt/moxie_sdk/performance.py:408-495 | the performed words are a prefix of the line's, and all of them exactly when no audible word lies beyond the cap |
| PlannerTheorems.ShortPlansKeepWords | mqtt/moxie_sdk/performance.py:408-495 | within the cap nothing is lost |
| PlannerLimits.SentenceLimits | mqtt/moxie_sdk/performance.py:418-489 | a sentence shows at most three gestures and only the first moves the body |
| PlannerLimits.PlanLimits | mqtt/moxie_sdk/performance.py:354-509 | a line shows at most six gestures, two face changes on chunk 0 and none later, one tree |
| PlannerLimits.CapDecides | mqtt/moxie_sdk/performance.py:69-70 | without emoji every word is performed if and only if the full layout fits the cap |
| PlannerLimits.CapDropsWords | mqtt/moxie_sdk/performance.py:69-70 | a 97-clause line the planner accepts loses words |
| Pairing.Database.BindScannedRobot | server/moxie_server/db.py:153-178 | the scan transaction: outcome and all four tables |
| Pairing.Database.ClaimRobot | server/moxie_server/db.py:181-219 | the claim transaction, rolled back as a whole on an error |
| Pairing.Database.UnpairRobot | server/moxie_server/db.py:128-140 | the unpair transaction: the row, the count of voided codes, the tables |
| Pairing.Database.RegisterPairing | server/moxie_server/routes/robots.py:23-27 | registering opens the code, also when it was used |
| PairingTheorems.OneAccountPerIdentity | server/moxie_server/db.py:153-219 | over every run two records naming one MQTT identity are on one account all along if and only if each claim that creates a record and each edit that meets one names an identity no other account's record has |
| PairingTheorems.CarefulRunsAreSafe | server/moxie_server/db.py:181-219 | trimmed claims and edits that set no identity are safe in every state, so runs of them keep the rule |
| PairingTheorems.ClaimOutcome | server/moxie_server/db.py:181-219 | which outcome a claim gives, by who names the id, what the account has and which keys are free; only a creation changes anything |
| PairingTheorems.ClaimRule | server/moxie_server/db.py:181-219 | a claim keeps identities apart in every state if and only if the id is trimmed or blank |
| PairingTheorems.EditKeepsExclusive | server/moxie_server/routes/robots.py:58-70 | an edit of the identity keeps the rule exactly when nobody else names the new one |
| PairingTheorems.CodeMoves | server/moxie_server/db.py:123-178 | between registrations a code moves only from open, to used by its bound scan or to void by an unpair of its account |
| PairingTheorems.BoundOncePerRegistration | server/moxie_server/db.py:153-178 | over every run a code binds at most once per registration, an open code being one not spent |
| PairingTheorems.RegisteringReopens | server/moxie_server/routes/robots.py:23-27 | a spent code binds nothing; registered again it binds the next scan if and only if that robot is new and its identity on no other account |
| PairingTheorems.SecondRegistrationBindsAgain | server/moxie_server/routes/robots.py:23-27 | a run in which a code registered twice binds twice |
| PairingTheorems.VoidedNeverBinds | server/moxie_server/db.py:128-140 | no code open at a successful unpair binds afterwards unless registered anew |
| PairingTheorems.ClaimMakesTheOnlyRobot | server/moxie_server/db.py:181-219 | a created record is the account's only robot and names a child of the account; other accounts keep theirs |
| PairingTheorems.ClaimAgain | server/moxie_server/db.py:181-219 | a repeated claim finds its own record exactly when the id is trimmed, and changes nothing |
| PairingTheorems.UnpairUndoesBind | server/moxie_server/db.py:128-178 | unpairing takes back exactly what the scan bound and voids the account's other open codes |
| PairingTheorems.UnpairTwice | server/moxie_server/db.py:128-140 | a repeated unpair changes nothing |
| Wire.ReadVarint | mqtt/moxie_sdk/stt.py:289-298 | the shifting loop reads the base-128 value and its end, or runs out |
| Wire.WriteVarint | mqtt/moxie_sdk/stt.py:344-356 | the loop writes the base-128 form and refuses negatives |
| Wire.VarintRoundTrip | mqtt/moxie_sdk/stt.py:289-356 | a written varint is read back at any offset before anything with its exact end |
| Wire.WrittenIsMinimal | mqtt/moxie_sdk/stt.py:344-356 | the written form is the shortest, and a form is the written one exactly when it has no padding zero |
| Wire.DecodeZmqSttFrame | mqtt/moxie_sdk/stt.py:301-337 | the reader's loop on any bytes, which always ends |
| Wire.FrameRoundTrip | mqtt/moxie_sdk/stt.py:301-380 | a request frame of any fields is read as the last value of fields 2, 3 and 4; another message's frame is not read |
| Wire.CutMessage | mqtt/moxie_sdk/stt.py:301-337 | a message cut in its last field is refused exactly when the cut falls in a varint; a cut payload is taken shorter |
| Wire.MessagesDiffer | mqtt/moxie_sdk/stt.py:359-370 | two messages with the same bytes have the same fields in the same order |
| Wire.EncodeResponse | mqtt/moxie_sdk/stt.py:401-420 | the answer's fields in number order, the error fields only when set |
| Wire.ResponseReadBack | mqtt/moxie_sdk/stt.py:401-420 | whoever reads the message as fields, taking the last of each number and the default of an absent one, gets the answer back; an error field is there exactly when it is set |
| Wire.ResponsesDiffer | mqtt/moxie_sdk/stt.py:401-420 | leaving unset fields out loses nothing: different answers differ on the bus |
| Cards.FieldsOf | mqtt/moxie_sdk/actions.py:67-74 | the popping loop drops exactly the trailing empty fields |
| Cards.ParseActionTags | mqtt/moxie_sdk/actions.py:100-121 | substitution removes the tags we own, closes their gaps and collects their actions in order |
| TagTheorems.TagGrammar | mqtt/moxie_sdk/actions.py:57-59 | a bracketed run is read as a tag if and only if it is a gap, a word that starts with a letter or underscore, a gap, and nothing or a colon with arguments; the name in small letters |
| TagTheorems.PieceMeans | mqtt/moxie_sdk/actions.py:78-121 | every piece by its shape: a tag of one of the four names goes and asks for its action or, malformed, for none; everything else stays and does nothing |
| Tidying.TidyKeepsContent | mqtt/moxie_sdk/actions.py:61-97 | tidying keeps every character that is not whitespace, in order, and leaves nothing exactly of a blank text |
| Tidying.TidyProjects | mqtt/moxie_sdk/actions.py:61-97 | a tidied text is trimmed, has no blank before a blank, a stop mark or a line end and no three line ends together; exactly the texts already so are unchanged |
| CardTheorems.RoundTrip | mqtt/moxie_sdk/launch_cards.py:82-125 | only a catalog id is printed, an empty content id as none; for every catalog id and content id printing and reading are inverse if and only if the content is absent, or trimmed, not empty, free of brackets and colons, and short enough |
| CardTheorems.DecodedIsClean | mqtt/moxie_sdk/launch_cards.py:94-125 | whatever is accepted launches a catalog activity with a content id a card can carry |
| CardTheorems.AcceptedExactly | mqtt/moxie_sdk/launch_cards.py:94-125 | a string is accepted if and only if it is short enough and is the marker followed by nothing but gaps and launch tags, exactly one of them well formed and naming a catalog activity |
| CardTheorems.ReprintMeansTheSame | mqtt/moxie_sdk/launch_cards.py:82-125 | for every accepted string reading, printing and reading again gives the same launch |
| CardTheorems.MalformedSecondTagIsAccepted | mqtt/moxie_sdk/launch_cards.py:100-119 | a second, malformed launch tag does not refuse a card |
| MemoryItems.ComputeUniqueId | mqtt/moxie_sdk/memory_items.py:77-84 | widening ends, by the taken ids it uses up, on the first free one |
| MemoryItems.UniqueIdIsFree | mqtt/moxie_sdk/memory_items.py:77-84 | the id is free, the candidate exactly when that was, else the candidate with the first free number from 1 on |
| MemoryItems.NormalizeItems | mqtt/moxie_sdk/memory_items.py:104-127 | the migration loop is the specified one |
| MemoryItems.NormalizeIsDistinct | mqtt/moxie_sdk/memory_items.py:104-127 | migrated items have pairwise different ids, each the one it asks for unless that is taken; no text, clock, pin, own provenance or foreign value changes |
| MemoryItems.NormalizeIdempotent | mqtt/moxie_sdk/memory_items.py:104-127 | migrating twice is migrating once |
| MemoryStore.ComputeMerge | mqtt/moxie_sdk/memory_store.py:176-204 | the merge loops, over both lists, the stored copies and the seen keys |
| MemoryTheorems.MergeUnion | mqtt/moxie_sdk/memory_store.py:176-204 | a merged list has distinct texts, keeps to its cap, and keeps every text of both sides exactly when they fit |
| MemoryTheorems.MergeOrder | mqtt/moxie_sdk/memory_store.py:189-204 | a merged list keeps the order of first appearance, newest values in front when prepending |
| MemoryTheorems.MergedIsSettled | mqtt/moxie_sdk/memory_store.py:176-204 | every entry is the first value of its key, and a learned item carries the id, pin and clock (unless it brings its own) of the stored item of its text |
| MemoryTheorems.MergeIds | mqtt/moxie_sdk/memory_store.py:176-204 | a merged list as returned has pairwise different ids if and only if no newly learned item has the id of a stored item of another text, with an item getting in under both and both within the cap |
| MemoryTheorems.RelearningACorrectedText | mqtt/moxie_sdk/memory_store.py:176-204 | a corrected item and its old sentence, learned again, share an id in every merged list with room for both |
| MemoryRecord.MemoryFile.EraseItem | mqtt/moxie_sdk/memory_store.py:272-286 | erasing an item of one namespace: the first list that has the id loses it, every other list and namespace stays |
| MemoryTheorems.EraseRemovesOne | mqtt/moxie_sdk/memory_store.py:272-286 | erasing touches one list; of a list of items exactly one goes and nothing moves; refused exactly when no list has the id |
| MemoryTheorems.EraseTakesForeignValues | mqtt/moxie_sdk/memory_store.py:73-74 | a foreign record with the same id goes too |
| MemoryRecord.MemoryFile.EditItem | mqtt/moxie_sdk/memory_store.py:288-318 | the correction: refusals, the first item with the id, and the write of the whole record through its caps |
| MemoryTheorems.EditKeepsIds | mqtt/moxie_sdk/memory_store.py:288-318 | before the write the corrected namespace keeps places and ids, pins the item, which keeps its provenance and use clock, and differs in no other item or list |
| MemoryRecordTheorems.EditStoresTheCorrection | mqtt/moxie_sdk/memory_store.py:288-318 | a correction is answered exactly when the text is acceptable and the namespace has the id; what is stored is the corrected record, with every other namespace as it was, if and only if that record is within the namespace, list, text and byte caps |
| MemoryRecordTheorems.CorrectionLosesAnother | mqtt/moxie_sdk/memory_store.py:153-168 | from a record within its caps a correction no longer than the old text is answered and another namespace is gone |
| MemoryRecordTheorems.CorrectionLosesItself | mqtt/moxie_sdk/memory_store.py:153-168 | and one is answered whose own namespace is gone |
| MemoryRecord.Bound | mqtt/moxie_sdk/memory_store.py:153-168 | the cap loops: newest namespaces, heads of lists, then whole trailing namespaces until the record fits |
| MemoryRecordTheorems.BoundKeeps | mqtt/moxie_sdk/memory_store.py:153-168 | a bounded record is within every cap, is the longest start of the trimmed record that fits, and is a fixed point |
| MemoryRecordTheorems.BoundedStays | mqtt/moxie_sdk/memory_store.py:153-168 | bounding changes nothing if and only if the record is within every cap |
| MemoryRecordTheorems.TrimmedIs | mqtt/moxie_sdk/memory_store.py:153-168 | which namespaces of a record are the newest, each from the stored one of its name with its values reduced and its lists cut |
| MemoryRecordTheorems.WhoSurvives | mqtt/moxie_sdk/memory_store.py:165-168 | a namespace outlives the byte cap if and only if some start of the record that reaches past it fits |
| Roster.ComputeRecordSeen | mqtt/moxie_sdk/roster.py:63-88 | a sighting: upsert, and the eviction loop over the oldest |
| RosterTheorems.RosterIsLru | mqtt/moxie_sdk/roster.py:63-108 | over every run of sightings at increasing times and un-pairings the table is a move-to-front list and the device list is that list |
| RosterTheorems.RosterKeepsMostRecent | mqtt/moxie_sdk/roster.py:63-108 | with a cap of at least one the roster is exactly the devices seen most recently, by recency |
| RosterTheorems.FirstBeforeLast | mqtt/moxie_sdk/roster.py:63-88 | over every run, whatever the clock, no device was first seen after it was last seen |
| RosterTheorems.UncappedRowsAreTheirOwn | mqtt/moxie_sdk/roster.py:63-88 | without a cap no sighting touches another device's row |
| RosterTheorems.OwnRowIsExact | mqtt/moxie_sdk/roster.py:75-83 | a row is exact: earliest time, latest sighting, number of sightings |
| RosterTheorems.ForgetKeepsOrder | mqtt/moxie_sdk/roster.py:91-108 | forgetting a device takes it off the list and leaves the others' order |
| Presence.UpdatePresence | mqtt/moxie_sdk/presence.py:137-214 | one event: the copied state updated branch by branch, and its signals |
| Presence.CountersAgree | mqtt/moxie_sdk/presence.py:137-214 | over every run the counters count the signals and events, and the history is the last min(20, number) modelled events |
| Presence.SignalsFromHistory | mqtt/moxie_sdk/presence.py:137-214 | after any run every field of the state is what the history of events and turns makes it, and the next event says exactly what that history calls for |
| Presence.OneLeavingPerArrival | mqtt/moxie_sdk/presence.py:137-214 | over every run and any clock: an arrival between two departures, departures after long enough presence, at most one more than arrivals and only after an opening loss and a find in the flicker window |
| Presence.LeavingFirst | mqtt/moxie_sdk/presence.py:174-203 | a run with a departure and no arrival |

## Left out

- StoreSafety.NoLostUpdate: is stated for runs in which every lock file opened; without one the fallback gives no exclusion and updates are lost (`StoreAccounting.UnlockedAppendsLoseAnItem`).
- StoreAccounting.AppendsAccounted: is stated for crash-free runs at rest; a crash or a failed read loses items, as `RunConserves` and `FailedReadLosesItems` say.
- IngestTheorems.ExactlyOnce: takes each repair as one step; `RepairRace` takes the steps apart.
- RepairRace.RaceCounts: takes an ingest, which holds the ring's lock, as one step; a step of a read that falls between the ingest's own two writes is not modelled, nor is a read that fails.
- PlanBeats.PlanObeys: takes the line's mood and strength, the act's profile, the hints, the icon and the sound as decided before the loop (mqtt/moxie_sdk/performance.py:378-405, 516-557): plain choices between a hint, the text and the act.
- Wire.DecodeZmqSttFrame: takes bytes; a payload given as text is encoded first, which is not modelled.
- MemoryStore.ComputeMerge: a foreign record (not a plain value) whose printed form is also the text of a stored item takes over that item's id, pin and clock in the source; here it stays as it is.
- Durability beyond an atomic rename (directory fsync, power loss), network file systems and platforms without advisory locks.
- Telemetry.RollUpPacket: takes a roll-up the program wrote; the coercions of `_clean_rollup` on foreign records are not modelled.
- MemoryRecord.MemoryFile.EditItem: takes every write as reaching the disk; a write that fails after the answer is decided, and the time stamp of an edit, are not modelled. The length of a record as JSON and what is left of foreign values are parameters.
- JSON bytes: numbers above 2^53, and the JSON inside a mark; a mark is any single tag. Calendar days are ordered numbers and the day of a packet is a parameter.
- The cue tables, mood scores, line classification and gesture digest are parameters; the counters of dropped ids and `to_json`/`from_json` of a performance are plain field copies.
- `prune_stale`, `note_used` and the policy gate of the memory; `resume_targets` and `summarize` of the roster; `snapshot` and `prompt_line` of presence; `SttSession`: filters and formatting that would only add easy members.
- Values of another JSON type than the program writes (a use count that is text, a partial presence record) are not modelled.
- MQTT, HTTP, speech engines, supervisor plumbing, face and cloud configuration.
