# SayTrace host: verified model

SayTrace's Rust host keeps meeting libraries on disk: recordings, transcripts, speakers and the
corrections people make to them. Its promises are about runs, not single calls: a correction
survives every re-import, a merge of two speakers holds for every later result, a crash loses no
flushed audio, a job is claimed a bounded number of times. This project models the code behind
those promises in Dafny and proves them.

`dafny verify dfyconfig.toml` checks the whole project.

## How the model is built

Database tables are maps, a transaction is a method on a local copy that its caller commits or
drops, and the cascades and triggers of the schema are functions that the statements call
(`Tables`). Identifiers derived by hashing are injective constructors over the text they hash.
Clocks, fresh identifiers, disk and worker input are parameters. Code that works step by step is a
method with the source's loops and early returns, proved equal to a function; the lemmas are about
the functions, and the main results are about every run.

| part | files |
|---|---|
| tables, cascades, triggers | `Tables`, `Wrappers` |
| speaker merges and their rule table | `SpeakerMerge` |
| correcting turns and the revision log | `TranscriptEdits` |
| importing a transcript, and what it keeps and brings | `TranscriptImport`, `ReprocessingLaws`, `ImportedTranscript`, `ImportedSpeakers` |
| naming speakers, voice candidates and samples | `VoiceEvidence` |
| profiles and review flags | `Housekeeping` |
| every run of user commands and imports | `LibraryRuns` |
| the transactions, statement by statement, and the service object | `ServiceTransactions`, `ResultCommit`, `CoreService` |
| speaker backup and restore | `SpeakerBackup`, `SpeakerRestore` |
| anonymous speaker names and numbers | `SpeakerNames`, `SpeakerNumbering`, `SpeakerPreferences` |
| the processing queue | `JobQueue` |
| segment writer, start-up repair, audio recovery | `Pcm`, `PcmFallback`, `AudioRecovery` |
| capture loop, gaps and clock anchors | `CaptureClock`, `CaptureGaps` |
| recording manifest | `CheckpointLog` |
| pause and resume | `PauseResume` |
| screenshots, visual answers and votes | `Ordering`, `Moments`, `VisualObservations`, `VisualAnswers`, `VisualVotes` |
| showing a turn word by word, and finding its words | `TranscriptTiling`, `WordMatching` |

## Reading notes

- The rule table is compared with `Follow`, which follows the user's merges of a meeting one by
  one in the order made; the table itself is only ever looked up once.
- Where a query takes the first row of an order with ties, the row taken is a parameter and a
  predicate says which rows the query may return (`GoodClaim`); `ResultCommit.FindClaim` shows
  that one always exists.
- Queries that select the best row are loops over the table in any order.
- Restoring a backup is outside the runs of `LibraryRuns`, because it does not always keep the
  merge invariant: an older backup can bring back a speaker whose cluster has been merged away.
  `SpeakerBackup.RestoreKeepsTheMergeInvariantExactlyWhen` gives the exact condition, and the
  other parts of the library invariant are kept by every restore.
- Audio is counted in whole frames. The writer buffers in blocks whose sizes are multiples of a
  frame, so a crash leaves whole frames on disk.
- The capture loop ends when the writer's queue is full or the writer has gone. `RefusalIn` finds that point from the
  events alone: the packet refused, or the gap before it, after so many chunks of silence.
- The queue does not promise that a cancelled job stops: one whose cancellation was requested can
  still complete or fail. What it does promise is stated for every interleaving.

## Model

| member | source | states |
|---|---|---|
| Tables.InsertTurnKeepsIndex | src-tauri/src/db.rs:213-216 | the insert trigger keeps exactly one index row per turn, with its meeting and its edited-else-model text |
| Tables.RewriteTurnKeepsIndex | src-tauri/src/db.rs:218-222 | the update trigger keeps it, whatever texts the turn had and gets |
| Tables.DeleteTurnsKeepsIndex | src-tauri/src/db.rs:224-226 | the delete trigger keeps it |
| Tables.DeleteMeetingKeepsIndex | src-tauri/src/db.rs:162-226 | deleting a meeting with all its cascades keeps it |
| Tables.DeletingAMeetingKeepsOtherTranscripts | src-tauri/src/db.rs:162-199 | deleting a meeting takes its turns, words and revisions and no others; other rows lose at most references to what goes |
| Tables.DeletingAMeetingKeepsOtherSpeakers | src-tauri/src/db.rs:128-138 | it takes its speakers, rules and outputs and no others, and no profile |
| Tables.DeletingAMeetingKeepsOtherEvidence | src-tauri/src/db.rs:282-293 | and its candidates and samples and no others |
| SpeakerMerge.MergeKeepsUnionFind | src-tauri/src/service.rs:929-1002 | one merge keeps the rule table a compressed union-find: targets are live and of the meeting, ruled clusters own nobody, one lookup equals following all merges |
| SpeakerMerge.NoRuledClusterLabelsALiveSpeaker | src-tauri/src/service.rs:936-1002 | no live row carries the meeting and label of a ruled cluster |
| SpeakerMerge.MergeKeepsAttributions | src-tauri/src/service.rs:945-952 | after a merge every turn and word attribution still names a live speaker |
| SpeakerMerge.MergeKeepsEvidence | src-tauri/src/service.rs:957-998 | candidates and samples still belong to live speakers, one sample per profile and speaker |
| SpeakerMerge.MergeKeepsOneSamplePerProfile | src-tauri/src/service.rs:988-998 | a profile confirmed on either side keeps exactly one sample on the target, the target's own if it had one, and the source keeps none |
| SpeakerMerge.MergeMovesRowsAndNothingElse | src-tauri/src/service.rs:929-1002 | after a merge the source's turns and words are the target's and otherwise as they were, with every other row of these tables; profiles, meetings, outputs, revisions, the index and everybody else's evidence stay |
| SpeakerMerge.MergeKeepsTheLongerCandidate | src-tauri/src/service.rs:957-987 | one candidate is left, under the target: the one with more clean speech, the target's own on a tie |
| TranscriptEdits.AppendKeepsLog | src-tauri/src/service.rs:697-722 | a correction keeps the log of every turn: rows 1 to revision, each starting from the text the one before left, ending in the turn's text |
| TranscriptEdits.EditSucceedsExactly | src-tauri/src/service.rs:683-723 | a correction is accepted exactly if the turn exists, the expected revision is current, and the 32-bit counter has room |
| TranscriptEdits.EditStoresTheText | src-tauri/src/service.rs:680-722 | an accepted correction stores the submitted text without the spaces around it, or none if nothing else was submitted; the new revision row records it after the text it replaces, and nothing else changes but the mark on the meeting |
| TranscriptEdits.NextTextIsTheSubmitted | src-tauri/src/service.rs:698 | and no other text would do |
| TranscriptEdits.StaleEditsChangeNothing | src-tauri/src/service.rs:690-695 | any number of corrections against another revision all fail and change nothing |
| TranscriptEdits.ExactlyOneEditWins | src-tauri/src/service.rs:690-723 | of several corrections against the current revision, the first succeeds and no other does |
| TranscriptEdits.DeletedTurnsKeepLog | src-tauri/src/db.rs:183-191 | deleting turns with their revisions keeps the log of the others |
| ReprocessingLaws.SpeakersAreAdmitted | src-tauri/src/job_coordinator.rs:1206-1252 | the speaker upsert adds at most the row of an unruled cluster, moves no row, and leaves matched and review rows exactly as they are |
| ReprocessingLaws.PlaceTurnLands | src-tauri/src/job_coordinator.rs:1294-1320 | the turn upsert changes one row, to the new output and the speaker; an existing row keeps its meeting, edited text and revision |
| ReprocessingLaws.PlaceTurnCarries | src-tauri/src/job_coordinator.rs:1294-1320 | new or not, the row has the artifact's start, end and text, and the artifact's review flag unless a revision has settled the row's own |
| ReprocessingLaws.AddWordsEffect | src-tauri/src/job_coordinator.rs:1321-1359 | the row landed on has exactly the artifact's words, in order; all other words stay |
| ReprocessingLaws.ImportTurnEffect | src-tauri/src/job_coordinator.rs:1125-1361 | all that importing one artifact turn does: the row it lands on has its times, text, speaker and words, every other turn and word stays, and the search index agrees |
| ReprocessingLaws.ImportFirstKeepsInvariant | src-tauri/src/job_coordinator.rs:816-828 | importing any number of turns keeps the library invariant and every correction |
| ReprocessingLaws.SweepKeepsEdits | src-tauri/src/job_coordinator.rs:829-841 | retiring superseded turns keeps every corrected turn, flags those of other outputs, and leaves no unedited one |
| ReprocessingLaws.CommitKeepsInvariant | src-tauri/src/job_coordinator.rs:761-858 | a committed result keeps the whole library invariant |
| ReprocessingLaws.CommitConservesEdits | src-tauri/src/job_coordinator.rs:829-841 | a commit loses, changes and invents no correction, and keeps the revision rows of corrected turns |
| ReprocessingLaws.CommitFlagsUnclaimedEdits | src-tauri/src/job_coordinator.rs:837-841 | a corrected turn that no artifact turn took over keeps its row, flagged for review if it belongs to another output |
| ReprocessingLaws.CommitLandsInjectively | src-tauri/src/job_coordinator.rs:1270-1293 | with fresh worker identifiers the turns of an artifact land on distinct rows |
| ReprocessingLaws.LandingsAreDistinct | src-tauri/src/job_coordinator.rs:1273-1293 | no two artifact turns reattach to the same corrected turn |
| ReprocessingLaws.CommitLeavesOneCanonical | src-tauri/src/job_coordinator.rs:763-801 | after a commit the new output, and no other of the meeting, is canonical |
| ImportedTranscript.ImportAcceptsExactly | src-tauri/src/job_coordinator.rs:1262-1359 | an artifact turn is imported exactly if it is well-formed, its times and those of its words are in order, and the identifiers of its words differ and are free |
| ImportedTranscript.WordsAreAcceptedExactly | src-tauri/src/job_coordinator.rs:1321-1359 | the words of a turn are accepted exactly under those conditions |
| ImportedTranscript.CommitBringsTheTranscript | src-tauri/src/job_coordinator.rs:816-828 | after a commit with fresh worker identifiers every turn of the artifact stands on a row of its own, with its times, its text, the speaker its cluster leads to and exactly its words in order |
| ImportedTranscript.CommitDecidesEveryOtherRow | src-tauri/src/job_coordinator.rs:829-841 | every other row is decided by what it was: rows of other meetings or without an output stay, corrected ones are flagged, the rest go, words with them; no other row is new |
| ImportedTranscript.OtherMeetingsAreNotLandedOn | src-tauri/src/job_coordinator.rs:1273-1293 | no turn of another meeting is ever landed on |
| ImportedSpeakers.ImportLabelsTheCluster | src-tauri/src/job_coordinator.rs:1133-1252 | a new cluster shows a name only if the worker says it is matched and a profile only if that exists; an anonymous row takes the identity proposed, any other keeps its own, and no other row changes |
| ImportedSpeakers.ProposalFollowsTheReport | src-tauri/src/job_coordinator.rs:1136-1205 | the row proposed follows the report: state, name, profile, review flag, source and confidence |
| ImportedSpeakers.ImportFlagsTheTurn | src-tauri/src/job_coordinator.rs:1202-1205 | a turn without revisions takes the flag of the artifact, or is flagged unless its speaker is matched |
| ImportedSpeakers.TheSameStretchIsFoundAgain | src-tauri/src/job_coordinator.rs:1273-1291 | if a corrected turn of the same speaker covers the very same stretch, a corrected turn of that stretch is taken over |
| ImportedSpeakers.ClosestIsTheSameStretch | src-tauri/src/job_coordinator.rs:1283-1286 | the overlap ratio of the query is at most one, and one only for the same stretch |
| ImportedSpeakers.CorrectionsAreClaimedExactly | src-tauri/src/job_coordinator.rs:1275-1282 | a turn can be taken over exactly if it is a correction of the speaker from another output that shares at least half of the shorter stretch, counted in milliseconds |
| ImportedSpeakers.CloserCorrectionsComeFirst | src-tauri/src/job_coordinator.rs:1283-1286 | of two, the one that shares the larger part of the time either covers comes first, then the one that starts nearer |
| VoiceEvidence.SavedSampleReplacesItsTriple | src-tauri/src/service.rs:827-845 | the sample upsert leaves one row for its profile, meeting and speaker, the saved one, and changes no other |
| VoiceEvidence.SavedSampleStaysUnique | src-tauri/src/service.rs:827-845 | it keeps samples unique and attached to live speakers |
| VoiceEvidence.ConsumedSavesTheCandidate | src-tauri/src/service.rs:1201-1229 | confirming saves exactly the candidate as the profile's sample and leaves the speaker without one |
| VoiceEvidence.MergeKeepsBest | src-tauri/src/service.rs:957-987 | after a merge the target's candidate is the longest of those offered to either speaker |
| VoiceEvidence.ConsumingKeepsBest | src-tauri/src/service.rs:846-851 | consuming a candidate starts the speaker's offers afresh and touches no other speaker |
| VoiceEvidence.BetterIsBest | src-tauri/src/job_coordinator.rs:1089-1110 | the conditional upsert keeps the longest candidate offered |
| VoiceEvidence.NamingAttachesAProfileOfThatName | src-tauri/src/service.rs:790-865 | naming attaches a profile of the name given, up to case and spaces, and makes a new one exactly if there was none |
| VoiceEvidence.NamingTakesEffect | src-tauri/src/service.rs:765-892 | naming needs a name of 1 to 120 characters without the spaces around it and a speaker of the meeting; the speaker is shown under it, confirmed, matched to the profile unless it was matched already; no other speaker and no transcript row changes |
| VoiceEvidence.VerdictsTakeEffect | src-tauri/src/service.rs:1008-1060 | an accepted speaker is matched, confirmed and under its profile's name; a rejected one has no profile, its default name and is due for review; accepting needs a profile or a visual suggestion |
| VoiceEvidence.ConfirmingTakesEffect | src-tauri/src/service.rs:1169-1256 | confirming a voice needs a speaker of the meeting, its candidate and a profile; the speaker is matched to it under its name |
| VoiceEvidence.SuggestionsTakeEffect | src-tauri/src/visual_context.rs:853-868 | a visual suggestion renames for review exactly the speakers that nothing has matched and nobody has named or confirmed |
| Housekeeping.DeletingAProfileKeepsInvariant | src-tauri/src/service.rs:1136-1167 | deleting a profile keeps the whole library invariant |
| Housekeeping.DeletedProfileIsForgotten | src-tauri/src/service.rs:1141-1164 | nothing refers to a deleted profile; its speakers have their default names, are anonymous and due for review, and otherwise as they were; no other row changes |
| Housekeeping.NewProfilesAreKept | src-tauri/src/service.rs:1118-1135 | a new profile is kept under the name typed, without the spaces around it, if that has 1 to 120 characters |
| Housekeeping.FlaggingATurnKeepsInvariant | src-tauri/src/service.rs:727-744 | setting a turn's review flag keeps the invariant, its log and the search index included |
| Housekeeping.DeleteVoiceProfile | src-tauri/src/service.rs:1136-1167 | the loop over the affected speakers and the deletion, or a rejection if there is no such profile |
| LibraryRuns.MergeKeepsInvariant | src-tauri/src/service.rs:899-1006 | a merge keeps the whole library invariant |
| LibraryRuns.EditKeepsIndex | src-tauri/src/service.rs:697-722 | a correction keeps the search index |
| LibraryRuns.DeleteMeetingKeepsSpeakers | src-tauri/src/db.rs:128-138 | deleting a meeting with its speakers and rules leaves the union-find of the others intact |
| LibraryRuns.DeleteMeetingKeepsBest | src-tauri/src/db.rs:282-293 | it leaves the candidates of the speakers of other meetings the longest offered |
| LibraryRuns.RenameIsSound | src-tauri/src/service.rs:765-892 | naming a speaker keeps every invariant; if it attaches a profile it consumes the candidate |
| LibraryRuns.CommitKeepsBest | src-tauri/src/job_coordinator.rs:1063-1122 | after a commit each speaker's candidate is the longest of all offered, the new ones included |
| LibraryRuns.ApplyKeepsSound | src-tauri/src/service.rs:673-1060 | every command, accepted or rejected, keeps the invariant of runs |
| LibraryRuns.RunKeepsSound | src-tauri/src/service.rs:673-1260 | every run of these commands and commits keeps it |
| LibraryRuns.RulesAreACompressedUnionFind | src-tauri/src/job_coordinator.rs:1191-1206 | over every run an import sends each cluster exactly where following all its meeting's merges leads, to a live speaker of the meeting |
| LibraryRuns.LogReplaysToTheText | src-tauri/src/service.rs:697-717 | over every run a turn's revision rows are exactly 1 to revision, chained, and replay to its text |
| LibraryRuns.IndexHasOneRowPerTurn | src-tauri/src/db.rs:213-226 | over every run search finds each turn once, under its own meeting and shown text, and nothing else |
| LibraryRuns.CandidateIsTheLongestOffered | src-tauri/src/job_coordinator.rs:1069-1110 | over every run a speaker's candidate is the longest offered to it or to speakers merged into it since it was last consumed |
| LibraryRuns.CommittedMeetingHasOneCanonical | src-tauri/src/job_coordinator.rs:763-801 | over every run a committed meeting has exactly one canonical output |
| LibraryRuns.CorrectionsSurvive | src-tauri/src/job_coordinator.rs:1270-1320 | over any run in which the user neither corrects the turn again nor deletes its meeting, its correction stays |
| LibraryRuns.TheLastCorrectionIsShown | src-tauri/src/service.rs:673-724 | once a correction is accepted, and until the user touches the turn again, its text is what the transcript and search show, over any run |
| LibraryRuns.AutomaticRunsKeepIdentities | src-tauri/src/job_coordinator.rs:1206-1252 | no run of imports and visual suggestions renames, reattaches or downgrades a matched or review speaker |
| LibraryRuns.SuggestKeepsIdentities | src-tauri/src/visual_context.rs:853-868 | a visual suggestion reaches only speakers nobody named and nothing matched |
| ServiceTransactions.MergeStatements | src-tauri/src/service.rs:929-1002 | the statements of a merge, in order, end in the tables SpeakerMerge specifies; the final delete cascades to nothing |
| ServiceTransactions.DeletingAnUnusedSpeakerLosesNothing | src-tauri/src/service.rs:999-1002 | deleting a speaker row that nothing refers to changes no other table |
| ServiceTransactions.RetargetRules | src-tauri/src/service.rs:931-944 | the two rule statements together are the path compression |
| ServiceTransactions.KeepLongerCandidate | src-tauri/src/service.rs:957-987 | the candidate statements keep the longer one under the target, the target's on a tie |
| ServiceTransactions.MoveSamples | src-tauri/src/service.rs:988-998 | the sample statements drop the source's doubles and move the rest |
| ServiceTransactions.MergeSpeakers | src-tauri/src/service.rs:899-1006 | the transaction as a whole, with its two rejections |
| ServiceTransactions.UpsertSample | src-tauri/src/service.rs:827-845 | the upsert on the unique triple |
| ServiceTransactions.FindProfile | src-tauri/src/service.rs:793-802 | the profile found has the name given; a new one is made only if none has it |
| ResultCommit.FindClaim | src-tauri/src/job_coordinator.rs:1273-1291 | the query returns a strongly overlapping corrected turn that no other outranks, or none if there is none |
| ResultCommit.InsertWords | src-tauri/src/job_coordinator.rs:1322-1359 | the word loop, ending at the first badly timed or doubled word |
| ResultCommit.ImportOneTurn | src-tauri/src/job_coordinator.rs:1125-1361 | one artifact turn is imported as specified, for a claim the query may return |
| ResultCommit.ImportTurns | src-tauri/src/job_coordinator.rs:816-825 | the turn loop imports as specified up to the first rejection, with claims the queries may return |
| ResultCommit.LaterClaimsDoNotMatter | src-tauri/src/job_coordinator.rs:816-825 | what the loop has done depends only on the queries answered so far |
| ResultCommit.RetireSuperseded | src-tauri/src/job_coordinator.rs:829-841 | deleting the unedited and flagging the edited is the sweep |
| ResultCommit.CommitCanonicalResult | src-tauri/src/job_coordinator.rs:761-858 | the transaction as a whole |
| CoreService.CoreService.Finish | src-tauri/src/service.rs:1003-1005 | a transaction commits as a whole or leaves the database as it was, and the invariant of runs holds either way |
| CoreService.CoreService.MergeSpeakers | src-tauri/src/service.rs:899-1006 | the service call follows the run and succeeds exactly for two distinct speakers of the meeting; the source's turns and words are then the target's, and otherwise as they were |
| CoreService.CoreService.UpdateTranscriptTurn | src-tauri/src/service.rs:673-724 | the service call follows the run and succeeds exactly if the turn exists, the expected revision is current and the counter has room; the text stored is then the one submitted, and a rejection changes nothing |
| CoreService.CoreService.RenameSpeaker | src-tauri/src/service.rs:765-892 | the same for naming, with the profile the search by name finds |
| CoreService.CoreService.ConfirmVoiceProfileSample | src-tauri/src/service.rs:1169-1256 | the same for confirming a voice |
| CoreService.CoreService.ReviewSpeakerMatch | src-tauri/src/service.rs:1008-1060 | the same for a verdict on a proposed identity, which leaves the speaker accepted or rejected |
| CoreService.CoreService.DeleteVoiceProfile | src-tauri/src/service.rs:1136-1167 | the same for deleting a profile, which succeeds exactly if it exists |
| CoreService.CoreService.SetTranscriptTurnReview | src-tauri/src/service.rs:727-744 | the same for a turn's review flag, which can be set exactly if the turn exists |
| CoreService.CoreService.ApplyVisualSuggestion | src-tauri/src/visual_context.rs:853-868 | the same for a visual suggestion, which reports whether it applied |
| CoreService.CoreService.CommitCanonicalResult | src-tauri/src/job_coordinator.rs:689-870 | the same for a result |
| SpeakerBackup.LoadingKeepsTheStore | src-tauri/src/speaker_backup.rs:183-238 | the four upserts of any backup keep uniqueness, live targets, attributions and evidence |
| SpeakerBackup.SpeakerRowsAreRejectedExactly | src-tauri/src/speaker_backup.rs:213-229 | a speaker row of an existing meeting is rejected exactly if its identifier is another cluster's, its cluster has another identifier, or its profile is missing |
| SpeakerBackup.SampleRowsAreRejectedExactly | src-tauri/src/speaker_backup.rs:198-229 | a sample row of an existing meeting and speaker is rejected exactly if the speaker is of another meeting, the profile is missing, or its two unique keys are those of two rows |
| SpeakerBackup.RuleRowsAreRejectedExactly | src-tauri/src/speaker_backup.rs:202-229 | a merge rule of an existing meeting and target is rejected exactly if the target is of another meeting |
| SpeakerBackup.PutSampleKeeps | src-tauri/src/speaker_backup.rs:225-229 | an upsert on two unique keys keeps samples unique and live |
| SpeakerBackup.AbsorbingKeepsTheStore | src-tauri/src/speaker_backup.rs:259-285 | applying one saved merge keeps them |
| SpeakerBackup.SavedMergesHold | src-tauri/src/speaker_backup.rs:239-286 | for any backup, a saved merge whose target survives leaves its cluster without a live speaker |
| SpeakerBackup.SavedMergesMoveTheTranscript | src-tauri/src/speaker_backup.rs:262-269 | every turn and word of that cluster's speaker is on the saved target |
| SpeakerBackup.RestoreKeepsTheLibrary | src-tauri/src/speaker_backup.rs:183-287 | any restore keeps every turn and word but for its speaker, and corrections, their log, the search index and outputs; candidates go with the speakers merged away and no others |
| SpeakerBackup.LoadingKeepsUnsavedRows | src-tauri/src/speaker_backup.rs:183-238 | the upserts leave alone every profile, speaker, sample and rule that the file does not name |
| SpeakerBackup.RestoreBringsBackWhatWasSaved | src-tauri/src/speaker_backup.rs:183-287 | after restoring a backup of a well-formed store every saved row of an existing meeting stands as saved |
| SpeakerBackup.RestoringAgainChangesNothing | src-tauri/src/speaker_backup.rs:183-287 | restoring twice is restoring once |
| SpeakerBackup.RestoringTheOwnBackupChangesNothing | src-tauri/src/speaker_backup.rs:43-81 | a backup restored into the store it was taken from changes nothing |
| SpeakerBackup.RestoreKeepsTheMergeInvariantExactlyWhen | src-tauri/src/speaker_backup.rs:239-286 | ruled clusters own nobody after a restore exactly if no saved speaker has a cluster the library has merged away |
| SpeakerBackup.MergingSinceTheBackupRevives | src-tauri/src/speaker_backup.rs:239-286 | any merge made since the backup was taken breaks that condition |
| SpeakerBackup.OlderBackupRevivesAMergedSpeaker | src-tauri/src/speaker_backup.rs:198-229 | a concrete backup of a well-formed library, and a later library, for which they do not |
| SpeakerBackup.InvariantGivesStore | src-tauri/src/speaker_backup.rs:183-287 | every library a run reaches meets the assumptions of these results on merges and evidence |
| SpeakerBackup.SpeakerBackupBytes | src-tauri/src/speaker_backup.rs:43-81 | a backup lists each row of the four tables once |
| SpeakerRestore.UpsertSpeakers | src-tauri/src/speaker_backup.rs:193-229 | the speaker loop: skip, reject or upsert, up to the first rejection |
| SpeakerRestore.UpsertSamples | src-tauri/src/speaker_backup.rs:193-229 | the sample loop |
| SpeakerRestore.UpsertRules | src-tauri/src/speaker_backup.rs:193-229 | the rule loop |
| SpeakerRestore.AbsorbSpeaker | src-tauri/src/speaker_backup.rs:262-285 | the statements of a saved merge, in order; the delete takes the source's candidate and nothing else |
| SpeakerRestore.ApplySavedMerges | src-tauri/src/speaker_backup.rs:239-286 | the merge loop, ending at a self merge |
| SpeakerRestore.Recovery.RestoreSpeakerBackup | src-tauri/src/speaker_backup.rs:120-290 | a restore has the specified effect, and a rejected row leaves the database unchanged |
| SpeakerNames.DecimalReadsBack | src-tauri/src/service.rs:1871-1878 | a number printed in decimal parses back |
| SpeakerNames.AnonymousNameReadsBack | src-tauri/src/service.rs:1865-1878 | the name given to an anonymous speaker reads back as its number |
| SpeakerNames.NumberedNamesReadExactly | src-tauri/src/service.rs:1871-1878 | a name is numbered exactly if, without the spaces around it, it is the prefix and a positive decimal number of 32 bits |
| SpeakerNames.TrimLeavesTheStretch | src-tauri/src/service.rs:2119-2127 | trimming leaves the one stretch with nothing but spaces around it, and nothing of a text of spaces |
| SpeakerNames.LabelNumberReadsBack | src-tauri/src/service.rs:2136-2149 | a cluster label that ends in the number n stands for speaker n + 1, if that fits 32 bits |
| SpeakerNames.DefaultNamesFollowTheLabel | src-tauri/src/service.rs:2129-2134 | the default name shows that number, and 1 if the label ends in none |
| SpeakerNumbering.FirstFree | src-tauri/src/service.rs:1856-1862 | the fallback search terminates at the first unused number |
| SpeakerNumbering.NumbersAreDistinct | src-tauri/src/service.rs:1812-1863 | the three passes give every anonymous speaker a number, all distinct and distinct from numbers in kept names |
| SpeakerNumbering.NumbersFit | src-tauri/src/service.rs:1851-1863 | the numbers are positive and fit 32 bits |
| SpeakerNumbering.NormalizedNamesAreUnique | src-tauri/src/service.rs:1812-1869 | every anonymous speaker then shows a number no other speaker shows; all others are untouched |
| SpeakerNumbering.NormalizingAgainChangesNothing | src-tauri/src/service.rs:1812-1869 | a second run changes nothing |
| SpeakerPreferences.AnonymousSpeakersExactly | src-tauri/src/service.rs:1813-1822 | the speakers numbered are exactly those not matched that show a placeholder or a number |
| SpeakerPreferences.NumbersFollowPreferences | src-tauri/src/service.rs:1832-1863 | the first speaker to ask for a number by label gets it unless a kept name has it; of the others, so does the first to ask by name; each one left over gets the least number that nobody has |
| SpeakerPreferences.NamesShowTheNumbers | src-tauri/src/service.rs:1864-1868 | and exactly that number is what its name shows |
| SpeakerNumbering.NormalizeUnknownSpeakerNames | src-tauri/src/service.rs:1812-1869 | the list is renamed in place as specified |
| SpeakerNumbering.PreferLabels | src-tauri/src/service.rs:1832-1841 | the first pass grants preferred numbers first come, first served |
| SpeakerNumbering.PreferNames | src-tauri/src/service.rs:1842-1849 | the second pass grants current numbers to those without one |
| JobQueue.NextKeepsInv | src-tauri/src/job_coordinator.rs:200-252 | every step of user, coordinator, crash and recovery keeps the queue's invariant |
| JobQueue.RunKeepsInv | src-tauri/src/job_coordinator.rs:104-196 | so does every interleaving, and no job id is ever issued again |
| JobQueue.HeldJobIsOwned | src-tauri/src/job_coordinator.rs:229-252 | over every run a job the coordinator holds is running or cancel_requested, under the claim that holds it |
| JobQueue.CoordinatorWritesItsOwnRow | src-tauri/src/job_coordinator.rs:842-849 | the coordinator's writes, guarded or not, change only the row it claims or holds |
| JobQueue.LateErrorChangesNoJob | src-tauri/src/job_coordinator.rs:1392-1407 | a failure reported after the outcome was written changes no job |
| JobQueue.FailuresAreRetriedExactlyWhen | src-tauri/src/job_coordinator.rs:1363-1390 | over every run a failed attempt is retried exactly if the failure is retryable and the row has attempts left, and has failed otherwise; the row is released with its attempts and no other changes |
| JobQueue.RetriesWaitFiveSeconds | src-tauri/src/job_coordinator.rs:205-224 | after such a failure the job can be claimed from five seconds later on, and not before |
| JobQueue.CancelledWorkersLeaveItCancelled | src-tauri/src/job_coordinator.rs:347-354 | a worker that says it was cancelled, or was told to cancel, leaves the job cancelled and released |
| JobQueue.ResultsCompleteTheHeldJob | src-tauri/src/job_coordinator.rs:842-849 | a result commits the held job once and completes its row |
| JobQueue.CancellingTakesEffectExactly | src-tauri/src/service.rs:1292-1317 | cancelling asks a running job to stop and cancels a queued, waiting or interrupted one; any other is left alone |
| JobQueue.RequestedCancellationsAreForwarded | src-tauri/src/job_coordinator.rs:272-277 | a cancellation that was requested, and only such a one, is passed on to the worker |
| JobQueue.ProgressOnlyStamps | src-tauri/src/job_coordinator.rs:659-687 | progress stamps the held job's row while it is in progress and changes nothing else the model keeps |
| JobQueue.RetryingTakesEffectExactly | src-tauri/src/service.rs:1319-1334 | a manual retry queues an ended, interrupted or waiting job again with its whole budget |
| JobQueue.StartUpReleasesInterruptedJobs | src-tauri/src/service.rs:105-126 | start-up counts an interrupted attempt and lets the job wait for a retry, or fail if none is left, also if an earlier start-up stopped halfway |
| JobQueue.ClaimingTakesTheFirst | src-tauri/src/job_coordinator.rs:200-252 | an idle coordinator claims a job that is queued or has waited five seconds, of the highest priority and then the oldest |
| JobQueue.DeletingTakesEffectExactly | src-tauri/src/service.rs:425-488 | deleting a meeting takes its jobs and no others, exactly if all have ended and nothing is being recorded |
| JobQueue.CompletionIsFinal | src-tauri/src/service.rs:1292-1333 | no later step changes a completed job; it can only go with its meeting |
| JobQueue.EachJobCommitsAtMostOnce | src-tauri/src/job_coordinator.rs:842-849 | over every run a job commits at most once, and the completed jobs are those that did |
| JobQueue.AttemptsStayWithinBudget | src-tauri/src/job_coordinator.rs:1370-1385 | waiting jobs have attempts left; running ones have between one and the maximum |
| JobQueue.ClaimsArePaidFor | src-tauri/src/service.rs:105-126 | every claim is paid from a budget that failures, stops and half-finished recoveries never refund |
| JobQueue.ClaimsAreBounded | src-tauri/src/job_coordinator.rs:229-235 | without a manual retry a job is claimed at most max_attempts times |
| JobQueue.Queue.FirstClaimable | src-tauri/src/job_coordinator.rs:205-224 | the row found is claimable and none that is claimable outranks it |
| JobQueue.Queue.ClaimNextJob | src-tauri/src/job_coordinator.rs:200-252 | claiming is one step of the machine |
| JobQueue.Queue.UpdateJobProgress | src-tauri/src/job_coordinator.rs:659-687 | so is progress |
| JobQueue.Queue.CompleteJob | src-tauri/src/job_coordinator.rs:842-849 | so is completing |
| JobQueue.Queue.FailJob | src-tauri/src/job_coordinator.rs:1363-1390 | so is failing, which retries or fails the job as FailuresAreRetriedExactlyWhen says |
| JobQueue.Queue.MarkCancelled | src-tauri/src/job_coordinator.rs:1392-1407 | so is cancelling, whole or interrupted after its first statement |
| JobQueue.Queue.Cancel | src-tauri/src/service.rs:1292-1317 | a user's cancellation applies exactly to queued, running, waiting and interrupted jobs |
| JobQueue.Queue.Retry | src-tauri/src/service.rs:1319-1334 | a manual retry applies exactly to failed, cancelled, interrupted and waiting jobs |
| JobQueue.Queue.Delete | src-tauri/src/service.rs:425-488 | a meeting is deleted exactly if all its jobs have ended and none of its recording sessions is active |
| AudioRecovery.WriterHoldsTheStream | src-tauri/src/audio.rs:630-672 | after any steps of the writer its segments and its open file are exactly the frames handed to it |
| AudioRecovery.FlushedOnlyGrows | src-tauri/src/audio.rs:657-672 | nothing flushed is lost by a later step |
| AudioRecovery.RecoveredInOrder | src-tauri/src/recording.rs:2059-2104 | recovery takes one file per sequence number, in increasing order, and every acceptable number |
| AudioRecovery.RecoveryReadsAFlushedPrefix | src-tauri/src/recording.rs:2046-2110 | for any stream and crash point, and any number of start-ups that repair what they can, recovery reads a prefix of the stream with everything flushed |
| AudioRecovery.StartUpsReadNoLess | src-tauri/src/service.rs:1679-1703 | a further start-up reads at least as much as the one before |
| AudioRecovery.ACrashLeavesAnUnflushedFrame | src-tauri/src/service.rs:1693-1700 | a concrete crash whose unflushed frame is read once the header is repaired, and not before |
| PcmFallback.LeadingSamplesExactWhen | src-tauri/src/recording.rs:2354-2363 | the leading silence is 48 frames per millisecond exactly if its product fits 64 bits |
| PcmFallback.FallbackAddsTheOffset | src-tauri/src/recording.rs:2354-2391 | within 64 bits the fallback's duration is the offset plus whole milliseconds of audio |
| PcmFallback.LeadingFramesAre | src-tauri/src/recording.rs:2354-2363 | the leading silence for any offset: 48 frames per millisecond, cut where the sample count times 1000 saturates |
| PcmFallback.FallbackDurationIs | src-tauri/src/recording.rs:2354-2391 | the duration for any input, each part cut where its product saturates |
| AudioRecovery.SegmentWriter.WritePacket | src-tauri/src/audio.rs:630-673 | a packet is appended whole, flushed when a second has passed, and the segment rolled at its limit |
| AudioRecovery.SegmentWriter.FinalizeSegment | src-tauri/src/audio.rs:684-701 | the open file becomes the next segment |
| AudioRecovery.SegmentWriter.Stop | src-tauri/src/audio.rs:675-681 | the segments together are the stream, the count is its length, and only the last is short |
| AudioRecovery.RepairRecordingPartials | src-tauri/src/service.rs:1679-1703 | each partial file without a finished one is repaired, as far as its repair gets |
| AudioRecovery.RecoverableWavSegments | src-tauri/src/recording.rs:2046-2110 | the segments in order and their frame count |
| AudioRecovery.ConsolidateRecoveryWav | src-tauri/src/recording.rs:2335-2395 | the fallback file is its leading silence and the segments |
| AudioRecovery.RecoverAfterCrash | src-tauri/src/recording.rs:1583-1710 | repair, recovery and fallback end to end, after any earlier start-ups |
| CaptureClock.RunKeepsInv | src-tauri/src/audio.rs:376-560 | every run, cut off by back-pressure or not, keeps anchors that point at the frames before their packet with their gap as silence right before them |
| CaptureClock.EveryFrameIsCounted | src-tauri/src/audio.rs:443-519 | over every run anchors fit; the writer received exactly the frames counted, and anchors report all silence, exactly if no gap was refused after some of it went out; they report all discontinuities exactly if no gap was refused |
| CaptureClock.EverySampleIsCounted | src-tauri/src/audio.rs:464-497 | in samples the writer received written_frames times channels exactly if no gap was cut short |
| CaptureClock.ACutGapGoesUnreported | src-tauri/src/audio.rs:456-470 | a concrete run in which 48000 frames of silence reach the writer and no counter or anchor reports them |
| CaptureClock.NoAnchorIsSuppressed | src-tauri/src/audio.rs:108-117 | over every run each anchor due is kept; one pushed at the end is dropped exactly if it equals the anchor of a packet the writer refused |
| CaptureClock.GapLosesLessThan | src-tauri/src/audio.rs:446-480 | a measured gap loses less than a frame if silence was inserted and less than 240 frames if not |
| CaptureClock.LossIsBounded | src-tauri/src/audio.rs:446-480 | over a run the time lost is within a frame per filled gap and 240 frames per jitter |
| CaptureGaps.GapsAreMeasuredFromTheLastPacket | src-tauri/src/audio.rs:446-463 | over every run a gap is measured from the end of the packet before, if the packet is flagged and no command came between; the silence is its whole frames if at least 240 |
| CaptureGaps.EveryPacketGoesOut | src-tauri/src/audio.rs:443-519 | each packet goes out after the silence due before it, and is anchored behind that silence exactly if it is the first, flagged, the first after a resume, or five seconds after the last anchor; or the writer refuses it at the point stated |
| CaptureGaps.SilenceFillsTheGapBetweenPackets | src-tauri/src/audio.rs:446-480 | between two packets the silence is the whole frames from the end of one to the start of the next, if that is flagged and they are at least 240 |
| CaptureGaps.NoSilenceAfterACommand | src-tauri/src/audio.rs:379-390 | there is none before the first packet, or the first after a resume |
| CaptureGaps.NothingElseGoesOut | src-tauri/src/audio.rs:427-440 | commands, empty packets and packets while paused send nothing |
| CaptureGaps.SilenceDueLosesLessThan | src-tauri/src/audio.rs:446-480 | the time lost at a gap so measured is under a frame, or under 240 frames if no silence stands for it |
| CaptureGaps.TheWriterReceivesWhatIsDue | src-tauri/src/audio.rs:376-560 | over every run that has not failed the writer has received exactly the silence due and the frames of the packets taken, in order |
| CaptureClock.PlanReportsTheSilence | src-tauri/src/recording.rs:1421-1426 | the clock plan's materialised gap is the silence sent, less what went out of a refused gap |
| CaptureClock.CaptureLoop.SendSilence | src-tauri/src/audio.rs:456-466 | silence goes out in chunks of a second, up to the first the writer refuses |
| CaptureClock.CaptureLoop.OnPacketRead | src-tauri/src/audio.rs:427-519 | handling a packet is one step of the machine |
| CaptureClock.CaptureLoop.OnCommand | src-tauri/src/audio.rs:379-390 | so is a command |
| CaptureClock.GapTotals | src-tauri/src/recording.rs:1421-1432 | the plan's two totals over the anchors |
| CheckpointLog.CheckpointExtendsRecord | src-tauri/src/recording.rs:1255-1272 | reading a checkpoint adds exactly the anchors from the cursor on and replaces the counters |
| CheckpointLog.EntriesAddAndReplace | src-tauri/src/recording.rs:1979-2007 | whatever a line states or leaves out of a track, its anchors are added and its counters replaced one by one; a tick of zero replaces nothing |
| CheckpointLog.RunKeepsInv | src-tauri/src/recording.rs:1255-1288 | after any anchors, checkpoints, lost and spoilt lines, a manifest that reads reads back as recorded |
| CheckpointLog.RecordIsASubsequence | src-tauri/src/recording.rs:1953-2010 | the manifest reads exactly if no line was spoilt; then, whatever was torn or lost, the anchors read back are live ones in order, none twice, and the counters those of the last intact checkpoint |
| CheckpointLog.IntactLogReadsTheLivePrefix | src-tauri/src/recording.rs:1259-1264 | with every checkpoint intact they are exactly the live anchors up to the cursor, unless a line was spoilt |
| CheckpointLog.AnIntactCheckpointIsReadBack | src-tauri/src/recording.rs:1255-1288 | right after an intact checkpoint a reader has the live counters of every track and all anchors new since the checkpoint before |
| CheckpointLog.ASpoiltMarkerLosesTheRecord | src-tauri/src/recording.rs:1532-1538 | a concrete manifest whose intact checkpoint is lost to one spoilt marker, and not to a torn one |
| CheckpointLog.Monitor.TakeCheckpoint | src-tauri/src/recording.rs:1255-1288 | a checkpoint is one step of the machine; cursors advance even if the line is lost |
| CheckpointLog.ReadRecoveryCheckpoints | src-tauri/src/recording.rs:1953-2010 | the reader folds every readable line, and fails exactly if a line is too long or not text |
| CheckpointLog.ReadTracks | src-tauri/src/recording.rs:1979-2007 | the loop over the tracks of a line |
| PauseResume.DriftingSettlesAlike | src-tauri/src/audio.rs:376-399 | a capture thread draining its queue does not change where it will settle |
| PauseResume.DriftingKeepsAgreement | src-tauri/src/audio.rs:376-399 | so threads running on their own keep every track in agreement with the recording |
| PauseResume.RolledBackOneMore | src-tauri/src/recording.rs:1088-1098 | a track rolled back agrees again or is marked failed |
| PauseResume.ActiveRecording.SendCaptureControl | src-tauri/src/recording.rs:1059-1080 | every track whose queue can take the command when its turn comes is sent it and no other, while threads run in between; a track is marked failed only if it could not take it, had failed, or failed by itself |
| PauseResume.ActiveRecording.RollbackCaptureControl | src-tauri/src/recording.rs:1082-1099 | after a rollback every track not failed agrees with the old state; a track whose queue takes the opposite command, and that did not fail by itself, is not marked failed |
| PauseResume.ActiveRecording.EnsureCaptureHealthy | src-tauri/src/recording.rs:1041-1057 | control proceeds exactly if every track is live and unfailed; tracks that have ended, and no others, are marked failed |
| PauseResume.ActiveRecording.PauseRecording | src-tauri/src/recording.rs:366-446 | every track not failed settles as the state says; the recording stays in Recording only if some track had failed, has ended or had a full queue, and tracks are marked failed only for such reasons |
| PauseResume.ActiveRecording.ResumeRecording | src-tauri/src/recording.rs:448-528 | the same for resuming |
| PauseResume.ActiveRecording.Wait | src-tauri/src/recording.rs:1018-1028 | elapsed time stands still while paused |
| PauseResume.ActiveRecording.ElapsedMs | src-tauri/src/recording.rs:1018-1028 | the elapsed time is the time spent in Recording |
| Moments.TakeIsGreedy | src-tauri/src/visual_context.rs:451-462 | the greedy pass is spaced, capped, and explains every candidate it passed over |
| Moments.SelectionIsSpacedAndJustified | src-tauri/src/visual_context.rs:440-465 | the selection is in time order, at most twelve, twenty seconds apart; each candidate left out is too close to a chosen one that ranks no lower, unless twelve were chosen |
| Moments.SelectedMomentsAreApart | src-tauri/src/visual_context.rs:440-465 | the same in scores and milliseconds: at most twelve moments, each at least 20000 ms after the one before |
| Moments.SelectMoments | src-tauri/src/visual_context.rs:440-465 | the loop computes it |
| VisualObservations.ValidateVisualFrames | src-tauri/src/local_agent.rs:457-501 | a batch is accepted exactly if it is small enough and its frames are unique and valid |
| VisualAnswers.FramesAreAcceptedExactly | src-tauri/src/local_agent.rs:468-490 | a frame is valid exactly if its identifiers say something within 256 characters, its time is not negative and it is a JPEG within its size limit |
| VisualAnswers.CollapsingJoinsTheWords | src-tauri/src/local_agent.rs:727-742 | a cleaned text is its words joined by single spaces |
| VisualAnswers.AnswersAreAcceptedExactly | src-tauri/src/local_agent.rs:656-703 | an answer is accepted exactly if its texts are short enough and say something and its confidence fits its name, which is not just unknown; it then stands with its texts tidied |
| VisualObservations.ParseAcceptsExactly | src-tauri/src/local_agent.rs:645-703 | a response is accepted exactly if it has one acceptable observation per frame, in any order |
| VisualObservations.BatchIsAligned | src-tauri/src/local_agent.rs:704-709 | the batch has one observation per frame, in the order of the frames, each a cleaned answer |
| VisualObservations.ReorderingGivesTheSameBatch | src-tauri/src/local_agent.rs:645-713 | any reordering of the answers gives the same batch, whatever the cleaning |
| VisualObservations.AnswersMayComeInAnyOrder | src-tauri/src/local_agent.rs:632-713 | so with the host's cleaning, and acceptance does not depend on the order either |
| VisualObservations.ParseVisualSpeakerResponse | src-tauri/src/local_agent.rs:632-713 | the loop computes it |
| VisualVotes.CountIsRight | src-tauri/src/visual_context.rs:768-787 | the tally of a name holds exactly the distinct turns that vote for it, and its first spelling |
| VisualVotes.SureAnswersVote | src-tauri/src/visual_context.rs:788-797 | an answer votes exactly if it is sure and names somebody in 2 to 120 bytes on one line, and for that name without the spaces around it |
| VisualVotes.Rank | src-tauri/src/visual_context.rs:788-793 | the most supported tally and the support of the next |
| VisualVotes.SuggestName | src-tauri/src/visual_context.rs:763-797 | a name is suggested exactly if at least two distinct turns support it and strictly more than any other |
| TranscriptTiling.ScanIsSound | src/components/TranscriptRows.tsx:125-143 | a stretch found by letters has exactly the letters of the word |
| TranscriptTiling.LiteralWordIsFound | src/components/TranscriptRows.tsx:114-120 | a word that occurs literally is found where it first occurs |
| TranscriptTiling.FindWordRange | src/components/TranscriptRows.tsx:114-144 | a range found lies at or after the cursor and stands for the word |
| WordMatching.RestartableWordIsFound | src/components/TranscriptRows.tsx:114-144 | a word none of whose starts repeats differently inside it is found exactly where it appears from the cursor on |
| WordMatching.WordsAreFoundExactlyWhen | src/components/TranscriptRows.tsx:125-143 | a word of letters is found in every text it appears in exactly if it is such a word |
| WordMatching.AWordCanBeMissed | src/components/TranscriptRows.tsx:125-143 | the word aab appears in aa-ab and is not found |
| TranscriptTiling.BuildParts | src/components/TranscriptRows.tsx:161-194 | the parts tile the text; word parts are in order, disjoint, and stand for their words; a word has a part exactly if it is found from the end of the word part before it, and where it is found |
| TranscriptTiling.SliceMarksItsShare | src/components/TranscriptRows.tsx:91-112 | a slice shows its text with exactly its share of the match marked |
| TranscriptTiling.HighlightsExactlyTheMatch | src/components/TranscriptRows.tsx:91-112 | however a text is tiled, highlighting part by part marks exactly the match |
| TranscriptTiling.MatchIsTheFirstTerm | src/components/TranscriptRows.tsx:168-174 | the match is the first stretch equal to the search term up to case |
| TranscriptTiling.TimedTranscriptText | src/components/TranscriptRows.tsx:146-236 | a turn shown word by word is its text with exactly the first match marked |

## Left out

- WASAPI, FFmpeg, DPAPI, hashing, real files, Ollama and the user interface: packets, samples, files and model answers are inputs.
- Timestamps, colours, playback assets, progress fractions and other columns that no property reads.
- The status column of meetings: the queue is modelled on jobs and the existence of meetings.
- The tables speaker_clusters and visual_context_events: restoring retargets visual events, merging by hand does not.
- The worker's artifact as JSON: a turn with a missing or mistyped field is one malformed turn, whichever field it is.
- Which of several profiles of one name is found: the oldest in the code, any of them here.
- Bookmarks, meeting titles and chat messages: columns and tables no property reads.
- The rows of recording sessions: whether one is active is an input of deleting a meeting.
- ResultCommit.CommitCanonicalResult: the completion of the job in the same transaction is the step Complete of `JobQueue`.
- VisualObservations.ParseVisualSpeakerResponse: takes the decoded answers; the size limit on the raw text and its decoding come before.
- Foreign keys from speakers and samples to profiles: the results on backups assume them of the saved store, as the schema enforces them.
- SpeakerBackup.RestoringAgainChangesNothing: stated of backups taken from a well-formed store; an arbitrary file may list a key twice.
- File names that spell the same segment number differently, such as segment-1 and segment-00001: the writer never produces them.
- Counters of ticks and frames in the capture loop are unbounded; at 48000 frames a second 64 bits are never exhausted. The fallback file's products do saturate as in the code.
- The speed correction of the clock plan, which is floating point.
- The choice of frames to send to the vision model, and the phrase lists of the moment score.
- TranscriptTiling.FindWordRange: sound but not complete, as in the code; after a mismatch the scan restarts at the mismatch. `WordMatching` says which words it can miss.
- Text is a sequence of characters: surrogate pairs and case foldings that change the length of a text are not modelled.
- JobQueue.ClaimsAreBounded: counts the claims of one job between manual retries; a manual retry starts the budget again, as in the code.
- Two coordinators at once: the host starts one, after recovery.
