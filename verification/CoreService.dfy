/**
 The service object (service.rs, CoreService; job_coordinator.rs, commit_canonical_result): one
 database, changed by transactions that commit as a whole or not at all. Every method keeps the
 library invariant of LibraryRuns, so the main results there hold of the object at all times.
 */
module CoreService {
  import opened Wrappers
  import opened Tables
  import SpeakerMerge
  import TranscriptEdits
  import opened TranscriptImport
  import SpeakerNames
  import VoiceEvidence
  import Housekeeping
  import opened LibraryRuns
  import ServiceTransactions
  import ResultCommit

  class CoreService {
    var database: Db

    /** The library with what the user and the worker have done to it so far. */
    ghost var world: World

    ghost predicate Valid()
      reads this
    {
      world.db == database && Sound(world)
    }

    constructor ()
      ensures Valid() && world == EMPTY_WORLD
    {
      database := EMPTY_DB;
      world := EMPTY_WORLD;
      EmptyWorldIsSound();
    }

    /** A transaction that commits; the run grows by the command. */
    ghost predicate Follows(before: World, command: Command)
      reads this
    {
      world == Apply(before, command)
    }

    /** Commits the tables a transaction ended with, or rolls back. */
    method Finish(ghost command: Command, outcome: Result<Db, Rejection>) returns (r: Result<(), Rejection>)
      requires Valid() && (command.CommitResult? ==> |command.artifact| == |command.claims|)
      requires outcome == Outcome(database, command) && (outcome.Ok? ==> Possible(database, command))
      modifies this
      ensures Valid() && Follows(old(world), command)
      ensures r.Ok? <==> outcome.Ok?
      ensures database == if r.Ok? then outcome.value else old(database)
    {
      ApplyKeepsSound(world, command);
      world := Apply(world, command);
      if outcome.Err? {
        return Err(outcome.error);
      }
      database := outcome.value;
      return Ok(());
    }

    method MergeSpeakers(m: MeetingId, source: SpeakerId, target: SpeakerId) returns (r: Result<(), Rejection>)
      requires Valid()
      modifies this
      ensures Valid() && Follows(old(world), Command.MergeSpeakers(m, source, target))
      ensures r.Ok? <==> source != target && SpeakerMerge.BothBelong(old(database), m, source, target)
      ensures r.Ok? ==> SpeakerMerge.TurnsChangeHands(old(database).turns, database.turns, source, target)
                        && SpeakerMerge.WordsChangeHands(old(database).words, database.words, source, target)
      ensures r.Err? ==> database == old(database)
    {
      ghost var before := database;
      var outcome := ServiceTransactions.MergeSpeakers(database, m, source, target);
      r := Finish(Command.MergeSpeakers(m, source, target), outcome);
      if r.Ok? {
        SpeakerMerge.MergeMovesTranscript(before, m, source, target);
      }
    }

    method UpdateTranscriptTurn(turn: TurnId, submitted: string, expected: Option<nat>) returns (r: Result<(), Rejection>)
      requires Valid()
      modifies this
      ensures Valid() && Follows(old(world), EditTurn(turn, submitted, expected))
      ensures r.Ok? <==> && turn in old(database).turns
                         && (expected.Some? ==> expected.value == old(database).turns[turn].revision)
                         && old(database).turns[turn].revision < SpeakerNames.U32_MAX
      ensures r.Ok? ==> turn in database.turns
                        && TranscriptEdits.StandsAsSubmitted(database.turns[turn].editedText, submitted)
      ensures r.Err? ==> database == old(database)
    {
      ghost var before := database;
      TranscriptEdits.EditSucceedsExactly(database, turn, submitted, expected);
      var outcome := ServiceTransactions.UpdateTranscriptTurn(database, turn, submitted, expected);
      r := Finish(EditTurn(turn, submitted, expected), outcome);
      if r.Ok? {
        TranscriptEdits.EditStoresTheText(before, turn, submitted, expected);
      }
    }

    /** `profile` is the one found under the name, or `drawn`. */
    method RenameSpeaker(m: MeetingId, speaker: SpeakerId, name: string, drawn: ProfileId, sample: SampleId)
      returns (r: Result<(), Rejection>, profile: ProfileId)
      requires Valid() && drawn !in database.profiles && sample !in database.samples
      modifies this
      ensures Valid() && Follows(old(world), Command.RenameSpeaker(m, speaker, name, profile, sample))
      ensures VoiceEvidence.FoundByName(old(database).profiles, SpeakerNames.Trim(name), profile)
      ensures r.Err? ==> database == old(database)
    {
      var outcome;
      outcome, profile := ServiceTransactions.RenameSpeaker(database, m, speaker, name, drawn, sample);
      r := Finish(Command.RenameSpeaker(m, speaker, name, profile, sample), outcome);
    }

    method ConfirmVoiceProfileSample(m: MeetingId, speaker: SpeakerId, profile: ProfileId, sample: SampleId)
      returns (r: Result<(), Rejection>)
      requires Valid() && sample !in database.samples
      modifies this
      ensures Valid() && Follows(old(world), ConfirmVoice(m, speaker, profile, sample))
      ensures r.Err? ==> database == old(database)
    {
      var outcome := ServiceTransactions.ConfirmVoiceProfileSample(database, m, speaker, profile, sample);
      r := Finish(ConfirmVoice(m, speaker, profile, sample), outcome);
    }

    method ReviewSpeakerMatch(speaker: SpeakerId, accepted: bool) returns (r: Result<(), Rejection>)
      requires Valid()
      modifies this
      ensures Valid() && Follows(old(world), JudgeMatch(speaker, accepted))
      ensures r.Ok? ==> speaker in old(database).speakers && speaker in database.speakers
                        && if accepted then VoiceEvidence.Accepted(old(database).profiles, old(database).speakers[speaker],
                                                                   database.speakers[speaker])
                           else VoiceEvidence.Rejected(old(database).speakers[speaker], database.speakers[speaker])
      ensures r.Err? ==> database == old(database)
    {
      VoiceEvidence.VerdictsTakeEffect(database, speaker, accepted);
      var outcome := VoiceEvidence.ReviewMatch(database, speaker, accepted);
      r := Finish(JudgeMatch(speaker, accepted), outcome);
    }

    method CreateVoiceProfile(name: string, drawn: ProfileId) returns (r: Result<(), Rejection>)
      requires Valid() && drawn !in database.profiles
      modifies this
      ensures Valid() && Follows(old(world), NewProfile(drawn, name))
      ensures r.Err? ==> database == old(database)
    {
      var outcome := Housekeeping.CreateProfile(database, drawn, name);
      r := Finish(NewProfile(drawn, name), outcome);
    }

    method DeleteVoiceProfile(profile: ProfileId) returns (r: Result<(), Rejection>)
      requires Valid()
      modifies this
      ensures Valid() && Follows(old(world), DropProfile(profile))
      ensures r.Ok? <==> profile in old(database).profiles
      ensures r.Err? ==> database == old(database)
    {
      var outcome := Housekeeping.DeleteVoiceProfile(database, profile);
      r := Finish(DropProfile(profile), outcome);
    }

    method SetSpeakerReview(speaker: SpeakerId, needsReview: bool) returns (r: Result<(), Rejection>)
      requires Valid()
      modifies this
      ensures Valid() && Follows(old(world), MarkSpeaker(speaker, needsReview))
      ensures r.Ok? <==> speaker in old(database).speakers
      ensures r.Err? ==> database == old(database)
    {
      var outcome := Housekeeping.FlagSpeaker(database, speaker, needsReview);
      r := Finish(MarkSpeaker(speaker, needsReview), outcome);
    }

    method SetTranscriptTurnReview(turn: TurnId, needsReview: bool) returns (r: Result<(), Rejection>)
      requires Valid()
      modifies this
      ensures Valid() && Follows(old(world), MarkTurn(turn, needsReview))
      ensures r.Ok? <==> turn in old(database).turns
      ensures r.Err? ==> database == old(database)
    {
      var outcome := Housekeeping.FlagTurn(database, turn, needsReview);
      r := Finish(MarkTurn(turn, needsReview), outcome);
    }

    method ApplyVisualSuggestion(m: MeetingId, speaker: SpeakerId, name: string) returns (changed: bool)
      requires Valid()
      modifies this
      ensures Valid() && Follows(old(world), SuggestName(m, speaker, name))
      ensures !changed ==> database == old(database)
    {
      changed := VoiceEvidence.Belongs(database, m, speaker)
                 && VoiceEvidence.OpenToSuggestion(database.speakers[speaker]);
      Applied(world, SuggestName(m, speaker, name));
      ApplyKeepsSound(world, SuggestName(m, speaker, name));
      world := Apply(world, SuggestName(m, speaker, name));
      database := VoiceEvidence.Suggest(database, m, speaker, name);
    }

    /** The claims are those its query picked, turn by turn. */
    method CommitCanonicalResult(m: MeetingId, out: OutputId, matches: Matches, artifact: seq<ArtifactTurn>,
                                 offers: seq<Offer>)
      returns (r: Result<(), Rejection>, claims: seq<Option<TurnId>>)
      requires Valid()
      modifies this
      ensures |claims| == |artifact|
      ensures Valid() && Follows(old(world), CommitResult(m, out, matches, artifact, claims, offers))
      ensures r.Ok? ==> Possible(old(database), CommitResult(m, out, matches, artifact, claims, offers))
      ensures r.Err? ==> database == old(database)
    {
      var outcome;
      outcome, claims := ResultCommit.CommitCanonicalResult(database, m, out, matches, artifact, offers);
      r := Finish(CommitResult(m, out, matches, artifact, claims, offers), outcome);
    }
  }
}
