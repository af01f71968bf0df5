/**
 Commands beside the main ones that write the same tables (service.rs: create_voice_profile,
 delete_voice_profile, set_speaker_review, set_transcript_turn_review).
 */
module Housekeeping {
  import opened Wrappers
  import opened Tables
  import opened SpeakerNames
  import opened SpeakerMerge
  import opened TranscriptEdits
  import opened ReprocessingLaws
  import opened VoiceEvidence

  /** A new profile under an identifier drawn for it; names need not differ. */
  function CreateProfile(db: Db, profile: ProfileId, submitted: string): Result<Db, Rejection> {
    var name := Trim(submitted);
    if name == "" || |name| > MAX_NAME_CHARS then Err(InvalidInput)
    else Ok(db.(profiles := db.profiles[profile := name]))
  }

  /** A speaker that loses its profile is anonymous again. */
  function Forgotten(row: Speaker): Speaker {
    row.(profile := None, name := DefaultName(row.cluster), state := Unknown, needsReview := true)
  }

  function SpeakersWithout(speakers: map<SpeakerId, Speaker>, profile: ProfileId): map<SpeakerId, Speaker> {
    map id | id in speakers :: if speakers[id].profile == Some(profile) then Forgotten(speakers[id]) else speakers[id]
  }

  /** DELETE FROM voice_profiles: the samples cascade; the speakers were made anonymous before. */
  function ProfileDeleted(db: Db, profile: ProfileId): Db {
    db.(profiles := db.profiles - {profile},
        speakers := SpeakersWithout(db.speakers, profile),
        samples := map id | id in db.samples && db.samples[id].profile != profile :: db.samples[id])
  }

  function DeleteProfile(db: Db, profile: ProfileId): Result<Db, Rejection> {
    if profile in db.profiles then Ok(ProfileDeleted(db, profile)) else Err(NotFound)
  }

  function FlagSpeaker(db: Db, speaker: SpeakerId, needsReview: bool): Result<Db, Rejection> {
    if speaker !in db.speakers then Err(NotFound)
    else Ok(db.(speakers := db.speakers[speaker := db.speakers[speaker].(needsReview := needsReview)]))
  }

  function FlagTurn(db: Db, turn: TurnId, needsReview: bool): Result<Db, Rejection> {
    if turn !in db.turns then Err(NotFound)
    else Ok(db.(turns := db.turns[turn := db.turns[turn].(needsReview := needsReview)]))
  }

  // ---------------------------------------------------------------------------------------
  // Relabelling speakers
  // ---------------------------------------------------------------------------------------

  ghost predicate SamePlace(row: Speaker, other: Speaker) {
    row.meeting == other.meeting && row.cluster == other.cluster
  }

  ghost predicate SamePlaces(speakers: map<SpeakerId, Speaker>, after: map<SpeakerId, Speaker>) {
    after.Keys == speakers.Keys && forall id :: id in speakers ==> SamePlace(after[id], speakers[id])
  }

  /** Updates of speaker rows that leave their meetings and clusters alone. */
  lemma RelabellingKeepsSpeakers(db: Db, history: History, speakers: map<SpeakerId, Speaker>)
    requires SamePlaces(db.speakers, speakers) && UnionFind(db, history) && AttributionsLive(db)
    ensures UnionFind(db.(speakers := speakers), history) && AttributionsLive(db.(speakers := speakers))
  {
  }

  lemma RelabellingKeepsEvidence(db: Db, speakers: map<SpeakerId, Speaker>)
    requires SamePlaces(db.speakers, speakers) && EvidenceLive(db)
    ensures EvidenceLive(db.(speakers := speakers))
  {
  }

  // ---------------------------------------------------------------------------------------
  // Deleting a profile
  // ---------------------------------------------------------------------------------------

  lemma FewerSamplesStayLive(db: Db, profile: ProfileId)
    requires EvidenceLive(db)
    ensures EvidenceLive(ProfileDeleted(db, profile).(speakers := db.speakers))
  {
    var after := ProfileDeleted(db, profile).samples;
    forall id, other | id in after && other in after && SamePair(after, id, other) ensures id == other {
      assert SamePair(db.samples, id, other);
    }
  }

  lemma DeletingAProfileKeepsInvariant(db: Db, history: History, profile: ProfileId)
    requires Invariant(db, history)
    ensures Invariant(ProfileDeleted(db, profile), history)
  {
    var after := ProfileDeleted(db, profile);
    FewerSamplesStayLive(db, profile);
    RelabellingKeepsEvidence(after.(speakers := db.speakers), after.speakers);
    RelabellingKeepsSpeakers(db, history, after.speakers);
    assert UnionFind(after, history) && AttributionsLive(after);
    LabelsAreApart(db, history, after);
  }

  lemma DeletingAProfileKeepsBest(db: Db, profile: ProfileId, offered: Offered)
    requires BestKept(db.candidates, db.speakers, offered) && EvidenceLive(db)
    ensures BestKept(db.candidates, ProfileDeleted(db, profile).speakers, offered)
  {
    OtherSpeakersKeepBest(db.candidates, db.speakers, ProfileDeleted(db, profile).speakers, offered);
  }

  /**
   Nothing refers to a deleted profile; speakers that had it are anonymous and due for review, and otherwise as they were.
   No other speaker, sample or profile has changed, and no other table.
   */
  lemma DeletedProfileIsForgotten(db: Db, profile: ProfileId, id: SpeakerId, sample: SampleId)
    ensures var after := ProfileDeleted(db, profile);
            && after.profiles == db.profiles - {profile}
            && (id in after.speakers <==> id in db.speakers)
            && (id in db.speakers ==>
                  if db.speakers[id].profile == Some(profile)
                  then after.speakers[id]
                       == db.speakers[id].(profile := None, name := DefaultName(db.speakers[id].cluster), state := Unknown,
                                           needsReview := true)
                  else after.speakers[id] == db.speakers[id])
            && (sample in after.samples <==> sample in db.samples && db.samples[sample].profile != profile)
            && (sample in after.samples ==> after.samples[sample] == db.samples[sample])
            && after == db.(profiles := after.profiles, speakers := after.speakers, samples := after.samples)
  {
  }

  /** A new profile is kept under the name typed, without the spaces around it; names may repeat. */
  lemma NewProfilesAreKept(db: Db, profile: ProfileId, submitted: string, name: string)
    ensures var r := CreateProfile(db, profile, submitted);
            && (r.Ok? ==> Accepts(submitted, Trim(submitted)))
            && (Accepts(submitted, name) ==> r == Ok(db.(profiles := db.profiles[profile := name])))
  {
    AcceptsTheTrimmed(submitted, name);
    AcceptsTheTrimmed(submitted, Trim(submitted));
  }

  /** Setting a review flag sets that flag, of an existing row, and nothing else. */
  lemma FlagsChangeNothingElse(db: Db, speaker: SpeakerId, turn: TurnId, needsReview: bool)
    ensures FlagSpeaker(db, speaker, needsReview)
         == if speaker in db.speakers then
              Ok(db.(speakers := db.speakers[speaker := db.speakers[speaker].(needsReview := needsReview)]))
            else Err(NotFound)
    ensures FlagTurn(db, turn, needsReview)
         == if turn in db.turns then Ok(db.(turns := db.turns[turn := db.turns[turn].(needsReview := needsReview)]))
            else Err(NotFound)
  {
  }

  // ---------------------------------------------------------------------------------------
  // Review flags
  // ---------------------------------------------------------------------------------------

  lemma FlaggingATurnKeepsLog(db: Db, turn: TurnId, needsReview: bool)
    requires FlagTurn(db, turn, needsReview).Ok? && EditLog(db)
    ensures EditLog(FlagTurn(db, turn, needsReview).value)
  {
    UneditedUpdateKeepsLog(db.turns, FlagTurn(db, turn, needsReview).value.turns, db.revisions);
  }

  lemma FlaggingATurnKeepsIndex(db: Db, turn: TurnId, needsReview: bool)
    requires FlagTurn(db, turn, needsReview).Ok? && IndexAgrees(db)
    ensures IndexAgrees(FlagTurn(db, turn, needsReview).value)
  {
    QuietUpdateKeepsIndex(db, FlagTurn(db, turn, needsReview).value);
  }

  lemma FlaggingATurnKeepsPlaces(db: Db, turn: TurnId, needsReview: bool)
    requires FlagTurn(db, turn, needsReview).Ok? && AttributionsLive(db) && TurnsInMeetings(db)
    ensures var after := FlagTurn(db, turn, needsReview).value;
            AttributionsLive(after) && TurnsInMeetings(after)
  {
    assert FlagTurn(db, turn, needsReview).value.turns.Keys == db.turns.Keys;
  }

  lemma FlaggingATurnKeepsInvariant(db: Db, history: History, turn: TurnId, needsReview: bool)
    requires Invariant(db, history) && FlagTurn(db, turn, needsReview).Ok?
    ensures Invariant(FlagTurn(db, turn, needsReview).value, history)
  {
    FlaggingATurnKeepsLog(db, turn, needsReview);
    FlaggingATurnKeepsIndex(db, turn, needsReview);
    FlaggingATurnKeepsPlaces(db, turn, needsReview);
  }

  lemma FlaggingASpeakerKeepsInvariant(db: Db, history: History, speaker: SpeakerId, needsReview: bool)
    requires Invariant(db, history) && FlagSpeaker(db, speaker, needsReview).Ok?
    ensures Invariant(FlagSpeaker(db, speaker, needsReview).value, history)
  {
    var after := FlagSpeaker(db, speaker, needsReview).value;
    RelabellingKeepsSpeakers(db, history, after.speakers);
    RelabellingKeepsEvidence(db, after.speakers);
    LabelsAreApart(db, history, after);
  }

  // ---------------------------------------------------------------------------------------
  // The transaction
  // ---------------------------------------------------------------------------------------

  /** The affected speakers are read first and rewritten one by one. */
  method ForgetProfile(speakers: map<SpeakerId, Speaker>, profile: ProfileId) returns (after: map<SpeakerId, Speaker>)
    ensures after == SpeakersWithout(speakers, profile)
  {
    after := speakers;
    var affected := set id | id in speakers && speakers[id].profile == Some(profile);
    while affected != {}
      invariant affected <= speakers.Keys == after.Keys
      invariant forall id :: id in affected ==> after[id] == speakers[id] && speakers[id].profile == Some(profile)
      invariant forall id :: id in speakers && id !in affected ==> after[id] == SpeakersWithout(speakers, profile)[id]
      decreases |affected|
    {
      var id :| id in affected;
      affected := affected - {id};
      after := after[id := after[id].(profile := None, name := DefaultName(after[id].cluster), state := Unknown,
                                      needsReview := true)];
    }
  }

  method DeleteVoiceProfile(db: Db, profile: ProfileId) returns (r: Result<Db, Rejection>)
    ensures r == DeleteProfile(db, profile)
  {
    var speakers := ForgetProfile(db.speakers, profile);
    var tx := db.(speakers := speakers);
    if profile !in tx.profiles {
      return Err(NotFound);
    }
    tx := tx.(profiles := tx.profiles - {profile},
              samples := map id | id in tx.samples && tx.samples[id].profile != profile :: tx.samples[id]);
    return Ok(tx);
  }
}
