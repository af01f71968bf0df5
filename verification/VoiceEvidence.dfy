/**
 Naming a speaker and learning its voice (service.rs: rename_speaker,
 confirm_voice_profile_sample, review_speaker_match; visual_context.rs, apply_visual_suggestion).
 Naming or confirming consumes the speaker's candidate, which becomes a sample.
 */
module VoiceEvidence {
  import opened Wrappers
  import opened Tables
  import opened SpeakerNames
  import opened SpeakerMerge

  // ---------------------------------------------------------------------------------------
  // Operations
  // ---------------------------------------------------------------------------------------

  predicate SameTriple(row: Sample, other: Sample) {
    row.profile == other.profile && row.meeting == other.meeting && row.speaker == other.speaker
  }

  predicate HasTriple(samples: map<SampleId, Sample>, row: Sample) {
    exists id :: id in samples && SameTriple(samples[id], row)
  }

  /** A sample upsert: the row of the same profile, meeting and speaker, or a new one. */
  function SavedSample(samples: map<SampleId, Sample>, newId: SampleId, row: Sample): map<SampleId, Sample> {
    if HasTriple(samples, row) then
      map id | id in samples :: if SameTriple(samples[id], row) then row else samples[id]
    else samples[newId := row]
  }

  /** The candidate of a speaker becomes a confirmed sample of a profile. */
  function Consumed(db: Db, m: MeetingId, speaker: SpeakerId, profile: ProfileId, newId: SampleId): Db
    requires CandidateKey(m, speaker) in db.candidates
  {
    var candidate := db.candidates[CandidateKey(m, speaker)];
    db.(samples := SavedSample(db.samples, newId,
                               Sample(profile, m, speaker, candidate.cleanMs, candidate.embedding)),
        candidates := db.candidates - {CandidateKey(m, speaker)})
  }

  predicate Belongs(db: Db, m: MeetingId, speaker: SpeakerId) {
    speaker in db.speakers && db.speakers[speaker].meeting == m
  }

  function ConfirmSample(db: Db, m: MeetingId, speaker: SpeakerId, profile: ProfileId, newId: SampleId)
    : Result<Db, Rejection>
  {
    if !Belongs(db, m, speaker) then Err(InvalidInput)
    else if CandidateKey(m, speaker) !in db.candidates || profile !in db.profiles then Err(NotFound)
    else
      var row := db.speakers[speaker].(profile := Some(profile), name := db.profiles[profile],
                                       state := Matched, needsReview := false);
      Ok(Consumed(db, m, speaker, profile, newId).(speakers := db.speakers[speaker := row]))
  }

  const MAX_NAME_CHARS := 120

  /** Renaming attaches a profile unless the speaker is matched to one already. */
  predicate AttachesProfile(row: Speaker) {
    !row.state.Matched? || row.profile.None?
  }

  /** The candidate, if the speaker has one, is consumed. */
  function Learned(db: Db, m: MeetingId, speaker: SpeakerId, profile: ProfileId, newId: SampleId): Db {
    if CandidateKey(m, speaker) in db.candidates then Consumed(db, m, speaker, profile, newId) else db
  }

  /** The comparison of SQLite's NOCASE, on names without the spaces around them. */
  function Lower(c: char): char {
    if 'A' <= c <= 'Z' then c - 'A' + 'a' else c
  }

  function WithoutSpaces(s: string): string {
    if s == "" then s
    else if s[0] == ' ' then WithoutSpaces(s[1..])
    else if s[|s| - 1] == ' ' then WithoutSpaces(s[..|s| - 1])
    else s
  }

  predicate SameName(display: string, name: string) {
    var shown := WithoutSpaces(display);
    |shown| == |name| && forall i :: 0 <= i < |name| ==> Lower(shown[i]) == Lower(name[i])
  }

  /** What the search for a profile by name may come to: one of that name, or a new one if there is none. */
  ghost predicate FoundByName(profiles: map<ProfileId, string>, name: string, profile: ProfileId) {
    if profile in profiles then SameName(profiles[profile], name)
    else forall other :: other in profiles ==> !SameName(profiles[other], name)
  }

  function WithProfile(db: Db, profile: ProfileId, name: string): Db {
    if profile in db.profiles then db else db.(profiles := db.profiles[profile := name])
  }

  function NamedByUser(row: Speaker, name: string, profile: Option<ProfileId>): Speaker {
    var named := row.(name := name, source := FromUser, confidence := Some(Confirmed));
    if profile.Some? then named.(profile := profile, state := Matched, needsReview := false) else named
  }

  function NamedAndLearned(db: Db, m: MeetingId, speaker: SpeakerId, name: string, profile: ProfileId, newId: SampleId): Db
    requires speaker in db.speakers
  {
    Learned(WithProfile(db, profile, name), m, speaker, profile, newId).(
      speakers := db.speakers[speaker := NamedByUser(db.speakers[speaker], name, Some(profile))])
  }

  function Rename(db: Db, m: MeetingId, speaker: SpeakerId, submitted: string, profile: ProfileId, newId: SampleId)
    : Result<Db, Rejection>
  {
    var name := Trim(submitted);
    if name == "" || |name| > MAX_NAME_CHARS then Err(InvalidInput)
    else if !Belongs(db, m, speaker) then Err(NotFound)
    else
      var row := db.speakers[speaker];
      if AttachesProfile(row) then
        Ok(NamedAndLearned(db, m, speaker, name, profile, newId))
      else Ok(db.(speakers := db.speakers[speaker := NamedByUser(row, name, None)]))
  }

  lemma {:induction false} TrimmedHasNoSpaces(s: string)
    ensures WithoutSpaces(Trim(s)) == Trim(s)
  {
    if s != "" {
      if IsSpace(s[0]) {
        TrimmedHasNoSpaces(s[1..]);
      } else if IsSpace(s[|s| - 1]) {
        TrimmedHasNoSpaces(s[..|s| - 1]);
      }
    }
  }

  lemma ProfileOfThatName(db: Db, name: string, profile: ProfileId)
    requires FoundByName(db.profiles, name, profile) && WithoutSpaces(name) == name
    ensures var after := WithProfile(db, profile, name);
            && profile in after.profiles && SameName(after.profiles[profile], name)
            && (after.profiles == db.profiles <==> exists other :: other in db.profiles && SameName(db.profiles[other], name))
  {
  }

  lemma LearningKeepsProfiles(db: Db, m: MeetingId, speaker: SpeakerId, profile: ProfileId, newId: SampleId)
    ensures Learned(db, m, speaker, profile, newId).profiles == db.profiles
  {
  }

  /** Naming attaches a profile of that name, up to case and spaces; it makes one only if there was none. */
  lemma NamingAttachesAProfileOfThatName(db: Db, m: MeetingId, speaker: SpeakerId, submitted: string, profile: ProfileId,
                                         newId: SampleId)
    requires Rename(db, m, speaker, submitted, profile, newId).Ok? && AttachesProfile(db.speakers[speaker])
    requires FoundByName(db.profiles, Trim(submitted), profile)
    ensures var after, name := Rename(db, m, speaker, submitted, profile, newId).value, Trim(submitted);
            && after.speakers[speaker].profile == Some(profile) && after.speakers[speaker].name == name
            && profile in after.profiles && SameName(after.profiles[profile], name)
            && (after.profiles == db.profiles <==> exists other :: other in db.profiles && SameName(db.profiles[other], name))
  {
    var name := Trim(submitted);
    TrimmedHasNoSpaces(submitted);
    ProfileOfThatName(db, name, profile);
    LearningKeepsProfiles(WithProfile(db, profile, name), m, speaker, profile, newId);
    assert Rename(db, m, speaker, submitted, profile, newId).value == NamedAndLearned(db, m, speaker, name, profile, newId);
  }

  predicate ConsumesOnRename(db: Db, m: MeetingId, speaker: SpeakerId) {
    Belongs(db, m, speaker) && AttachesProfile(db.speakers[speaker])
  }

  /** Only a speaker nobody named and no model matched takes a visual suggestion. */
  predicate OpenToSuggestion(row: Speaker) {
    row.state.Unknown? && row.source !in {FromUser, VoiceConfirmed, VisualConfirmed}
  }

  function Suggest(db: Db, m: MeetingId, speaker: SpeakerId, name: string): Db {
    if Belongs(db, m, speaker) && OpenToSuggestion(db.speakers[speaker]) then
      db.(speakers := db.speakers[speaker := db.speakers[speaker].(
            name := name, state := Review, needsReview := true, source := FromVisual, confidence := Some(ForReview))])
    else db
  }

  /** A user's verdict on a proposed identity. */
  function ReviewMatch(db: Db, speaker: SpeakerId, accepted: bool): Result<Db, Rejection> {
    if speaker !in db.speakers then Err(NotFound)
    else
      var row := db.speakers[speaker];
      if accepted then
        if row.profile.None? && !row.source.FromVisual? then Err(Conflict)
        else
          var name := if row.profile.Some? && row.profile.value in db.profiles then db.profiles[row.profile.value]
                      else row.name;
          var source := if row.source.FromVisual? then VisualConfirmed else VoiceConfirmed;
          Ok(db.(speakers := db.speakers[speaker := row.(name := name, state := Matched, needsReview := false,
                                                         source := source, confidence := Some(Confirmed))]))
      else
        Ok(db.(speakers := db.speakers[speaker := row.(profile := None, name := DefaultName(row.cluster), state := Unknown,
                                                       needsReview := true, source := FromNothing, confidence := None)]))
  }

  // ---------------------------------------------------------------------------------------
  // What each of them leaves of the speaker
  // ---------------------------------------------------------------------------------------

  /** The row of one speaker changes, within its meeting and cluster, and no other speaker's. */
  ghost predicate OneRowChanges(speakers: map<SpeakerId, Speaker>, after: map<SpeakerId, Speaker>, speaker: SpeakerId) {
    && speaker in speakers && speaker in after
    && after == speakers[speaker := after[speaker]]
    && after[speaker].meeting == speakers[speaker].meeting && after[speaker].cluster == speakers[speaker].cluster
  }

  /** An accepted identity is matched, confirmed, and shown under its profile's name. */
  ghost predicate Accepted(profiles: map<ProfileId, string>, row: Speaker, after: Speaker) {
    && after.state.Matched? && !after.needsReview && after.confidence == Some(Confirmed)
    && after.profile == row.profile
    && after.source == (if row.source.FromVisual? then VisualConfirmed else VoiceConfirmed)
    && after.name == (if row.profile.Some? && row.profile.value in profiles then profiles[row.profile.value] else row.name)
  }

  /** A rejected one leaves an anonymous speaker that is due for review. */
  ghost predicate Rejected(row: Speaker, after: Speaker) {
    && after.profile.None? && after.name == DefaultName(row.cluster)
    && after.state.Unknown? && after.needsReview
    && after.source.FromNothing? && after.confidence.None?
  }

  /** A verdict needs a speaker, and to accept one also a profile or a visual suggestion; it changes that speaker only. */
  lemma VerdictsTakeEffect(db: Db, speaker: SpeakerId, accepted: bool)
    ensures var r := ReviewMatch(db, speaker, accepted);
            && (r.Ok? <==>
                  && speaker in db.speakers
                  && (accepted ==> db.speakers[speaker].profile.Some? || db.speakers[speaker].source.FromVisual?))
            && (r.Ok? ==>
                  && OneRowChanges(db.speakers, r.value.speakers, speaker)
                  && r.value == db.(speakers := r.value.speakers)
                  && if accepted then Accepted(db.profiles, db.speakers[speaker], r.value.speakers[speaker])
                     else Rejected(db.speakers[speaker], r.value.speakers[speaker]))
  {
  }

  /** The name a user types, without the spaces around it: at least one character and at most 120. */
  ghost predicate Accepts(submitted: string, name: string) {
    WithoutSpacesAround(submitted, name) && 0 < |name| <= 120
  }

  lemma AcceptsTheTrimmed(submitted: string, name: string)
    ensures Accepts(submitted, name) <==> name == Trim(submitted) && 0 < |name| <= MAX_NAME_CHARS
  {
    TrimLeavesTheStretch(submitted, name);
  }

  /** Named by the user; a speaker not matched to a profile is matched to the one of that name. */
  ghost predicate Named(row: Speaker, after: Speaker, name: string, profile: ProfileId) {
    && after.name == name && after.source.FromUser? && after.confidence == Some(Confirmed)
    && (if row.state.Matched? && row.profile.Some? then
          after.profile == row.profile && after.state == row.state && after.needsReview == row.needsReview
        else after.profile == Some(profile) && after.state.Matched? && !after.needsReview)
  }

  lemma LearningTouchesEvidenceOnly(db: Db, m: MeetingId, speaker: SpeakerId, profile: ProfileId, newId: SampleId)
    ensures var after := Learned(db, m, speaker, profile, newId);
            after == db.(samples := after.samples, candidates := after.candidates)
  {
  }

  lemma AttachingTakesEffect(db: Db, m: MeetingId, speaker: SpeakerId, name: string, profile: ProfileId, newId: SampleId)
    requires Belongs(db, m, speaker) && AttachesProfile(db.speakers[speaker])
    ensures var after := NamedAndLearned(db, m, speaker, name, profile, newId);
            && OneRowChanges(db.speakers, after.speakers, speaker)
            && Named(db.speakers[speaker], after.speakers[speaker], name, profile)
            && after == db.(speakers := after.speakers, profiles := after.profiles, samples := after.samples,
                            candidates := after.candidates)
  {
    LearningTouchesEvidenceOnly(WithProfile(db, profile, name), m, speaker, profile, newId);
    var row := NamedByUser(db.speakers[speaker], name, Some(profile));
    assert NamedAndLearned(db, m, speaker, name, profile, newId).speakers == db.speakers[speaker := row];
  }

  lemma RenamingTakesEffect(db: Db, speaker: SpeakerId, name: string)
    requires speaker in db.speakers && !AttachesProfile(db.speakers[speaker])
    ensures var after := db.speakers[speaker := NamedByUser(db.speakers[speaker], name, None)];
            && OneRowChanges(db.speakers, after, speaker)
            && forall profile :: Named(db.speakers[speaker], after[speaker], name, profile)
  {
  }

  /** Naming needs a name that is not too long and a speaker of the meeting. It changes no transcript row and no rule. */
  lemma NamingTakesEffect(db: Db, m: MeetingId, speaker: SpeakerId, submitted: string, profile: ProfileId, newId: SampleId,
                          name: string)
    ensures var r := Rename(db, m, speaker, submitted, profile, newId);
            && (Accepts(submitted, name) ==>
                  (r.Ok? <==> speaker in db.speakers && db.speakers[speaker].meeting == m))
            && (r.Ok? ==> Accepts(submitted, Trim(submitted)))
            && (r.Ok? && Accepts(submitted, name) ==>
                  && OneRowChanges(db.speakers, r.value.speakers, speaker)
                  && Named(db.speakers[speaker], r.value.speakers[speaker], name, profile)
                  && r.value == db.(speakers := r.value.speakers, profiles := r.value.profiles, samples := r.value.samples,
                                    candidates := r.value.candidates))
  {
    AcceptsTheTrimmed(submitted, name);
    AcceptsTheTrimmed(submitted, Trim(submitted));
    if Belongs(db, m, speaker) && name == Trim(submitted) {
      if AttachesProfile(db.speakers[speaker]) {
        AttachingTakesEffect(db, m, speaker, name, profile, newId);
      } else {
        RenamingTakesEffect(db, speaker, name);
      }
    }
  }

  /** Without a profile to attach, naming leaves profiles and voice evidence alone. */
  lemma RenamingAMatchedSpeakerLearnsNothing(db: Db, m: MeetingId, speaker: SpeakerId, submitted: string, profile: ProfileId,
                                             newId: SampleId)
    requires Rename(db, m, speaker, submitted, profile, newId).Ok?
    requires db.speakers[speaker].state.Matched? && db.speakers[speaker].profile.Some?
    ensures var after := Rename(db, m, speaker, submitted, profile, newId).value; after == db.(speakers := after.speakers)
  {
  }

  /** Confirming a voice needs a speaker of the meeting, its candidate and a profile, whose name the speaker takes. */
  lemma ConfirmingTakesEffect(db: Db, m: MeetingId, speaker: SpeakerId, profile: ProfileId, newId: SampleId)
    ensures var r := ConfirmSample(db, m, speaker, profile, newId);
            && (r.Ok? <==>
                  && speaker in db.speakers && db.speakers[speaker].meeting == m
                  && CandidateKey(m, speaker) in db.candidates && profile in db.profiles)
            && (r.Ok? ==>
                  && OneRowChanges(db.speakers, r.value.speakers, speaker)
                  && r.value.speakers[speaker]
                     == db.speakers[speaker].(profile := Some(profile), name := db.profiles[profile], state := Matched,
                                              needsReview := false)
                  && CandidateKey(m, speaker) !in r.value.candidates
                  && r.value == db.(speakers := r.value.speakers, samples := r.value.samples, candidates := r.value.candidates))
  {
  }

  /** A user has named the speaker or accepted an identity for it. */
  ghost predicate HumanDecided(source: Source) {
    source.FromUser? || source.VoiceConfirmed? || source.VisualConfirmed?
  }

  lemma OpenUnlessDecided(row: Speaker)
    ensures OpenToSuggestion(row) <==> row.state.Unknown? && !HumanDecided(row.source)
  {
  }

  /** A suggestion renames a speaker of the meeting for review if nothing has matched it and nobody has named it. */
  lemma SuggestionsTakeEffect(db: Db, m: MeetingId, speaker: SpeakerId, name: string)
    ensures var after := Suggest(db, m, speaker, name);
            if && speaker in db.speakers && db.speakers[speaker].meeting == m && db.speakers[speaker].state.Unknown?
               && !HumanDecided(db.speakers[speaker].source)
            then
              && after == db.(speakers := after.speakers)
              && OneRowChanges(db.speakers, after.speakers, speaker)
              && after.speakers[speaker]
                 == db.speakers[speaker].(name := name, state := Review, needsReview := true, source := FromVisual,
                                          confidence := Some(ForReview))
            else after == db
  {
    if Belongs(db, m, speaker) {
      OpenUnlessDecided(db.speakers[speaker]);
    }
  }

  // ---------------------------------------------------------------------------------------
  // Samples stay one per profile and speaker
  // ---------------------------------------------------------------------------------------

  lemma SavedSampleStaysUnique(samples: map<SampleId, Sample>, speakers: map<SpeakerId, Speaker>, newId: SampleId, row: Sample)
    requires SamplesLive(samples, speakers) && newId !in samples
    requires row.speaker in speakers && speakers[row.speaker].meeting == row.meeting
    ensures SamplesLive(SavedSample(samples, newId, row), speakers)
  {
    var after := SavedSample(samples, newId, row);
    forall id, other | id in after && other in after && SamePair(after, id, other)
      ensures id == other
    {
      if id in samples && other in samples {
        assert SamePair(samples, id, other);
      } else if id != other {
        var kept := if id in samples then id else other;
        assert SameTriple(samples[kept], row);
      }
    }
  }

  /** After saving, the one row of its profile and speaker is the saved one; no other changes. */
  lemma SavedSampleReplacesItsTriple(samples: map<SampleId, Sample>, speakers: map<SpeakerId, Speaker>, newId: SampleId, row: Sample)
    requires SamplesLive(samples, speakers) && newId !in samples
    requires row.speaker in speakers && speakers[row.speaker].meeting == row.meeting
    ensures var after := SavedSample(samples, newId, row);
            && HasSample(after, row.profile, row.speaker)
            && (forall id :: id in after && IsSample(after, id, row.profile, row.speaker) ==> after[id] == row)
            && (forall id :: id in samples && !IsSample(samples, id, row.profile, row.speaker) ==>
                  id in after && after[id] == samples[id])
  {
    var after := SavedSample(samples, newId, row);
    if HasTriple(samples, row) {
      var id :| id in samples && SameTriple(samples[id], row);
      assert IsSample(after, id, row.profile, row.speaker);
    } else {
      assert IsSample(after, newId, row.profile, row.speaker);
      forall id | id in samples && IsSample(samples, id, row.profile, row.speaker) ensures false {
        assert SameTriple(samples[id], row);
      }
    }
  }

  /** Consuming saves exactly the candidate, and the speaker has no candidate left. */
  lemma ConsumedSavesTheCandidate(db: Db, m: MeetingId, speaker: SpeakerId, profile: ProfileId, newId: SampleId, id: SampleId)
    requires EvidenceLive(db) && Belongs(db, m, speaker) && newId !in db.samples
    requires CandidateKey(m, speaker) in db.candidates
    ensures var after := Consumed(db, m, speaker, profile, newId);
            var candidate := db.candidates[CandidateKey(m, speaker)];
            && CandidateKey(m, speaker) !in after.candidates
            && HasSample(after.samples, profile, speaker)
            && (IsSample(after.samples, id, profile, speaker) ==>
                  after.samples[id] == Sample(profile, m, speaker, candidate.cleanMs, candidate.embedding))
  {
    var candidate := db.candidates[CandidateKey(m, speaker)];
    SavedSampleReplacesItsTriple(db.samples, db.speakers, newId,
                                 Sample(profile, m, speaker, candidate.cleanMs, candidate.embedding));
  }

  lemma ConsumingKeepsEvidence(db: Db, m: MeetingId, speaker: SpeakerId, profile: ProfileId, newId: SampleId)
    requires EvidenceLive(db) && Belongs(db, m, speaker) && newId !in db.samples
    requires CandidateKey(m, speaker) in db.candidates
    ensures EvidenceLive(Consumed(db, m, speaker, profile, newId))
  {
    var candidate := db.candidates[CandidateKey(m, speaker)];
    SavedSampleStaysUnique(db.samples, db.speakers, newId,
                           Sample(profile, m, speaker, candidate.cleanMs, candidate.embedding));
  }

  // ---------------------------------------------------------------------------------------
  // The candidate kept is the best one offered
  // ---------------------------------------------------------------------------------------

  /** Candidates offered to a speaker, or to speakers since merged into it, and not consumed. */
  type Offered = map<SpeakerId, set<Candidate>>

  function OffersTo(offered: Offered, speaker: SpeakerId): set<Candidate> {
    Lookup(offered, speaker).GetOr({})
  }

  ghost predicate BestOf(kept: Option<Candidate>, offers: set<Candidate>) {
    match kept
    case None => offers == {}
    case Some(best) => best in offers && forall other :: other in offers ==> other.cleanMs <= best.cleanMs
  }

  ghost predicate BestKeptFor(candidates: map<CandidateKey, Candidate>, speakers: map<SpeakerId, Speaker>,
                              offered: Offered, speaker: SpeakerId)
    requires speaker in speakers
  {
    BestOf(Lookup(candidates, CandidateKey(speakers[speaker].meeting, speaker)), OffersTo(offered, speaker))
  }

  ghost predicate BestKept(candidates: map<CandidateKey, Candidate>, speakers: map<SpeakerId, Speaker>, offered: Offered) {
    && offered.Keys <= speakers.Keys
    && forall speaker :: speaker in speakers ==> BestKeptFor(candidates, speakers, offered, speaker)
  }

  function Pooled(offered: Offered, source: SpeakerId, target: SpeakerId): Offered {
    offered[target := OffersTo(offered, source) + OffersTo(offered, target)] - {source}
  }

  lemma LongerIsBest(source: Option<Candidate>, target: Option<Candidate>, sources: set<Candidate>, targets: set<Candidate>)
    requires BestOf(source, sources) && BestOf(target, targets)
    ensures BestOf(Longer(source, target), sources + targets)
  {
  }

  function Better(kept: Option<Candidate>, offer: Candidate): Candidate {
    if kept.Some? && offer.cleanMs < kept.value.cleanMs then kept.value else offer
  }

  lemma BetterIsBest(kept: Option<Candidate>, offers: set<Candidate>, offer: Candidate)
    requires BestOf(kept, offers)
    ensures BestOf(Some(Better(kept, offer)), offers + {offer})
  {
  }

  lemma MovedCandidateOf(candidates: map<CandidateKey, Candidate>, m: MeetingId, source: SpeakerId, target: SpeakerId,
                         meeting: MeetingId, speaker: SpeakerId)
    requires source != target && speaker != source && (speaker == target ==> meeting == m)
    ensures Lookup(MovedCandidates(candidates, m, source, target), CandidateKey(meeting, speaker))
         == if speaker == target
            then Longer(Lookup(candidates, CandidateKey(m, source)), Lookup(candidates, CandidateKey(m, target)))
            else Lookup(candidates, CandidateKey(meeting, speaker))
  {
  }

  lemma PooledOffersTo(offered: Offered, source: SpeakerId, target: SpeakerId, speaker: SpeakerId)
    requires source != target && speaker != source
    ensures OffersTo(Pooled(offered, source, target), speaker)
         == if speaker == target then OffersTo(offered, source) + OffersTo(offered, target) else OffersTo(offered, speaker)
  {
  }

  lemma MergeKeepsBestFor(candidates: map<CandidateKey, Candidate>, speakers: map<SpeakerId, Speaker>, m: MeetingId,
                          source: SpeakerId, target: SpeakerId, offered: Offered, speaker: SpeakerId)
    requires BestKept(candidates, speakers, offered)
    requires source in speakers && target in speakers && speakers[source].meeting == speakers[target].meeting == m
    requires source != target && speaker in speakers && speaker != source
    ensures BestKeptFor(MovedCandidates(candidates, m, source, target), speakers, Pooled(offered, source, target), speaker)
  {
    MovedCandidateOf(candidates, m, source, target, speakers[speaker].meeting, speaker);
    PooledOffersTo(offered, source, target, speaker);
    assert BestKeptFor(candidates, speakers, offered, speaker);
    if speaker == target {
      assert BestKeptFor(candidates, speakers, offered, source);
      LongerIsBest(Lookup(candidates, CandidateKey(m, source)), Lookup(candidates, CandidateKey(m, target)),
                   OffersTo(offered, source), OffersTo(offered, target));
    }
  }

  lemma MergeKeepsBest(db: Db, m: MeetingId, source: SpeakerId, target: SpeakerId, offered: Offered)
    requires BestKept(db.candidates, db.speakers, offered)
    requires Merge(db, m, source, target).Ok?
    ensures var after := Merge(db, m, source, target).value;
            BestKept(after.candidates, after.speakers, Pooled(offered, source, target))
  {
    var candidates, pooled := MovedCandidates(db.candidates, m, source, target), Pooled(offered, source, target);
    forall speaker | speaker in db.speakers - {source}
      ensures BestKeptFor(candidates, db.speakers - {source}, pooled, speaker)
    {
      MergeKeepsBestFor(db.candidates, db.speakers, m, source, target, offered, speaker);
    }
  }

  lemma ConsumingKeepsBest(candidates: map<CandidateKey, Candidate>, speakers: map<SpeakerId, Speaker>, offered: Offered,
                           speaker: SpeakerId)
    requires BestKept(candidates, speakers, offered) && speaker in speakers
    ensures BestKept(candidates - {CandidateKey(speakers[speaker].meeting, speaker)}, speakers, offered - {speaker})
  {
    forall other | other in speakers
      ensures BestKeptFor(candidates - {CandidateKey(speakers[speaker].meeting, speaker)}, speakers, offered - {speaker}, other)
    {
      assert BestKeptFor(candidates, speakers, offered, other);
    }
  }

  /** Updates that move no speaker between meetings, and speakers new to the table, keep it. */
  lemma OtherSpeakersKeepBest(candidates: map<CandidateKey, Candidate>, speakers: map<SpeakerId, Speaker>,
                              after: map<SpeakerId, Speaker>, offered: Offered)
    requires BestKept(candidates, speakers, offered) && CandidatesLive(candidates, speakers)
    requires forall id :: id in speakers ==> id in after && after[id].meeting == speakers[id].meeting
    ensures BestKept(candidates, after, offered)
  {
    forall speaker | speaker in after ensures BestKeptFor(candidates, after, offered, speaker) {
      if speaker in speakers {
        assert BestKeptFor(candidates, speakers, offered, speaker);
      }
    }
  }
}
