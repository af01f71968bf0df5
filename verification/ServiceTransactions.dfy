/**
 The transactions of src-tauri/src/service.rs, statement by statement: each works on a local copy
 of the tables that the caller commits, and an early return rolls back. Each is proved to have
 exactly the effect that SpeakerMerge, TranscriptEdits and VoiceEvidence specify.
 */
module ServiceTransactions {
  import opened Wrappers
  import opened Tables
  import opened SpeakerNames
  import opened SpeakerMerge
  import opened TranscriptEdits
  import opened VoiceEvidence

  // ---------------------------------------------------------------------------------------
  // merge_speakers
  // ---------------------------------------------------------------------------------------

  /** The statements on merge rules: retarget the source's rules, then upsert the source's own. */
  method RetargetRules(rules: map<RuleKey, SpeakerId>, own: RuleKey, source: SpeakerId, target: SpeakerId)
    returns (after: map<RuleKey, SpeakerId>)
    ensures after == MovedRules(rules, own, source, target)
  {
    after := map key | key in rules :: if rules[key] == source then target else rules[key];
    after := after[own := target];
  }

  /** The statements on candidates: the longer one survives, under the target. */
  method KeepLongerCandidate(candidates: map<CandidateKey, Candidate>, m: MeetingId, source: SpeakerId, target: SpeakerId)
    returns (after: map<CandidateKey, Candidate>)
    requires source != target
    ensures after == MovedCandidates(candidates, m, source, target)
  {
    var ofSource, ofTarget := CandidateKey(m, source), CandidateKey(m, target);
    after := candidates;
    if ofSource in after && (ofTarget !in after || after[ofSource].cleanMs > after[ofTarget].cleanMs) {
      after := after - {ofTarget};
      after := after[ofTarget := after[ofSource]] - {ofSource};
    } else {
      after := after - {ofSource};
    }
  }

  /** Profiles with a sample on the target. */
  lemma KnownProfiles(samples: map<SampleId, Sample>, known: set<ProfileId>, target: SpeakerId, profile: ProfileId)
    requires known == set id | id in samples && samples[id].speaker == target :: samples[id].profile
    ensures profile in known <==> HasSample(samples, profile, target)
  {
    if profile in known {
      var id :| id in samples && samples[id].speaker == target && samples[id].profile == profile;
      assert IsSample(samples, id, profile, target);
    }
  }

  method MoveSamples(samples: map<SampleId, Sample>, source: SpeakerId, target: SpeakerId)
    returns (after: map<SampleId, Sample>)
    requires source != target
    ensures after == MovedSamples(samples, source, target)
  {
    var known := set id | id in samples && samples[id].speaker == target :: samples[id].profile;
    forall profile ensures profile in known <==> HasSample(samples, profile, target) {
      KnownProfiles(samples, known, target, profile);
    }
    var kept := map id | id in samples && !(samples[id].speaker == source && samples[id].profile in known) :: samples[id];
    after := map id | id in kept :: if kept[id].speaker == source then kept[id].(speaker := target) else kept[id];
  }

  ghost predicate NothingRefersTo(db: Db, speaker: SpeakerId) {
    && (forall key :: key in db.rules ==> db.rules[key] != speaker)
    && (forall id :: id in db.turns ==> db.turns[id].speaker != Some(speaker))
    && (forall id :: id in db.words ==> db.words[id].speaker != Some(speaker))
    && (forall key :: key in db.candidates ==> key.speaker != speaker)
    && (forall id :: id in db.samples ==> db.samples[id].speaker != speaker)
  }

  /** Deleting a row that nothing refers to cascades to nothing. */
  lemma DeletingAnUnusedSpeakerLosesNothing(db: Db, speaker: SpeakerId)
    requires NothingRefersTo(db, speaker)
    ensures DeleteSpeaker(db, speaker) == db.(speakers := db.speakers - {speaker})
  {
    var after := DeleteSpeaker(db, speaker);
    assert after.speakers == db.speakers - {speaker};
    assert after.rules == db.rules;
    assert after.turns == db.turns;
    assert after.words == db.words;
    assert after.candidates == db.candidates;
    assert after.samples == db.samples;
  }

  lemma MovedRowsNameAnother(db: Db, m: MeetingId, own: RuleKey, source: SpeakerId, target: SpeakerId)
    requires source != target
    ensures var rules := MovedRules(db.rules, own, source, target); forall key :: key in rules ==> rules[key] != source
    ensures var turns := MovedTurns(db.turns, source, target); forall id :: id in turns ==> turns[id].speaker != Some(source)
    ensures var words := MovedWords(db.words, source, target); forall id :: id in words ==> words[id].speaker != Some(source)
    ensures var samples := MovedSamples(db.samples, source, target); forall id :: id in samples ==> samples[id].speaker != source
  {
  }

  lemma MovedCandidatesNameAnother(candidates: map<CandidateKey, Candidate>, speakers: map<SpeakerId, Speaker>, m: MeetingId,
                                   source: SpeakerId, target: SpeakerId)
    requires CandidatesLive(candidates, speakers)
    requires source != target && source in speakers && speakers[source].meeting == m
    ensures forall key :: key in MovedCandidates(candidates, m, source, target) ==> key.speaker != source
  {
  }

  lemma NothingRefersToTheMerged(db: Db, m: MeetingId, source: SpeakerId, target: SpeakerId)
    requires CandidatesLive(db.candidates, db.speakers)
    requires source != target && source in db.speakers && db.speakers[source].meeting == m
    ensures NothingRefersTo(MergeTables(db, m, source, target).(speakers := db.speakers), source)
  {
    MovedRowsNameAnother(db, m, RuleKey(m, db.speakers[source].cluster), source, target);
    MovedCandidatesNameAnother(db.candidates, db.speakers, m, source, target);
  }

  /** The statements of the transaction, once both speakers are known to belong. */
  method MergeStatements(db: Db, m: MeetingId, source: SpeakerId, target: SpeakerId) returns (tx: Db)
    requires CandidatesLive(db.candidates, db.speakers)
    requires source != target && BothBelong(db, m, source, target)
    ensures tx == MergeTables(db, m, source, target)
  {
    tx := db;
    var rules := RetargetRules(tx.rules, RuleKey(m, tx.speakers[source].cluster), source, target);
    tx := tx.(rules := rules);
    tx := tx.(turns := MovedTurns(tx.turns, source, target));
    tx := tx.(words := MovedWords(tx.words, source, target));
    var candidates := KeepLongerCandidate(tx.candidates, m, source, target);
    tx := tx.(candidates := candidates);
    var samples := MoveSamples(tx.samples, source, target);
    tx := tx.(samples := samples);
    assert tx == MergeTables(db, m, source, target).(speakers := db.speakers);
    NothingRefersToTheMerged(db, m, source, target);
    DeletingAnUnusedSpeakerLosesNothing(tx, source);
    tx := DeleteSpeaker(tx, source);
  }

  method MergeSpeakers(db: Db, m: MeetingId, source: SpeakerId, target: SpeakerId) returns (r: Result<Db, Rejection>)
    requires CandidatesLive(db.candidates, db.speakers)
    ensures r == Merge(db, m, source, target)
  {
    if source == target {
      return Err(InvalidInput);
    }
    var count := 0;
    if source in db.speakers && db.speakers[source].meeting == m { count := count + 1; }
    if target in db.speakers && db.speakers[target].meeting == m { count := count + 1; }
    if count != 2 {
      return Err(NotFound);
    }
    var tx := MergeStatements(db, m, source, target);
    return Ok(tx);
  }

  // ---------------------------------------------------------------------------------------
  // update_transcript_turn
  // ---------------------------------------------------------------------------------------

  /** The three writes: a log row, the turn with its trigger, and the meeting's mark. */
  method WriteRevision(db: Db, id: TurnId, nextText: Option<string>, newRevision: nat) returns (tx: Db)
    requires id in db.turns && newRevision == NextRevision(db.turns[id].revision)
    ensures tx == Appended(db, id, nextText)
  {
    tx := db;
    tx := tx.(revisions := tx.revisions[RevisionKey(id, newRevision) := Revision(tx.turns[id].editedText, nextText)]);
    tx := RewriteTurn(tx, id, tx.turns[id].(editedText := nextText, revision := newRevision));
    tx := tx.(meetings := MarkedEdited(tx.meetings, db.turns[id].meeting));
  }

  method UpdateTranscriptTurn(db: Db, id: TurnId, submitted: string, expected: Option<nat>)
    returns (r: Result<Db, Rejection>)
    ensures r == Edit(db, id, submitted, expected)
  {
    var text := Trim(submitted);
    if id !in db.turns {
      return Err(NotFound);
    }
    var revision := db.turns[id].revision;
    if expected.Some? && expected.value != revision {
      return Err(Conflict);
    }
    var newRevision := if revision < U32_MAX then revision + 1 else U32_MAX;
    if RevisionKey(id, newRevision) in db.revisions {
      return Err(ConstraintViolation);
    }
    var tx := WriteRevision(db, id, if text == "" then None else Some(text), newRevision);
    return Ok(tx);
  }

  // ---------------------------------------------------------------------------------------
  // rename_speaker and confirm_voice_profile_sample
  // ---------------------------------------------------------------------------------------

  /** The sample upsert, on the unique profile, meeting and speaker. */
  method UpsertSample(samples: map<SampleId, Sample>, newId: SampleId, row: Sample) returns (after: map<SampleId, Sample>)
    requires newId !in samples
    ensures after == SavedSample(samples, newId, row)
  {
    var conflicting := set id | id in samples && SameTriple(samples[id], row);
    if conflicting == {} {
      assert !HasTriple(samples, row) by {
        forall id | id in samples ensures !SameTriple(samples[id], row) {
          assert id !in conflicting;
        }
      }
      after := samples[newId := row];
    } else {
      assert HasTriple(samples, row) by {
        var id :| id in conflicting;
        assert id in samples && SameTriple(samples[id], row);
      }
      after := map id | id in samples ::
        if id in conflicting then samples[id].(cleanMs := row.cleanMs, embedding := row.embedding) else samples[id];
    }
  }

  method ConsumeCandidate(db: Db, m: MeetingId, speaker: SpeakerId, profile: ProfileId, newId: SampleId)
    returns (tx: Db)
    requires CandidateKey(m, speaker) in db.candidates && newId !in db.samples
    ensures tx == Consumed(db, m, speaker, profile, newId)
  {
    tx := db;
    var candidate := tx.candidates[CandidateKey(m, speaker)];
    var samples := UpsertSample(tx.samples, newId, Sample(profile, m, speaker, candidate.cleanMs, candidate.embedding));
    tx := tx.(samples := samples);
    tx := tx.(candidates := tx.candidates - {CandidateKey(m, speaker)});
  }

  /** Saving the profile found under the name, or a new one, and the voice if there is a candidate. */
  method SaveProfile(db: Db, m: MeetingId, speaker: SpeakerId, name: string, profile: ProfileId, newId: SampleId)
    returns (tx: Db)
    requires newId !in db.samples
    ensures tx == Learned(WithProfile(db, profile, name), m, speaker, profile, newId)
  {
    tx := db;
    if profile !in tx.profiles {
      tx := tx.(profiles := tx.profiles[profile := name]);
    }
    if CandidateKey(m, speaker) in tx.candidates {
      tx := ConsumeCandidate(tx, m, speaker, profile, newId);
    }
  }

  /** The profile of a name, or the identifier drawn for a new one. */
  method FindProfile(profiles: map<ProfileId, string>, name: string, drawn: ProfileId) returns (profile: ProfileId)
    requires drawn !in profiles
    ensures FoundByName(profiles, name, profile)
    ensures profile in profiles || profile == drawn
  {
    var rest := profiles.Keys;
    while rest != {}
      invariant rest <= profiles.Keys
      invariant forall other :: other in profiles && other !in rest ==> !SameName(profiles[other], name)
      decreases |rest|
    {
      var other :| other in rest;
      if SameName(profiles[other], name) {
        return other;
      }
      rest := rest - {other};
    }
    return drawn;
  }

  method RenameSpeaker(db: Db, m: MeetingId, speaker: SpeakerId, submitted: string, drawn: ProfileId, newId: SampleId)
    returns (r: Result<Db, Rejection>, profile: ProfileId)
    requires drawn !in db.profiles && newId !in db.samples
    ensures FoundByName(db.profiles, Trim(submitted), profile)
    ensures r == Rename(db, m, speaker, submitted, profile, newId)
  {
    var name := Trim(submitted);
    profile := FindProfile(db.profiles, name, drawn);
    if name == "" || |name| > MAX_NAME_CHARS {
      return Err(InvalidInput), profile;
    }
    if speaker !in db.speakers || db.speakers[speaker].meeting != m {
      return Err(NotFound), profile;
    }
    var row := db.speakers[speaker];
    var tx := db;
    var shouldSaveProfile := !row.state.Matched? || row.profile.None?;
    if shouldSaveProfile {
      tx := SaveProfile(tx, m, speaker, name, profile, newId);
      row := row.(name := name, profile := Some(profile), state := Matched, needsReview := false,
                  source := FromUser, confidence := Some(Confirmed));
    } else {
      row := row.(name := name, source := FromUser, confidence := Some(Confirmed));
    }
    tx := tx.(speakers := db.speakers[speaker := row]);
    return Ok(tx), profile;
  }

  method ConfirmVoiceProfileSample(db: Db, m: MeetingId, speaker: SpeakerId, profile: ProfileId, newId: SampleId)
    returns (r: Result<Db, Rejection>)
    requires newId !in db.samples
    ensures r == ConfirmSample(db, m, speaker, profile, newId)
  {
    if speaker !in db.speakers || db.speakers[speaker].meeting != m {
      return Err(InvalidInput);
    }
    if CandidateKey(m, speaker) !in db.candidates {
      return Err(NotFound);
    }
    if profile !in db.profiles {
      return Err(NotFound);
    }
    var tx := ConsumeCandidate(db, m, speaker, profile, newId);
    var row := db.speakers[speaker].(profile := Some(profile), name := db.profiles[profile],
                                     state := Matched, needsReview := false);
    tx := tx.(speakers := db.speakers[speaker := row]);
    return Ok(tx);
  }
}
