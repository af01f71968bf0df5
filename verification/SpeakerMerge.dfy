/**
 Merging two speakers of a meeting (service.rs, merge_speakers).

 The merge-rule table is a path-compressed union-find over cluster labels. The lemmas below say
 what one merge keeps; LibraryRuns carries them over whole runs.
 */
module SpeakerMerge {
  import opened Wrappers
  import opened Tables

  /** One merge the user made, in the order made. */
  datatype Merged = Merged(source: SpeakerId, target: SpeakerId)

  function Moved(speaker: Option<SpeakerId>, source: SpeakerId, target: SpeakerId): Option<SpeakerId> {
    if speaker == Some(source) then Some(target) else speaker
  }

  function MovedTurns(turns: map<TurnId, Turn>, source: SpeakerId, target: SpeakerId): map<TurnId, Turn> {
    map id | id in turns :: turns[id].(speaker := Moved(turns[id].speaker, source, target))
  }

  function MovedWords(words: map<WordId, Word>, source: SpeakerId, target: SpeakerId): map<WordId, Word> {
    map id | id in words :: words[id].(speaker := Moved(words[id].speaker, source, target))
  }

  function Lookup<K, V>(table: map<K, V>, key: K): Option<V> {
    if key in table then Some(table[key]) else None
  }

  /** The candidate with more clean speech; the target's on a tie. */
  function Longer(source: Option<Candidate>, target: Option<Candidate>): Option<Candidate> {
    if source.Some? && (target.None? || source.value.cleanMs > target.value.cleanMs) then source else target
  }

  predicate IsSample(samples: map<SampleId, Sample>, id: SampleId, profile: ProfileId, speaker: SpeakerId) {
    id in samples && samples[id].profile == profile && samples[id].speaker == speaker
  }

  predicate HasSample(samples: map<SampleId, Sample>, profile: ProfileId, speaker: SpeakerId) {
    exists id :: id in samples && IsSample(samples, id, profile, speaker)
  }

  /** Source samples move to the target, except where the target has one of the same profile. */
  function MovedSamples(samples: map<SampleId, Sample>, source: SpeakerId, target: SpeakerId)
    : map<SampleId, Sample>
  {
    map id | id in samples
             && !(samples[id].speaker == source && HasSample(samples, samples[id].profile, target))
      :: if samples[id].speaker == source then samples[id].(speaker := target) else samples[id]
  }

  function MovedCandidates(candidates: map<CandidateKey, Candidate>, m: MeetingId,
                           source: SpeakerId, target: SpeakerId): map<CandidateKey, Candidate>
  {
    var kept := Longer(Lookup(candidates, CandidateKey(m, source)), Lookup(candidates, CandidateKey(m, target)));
    var rest := candidates - {CandidateKey(m, source), CandidateKey(m, target)};
    if kept.Some? then rest[CandidateKey(m, target) := kept.value] else rest
  }

  /** Rules that led to the source, and the source's own cluster, now lead to the target. */
  function MovedRules(rules: map<RuleKey, SpeakerId>, own: RuleKey, source: SpeakerId, target: SpeakerId)
    : map<RuleKey, SpeakerId>
  {
    map key | key in rules.Keys + {own} ::
      if key == own || rules[key] == source then target else rules[key]
  }

  predicate BothBelong(db: Db, m: MeetingId, source: SpeakerId, target: SpeakerId) {
    && source in db.speakers && db.speakers[source].meeting == m
    && target in db.speakers && db.speakers[target].meeting == m
  }

  function MergeTables(db: Db, m: MeetingId, source: SpeakerId, target: SpeakerId): Db
    requires source in db.speakers
  {
    db.(speakers := db.speakers - {source},
        rules := MovedRules(db.rules, RuleKey(m, db.speakers[source].cluster), source, target),
        turns := MovedTurns(db.turns, source, target),
        words := MovedWords(db.words, source, target),
        candidates := MovedCandidates(db.candidates, m, source, target),
        samples := MovedSamples(db.samples, source, target))
  }

  function Merge(db: Db, m: MeetingId, source: SpeakerId, target: SpeakerId): Result<Db, Rejection> {
    if source == target then Err(InvalidInput)
    else if !BothBelong(db, m, source, target) then Err(NotFound)
    else Ok(MergeTables(db, m, source, target))
  }

  // ---------------------------------------------------------------------------------------
  // The rule table is a compressed union-find
  // ---------------------------------------------------------------------------------------

  /** Where a speaker ends up when past merges are followed one by one. */
  function Follow(merges: seq<Merged>, speaker: SpeakerId): SpeakerId {
    if merges == [] then speaker
    else
      var last := merges[|merges| - 1];
      var reached := Follow(merges[..|merges| - 1], speaker);
      if reached == last.source then last.target else reached
  }

  /** Where an import sends a cluster: one lookup, no chain. */
  function Resolve(rules: map<RuleKey, SpeakerId>, key: RuleKey): SpeakerId {
    if key in rules then rules[key] else SpeakerOf(key.meeting, key.cluster)
  }

  type History = map<MeetingId, seq<Merged>>

  function Past(history: History, m: MeetingId): seq<Merged> {
    Lookup(history, m).GetOr([])
  }

  /** A speaker row carries the identifier of its own meeting and cluster. */
  ghost predicate SpeakersNamespaced(speakers: map<SpeakerId, Speaker>) {
    forall id :: id in speakers ==> id == SpeakerOf(speakers[id].meeting, speakers[id].cluster)
  }

  ghost predicate TargetsLive(speakers: map<SpeakerId, Speaker>, rules: map<RuleKey, SpeakerId>) {
    forall key :: key in rules ==> rules[key] in speakers && speakers[rules[key]].meeting == key.meeting
  }

  ghost predicate RuledClustersOwnNobody(speakers: map<SpeakerId, Speaker>, rules: map<RuleKey, SpeakerId>) {
    forall key :: key in rules ==> SpeakerOf(key.meeting, key.cluster) !in speakers
  }

  ghost predicate ResolvesAt(rules: map<RuleKey, SpeakerId>, history: History, key: RuleKey) {
    Resolve(rules, key) == Follow(Past(history, key.meeting), SpeakerOf(key.meeting, key.cluster))
  }

  ghost predicate ResolvesLikeHistory(rules: map<RuleKey, SpeakerId>, history: History) {
    forall key: RuleKey :: ResolvesAt(rules, history, key)
  }

  ghost predicate UnionFind(db: Db, history: History) {
    && SpeakersNamespaced(db.speakers)
    && TargetsLive(db.speakers, db.rules)
    && RuledClustersOwnNobody(db.speakers, db.rules)
    && ResolvesLikeHistory(db.rules, history)
  }

  /** The same four facts in the source's own columns: a ruled cluster labels no live row. */
  lemma NoRuledClusterLabelsALiveSpeaker(db: Db, history: History, key: RuleKey, id: SpeakerId)
    requires UnionFind(db, history)
    requires key in db.rules && id in db.speakers
    ensures !(db.speakers[id].meeting == key.meeting && db.speakers[id].cluster == key.cluster)
  {
    assert SpeakerOf(key.meeting, key.cluster) !in db.speakers;
  }

  function Recorded(history: History, m: MeetingId, source: SpeakerId, target: SpeakerId): History {
    history[m := Past(history, m) + [Merged(source, target)]]
  }

  lemma FollowOneMore(merges: seq<Merged>, last: Merged, speaker: SpeakerId)
    ensures Follow(merges + [last], speaker)
         == if Follow(merges, speaker) == last.source then last.target else Follow(merges, speaker)
  {
    assert (merges + [last])[..|merges|] == merges;
  }

  lemma MergeResolvesLikeHistory(db: Db, history: History, m: MeetingId, source: SpeakerId, target: SpeakerId,
                                 key: RuleKey)
    requires UnionFind(db, history)
    requires Merge(db, m, source, target).Ok?
    ensures ResolvesAt(Merge(db, m, source, target).value.rules, Recorded(history, m, source, target), key)
  {
    var start := SpeakerOf(key.meeting, key.cluster);
    assert ResolvesAt(db.rules, history, key);
    if key.meeting == m {
      FollowOneMore(Past(history, m), Merged(source, target), start);
    } else if key in db.rules {
      assert db.rules[key] != source;
    }
  }

  lemma MovedRulesStayLive(speakers: map<SpeakerId, Speaker>, rules: map<RuleKey, SpeakerId>, m: MeetingId,
                           source: SpeakerId, target: SpeakerId)
    requires TargetsLive(speakers, rules) && source != target
    requires source in speakers && target in speakers && speakers[source].meeting == speakers[target].meeting == m
    ensures TargetsLive(speakers - {source}, MovedRules(rules, RuleKey(m, speakers[source].cluster), source, target))
  {
  }

  lemma MergedClusterOwnsNobody(speakers: map<SpeakerId, Speaker>, rules: map<RuleKey, SpeakerId>, m: MeetingId,
                                source: SpeakerId, target: SpeakerId)
    requires SpeakersNamespaced(speakers) && RuledClustersOwnNobody(speakers, rules)
    requires source in speakers && speakers[source].meeting == m
    ensures RuledClustersOwnNobody(speakers - {source}, MovedRules(rules, RuleKey(m, speakers[source].cluster), source, target))
  {
  }

  lemma MergeKeepsUnionFind(db: Db, history: History, m: MeetingId, source: SpeakerId, target: SpeakerId)
    requires UnionFind(db, history)
    requires Merge(db, m, source, target).Ok?
    ensures UnionFind(Merge(db, m, source, target).value, Recorded(history, m, source, target))
  {
    MovedRulesStayLive(db.speakers, db.rules, m, source, target);
    MergedClusterOwnsNobody(db.speakers, db.rules, m, source, target);
    forall key: RuleKey
      ensures ResolvesAt(Merge(db, m, source, target).value.rules, Recorded(history, m, source, target), key)
    {
      MergeResolvesLikeHistory(db, history, m, source, target, key);
    }
  }

  // ---------------------------------------------------------------------------------------
  // Nothing attributed to the source is lost
  // ---------------------------------------------------------------------------------------

  ghost predicate TurnsAttributed(turns: map<TurnId, Turn>, speakers: map<SpeakerId, Speaker>) {
    forall id :: id in turns && turns[id].speaker.Some? ==>
      && turns[id].speaker.value in speakers
      && speakers[turns[id].speaker.value].meeting == turns[id].meeting
  }

  ghost predicate WordsAttributed(words: map<WordId, Word>, turns: set<TurnId>, speakers: set<SpeakerId>) {
    forall id :: id in words ==>
      words[id].turn in turns && (words[id].speaker.Some? ==> words[id].speaker.value in speakers)
  }

  /** Turn and word attributions name live speakers; those of a turn are of its meeting. */
  ghost predicate AttributionsLive(db: Db) {
    TurnsAttributed(db.turns, db.speakers) && WordsAttributed(db.words, db.turns.Keys, db.speakers.Keys)
  }

  ghost predicate SamePair(samples: map<SampleId, Sample>, id: SampleId, other: SampleId)
    requires id in samples && other in samples
  {
    samples[id].profile == samples[other].profile && samples[id].speaker == samples[other].speaker
  }

  /** UNIQUE(profile_id, meeting_id, speaker_id); a speaker determines its meeting. */
  ghost predicate SamplesUnique(samples: map<SampleId, Sample>) {
    forall id, other | id in samples && other in samples && SamePair(samples, id, other) :: id == other
  }

  ghost predicate CandidatesLive(candidates: map<CandidateKey, Candidate>, speakers: map<SpeakerId, Speaker>) {
    forall key :: key in candidates ==> key.speaker in speakers && speakers[key.speaker].meeting == key.meeting
  }

  ghost predicate SamplesLive(samples: map<SampleId, Sample>, speakers: map<SpeakerId, Speaker>) {
    && (forall id :: id in samples ==>
          samples[id].speaker in speakers && speakers[samples[id].speaker].meeting == samples[id].meeting)
    && SamplesUnique(samples)
  }

  /** Candidates and samples belong to live speakers of the meeting they name. */
  ghost predicate EvidenceLive(db: Db) {
    CandidatesLive(db.candidates, db.speakers) && SamplesLive(db.samples, db.speakers)
  }

  ghost predicate TurnsChangeHands(turns: map<TurnId, Turn>, after: map<TurnId, Turn>, source: SpeakerId, target: SpeakerId) {
    && after.Keys == turns.Keys
    && forall id :: id in turns ==>
         after[id] == if turns[id].speaker == Some(source) then turns[id].(speaker := Some(target)) else turns[id]
  }

  ghost predicate WordsChangeHands(words: map<WordId, Word>, after: map<WordId, Word>, source: SpeakerId, target: SpeakerId) {
    && after.Keys == words.Keys
    && forall id :: id in words ==>
         after[id] == if words[id].speaker == Some(source) then words[id].(speaker := Some(target)) else words[id]
  }

  /** Rules for other clusters stay, except that those to the source now lead to the target. */
  ghost predicate RulesChangeTarget(rules: map<RuleKey, SpeakerId>, after: map<RuleKey, SpeakerId>, own: RuleKey,
                                    source: SpeakerId, target: SpeakerId)
  {
    && after.Keys == rules.Keys + {own} && after[own] == target
    && forall key :: key in rules && key != own ==> after[key] == if rules[key] == source then target else rules[key]
  }

  ghost predicate OtherEvidenceStays(db: Db, after: Db, m: MeetingId, source: SpeakerId, target: SpeakerId) {
    && (forall key :: key != CandidateKey(m, source) && key != CandidateKey(m, target) ==>
          Lookup(after.candidates, key) == Lookup(db.candidates, key))
    && (forall id :: id in after.samples ==> id in db.samples)
    && (forall id :: id in db.samples && db.samples[id].speaker != source ==>
          id in after.samples && after.samples[id] == db.samples[id])
  }

  /** One candidate is left, under the target: the longer, or on a tie the target's own. */
  ghost predicate LongerCandidateStays(before: map<CandidateKey, Candidate>, after: map<CandidateKey, Candidate>,
                                       source: CandidateKey, target: CandidateKey)
  {
    && source !in after
    && (target in after <==> source in before || target in before)
    && (target in before && (source in before ==> before[source].cleanMs <= before[target].cleanMs) ==>
          after[target] == before[target])
    && (source in before && (target in before ==> before[source].cleanMs > before[target].cleanMs) ==>
          after[target] == before[source])
  }

  lemma MergeKeepsTheLongerCandidate(db: Db, m: MeetingId, source: SpeakerId, target: SpeakerId)
    requires Merge(db, m, source, target).Ok?
    ensures LongerCandidateStays(db.candidates, Merge(db, m, source, target).value.candidates, CandidateKey(m, source),
                                 CandidateKey(m, target))
  {
    assert CandidateKey(m, source) != CandidateKey(m, target);
  }

  lemma MergeMovesTranscript(db: Db, m: MeetingId, source: SpeakerId, target: SpeakerId)
    requires Merge(db, m, source, target).Ok?
    ensures var after := Merge(db, m, source, target).value;
            && TurnsChangeHands(db.turns, after.turns, source, target)
            && WordsChangeHands(db.words, after.words, source, target)
  {
  }

  lemma MergeMovesRules(db: Db, m: MeetingId, source: SpeakerId, target: SpeakerId)
    requires Merge(db, m, source, target).Ok?
    ensures RulesChangeTarget(db.rules, Merge(db, m, source, target).value.rules,
                              RuleKey(m, db.speakers[source].cluster), source, target)
  {
  }

  lemma MergeLeavesOtherEvidence(db: Db, m: MeetingId, source: SpeakerId, target: SpeakerId)
    requires Merge(db, m, source, target).Ok?
    ensures OtherEvidenceStays(db, Merge(db, m, source, target).value, m, source, target)
  {
    var candidates := MovedCandidates(db.candidates, m, source, target);
    forall key | key != CandidateKey(m, source) && key != CandidateKey(m, target)
      ensures Lookup(candidates, key) == Lookup(db.candidates, key)
    {
    }
  }

  /**
   A merge changes the speaker of the source's turns and words and nothing else about them; the source's row
   goes, and profiles, meetings, outputs, revisions, the index and everybody else's evidence stay.
   */
  lemma MergeMovesRowsAndNothingElse(db: Db, m: MeetingId, source: SpeakerId, target: SpeakerId)
    requires Merge(db, m, source, target).Ok?
    ensures var after := Merge(db, m, source, target).value;
            && source in db.speakers && after.speakers == db.speakers - {source}
            && TurnsChangeHands(db.turns, after.turns, source, target)
            && WordsChangeHands(db.words, after.words, source, target)
            && RulesChangeTarget(db.rules, after.rules, RuleKey(m, db.speakers[source].cluster), source, target)
            && OtherEvidenceStays(db, after, m, source, target)
            && LongerCandidateStays(db.candidates, after.candidates, CandidateKey(m, source), CandidateKey(m, target))
            && after == db.(speakers := after.speakers, rules := after.rules, turns := after.turns, words := after.words,
                            candidates := after.candidates, samples := after.samples)
  {
    MergeMovesTranscript(db, m, source, target);
    MergeMovesRules(db, m, source, target);
    MergeLeavesOtherEvidence(db, m, source, target);
    MergeKeepsTheLongerCandidate(db, m, source, target);
  }

  lemma MergeKeepsAttributions(db: Db, m: MeetingId, source: SpeakerId, target: SpeakerId)
    requires AttributionsLive(db)
    requires Merge(db, m, source, target).Ok?
    ensures AttributionsLive(Merge(db, m, source, target).value)
  {
  }

  lemma MovedSamplesStayUnique(samples: map<SampleId, Sample>, source: SpeakerId, target: SpeakerId)
    requires SamplesUnique(samples)
    ensures SamplesUnique(MovedSamples(samples, source, target))
  {
    var after := MovedSamples(samples, source, target);
    forall id, other | id in after && other in after && SamePair(after, id, other)
      ensures id == other
    {
      if samples[id].speaker != samples[other].speaker {
        var own := if samples[id].speaker == target then id else other;
        assert IsSample(samples, own, samples[id].profile, target);
      } else {
        assert SamePair(samples, id, other);
      }
    }
  }

  lemma MovedCandidatesStayLive(db: Db, m: MeetingId, source: SpeakerId, target: SpeakerId)
    requires CandidatesLive(db.candidates, db.speakers) && source != target && BothBelong(db, m, source, target)
    ensures CandidatesLive(MovedCandidates(db.candidates, m, source, target), db.speakers - {source})
  {
  }

  lemma MovedSamplesStayLive(db: Db, m: MeetingId, source: SpeakerId, target: SpeakerId)
    requires SamplesLive(db.samples, db.speakers) && source != target && BothBelong(db, m, source, target)
    ensures SamplesLive(MovedSamples(db.samples, source, target), db.speakers - {source})
  {
    MovedSamplesStayUnique(db.samples, source, target);
  }

  lemma MergeKeepsEvidence(db: Db, m: MeetingId, source: SpeakerId, target: SpeakerId)
    requires EvidenceLive(db)
    requires Merge(db, m, source, target).Ok?
    ensures EvidenceLive(Merge(db, m, source, target).value)
  {
    MovedCandidatesStayLive(db, m, source, target);
    MovedSamplesStayLive(db, m, source, target);
  }

  /**
   A profile confirmed on either side keeps exactly one sample on the target: the target's own
   where it had one, otherwise the source's. The source keeps none.
   */
  lemma MergeKeepsOneSamplePerProfile(samples: map<SampleId, Sample>, source: SpeakerId, target: SpeakerId,
                                      profile: ProfileId)
    requires SamplesUnique(samples) && source != target
    ensures var after := MovedSamples(samples, source, target);
            && !HasSample(after, profile, source)
            && (HasSample(after, profile, target)
                <==> HasSample(samples, profile, source) || HasSample(samples, profile, target))
            && (forall id, other | IsSample(after, id, profile, target) && IsSample(after, other, profile, target) ::
                  id == other)
            && (forall id | IsSample(samples, id, profile, target) :: id in after && after[id] == samples[id])
            && (!HasSample(samples, profile, target) ==>
                  forall id | IsSample(samples, id, profile, source) ::
                    id in after && after[id] == samples[id].(speaker := target))
  {
    var after := MovedSamples(samples, source, target);
    MovedSamplesStayUnique(samples, source, target);
    forall id, other | IsSample(after, id, profile, target) && IsSample(after, other, profile, target)
      ensures id == other
    {
      assert SamePair(after, id, other);
    }
    forall id | IsSample(after, id, profile, target)
      ensures IsSample(samples, id, profile, target) || IsSample(samples, id, profile, source)
    {
    }
    forall id | IsSample(samples, id, profile, target)
      ensures IsSample(after, id, profile, target)
    {
    }
    if !HasSample(samples, profile, target) {
      forall id | IsSample(samples, id, profile, source)
        ensures IsSample(after, id, profile, target)
      {
      }
    }
  }
}
