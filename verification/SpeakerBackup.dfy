/**
 Saving and restoring speaker backups (src-tauri/src/speaker_backup.rs): upserts of profiles,
 speakers, samples and merge rules, then the saved merges applied to the transcript, all in one
 transaction.
 */
module SpeakerBackup {
  import opened Wrappers
  import opened Tables
  import opened SpeakerMerge
  import opened TranscriptEdits
  import opened ReprocessingLaws
  import opened VoiceEvidence

  datatype Row<K, V> = Row(key: K, value: V)

  /** The decoded file, in the order of its rows. */
  datatype Backup = Backup(
    profiles: seq<Row<ProfileId, string>>,
    speakers: seq<Row<SpeakerId, Speaker>>,
    samples: seq<Row<SampleId, Sample>>,
    rules: seq<Row<RuleKey, SpeakerId>>)

  // ---------------------------------------------------------------------------------------
  // Upserts. A row of a missing meeting or speaker is skipped; a conflicting one rejects.
  // ---------------------------------------------------------------------------------------

  function PutProfiles(profiles: map<ProfileId, string>, rows: seq<Row<ProfileId, string>>, count: nat)
    : map<ProfileId, string>
    requires count <= |rows|
  {
    if count == 0 then profiles
    else PutProfiles(profiles, rows, count - 1)[rows[count - 1].key := rows[count - 1].value]
  }

  predicate SameCluster(row: Speaker, other: Speaker) {
    row.meeting == other.meeting && row.cluster == other.cluster
  }

  /** The identifier names another cluster, or the cluster has another identifier. */
  predicate SpeakerConflict(speakers: map<SpeakerId, Speaker>, row: Row<SpeakerId, Speaker>) {
    exists id :: id in speakers && (id == row.key) != SameCluster(speakers[id], row.value)
  }

  function PutSpeaker(meetings: set<MeetingId>, profiles: set<ProfileId>, speakers: map<SpeakerId, Speaker>,
                      row: Row<SpeakerId, Speaker>): Result<map<SpeakerId, Speaker>, Rejection>
  {
    if row.value.meeting !in meetings then Ok(speakers)
    else if SpeakerConflict(speakers, row) then Err(InvalidInput)
    else if row.value.profile.Some? && row.value.profile.value !in profiles then Err(ConstraintViolation)
    else Ok(speakers[row.key := row.value])
  }

  function PutSpeakers(meetings: set<MeetingId>, profiles: set<ProfileId>, speakers: map<SpeakerId, Speaker>,
                       rows: seq<Row<SpeakerId, Speaker>>, count: nat): Result<map<SpeakerId, Speaker>, Rejection>
    requires count <= |rows|
  {
    if count == 0 then Ok(speakers)
    else
      var before := PutSpeakers(meetings, profiles, speakers, rows, count - 1);
      if before.Err? then before else PutSpeaker(meetings, profiles, before.value, rows[count - 1])
  }

  predicate TakenByAnother(samples: map<SampleId, Sample>, row: Row<SampleId, Sample>) {
    exists id :: id in samples && id != row.key && SameTriple(samples[id], row.value)
  }

  /** An upsert on two unique keys: one row may answer to both, or either alone, but not two rows. */
  function PutSample(meetings: set<MeetingId>, profiles: set<ProfileId>, speakers: map<SpeakerId, Speaker>,
                     samples: map<SampleId, Sample>, row: Row<SampleId, Sample>): Result<map<SampleId, Sample>, Rejection>
  {
    if row.value.meeting !in meetings || row.value.speaker !in speakers then Ok(samples)
    else if speakers[row.value.speaker].meeting != row.value.meeting then Err(InvalidInput)
    else if row.value.profile !in profiles then Err(ConstraintViolation)
    else if row.key in samples && TakenByAnother(samples, row) then Err(ConstraintViolation)
    else
      var others := map id | id in samples && !SameTriple(samples[id], row.value) :: samples[id];
      Ok(others[row.key := row.value])
  }

  function PutSamples(meetings: set<MeetingId>, profiles: set<ProfileId>, speakers: map<SpeakerId, Speaker>,
                      samples: map<SampleId, Sample>, rows: seq<Row<SampleId, Sample>>, count: nat)
    : Result<map<SampleId, Sample>, Rejection>
    requires count <= |rows|
  {
    if count == 0 then Ok(samples)
    else
      var before := PutSamples(meetings, profiles, speakers, samples, rows, count - 1);
      if before.Err? then before else PutSample(meetings, profiles, speakers, before.value, rows[count - 1])
  }

  /** A saved rule stands if its meeting and target exist. */
  predicate Stands(meetings: set<MeetingId>, speakers: map<SpeakerId, Speaker>, row: Row<RuleKey, SpeakerId>) {
    row.key.meeting in meetings && row.value in speakers
  }

  function PutRule(meetings: set<MeetingId>, speakers: map<SpeakerId, Speaker>, rules: map<RuleKey, SpeakerId>,
                   row: Row<RuleKey, SpeakerId>): Result<map<RuleKey, SpeakerId>, Rejection>
  {
    if !Stands(meetings, speakers, row) then Ok(rules)
    else if speakers[row.value].meeting != row.key.meeting then Err(InvalidInput)
    else Ok(rules[row.key := row.value])
  }

  function PutRules(meetings: set<MeetingId>, speakers: map<SpeakerId, Speaker>, rules: map<RuleKey, SpeakerId>,
                    rows: seq<Row<RuleKey, SpeakerId>>, count: nat): Result<map<RuleKey, SpeakerId>, Rejection>
    requires count <= |rows|
  {
    if count == 0 then Ok(rules)
    else
      var before := PutRules(meetings, speakers, rules, rows, count - 1);
      if before.Err? then before else PutRule(meetings, speakers, before.value, rows[count - 1])
  }

  // ---------------------------------------------------------------------------------------
  // Applying saved merges
  // ---------------------------------------------------------------------------------------

  ghost predicate Owns(speakers: map<SpeakerId, Speaker>, id: SpeakerId, key: RuleKey) {
    id in speakers && speakers[id].meeting == key.meeting && speakers[id].cluster == key.cluster
  }

  /** The live speaker of a cluster; UNIQUE(meeting_id, cluster_label) leaves no choice. */
  ghost function Owner(speakers: map<SpeakerId, Speaker>, key: RuleKey): (owner: Option<SpeakerId>)
    ensures owner.Some? ==> Owns(speakers, owner.value, key)
    ensures owner.None? ==> forall id :: !Owns(speakers, id, key)
  {
    if exists id :: Owns(speakers, id, key) then
      var id :| Owns(speakers, id, key);
      Some(id)
    else None
  }

  function RetargetedRules(rules: map<RuleKey, SpeakerId>, source: SpeakerId, target: SpeakerId): map<RuleKey, SpeakerId> {
    map key | key in rules :: if rules[key] == source then target else rules[key]
  }

  /** One saved merge: the source's rows move to the target, its candidate goes, and so does it. */
  function Absorbed(db: Db, source: SpeakerId, target: SpeakerId): Db {
    db.(speakers := db.speakers - {source},
        rules := RetargetedRules(db.rules, source, target),
        turns := MovedTurns(db.turns, source, target),
        words := MovedWords(db.words, source, target),
        candidates := map key | key in db.candidates && key.speaker != source :: db.candidates[key],
        samples := MovedSamples(db.samples, source, target))
  }

  ghost function ApplyRule(db: Db, row: Row<RuleKey, SpeakerId>): Result<Db, Rejection> {
    if !Stands(db.meetings.Keys, db.speakers, row) then Ok(db)
    else
      match Owner(db.speakers, row.key)
      case None => Ok(db)
      case Some(source) => if source == row.value then Err(InvalidInput) else Ok(Absorbed(db, source, row.value))
  }

  ghost function ApplyRules(db: Db, rows: seq<Row<RuleKey, SpeakerId>>, count: nat): Result<Db, Rejection>
    requires count <= |rows|
  {
    if count == 0 then Ok(db)
    else
      var before := ApplyRules(db, rows, count - 1);
      if before.Err? then before else ApplyRule(before.value, rows[count - 1])
  }

  /** The tables after the four upserts. */
  function Loaded(db: Db, b: Backup): Result<Db, Rejection> {
    var meetings := db.meetings.Keys;
    var profiles := PutProfiles(db.profiles, b.profiles, |b.profiles|);
    var speakers := PutSpeakers(meetings, profiles.Keys, db.speakers, b.speakers, |b.speakers|);
    if speakers.Err? then Err(speakers.error)
    else
      var samples := PutSamples(meetings, profiles.Keys, speakers.value, db.samples, b.samples, |b.samples|);
      if samples.Err? then Err(samples.error)
      else
        var rules := PutRules(meetings, speakers.value, db.rules, b.rules, |b.rules|);
        if rules.Err? then Err(rules.error)
        else
          Ok(db.(profiles := profiles, speakers := speakers.value, samples := samples.value, rules := rules.value))
  }

  ghost function Restore(db: Db, b: Backup): Result<Db, Rejection> {
    var loaded := Loaded(db, b);
    if loaded.Err? then loaded else ApplyRules(loaded.value, b.rules, |b.rules|)
  }

  // ---------------------------------------------------------------------------------------
  // What any restore keeps
  // ---------------------------------------------------------------------------------------

  /** UNIQUE(meeting_id, cluster_label). */
  ghost predicate ClustersUnique(speakers: map<SpeakerId, Speaker>) {
    forall id, other | id in speakers && other in speakers && SameCluster(speakers[id], speakers[other]) :: id == other
  }

  ghost predicate StaysPut(speakers: map<SpeakerId, Speaker>, after: map<SpeakerId, Speaker>) {
    forall id :: id in speakers ==> id in after && SameCluster(after[id], speakers[id])
  }

  lemma {:induction false} PutSpeakersKeep(meetings: set<MeetingId>, profiles: set<ProfileId>,
                                           speakers: map<SpeakerId, Speaker>, rows: seq<Row<SpeakerId, Speaker>>, count: nat)
    requires count <= |rows| && ClustersUnique(speakers)
    requires PutSpeakers(meetings, profiles, speakers, rows, count).Ok?
    ensures var after := PutSpeakers(meetings, profiles, speakers, rows, count).value;
            ClustersUnique(after) && StaysPut(speakers, after)
  {
    if count > 0 {
      PutSpeakersKeep(meetings, profiles, speakers, rows, count - 1);
    }
  }

  lemma PutSampleKeeps(meetings: set<MeetingId>, profiles: set<ProfileId>, speakers: map<SpeakerId, Speaker>,
                       samples: map<SampleId, Sample>, row: Row<SampleId, Sample>)
    requires SamplesLive(samples, speakers)
    requires PutSample(meetings, profiles, speakers, samples, row).Ok?
    ensures SamplesLive(PutSample(meetings, profiles, speakers, samples, row).value, speakers)
  {
    var after := PutSample(meetings, profiles, speakers, samples, row).value;
    forall id, other | id in after && other in after && SamePair(after, id, other)
      ensures id == other
    {
      if id != row.key && other != row.key {
        assert SamePair(samples, id, other);
      } else if id != other {
        var kept := if id == row.key then other else id;
        assert SameTriple(samples[kept], row.value);
      }
    }
  }

  lemma {:induction false} PutSamplesKeep(meetings: set<MeetingId>, profiles: set<ProfileId>,
                                          speakers: map<SpeakerId, Speaker>, samples: map<SampleId, Sample>,
                                          rows: seq<Row<SampleId, Sample>>, count: nat)
    requires count <= |rows| && SamplesLive(samples, speakers)
    requires PutSamples(meetings, profiles, speakers, samples, rows, count).Ok?
    ensures SamplesLive(PutSamples(meetings, profiles, speakers, samples, rows, count).value, speakers)
  {
    if count > 0 {
      PutSamplesKeep(meetings, profiles, speakers, samples, rows, count - 1);
      PutSampleKeeps(meetings, profiles, speakers,
                     PutSamples(meetings, profiles, speakers, samples, rows, count - 1).value, rows[count - 1]);
    }
  }

  /** Rules that stand lead to a speaker of their own meeting. */
  ghost predicate RowsBelong(meetings: set<MeetingId>, speakers: map<SpeakerId, Speaker>,
                             rows: seq<Row<RuleKey, SpeakerId>>, count: nat)
    requires count <= |rows|
  {
    forall k :: 0 <= k < count && Stands(meetings, speakers, rows[k]) ==>
      speakers[rows[k].value].meeting == rows[k].key.meeting
  }

  lemma {:induction false} PutRulesKeep(meetings: set<MeetingId>, speakers: map<SpeakerId, Speaker>,
                                        rules: map<RuleKey, SpeakerId>, rows: seq<Row<RuleKey, SpeakerId>>, count: nat)
    requires count <= |rows| && TargetsLive(speakers, rules)
    requires PutRules(meetings, speakers, rules, rows, count).Ok?
    ensures TargetsLive(speakers, PutRules(meetings, speakers, rules, rows, count).value)
    ensures RowsBelong(meetings, speakers, rows, count)
  {
    if count > 0 {
      PutRulesKeep(meetings, speakers, rules, rows, count - 1);
    }
  }

  /** What holds of every store that the schema and the operations leave behind. */
  ghost predicate Store(db: Db) {
    && ClustersUnique(db.speakers)
    && TargetsLive(db.speakers, db.rules)
    && AttributionsLive(db)
    && EvidenceLive(db)
  }

  lemma LoadingKeepsTheStore(db: Db, b: Backup)
    requires Store(db) && Loaded(db, b).Ok?
    ensures Store(Loaded(db, b).value)
    ensures RowsBelong(db.meetings.Keys, Loaded(db, b).value.speakers, b.rules, |b.rules|)
    ensures StaysPut(db.speakers, Loaded(db, b).value.speakers)
  {
    var meetings, after := db.meetings.Keys, Loaded(db, b).value;
    PutSpeakersKeep(meetings, after.profiles.Keys, db.speakers, b.speakers, |b.speakers|);
    PutSamplesKeep(meetings, after.profiles.Keys, after.speakers, db.samples, b.samples, |b.samples|);
    PutRulesKeep(meetings, after.speakers, db.rules, b.rules, |b.rules|);
  }

  lemma AbsorbingKeepsRules(db: Db, source: SpeakerId, target: SpeakerId)
    requires ClustersUnique(db.speakers) && TargetsLive(db.speakers, db.rules) && source != target
    requires source in db.speakers && target in db.speakers && db.speakers[source].meeting == db.speakers[target].meeting
    ensures ClustersUnique(db.speakers - {source})
    ensures TargetsLive(db.speakers - {source}, RetargetedRules(db.rules, source, target))
  {
  }

  lemma AbsorbingKeepsCandidates(db: Db, source: SpeakerId, target: SpeakerId)
    requires CandidatesLive(db.candidates, db.speakers)
    ensures CandidatesLive(Absorbed(db, source, target).candidates, db.speakers - {source})
  {
  }

  /** Turns, words and samples move as they do in a merge by hand. */
  lemma AbsorbingIsAMerge(db: Db, m: MeetingId, source: SpeakerId, target: SpeakerId)
    requires source in db.speakers
    ensures var merged, after := MergeTables(db, m, source, target), Absorbed(db, source, target);
            && after.speakers == merged.speakers && after.turns == merged.turns
            && after.words == merged.words && after.samples == merged.samples
  {
  }

  lemma AbsorbingKeepsTheStore(db: Db, source: SpeakerId, target: SpeakerId)
    requires Store(db) && source != target
    requires source in db.speakers && target in db.speakers && db.speakers[source].meeting == db.speakers[target].meeting
    ensures Store(Absorbed(db, source, target))
  {
    var m := db.speakers[source].meeting;
    AbsorbingKeepsRules(db, source, target);
    AbsorbingKeepsCandidates(db, source, target);
    AbsorbingIsAMerge(db, m, source, target);
    MergeKeepsAttributions(db, m, source, target);
    MergeKeepsEvidence(db, m, source, target);
  }

  // ---------------------------------------------------------------------------------------
  // What applying the saved merges keeps
  // ---------------------------------------------------------------------------------------

  ghost predicate Shrinks(speakers: map<SpeakerId, Speaker>, after: map<SpeakerId, Speaker>) {
    forall id :: id in after ==> id in speakers && after[id] == speakers[id]
  }

  /** Turns differ in the speaker they are attributed to, and in nothing else. */
  ghost predicate OnlyReattributed(turns: map<TurnId, Turn>, after: map<TurnId, Turn>) {
    after.Keys == turns.Keys && forall id :: id in turns ==> after[id] == turns[id].(speaker := after[id].speaker)
  }

  ghost predicate Settles(db: Db, after: Db) {
    && Shrinks(db.speakers, after.speakers)
    && OnlyReattributed(db.turns, after.turns)
    && after.rules.Keys == db.rules.Keys
    && after == db.(speakers := after.speakers, rules := after.rules, turns := after.turns, words := after.words,
                    candidates := after.candidates, samples := after.samples)
  }

  ghost predicate Applies(db: Db, row: Row<RuleKey, SpeakerId>) {
    Stands(db.meetings.Keys, db.speakers, row) && Owner(db.speakers, row.key).Some?
  }

  lemma ApplyRuleAbsorbs(db: Db, row: Row<RuleKey, SpeakerId>)
    requires ApplyRule(db, row).Ok?
    ensures ApplyRule(db, row)
         == if Applies(db, row) then Ok(Absorbed(db, Owner(db.speakers, row.key).value, row.value)) else Ok(db)
    ensures Applies(db, row) ==> Owner(db.speakers, row.key).value != row.value
  {
  }

  lemma ApplyingOneKeeps(db: Db, row: Row<RuleKey, SpeakerId>)
    requires Store(db) && RowsBelong(db.meetings.Keys, db.speakers, [row], 1)
    requires ApplyRule(db, row).Ok?
    ensures Store(ApplyRule(db, row).value)
    ensures Settles(db, ApplyRule(db, row).value)
  {
    ApplyRuleAbsorbs(db, row);
    assert Stands(db.meetings.Keys, db.speakers, [row][0]) ==> db.speakers[row.value].meeting == row.key.meeting;
    if Applies(db, row) {
      AbsorbingKeepsTheStore(db, Owner(db.speakers, row.key).value, row.value);
    }
  }

  lemma RowStillBelongs(meetings: set<MeetingId>, speakers: map<SpeakerId, Speaker>, after: map<SpeakerId, Speaker>,
                        rows: seq<Row<RuleKey, SpeakerId>>, count: nat, k: nat)
    requires k < count <= |rows| && RowsBelong(meetings, speakers, rows, count) && Shrinks(speakers, after)
    ensures RowsBelong(meetings, after, [rows[k]], 1)
  {
    if Stands(meetings, after, rows[k]) {
      assert Stands(meetings, speakers, rows[k]);
    }
  }

  lemma {:induction false} ApplyingKeeps(db: Db, rows: seq<Row<RuleKey, SpeakerId>>, count: nat)
    requires count <= |rows| && Store(db) && RowsBelong(db.meetings.Keys, db.speakers, rows, |rows|)
    requires ApplyRules(db, rows, count).Ok?
    ensures Store(ApplyRules(db, rows, count).value)
    ensures Settles(db, ApplyRules(db, rows, count).value)
  {
    if count > 0 {
      ApplyingKeeps(db, rows, count - 1);
      var before := ApplyRules(db, rows, count - 1).value;
      RowStillBelongs(db.meetings.Keys, db.speakers, before.speakers, rows, |rows|, count - 1);
      ApplyingOneKeeps(before, rows[count - 1]);
    }
  }

  /** Words, like turns, keep everything but their speaker. */
  ghost predicate OnlyWordsReattributed(words: map<WordId, Word>, after: map<WordId, Word>) {
    after.Keys == words.Keys && forall id :: id in words ==> after[id] == words[id].(speaker := after[id].speaker)
  }

  /** Candidates go with the speakers that go, and no others. */
  ghost predicate CandidatesFollow(candidates: map<CandidateKey, Candidate>, after: map<CandidateKey, Candidate>,
                                   speakers: set<SpeakerId>)
  {
    && (forall key :: key in after ==> key in candidates && after[key] == candidates[key])
    && (forall key :: key in candidates && key.speaker in speakers ==> key in after)
  }

  lemma AbsorbingOnlyReattributes(db: Db, source: SpeakerId, target: SpeakerId)
    ensures var after := Absorbed(db, source, target);
            && OnlyWordsReattributed(db.words, after.words)
            && CandidatesFollow(db.candidates, after.candidates, after.speakers.Keys)
            && after.speakers.Keys <= db.speakers.Keys
  {
  }

  lemma ApplyingOneOnlyReattributes(db: Db, row: Row<RuleKey, SpeakerId>)
    requires ApplyRule(db, row).Ok?
    ensures var after := ApplyRule(db, row).value;
            && OnlyWordsReattributed(db.words, after.words)
            && CandidatesFollow(db.candidates, after.candidates, after.speakers.Keys)
            && after.speakers.Keys <= db.speakers.Keys
  {
    ApplyRuleAbsorbs(db, row);
    if Applies(db, row) {
      AbsorbingOnlyReattributes(db, Owner(db.speakers, row.key).value, row.value);
    }
  }

  lemma {:induction false} ApplyingOnlyReattributes(db: Db, rows: seq<Row<RuleKey, SpeakerId>>, count: nat)
    requires count <= |rows| && ApplyRules(db, rows, count).Ok?
    ensures var after := ApplyRules(db, rows, count).value;
            && OnlyWordsReattributed(db.words, after.words)
            && CandidatesFollow(db.candidates, after.candidates, after.speakers.Keys)
  {
    if count > 0 {
      ApplyingOnlyReattributes(db, rows, count - 1);
      ApplyingOneOnlyReattributes(ApplyRules(db, rows, count - 1).value, rows[count - 1]);
    }
  }

  ghost predicate NobodyOwns(speakers: map<SpeakerId, Speaker>, key: RuleKey) {
    forall id :: !Owns(speakers, id, key)
  }

  lemma ApplyingOneSettlesIt(db: Db, row: Row<RuleKey, SpeakerId>)
    requires Store(db) && ApplyRule(db, row).Ok?
    requires row.key.meeting in db.meetings && row.value in ApplyRule(db, row).value.speakers
    ensures NobodyOwns(ApplyRule(db, row).value.speakers, row.key)
  {
    var after := ApplyRule(db, row).value;
    forall id ensures !Owns(after.speakers, id, row.key) {
      if Owns(after.speakers, id, row.key) {
        assert Owns(db.speakers, id, row.key);
        var source := Owner(db.speakers, row.key).value;
        assert SameCluster(db.speakers[id], db.speakers[source]);
      }
    }
  }

  lemma NobodyStaysNobody(speakers: map<SpeakerId, Speaker>, after: map<SpeakerId, Speaker>, key: RuleKey)
    requires NobodyOwns(speakers, key) && Shrinks(speakers, after)
    ensures NobodyOwns(after, key)
  {
    forall id ensures !Owns(after, id, key) {
      assert !Owns(speakers, id, key);
    }
  }

  lemma {:induction false} ApplyingSettlesRow(db: Db, rows: seq<Row<RuleKey, SpeakerId>>, count: nat, k: nat)
    requires k < count <= |rows| && Store(db) && RowsBelong(db.meetings.Keys, db.speakers, rows, |rows|)
    requires ApplyRules(db, rows, count).Ok?
    requires rows[k].key.meeting in db.meetings && rows[k].value in ApplyRules(db, rows, count).value.speakers
    ensures NobodyOwns(ApplyRules(db, rows, count).value.speakers, rows[k].key)
  {
    ApplyingKeeps(db, rows, count - 1);
    var before := ApplyRules(db, rows, count - 1).value;
    RowStillBelongs(db.meetings.Keys, db.speakers, before.speakers, rows, |rows|, count - 1);
    ApplyingOneKeeps(before, rows[count - 1]);
    if k == count - 1 {
      ApplyingOneSettlesIt(before, rows[k]);
    } else {
      ApplyingSettlesRow(db, rows, count - 1, k);
      NobodyStaysNobody(before.speakers, ApplyRules(db, rows, count).value.speakers, rows[k].key);
    }
  }

  // ---------------------------------------------------------------------------------------
  // Main results for any backup file
  // ---------------------------------------------------------------------------------------

  /** A saved merge whose target survives leaves its cluster without a live speaker. */
  lemma SavedMergesHold(db: Db, b: Backup, k: nat)
    requires Store(db) && Restore(db, b).Ok?
    requires k < |b.rules| && b.rules[k].key.meeting in db.meetings
    requires b.rules[k].value in Restore(db, b).value.speakers
    ensures NobodyOwns(Restore(db, b).value.speakers, b.rules[k].key)
  {
    LoadingKeepsTheStore(db, b);
    ApplyingSettlesRow(Loaded(db, b).value, b.rules, |b.rules|, k);
  }

  ghost predicate RuleKeysDistinct(rows: seq<Row<RuleKey, SpeakerId>>) {
    forall j, k :: 0 <= j < k < |rows| ==> rows[j].key != rows[k].key
  }

  /** Where rows of the speaker of cluster k are after `count` saved merges. */
  function Home(source: SpeakerId, target: SpeakerId, k: nat, count: nat): SpeakerId {
    if count <= k then source else target
  }

  ghost predicate RowsAreAt(db: Db, after: Db, source: SpeakerId, home: SpeakerId) {
    && after.turns.Keys == db.turns.Keys && after.words.Keys == db.words.Keys
    && home in after.speakers
    && (forall id :: id in db.turns && db.turns[id].speaker == Some(source) ==> after.turns[id].speaker == Some(home))
    && (forall id :: id in db.words && db.words[id].speaker == Some(source) ==> after.words[id].speaker == Some(home))
  }

  lemma ApplyingShrinks(db: Db, row: Row<RuleKey, SpeakerId>)
    requires ApplyRule(db, row).Ok?
    ensures Shrinks(db.speakers, ApplyRule(db, row).value.speakers)
  {
  }

  lemma RowsMoveOn(db: Db, before: Db, source: SpeakerId, home: SpeakerId, row: Row<RuleKey, SpeakerId>, next: SpeakerId)
    requires RowsAreAt(db, before, source, home) && ApplyRule(before, row).Ok?
    requires next in ApplyRule(before, row).value.speakers
    requires if Stands(before.meetings.Keys, before.speakers, row) && Owner(before.speakers, row.key) == Some(home)
             then next == row.value else next == home
    ensures RowsAreAt(db, ApplyRule(before, row).value, source, next)
  {
  }

  /** Only the row of its own cluster retires a speaker that was live before the loop. */
  lemma OwnerIsTheSource(db: Db, before: Db, rows: seq<Row<RuleKey, SpeakerId>>, j: nat, k: nat, source: SpeakerId)
    requires j < |rows| && k < |rows| && RuleKeysDistinct(rows)
    requires ClustersUnique(before.speakers) && Shrinks(db.speakers, before.speakers)
    requires Owns(db.speakers, source, rows[k].key) && source in before.speakers
    ensures Owner(before.speakers, rows[j].key) == Some(source) <==> j == k
  {
    var owner := Owner(before.speakers, rows[j].key);
    if j == k {
      assert Owns(before.speakers, source, rows[j].key);
      assert SameCluster(before.speakers[owner.value], before.speakers[source]);
    }
  }

  lemma RowsFollowOne(db: Db, before: Db, rows: seq<Row<RuleKey, SpeakerId>>, j: nat, k: nat, source: SpeakerId)
    requires j < |rows| && k < |rows| && RuleKeysDistinct(rows)
    requires ClustersUnique(before.speakers) && Shrinks(db.speakers, before.speakers) && before.meetings == db.meetings
    requires Owns(db.speakers, source, rows[k].key) && rows[k].key.meeting in db.meetings
    requires ApplyRule(before, rows[j]).Ok?
    requires j >= k ==> rows[k].value in ApplyRule(before, rows[j]).value.speakers
    requires RowsAreAt(db, before, source, Home(source, rows[k].value, k, j))
    ensures RowsAreAt(db, ApplyRule(before, rows[j]).value, source, Home(source, rows[k].value, k, j + 1))
  {
    if j <= k {
      OwnerIsTheSource(db, before, rows, j, k, source);
    }
    RowsMoveOn(db, before, source, Home(source, rows[k].value, k, j), rows[j], Home(source, rows[k].value, k, j + 1));
  }

  lemma {:induction false} RowsFollow(db: Db, rows: seq<Row<RuleKey, SpeakerId>>, count: nat, k: nat, source: SpeakerId)
    requires count <= |rows| && k < |rows| && RuleKeysDistinct(rows)
    requires Store(db) && RowsBelong(db.meetings.Keys, db.speakers, rows, |rows|)
    requires ApplyRules(db, rows, count).Ok?
    requires Owns(db.speakers, source, rows[k].key) && rows[k].key.meeting in db.meetings
    requires count > k ==> rows[k].value in ApplyRules(db, rows, count).value.speakers
    ensures RowsAreAt(db, ApplyRules(db, rows, count).value, source, Home(source, rows[k].value, k, count))
  {
    if count > 0 {
      var before := ApplyRules(db, rows, count - 1).value;
      ApplyingKeeps(db, rows, count - 1);
      ApplyingShrinks(before, rows[count - 1]);
      RowsFollow(db, rows, count - 1, k, source);
      RowsFollowOne(db, before, rows, count - 1, k, source);
    }
  }

  /** Every turn and word of the merged cluster's speaker is on the saved target afterwards. */
  lemma SavedMergesMoveTheTranscript(db: Db, b: Backup, k: nat, source: SpeakerId)
    requires Store(db) && Restore(db, b).Ok? && RuleKeysDistinct(b.rules)
    requires k < |b.rules| && b.rules[k].key.meeting in db.meetings
    requires b.rules[k].value in Restore(db, b).value.speakers
    requires Owns(Loaded(db, b).value.speakers, source, b.rules[k].key)
    ensures RowsAreAt(db, Restore(db, b).value, source, b.rules[k].value)
  {
    LoadingKeepsTheStore(db, b);
    RowsFollow(Loaded(db, b).value, b.rules, |b.rules|, k, source);
  }

  /** What loading and applying together keep. */
  lemma RestoreSettles(db: Db, b: Backup)
    requires Store(db) && Restore(db, b).Ok?
    ensures Store(Restore(db, b).value)
    ensures Settles(Loaded(db, b).value, Restore(db, b).value)
  {
    LoadingKeepsTheStore(db, b);
    ApplyingKeeps(Loaded(db, b).value, b.rules, |b.rules|);
  }

  lemma ReattributingKeepsLog(db: Db, after: Db)
    requires EditLog(db) && OnlyReattributed(db.turns, after.turns) && after.revisions == db.revisions
    ensures EditLog(after)
  {
    UneditedUpdateKeepsLog(db.turns, after.turns, db.revisions);
  }

  lemma ReattributingKeepsIndex(db: Db, after: Db)
    requires IndexAgrees(db) && OnlyReattributed(db.turns, after.turns)
    requires after.index == db.index && after.nextIndexRow == db.nextIndexRow
    ensures IndexAgrees(after)
  {
    QuietUpdateKeepsIndex(db, after);
  }

  lemma ReattributingKeepsEdits(turns: map<TurnId, Turn>, after: map<TurnId, Turn>)
    requires OnlyReattributed(turns, after)
    ensures EditsOf(after) == EditsOf(turns)
  {
  }

  lemma ReattributingKeepsLogAndIndex(db: Db, after: Db)
    requires EditLog(db) && IndexAgrees(db)
    requires OnlyReattributed(db.turns, after.turns) && after.revisions == db.revisions
    requires after.index == db.index && after.nextIndexRow == db.nextIndexRow
    ensures EditLog(after) && IndexAgrees(after) && EditsOf(after.turns) == EditsOf(db.turns)
  {
    ReattributingKeepsLog(db, after);
    ReattributingKeepsIndex(db, after);
    ReattributingKeepsEdits(db.turns, after.turns);
  }

  lemma ReattributingKeepsPlaces(turns: map<TurnId, Turn>, after: map<TurnId, Turn>, meetings: set<MeetingId>,
                                 outputs: set<OutputId>)
    requires TurnsPlaced(turns, meetings, outputs) && OnlyReattributed(turns, after)
    ensures TurnsPlaced(after, meetings, outputs)
  {
  }

  /** No restore loses, changes or invents a word or a candidate either. */
  lemma RestoreKeepsWordsAndCandidates(db: Db, b: Backup)
    requires Restore(db, b).Ok?
    ensures var after := Restore(db, b).value;
            && OnlyWordsReattributed(db.words, after.words)
            && CandidatesFollow(db.candidates, after.candidates, after.speakers.Keys)
  {
    ApplyingOnlyReattributes(Loaded(db, b).value, b.rules, |b.rules|);
  }

  /**
   No restore loses, changes or invents a transcript row, a word, an edit, a log row or an index row: it changes the
   speaker of turns and words at most. Candidates go with the speakers that are merged away.
   */
  lemma RestoreKeepsTheLibrary(db: Db, b: Backup)
    requires Store(db) && TurnsInMeetings(db) && CanonicalUnique(db) && EditLog(db) && IndexAgrees(db)
    requires Restore(db, b).Ok?
    ensures var after := Restore(db, b).value;
            && Store(after) && TurnsInMeetings(after) && CanonicalUnique(after) && EditLog(after) && IndexAgrees(after)
            && OnlyReattributed(db.turns, after.turns) && EditsOf(after.turns) == EditsOf(db.turns)
            && OnlyWordsReattributed(db.words, after.words)
            && CandidatesFollow(db.candidates, after.candidates, after.speakers.Keys)
            && after.revisions == db.revisions && after.outputs == db.outputs && after.meetings == db.meetings
            && after.index == db.index
  {
    var after := Restore(db, b).value;
    RestoreKeepsWordsAndCandidates(db, b);
    RestoreSettles(db, b);
    ReattributingKeepsLogAndIndex(db, after);
    ReattributingKeepsPlaces(db.turns, after.turns, db.meetings.Keys, db.outputs.Keys);
  }

  // ---------------------------------------------------------------------------------------
  // Which rows are rejected
  // ---------------------------------------------------------------------------------------

  /** The identifier is another cluster's, or the cluster has another identifier. */
  ghost predicate Clashes(speakers: map<SpeakerId, Speaker>, row: Row<SpeakerId, Speaker>, id: SpeakerId) {
    id in speakers
    && var same := speakers[id].meeting == row.value.meeting && speakers[id].cluster == row.value.cluster;
       (id == row.key && !same) || (id != row.key && same)
  }

  /** A speaker row of an existing meeting is rejected exactly if it clashes or its profile is missing. */
  lemma SpeakerRowsAreRejectedExactly(meetings: set<MeetingId>, profiles: set<ProfileId>, speakers: map<SpeakerId, Speaker>,
                                      row: Row<SpeakerId, Speaker>)
    ensures PutSpeaker(meetings, profiles, speakers, row).Err?
       <==> && row.value.meeting in meetings
            && ((exists id :: Clashes(speakers, row, id))
                || (row.value.profile.Some? && row.value.profile.value !in profiles))
  {
    forall id ensures Clashes(speakers, row, id) <==> id in speakers && (id == row.key) != SameCluster(speakers[id], row.value) {
    }
  }

  /** Another row holds the profile, meeting and speaker of this one. */
  ghost predicate HoldsItsTriple(samples: map<SampleId, Sample>, row: Row<SampleId, Sample>, id: SampleId) {
    && id in samples && id != row.key
    && samples[id].profile == row.value.profile && samples[id].meeting == row.value.meeting
    && samples[id].speaker == row.value.speaker
  }

  /**
   A sample row of an existing meeting and speaker is rejected exactly if the speaker is of another meeting, the profile is
   missing, or its identifier and its profile, meeting and speaker are those of two rows.
   */
  lemma SampleRowsAreRejectedExactly(meetings: set<MeetingId>, profiles: set<ProfileId>, speakers: map<SpeakerId, Speaker>,
                                     samples: map<SampleId, Sample>, row: Row<SampleId, Sample>)
    ensures PutSample(meetings, profiles, speakers, samples, row).Err?
       <==> && row.value.meeting in meetings && row.value.speaker in speakers
            && (|| speakers[row.value.speaker].meeting != row.value.meeting
                || row.value.profile !in profiles
                || (row.key in samples && exists id :: HoldsItsTriple(samples, row, id)))
  {
    forall id ensures HoldsItsTriple(samples, row, id) <==> id in samples && id != row.key && SameTriple(samples[id], row.value) {
    }
  }

  /** A merge rule of an existing meeting and target is rejected exactly if the target is of another meeting. */
  lemma RuleRowsAreRejectedExactly(meetings: set<MeetingId>, speakers: map<SpeakerId, Speaker>, rules: map<RuleKey, SpeakerId>,
                                   row: Row<RuleKey, SpeakerId>)
    ensures PutRule(meetings, speakers, rules, row).Err?
       <==> && row.key.meeting in meetings && row.value in speakers
            && speakers[row.value].meeting != row.key.meeting
  {
  }

  // ---------------------------------------------------------------------------------------
  // Rows that no backup row names
  // ---------------------------------------------------------------------------------------

  ghost predicate Listed<K, V>(rows: seq<Row<K, V>>, key: K) {
    exists k :: 0 <= k < |rows| && rows[k].key == key
  }

  ghost predicate UnsavedProfilesStay(profiles: map<ProfileId, string>, after: map<ProfileId, string>,
                                      rows: seq<Row<ProfileId, string>>)
  {
    forall id :: id in profiles && !Listed(rows, id) ==> id in after && after[id] == profiles[id]
  }

  lemma {:induction false} PutProfilesKeepsUnsaved(profiles: map<ProfileId, string>, rows: seq<Row<ProfileId, string>>, count: nat)
    requires count <= |rows|
    ensures UnsavedProfilesStay(profiles, PutProfiles(profiles, rows, count), rows)
  {
    if count > 0 {
      PutProfilesKeepsUnsaved(profiles, rows, count - 1);
      assert Listed(rows, rows[count - 1].key);
    }
  }

  lemma {:induction false} PutSpeakersKeepsUnsaved(meetings: set<MeetingId>, profiles: set<ProfileId>,
                                                   speakers: map<SpeakerId, Speaker>, rows: seq<Row<SpeakerId, Speaker>>,
                                                   count: nat, id: SpeakerId)
    requires count <= |rows| && PutSpeakers(meetings, profiles, speakers, rows, count).Ok?
    requires id in speakers && !Listed(rows, id)
    ensures var after := PutSpeakers(meetings, profiles, speakers, rows, count).value;
            id in after && after[id] == speakers[id]
  {
    if count > 0 {
      PutSpeakersKeepsUnsaved(meetings, profiles, speakers, rows, count - 1, id);
      assert Listed(rows, rows[count - 1].key);
    }
  }

  /** A sample that no backup row names by its identifier or by its profile, meeting and speaker. */
  ghost predicate UnsavedSample(rows: seq<Row<SampleId, Sample>>, id: SampleId, sample: Sample) {
    forall k :: 0 <= k < |rows| ==> rows[k].key != id && !SameTriple(sample, rows[k].value)
  }

  lemma {:induction false} PutSamplesKeepsUnsaved(meetings: set<MeetingId>, profiles: set<ProfileId>,
                                                  speakers: map<SpeakerId, Speaker>, samples: map<SampleId, Sample>,
                                                  rows: seq<Row<SampleId, Sample>>, count: nat, id: SampleId)
    requires count <= |rows| && PutSamples(meetings, profiles, speakers, samples, rows, count).Ok?
    requires id in samples && UnsavedSample(rows, id, samples[id])
    ensures var after := PutSamples(meetings, profiles, speakers, samples, rows, count).value;
            id in after && after[id] == samples[id]
  {
    if count > 0 {
      PutSamplesKeepsUnsaved(meetings, profiles, speakers, samples, rows, count - 1, id);
    }
  }

  lemma {:induction false} PutRulesKeepsUnsaved(meetings: set<MeetingId>, speakers: map<SpeakerId, Speaker>,
                                                rules: map<RuleKey, SpeakerId>, rows: seq<Row<RuleKey, SpeakerId>>,
                                                count: nat, key: RuleKey)
    requires count <= |rows| && PutRules(meetings, speakers, rules, rows, count).Ok?
    requires key in rules && !Listed(rows, key)
    ensures var after := PutRules(meetings, speakers, rules, rows, count).value;
            key in after && after[key] == rules[key]
  {
    if count > 0 {
      PutRulesKeepsUnsaved(meetings, speakers, rules, rows, count - 1, key);
      assert Listed(rows, rows[count - 1].key);
    }
  }

  /** The upserts leave alone every profile, speaker, sample and rule that the file does not name. */
  lemma LoadingKeepsUnsavedRows(db: Db, b: Backup, speaker: SpeakerId, sample: SampleId, key: RuleKey)
    requires Loaded(db, b).Ok?
    ensures var after := Loaded(db, b).value;
            && UnsavedProfilesStay(db.profiles, after.profiles, b.profiles)
            && (speaker in db.speakers && !Listed(b.speakers, speaker) ==>
                  speaker in after.speakers && after.speakers[speaker] == db.speakers[speaker])
            && (sample in db.samples && UnsavedSample(b.samples, sample, db.samples[sample]) ==>
                  sample in after.samples && after.samples[sample] == db.samples[sample])
            && (key in db.rules && !Listed(b.rules, key) ==> key in after.rules && after.rules[key] == db.rules[key])
            && after == db.(profiles := after.profiles, speakers := after.speakers, samples := after.samples, rules := after.rules)
  {
    var meetings, after := db.meetings.Keys, Loaded(db, b).value;
    var profiles := PutProfiles(db.profiles, b.profiles, |b.profiles|).Keys;
    PutProfilesKeepsUnsaved(db.profiles, b.profiles, |b.profiles|);
    if speaker in db.speakers && !Listed(b.speakers, speaker) {
      PutSpeakersKeepsUnsaved(meetings, profiles, db.speakers, b.speakers, |b.speakers|, speaker);
    }
    if sample in db.samples && UnsavedSample(b.samples, sample, db.samples[sample]) {
      PutSamplesKeepsUnsaved(meetings, profiles, after.speakers, db.samples, b.samples, |b.samples|, sample);
    }
    if key in db.rules && !Listed(b.rules, key) {
      PutRulesKeepsUnsaved(meetings, after.speakers, db.rules, b.rules, |b.rules|, key);
    }
  }

  // ---------------------------------------------------------------------------------------
  // A backup taken from a well-formed store
  // ---------------------------------------------------------------------------------------

  /** The rows list a table: each row once, in any order. */
  ghost predicate Lists<K, V>(rows: seq<Row<K, V>>, table: map<K, V>) {
    && (forall k :: 0 <= k < |rows| ==> rows[k].key in table && table[rows[k].key] == rows[k].value)
    && (forall j, k :: 0 <= j < k < |rows| ==> rows[j].key != rows[k].key)
    && (forall key :: key in table ==> Listed(rows, key))
  }

  ghost predicate BackupOf(db: Db, b: Backup) {
    Lists(b.profiles, db.profiles) && Lists(b.speakers, db.speakers) && Lists(b.samples, db.samples) && Lists(b.rules, db.rules)
  }

  /** Profiles that speakers and samples name exist, by their foreign keys. */
  ghost predicate ProfilesLive(db: Db) {
    && (forall id :: id in db.speakers && db.speakers[id].profile.Some? ==> db.speakers[id].profile.value in db.profiles)
    && (forall id :: id in db.samples ==> db.samples[id].profile in db.profiles)
  }

  ghost predicate NoRuledOwner(speakers: map<SpeakerId, Speaker>, rules: map<RuleKey, SpeakerId>) {
    forall key :: key in rules ==> NobodyOwns(speakers, key)
  }

  /** The store a backup is taken from. */
  ghost predicate WellFormed(db: Db) {
    Store(db) && ProfilesLive(db) && NoRuledOwner(db.speakers, db.rules)
  }

  /** Every library that a run reaches is such a store, as far as its merges and evidence go. */
  lemma InvariantGivesStore(db: Db, history: History)
    requires Invariant(db, history)
    ensures Store(db) && NoRuledOwner(db.speakers, db.rules)
  {
  }

  /** Every row of the backup whose meeting exists stands in the store as saved. */
  ghost predicate ProfilesHeld(profiles: map<ProfileId, string>, rows: seq<Row<ProfileId, string>>, count: nat)
    requires count <= |rows|
  {
    forall k :: 0 <= k < count ==> rows[k].key in profiles && profiles[rows[k].key] == rows[k].value
  }

  ghost predicate SpeakersHeld(meetings: set<MeetingId>, speakers: map<SpeakerId, Speaker>,
                               rows: seq<Row<SpeakerId, Speaker>>, count: nat)
    requires count <= |rows|
  {
    forall k :: 0 <= k < count && rows[k].value.meeting in meetings ==>
      rows[k].key in speakers && speakers[rows[k].key] == rows[k].value
  }

  ghost predicate SamplesHeld(meetings: set<MeetingId>, samples: map<SampleId, Sample>,
                              rows: seq<Row<SampleId, Sample>>, count: nat)
    requires count <= |rows|
  {
    forall k :: 0 <= k < count && rows[k].value.meeting in meetings ==>
      rows[k].key in samples && samples[rows[k].key] == rows[k].value
  }

  ghost predicate RulesHeld(meetings: set<MeetingId>, rules: map<RuleKey, SpeakerId>,
                            rows: seq<Row<RuleKey, SpeakerId>>, count: nat)
    requires count <= |rows|
  {
    forall k :: 0 <= k < count && rows[k].key.meeting in meetings ==>
      rows[k].key in rules && rules[rows[k].key] == rows[k].value
  }

  ghost predicate Held(db: Db, b: Backup) {
    var meetings := db.meetings.Keys;
    && ProfilesHeld(db.profiles, b.profiles, |b.profiles|)
    && SpeakersHeld(meetings, db.speakers, b.speakers, |b.speakers|)
    && SamplesHeld(meetings, db.samples, b.samples, |b.samples|)
    && RulesHeld(meetings, db.rules, b.rules, |b.rules|)
  }

  lemma {:induction false} PutProfilesHolds(profiles: map<ProfileId, string>, rows: seq<Row<ProfileId, string>>,
                                            table: map<ProfileId, string>, count: nat)
    requires count <= |rows| && Lists(rows, table)
    ensures ProfilesHeld(PutProfiles(profiles, rows, count), rows, count)
  {
    if count > 0 {
      PutProfilesHolds(profiles, rows, table, count - 1);
    }
  }

  lemma {:induction false} PutSpeakersHolds(meetings: set<MeetingId>, profiles: set<ProfileId>,
                                            speakers: map<SpeakerId, Speaker>, rows: seq<Row<SpeakerId, Speaker>>,
                                            table: map<SpeakerId, Speaker>, count: nat)
    requires count <= |rows| && Lists(rows, table)
    requires PutSpeakers(meetings, profiles, speakers, rows, count).Ok?
    ensures SpeakersHeld(meetings, PutSpeakers(meetings, profiles, speakers, rows, count).value, rows, count)
  {
    if count > 0 {
      PutSpeakersHolds(meetings, profiles, speakers, rows, table, count - 1);
    }
  }

  lemma SavedTriplesDiffer(rows: seq<Row<SampleId, Sample>>, db: Db, j: nat, k: nat)
    requires Lists(rows, db.samples) && EvidenceLive(db) && j < k < |rows|
    ensures !SameTriple(rows[j].value, rows[k].value)
  {
    if SameTriple(rows[j].value, rows[k].value) {
      assert SamePair(db.samples, rows[j].key, rows[k].key);
    }
  }

  /** A saved sample has a live speaker, and differs from the samples saved before it. */
  lemma SavedSampleIsNew(rows: seq<Row<SampleId, Sample>>, saved: Db, k: nat)
    requires k < |rows| && Lists(rows, saved.samples) && EvidenceLive(saved)
    ensures rows[k].value.speaker in saved.speakers
    ensures saved.speakers[rows[k].value.speaker].meeting == rows[k].value.meeting
    ensures forall j :: 0 <= j < k ==> rows[j].key != rows[k].key && !SameTriple(rows[j].value, rows[k].value)
  {
    assert rows[k].value == saved.samples[rows[k].key];
    forall j | 0 <= j < k ensures !SameTriple(rows[j].value, rows[k].value) {
      SavedTriplesDiffer(rows, saved, j, k);
    }
  }

  /** One more saved sample is put without pushing out an earlier one. */
  lemma PutSampleHolds(meetings: set<MeetingId>, profiles: set<ProfileId>, speakers: map<SpeakerId, Speaker>,
                       before: map<SampleId, Sample>, rows: seq<Row<SampleId, Sample>>, k: nat)
    requires k < |rows| && SamplesHeld(meetings, before, rows, k)
    requires forall j :: 0 <= j < k ==> rows[j].key != rows[k].key && !SameTriple(rows[j].value, rows[k].value)
    requires rows[k].value.meeting in meetings ==> rows[k].value.speaker in speakers
    requires PutSample(meetings, profiles, speakers, before, rows[k]).Ok?
    ensures SamplesHeld(meetings, PutSample(meetings, profiles, speakers, before, rows[k]).value, rows, k + 1)
  {
  }

  lemma {:induction false} PutSamplesHolds(meetings: set<MeetingId>, profiles: set<ProfileId>,
                                           speakers: map<SpeakerId, Speaker>, samples: map<SampleId, Sample>,
                                           rows: seq<Row<SampleId, Sample>>, saved: Db, count: nat)
    requires count <= |rows| && Lists(rows, saved.samples) && EvidenceLive(saved)
    requires forall id :: id in saved.speakers && saved.speakers[id].meeting in meetings ==> id in speakers
    requires PutSamples(meetings, profiles, speakers, samples, rows, count).Ok?
    ensures SamplesHeld(meetings, PutSamples(meetings, profiles, speakers, samples, rows, count).value, rows, count)
  {
    if count > 0 {
      var before := PutSamples(meetings, profiles, speakers, samples, rows, count - 1).value;
      PutSamplesHolds(meetings, profiles, speakers, samples, rows, saved, count - 1);
      SavedSampleIsNew(rows, saved, count - 1);
      assert SamplesHeld(meetings, PutSample(meetings, profiles, speakers, before, rows[count - 1]).value, rows, count) by {
        PutSampleHolds(meetings, profiles, speakers, before, rows, count - 1);
      }
    }
  }

  lemma {:induction false} PutRulesHolds(meetings: set<MeetingId>, speakers: map<SpeakerId, Speaker>,
                                         rules: map<RuleKey, SpeakerId>, rows: seq<Row<RuleKey, SpeakerId>>,
                                         saved: Db, count: nat)
    requires count <= |rows| && Lists(rows, saved.rules) && TargetsLive(saved.speakers, saved.rules)
    requires forall id :: id in saved.speakers && saved.speakers[id].meeting in meetings ==> id in speakers
    requires PutRules(meetings, speakers, rules, rows, count).Ok?
    ensures RulesHeld(meetings, PutRules(meetings, speakers, rules, rows, count).value, rows, count)
  {
    if count > 0 {
      PutRulesHolds(meetings, speakers, rules, rows, saved, count - 1);
    }
  }

  lemma SavedSpeakersStand(meetings: set<MeetingId>, speakers: map<SpeakerId, Speaker>, saved: Db,
                           rows: seq<Row<SpeakerId, Speaker>>)
    requires Lists(rows, saved.speakers) && SpeakersHeld(meetings, speakers, rows, |rows|)
    ensures forall id :: id in saved.speakers && saved.speakers[id].meeting in meetings ==>
              id in speakers && speakers[id] == saved.speakers[id]
  {
  }

  lemma LoadingHolds(db: Db, saved: Db, b: Backup)
    requires WellFormed(saved) && BackupOf(saved, b) && Loaded(db, b).Ok?
    ensures Held(Loaded(db, b).value, b)
  {
    var meetings, after := db.meetings.Keys, Loaded(db, b).value;
    PutProfilesHolds(db.profiles, b.profiles, saved.profiles, |b.profiles|);
    PutSpeakersHolds(meetings, after.profiles.Keys, db.speakers, b.speakers, saved.speakers, |b.speakers|);
    SavedSpeakersStand(meetings, after.speakers, saved, b.speakers);
    PutSamplesHolds(meetings, after.profiles.Keys, after.speakers, db.samples, b.samples, saved, |b.samples|);
    PutRulesHolds(meetings, after.speakers, db.rules, b.rules, saved, |b.rules|);
  }

  /** A speaker of the backup whose meeting exists here. */
  ghost predicate Restored(saved: Db, meetings: set<MeetingId>, id: SpeakerId) {
    id in saved.speakers && saved.speakers[id].meeting in meetings
  }

  /** A saved merge retires no restored speaker. */
  lemma SourcesAreNotRestored(db: Db, saved: Db, b: Backup, row: Row<RuleKey, SpeakerId>)
    requires WellFormed(saved) && BackupOf(saved, b) && Held(db, b) && row.key in saved.rules
    ensures Owner(db.speakers, row.key).Some? ==> !Restored(saved, db.meetings.Keys, Owner(db.speakers, row.key).value)
  {
    SavedSpeakersStand(db.meetings.Keys, db.speakers, saved, b.speakers);
    var owner := Owner(db.speakers, row.key);
    if owner.Some? {
      assert !Owns(saved.speakers, owner.value, row.key);
    }
  }

  lemma AbsorbingHoldsSamples(db: Db, saved: Db, b: Backup, source: SpeakerId, target: SpeakerId)
    requires WellFormed(saved) && BackupOf(saved, b) && Held(db, b)
    requires !Restored(saved, db.meetings.Keys, source)
    ensures SamplesHeld(db.meetings.Keys, Absorbed(db, source, target).samples, b.samples, |b.samples|)
  {
    var samples, meetings := MovedSamples(db.samples, source, target), db.meetings.Keys;
    forall k | 0 <= k < |b.samples| && b.samples[k].value.meeting in meetings
      ensures b.samples[k].key in samples && samples[b.samples[k].key] == b.samples[k].value
    {
      assert Restored(saved, meetings, b.samples[k].value.speaker);
    }
  }

  lemma AbsorbingHoldsRules(db: Db, saved: Db, b: Backup, source: SpeakerId, target: SpeakerId)
    requires WellFormed(saved) && BackupOf(saved, b) && Held(db, b)
    requires !Restored(saved, db.meetings.Keys, source)
    ensures RulesHeld(db.meetings.Keys, Absorbed(db, source, target).rules, b.rules, |b.rules|)
  {
    var rules, meetings := RetargetedRules(db.rules, source, target), db.meetings.Keys;
    forall k | 0 <= k < |b.rules| && b.rules[k].key.meeting in meetings
      ensures b.rules[k].key in rules && rules[b.rules[k].key] == b.rules[k].value
    {
      assert Restored(saved, meetings, b.rules[k].value);
    }
  }

  lemma AbsorbingHolds(db: Db, saved: Db, b: Backup, source: SpeakerId, target: SpeakerId)
    requires WellFormed(saved) && BackupOf(saved, b) && Held(db, b)
    requires !Restored(saved, db.meetings.Keys, source)
    ensures Held(Absorbed(db, source, target), b)
  {
    AbsorbingHoldsSamples(db, saved, b, source, target);
    AbsorbingHoldsRules(db, saved, b, source, target);
  }

  lemma ApplyingOneHolds(db: Db, saved: Db, b: Backup, row: Row<RuleKey, SpeakerId>)
    requires WellFormed(saved) && BackupOf(saved, b) && Held(db, b) && row.key in saved.rules
    requires ApplyRule(db, row).Ok?
    ensures Held(ApplyRule(db, row).value, b)
  {
    ApplyRuleAbsorbs(db, row);
    if Applies(db, row) {
      SourcesAreNotRestored(db, saved, b, row);
      AbsorbingHolds(db, saved, b, Owner(db.speakers, row.key).value, row.value);
    }
  }

  lemma {:induction false} ApplyingHolds(db: Db, saved: Db, b: Backup, count: nat)
    requires WellFormed(saved) && BackupOf(saved, b) && Held(db, b) && count <= |b.rules|
    requires ApplyRules(db, b.rules, count).Ok?
    ensures Held(ApplyRules(db, b.rules, count).value, b)
  {
    if count > 0 {
      ApplyingHolds(db, saved, b, count - 1);
      var before, row := ApplyRules(db, b.rules, count - 1).value, b.rules[count - 1];
      assert row.key in saved.rules;
      assert Held(ApplyRule(before, row).value, b) by {
        ApplyingOneHolds(before, saved, b, row);
      }
    }
  }

  /** Everything saved for meetings that still exist is back. */
  lemma RestoreBringsBackWhatWasSaved(db: Db, saved: Db, b: Backup)
    requires WellFormed(saved) && BackupOf(saved, b) && Restore(db, b).Ok?
    ensures Held(Restore(db, b).value, b)
  {
    LoadingHolds(db, saved, b);
    ApplyingHolds(Loaded(db, b).value, saved, b, |b.rules|);
  }

  // ---------------------------------------------------------------------------------------
  // Restoring again
  // ---------------------------------------------------------------------------------------

  lemma {:induction false} PutProfilesAgain(profiles: map<ProfileId, string>, rows: seq<Row<ProfileId, string>>, count: nat)
    requires count <= |rows| && ProfilesHeld(profiles, rows, |rows|)
    ensures PutProfiles(profiles, rows, count) == profiles
  {
    if count > 0 {
      PutProfilesAgain(profiles, rows, count - 1);
    }
  }

  lemma {:induction false} PutSpeakersAgain(meetings: set<MeetingId>, profiles: set<ProfileId>,
                                            speakers: map<SpeakerId, Speaker>, rows: seq<Row<SpeakerId, Speaker>>, count: nat)
    requires count <= |rows| && SpeakersHeld(meetings, speakers, rows, |rows|) && ClustersUnique(speakers)
    requires forall k :: 0 <= k < |rows| && rows[k].value.profile.Some? ==> rows[k].value.profile.value in profiles
    ensures PutSpeakers(meetings, profiles, speakers, rows, count) == Ok(speakers)
  {
    if count > 0 {
      PutSpeakersAgain(meetings, profiles, speakers, rows, count - 1);
      var row := rows[count - 1];
      assert row.value.meeting in meetings ==> speakers[row.key := row.value] == speakers;
    }
  }

  lemma PutSampleAgain(meetings: set<MeetingId>, profiles: set<ProfileId>, speakers: map<SpeakerId, Speaker>,
                       samples: map<SampleId, Sample>, row: Row<SampleId, Sample>)
    requires SamplesLive(samples, speakers) && row.value.profile in profiles
    requires row.value.meeting in meetings ==> row.key in samples && samples[row.key] == row.value
    ensures PutSample(meetings, profiles, speakers, samples, row) == Ok(samples)
  {
    if row.value.meeting in meetings {
      forall id | id in samples && SameTriple(samples[id], row.value) ensures id == row.key {
        assert SamePair(samples, id, row.key);
      }
      var others := map id | id in samples && !SameTriple(samples[id], row.value) :: samples[id];
      assert others[row.key := row.value] == samples;
    }
  }

  lemma {:induction false} PutSamplesAgain(meetings: set<MeetingId>, profiles: set<ProfileId>,
                                           speakers: map<SpeakerId, Speaker>, samples: map<SampleId, Sample>,
                                           rows: seq<Row<SampleId, Sample>>, count: nat)
    requires count <= |rows| && SamplesHeld(meetings, samples, rows, |rows|) && SamplesLive(samples, speakers)
    requires forall k :: 0 <= k < |rows| ==> rows[k].value.profile in profiles
    ensures PutSamples(meetings, profiles, speakers, samples, rows, count) == Ok(samples)
  {
    if count > 0 {
      PutSamplesAgain(meetings, profiles, speakers, samples, rows, count - 1);
      PutSampleAgain(meetings, profiles, speakers, samples, rows[count - 1]);
    }
  }

  lemma {:induction false} PutRulesAgain(meetings: set<MeetingId>, speakers: map<SpeakerId, Speaker>,
                                         rules: map<RuleKey, SpeakerId>, rows: seq<Row<RuleKey, SpeakerId>>, count: nat)
    requires count <= |rows| && RulesHeld(meetings, rules, rows, |rows|) && TargetsLive(speakers, rules)
    ensures PutRules(meetings, speakers, rules, rows, count) == Ok(rules)
  {
    if count > 0 {
      PutRulesAgain(meetings, speakers, rules, rows, count - 1);
      var row := rows[count - 1];
      assert row.key.meeting in meetings ==> rules[row.key := row.value] == rules;
    }
  }

  lemma SavedProfilesStand(db: Db, saved: Db, b: Backup)
    requires WellFormed(saved) && BackupOf(saved, b) && Held(db, b)
    ensures forall k :: 0 <= k < |b.speakers| && b.speakers[k].value.profile.Some? ==>
              b.speakers[k].value.profile.value in db.profiles
    ensures forall k :: 0 <= k < |b.samples| ==> b.samples[k].value.profile in db.profiles
  {
    assert forall profile :: profile in saved.profiles ==> profile in db.profiles;
  }

  lemma LoadingAgain(db: Db, saved: Db, b: Backup)
    requires WellFormed(saved) && BackupOf(saved, b) && Held(db, b) && Store(db)
    ensures Loaded(db, b) == Ok(db)
  {
    var meetings := db.meetings.Keys;
    SavedProfilesStand(db, saved, b);
    PutProfilesAgain(db.profiles, b.profiles, |b.profiles|);
    PutSpeakersAgain(meetings, db.profiles.Keys, db.speakers, b.speakers, |b.speakers|);
    PutSamplesAgain(meetings, db.profiles.Keys, db.speakers, db.samples, b.samples, |b.samples|);
    PutRulesAgain(meetings, db.speakers, db.rules, b.rules, |b.rules|);
  }

  lemma {:induction false} ApplyingAgain(db: Db, rows: seq<Row<RuleKey, SpeakerId>>, count: nat)
    requires count <= |rows|
    requires forall k :: 0 <= k < |rows| && Stands(db.meetings.Keys, db.speakers, rows[k]) ==>
               NobodyOwns(db.speakers, rows[k].key)
    ensures ApplyRules(db, rows, count) == Ok(db)
  {
    if count > 0 {
      ApplyingAgain(db, rows, count - 1);
    }
  }

  /** After a restore nothing is left for the saved merges to do. */
  lemma NothingLeftToApply(db: Db, b: Backup)
    requires Store(db) && Restore(db, b).Ok?
    ensures var after := Restore(db, b).value;
            forall k :: 0 <= k < |b.rules| && Stands(after.meetings.Keys, after.speakers, b.rules[k]) ==>
              NobodyOwns(after.speakers, b.rules[k].key)
  {
    var after := Restore(db, b).value;
    RestoreSettles(db, b);
    forall k | 0 <= k < |b.rules| && Stands(after.meetings.Keys, after.speakers, b.rules[k])
      ensures NobodyOwns(after.speakers, b.rules[k].key)
    {
      SavedMergesHold(db, b, k);
    }
  }

  lemma RestoringAgainChangesNothing(db: Db, saved: Db, b: Backup)
    requires WellFormed(saved) && BackupOf(saved, b)
    requires Store(db) && Restore(db, b).Ok?
    ensures Restore(Restore(db, b).value, b) == Restore(db, b)
  {
    var after := Restore(db, b).value;
    assert Loaded(after, b) == Ok(after) by {
      RestoreSettles(db, b);
      RestoreBringsBackWhatWasSaved(db, saved, b);
      LoadingAgain(after, saved, b);
    }
    NothingLeftToApply(db, b);
    ApplyingAgain(after, b.rules, |b.rules|);
  }

  // ---------------------------------------------------------------------------------------
  // When the merge invariant survives
  // ---------------------------------------------------------------------------------------

  /** No saved speaker has a cluster that the current library has merged away. */
  ghost predicate RevivesNobody(db: Db, b: Backup) {
    forall k :: 0 <= k < |b.speakers| && b.speakers[k].value.meeting in db.meetings ==>
      RuleKey(b.speakers[k].value.meeting, b.speakers[k].value.cluster) !in db.rules
  }

  lemma {:induction false} LoadedSpeakersHaveAnOrigin(meetings: set<MeetingId>, profiles: set<ProfileId>,
                                                      speakers: map<SpeakerId, Speaker>,
                                                      rows: seq<Row<SpeakerId, Speaker>>, count: nat)
    requires count <= |rows| && PutSpeakers(meetings, profiles, speakers, rows, count).Ok?
    ensures var after := PutSpeakers(meetings, profiles, speakers, rows, count).value;
            forall id :: id in after ==>
              || (id in speakers && after[id] == speakers[id])
              || (exists k :: 0 <= k < count && rows[k].value == after[id] && rows[k].value.meeting in meetings)
  {
    if count > 0 {
      LoadedSpeakersHaveAnOrigin(meetings, profiles, speakers, rows, count - 1);
      var before := PutSpeakers(meetings, profiles, speakers, rows, count - 1).value;
      var after := PutSpeakers(meetings, profiles, speakers, rows, count).value;
      forall id | id in after
        ensures (id in speakers && after[id] == speakers[id])
             || (exists k :: 0 <= k < count && rows[k].value == after[id] && rows[k].value.meeting in meetings)
      {
        if id in before && after[id] == before[id] {
        } else {
          assert rows[count - 1].value == after[id];
        }
      }
    }
  }

  lemma {:induction false} RuleKeysGrow(meetings: set<MeetingId>, speakers: map<SpeakerId, Speaker>,
                                        rules: map<RuleKey, SpeakerId>, rows: seq<Row<RuleKey, SpeakerId>>, count: nat)
    requires count <= |rows| && PutRules(meetings, speakers, rules, rows, count).Ok?
    ensures var after := PutRules(meetings, speakers, rules, rows, count).value;
            && rules.Keys <= after.Keys
            && forall key :: key in after && key !in rules ==>
                 exists k :: 0 <= k < count && rows[k].key == key && key.meeting in meetings
  {
    if count > 0 {
      RuleKeysGrow(meetings, speakers, rules, rows, count - 1);
      var before := PutRules(meetings, speakers, rules, rows, count - 1).value;
      var after := PutRules(meetings, speakers, rules, rows, count).value;
      forall key | key in after && key !in rules
        ensures exists k :: 0 <= k < count && rows[k].key == key && key.meeting in meetings
      {
        if key !in before {
          assert rows[count - 1].key == key;
        }
      }
    }
  }

  lemma RulesSurvive(db: Db, b: Backup, key: RuleKey)
    requires Store(db) && Restore(db, b).Ok?
    ensures key in db.rules ==> key in Restore(db, b).value.rules
    ensures key in Restore(db, b).value.rules && key !in db.rules ==>
              exists k :: 0 <= k < |b.rules| && b.rules[k].key == key && key.meeting in db.meetings
    ensures Restore(db, b).value.meetings == db.meetings
  {
    var loaded := Loaded(db, b).value;
    RestoreSettles(db, b);
    RuleKeysGrow(db.meetings.Keys, loaded.speakers, db.rules, b.rules, |b.rules|);
  }

  lemma RevivedClusterIsRuled(db: Db, saved: Db, b: Backup, k: nat)
    requires WellFormed(saved) && BackupOf(saved, b) && Store(db) && Restore(db, b).Ok?
    requires k < |b.speakers| && b.speakers[k].value.meeting in db.meetings
    requires RuleKey(b.speakers[k].value.meeting, b.speakers[k].value.cluster) in db.rules
    ensures !NoRuledOwner(Restore(db, b).value.speakers, Restore(db, b).value.rules)
  {
    var key := RuleKey(b.speakers[k].value.meeting, b.speakers[k].value.cluster);
    RulesSurvive(db, b, key);
    RestoreBringsBackWhatWasSaved(db, saved, b);
    assert Owns(Restore(db, b).value.speakers, b.speakers[k].key, key);
  }

  lemma UnsavedClusterStaysUnowned(db: Db, b: Backup, profiles: set<ProfileId>, after: map<SpeakerId, Speaker>, key: RuleKey)
    requires PutSpeakers(db.meetings.Keys, profiles, db.speakers, b.speakers, |b.speakers|).Ok?
    requires Shrinks(PutSpeakers(db.meetings.Keys, profiles, db.speakers, b.speakers, |b.speakers|).value, after)
    requires key in db.rules && NobodyOwns(db.speakers, key) && RevivesNobody(db, b)
    ensures NobodyOwns(after, key)
  {
    LoadedSpeakersHaveAnOrigin(db.meetings.Keys, profiles, db.speakers, b.speakers, |b.speakers|);
    forall id ensures !Owns(after, id, key) {
      assert !Owns(db.speakers, id, key);
    }
  }

  lemma SavedTargetStands(db: Db, saved: Db, b: Backup, k: nat)
    requires WellFormed(saved) && BackupOf(saved, b) && Store(db) && Restore(db, b).Ok?
    requires k < |b.rules| && b.rules[k].key.meeting in db.meetings
    ensures b.rules[k].value in Restore(db, b).value.speakers
  {
    var after := Restore(db, b).value;
    assert after.meetings == db.meetings by {
      RestoreSettles(db, b);
    }
    assert Restored(saved, after.meetings.Keys, b.rules[k].value) by {
      assert saved.rules[b.rules[k].key] == b.rules[k].value;
    }
    assert SpeakersHeld(after.meetings.Keys, after.speakers, b.speakers, |b.speakers|) by {
      RestoreBringsBackWhatWasSaved(db, saved, b);
    }
    SavedSpeakersStand(after.meetings.Keys, after.speakers, saved, b.speakers);
  }

  lemma SavedClusterIsUnowned(db: Db, saved: Db, b: Backup, k: nat)
    requires WellFormed(saved) && BackupOf(saved, b) && Store(db) && Restore(db, b).Ok?
    requires k < |b.rules| && b.rules[k].key.meeting in db.meetings
    ensures NobodyOwns(Restore(db, b).value.speakers, b.rules[k].key)
  {
    SavedTargetStands(db, saved, b, k);
    SavedMergesHold(db, b, k);
  }

  lemma OldClusterIsUnowned(db: Db, b: Backup, key: RuleKey)
    requires Store(db) && Restore(db, b).Ok?
    requires NoRuledOwner(db.speakers, db.rules) && RevivesNobody(db, b) && key in db.rules
    ensures NobodyOwns(Restore(db, b).value.speakers, key)
  {
    RestoreSettles(db, b);
    UnsavedClusterStaysUnowned(db, b, Loaded(db, b).value.profiles.Keys, Restore(db, b).value.speakers, key);
  }

  lemma UnrevivedClusterIsUnowned(db: Db, saved: Db, b: Backup, key: RuleKey)
    requires WellFormed(saved) && BackupOf(saved, b) && Store(db) && Restore(db, b).Ok?
    requires NoRuledOwner(db.speakers, db.rules) && RevivesNobody(db, b)
    requires key in Restore(db, b).value.rules
    ensures NobodyOwns(Restore(db, b).value.speakers, key)
  {
    RulesSurvive(db, b, key);
    if key in db.rules {
      OldClusterIsUnowned(db, b, key);
    } else {
      var k :| 0 <= k < |b.rules| && b.rules[k].key == key;
      SavedClusterIsUnowned(db, saved, b, k);
    }
  }

  /**
   Restoring keeps the merge invariant exactly when no saved speaker has a cluster that the
   current library has merged away since.
   */
  lemma RestoreKeepsTheMergeInvariantExactlyWhen(db: Db, saved: Db, b: Backup)
    requires WellFormed(saved) && BackupOf(saved, b)
    requires Store(db) && NoRuledOwner(db.speakers, db.rules) && Restore(db, b).Ok?
    ensures NoRuledOwner(Restore(db, b).value.speakers, Restore(db, b).value.rules) <==> RevivesNobody(db, b)
  {
    if RevivesNobody(db, b) {
      forall key | key in Restore(db, b).value.rules ensures NobodyOwns(Restore(db, b).value.speakers, key) {
        UnrevivedClusterIsUnowned(db, saved, b, key);
      }
    } else {
      var k :| 0 <= k < |b.speakers| && b.speakers[k].value.meeting in db.meetings
               && RuleKey(b.speakers[k].value.meeting, b.speakers[k].value.cluster) in db.rules;
      RevivedClusterIsRuled(db, saved, b, k);
    }
  }

  /** Restoring a backup into the store it was taken from changes nothing. */
  lemma RestoringTheOwnBackupChangesNothing(db: Db, b: Backup)
    requires WellFormed(db) && BackupOf(db, b)
    ensures Restore(db, b) == Ok(db)
  {
    LoadingAgain(db, db, b);
    ApplyingAgain(db, b.rules, |b.rules|);
  }

  lemma MergingRulesTheSource(db: Db, m: MeetingId, source: SpeakerId, target: SpeakerId)
    requires Merge(db, m, source, target).Ok?
    ensures var merged := Merge(db, m, source, target).value;
            && merged.meetings == db.meetings
            && source in db.speakers && db.speakers[source].meeting == m
            && RuleKey(m, db.speakers[source].cluster) in merged.rules
  {
  }

  lemma ListedRow<K, V>(rows: seq<Row<K, V>>, table: map<K, V>, key: K) returns (k: nat)
    requires Lists(rows, table) && key in table
    ensures k < |rows| && rows[k].key == key && rows[k].value == table[key]
  {
    assert Listed(rows, key);
    k :| 0 <= k < |rows| && rows[k].key == key;
  }

  /**
   Any merge made since a backup was taken is one that restoring the backup undoes halfway: the
   merged speaker comes back while its cluster keeps the rule.
   */
  lemma MergingSinceTheBackupRevives(db: Db, b: Backup, m: MeetingId, source: SpeakerId, target: SpeakerId)
    requires BackupOf(db, b) && m in db.meetings && Merge(db, m, source, target).Ok?
    ensures !RevivesNobody(Merge(db, m, source, target).value, b)
  {
    MergingRulesTheSource(db, m, source, target);
    var k := ListedRow(b.speakers, db.speakers, source);
    assert b.speakers[k].value.meeting == m;
  }

  const MERGED_AWAY := Speaker("m", "b", "Speaker 2", None, Unknown, true, FromNothing, None)
  const STILL_LIVE := Speaker("m", "a", "Speaker 1", None, Unknown, true, FromNothing, None)

  /** A library, its backup, and the library later, with cluster b merged into cluster a. */
  const LIBRARY := EMPTY_DB.(meetings := map["m" := false], speakers := map[SpeakerOf("m", "b") := MERGED_AWAY])

  const BEFORE_THE_MERGE := Backup([], [Row(SpeakerOf("m", "b"), MERGED_AWAY)], [], [])

  const AFTER_THE_MERGE := EMPTY_DB.(
    meetings := map["m" := false],
    speakers := map[SpeakerOf("m", "a") := STILL_LIVE],
    rules := map[RuleKey("m", "b") := SpeakerOf("m", "a")])

  lemma TheBackupIsOfALibrary()
    ensures WellFormed(LIBRARY) && BackupOf(LIBRARY, BEFORE_THE_MERGE)
  {
    assert BEFORE_THE_MERGE.speakers[0].key == SpeakerOf("m", "b");
    assert Listed(BEFORE_THE_MERGE.speakers, SpeakerOf("m", "b"));
  }

  /** A backup of a well-formed library brings back a speaker whose cluster is merged away by now. */
  lemma OlderBackupRevivesAMergedSpeaker()
    ensures WellFormed(LIBRARY) && BackupOf(LIBRARY, BEFORE_THE_MERGE)
    ensures Store(AFTER_THE_MERGE) && NoRuledOwner(AFTER_THE_MERGE.speakers, AFTER_THE_MERGE.rules)
    ensures Restore(AFTER_THE_MERGE, BEFORE_THE_MERGE).Ok?
    ensures var after := Restore(AFTER_THE_MERGE, BEFORE_THE_MERGE).value;
            Owns(after.speakers, SpeakerOf("m", "b"), RuleKey("m", "b")) && RuleKey("m", "b") in after.rules
  {
    TheBackupIsOfALibrary();
    var db, b := AFTER_THE_MERGE, BEFORE_THE_MERGE;
    assert PutSpeakers(db.meetings.Keys, {}, db.speakers, b.speakers, 0) == Ok(db.speakers);
    assert PutSpeakers(db.meetings.Keys, {}, db.speakers, b.speakers, 1)
        == Ok(db.speakers[SpeakerOf("m", "b") := MERGED_AWAY]);
    assert db.profiles.Keys == {};
  }

  // ---------------------------------------------------------------------------------------
  // The transaction, loop by loop
  // ---------------------------------------------------------------------------------------

  method ListTable<K(==), V>(table: map<K, V>) returns (rows: seq<Row<K, V>>)
    ensures Lists(rows, table)
  {
    rows := [];
    var rest := table.Keys;
    while rest != {}
      invariant rest <= table.Keys
      invariant forall k :: 0 <= k < |rows| ==>
                  rows[k].key in table && rows[k].key !in rest && table[rows[k].key] == rows[k].value
      invariant forall j, k :: 0 <= j < k < |rows| ==> rows[j].key != rows[k].key
      invariant forall key :: key in table && key !in rest ==> Listed(rows, key)
      decreases |rest|
    {
      var key :| key in rest;
      ghost var before := rows;
      rows := rows + [Row(key, table[key])];
      rest := rest - {key};
      assert rows[|before|].key == key;
      forall other | other in table && other !in rest ensures Listed(rows, other) {
        if other != key {
          assert Listed(before, other);
          var k :| 0 <= k < |before| && before[k].key == other;
          assert rows[k].key == other;
        }
      }
    }
  }

  method SpeakerBackupBytes(db: Db) returns (b: Backup)
    ensures BackupOf(db, b)
  {
    var profiles := ListTable(db.profiles);
    var speakers := ListTable(db.speakers);
    var samples := ListTable(db.samples);
    var rules := ListTable(db.rules);
    b := Backup(profiles, speakers, samples, rules);
  }
}