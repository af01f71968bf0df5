/**
 restore_speaker_backup (src-tauri/src/speaker_backup.rs) as its loops: each row is validated and
 upserted in turn, then each saved merge is applied statement by statement. Proved to have the
 effect SpeakerBackup specifies; a rejection leaves the database as it was.
 */
module SpeakerRestore {
  import opened Wrappers
  import opened Tables
  import opened SpeakerMerge
  import opened SpeakerBackup

  // ---------------------------------------------------------------------------------------
  // A rejected row ends the restore
  // ---------------------------------------------------------------------------------------

  lemma {:induction false} RejectedSpeakerEnds(meetings: set<MeetingId>, profiles: set<ProfileId>,
                                               speakers: map<SpeakerId, Speaker>, rows: seq<Row<SpeakerId, Speaker>>,
                                               k: nat, count: nat)
    requires k <= count <= |rows| && PutSpeakers(meetings, profiles, speakers, rows, k).Err?
    ensures PutSpeakers(meetings, profiles, speakers, rows, count) == PutSpeakers(meetings, profiles, speakers, rows, k)
    decreases count
  {
    if k < count {
      RejectedSpeakerEnds(meetings, profiles, speakers, rows, k, count - 1);
    }
  }

  lemma {:induction false} RejectedSampleEnds(meetings: set<MeetingId>, profiles: set<ProfileId>,
                                              speakers: map<SpeakerId, Speaker>, samples: map<SampleId, Sample>,
                                              rows: seq<Row<SampleId, Sample>>, k: nat, count: nat)
    requires k <= count <= |rows| && PutSamples(meetings, profiles, speakers, samples, rows, k).Err?
    ensures PutSamples(meetings, profiles, speakers, samples, rows, count)
         == PutSamples(meetings, profiles, speakers, samples, rows, k)
    decreases count
  {
    if k < count {
      RejectedSampleEnds(meetings, profiles, speakers, samples, rows, k, count - 1);
    }
  }

  lemma {:induction false} RejectedRuleEnds(meetings: set<MeetingId>, speakers: map<SpeakerId, Speaker>,
                                            rules: map<RuleKey, SpeakerId>, rows: seq<Row<RuleKey, SpeakerId>>,
                                            k: nat, count: nat)
    requires k <= count <= |rows| && PutRules(meetings, speakers, rules, rows, k).Err?
    ensures PutRules(meetings, speakers, rules, rows, count) == PutRules(meetings, speakers, rules, rows, k)
    decreases count
  {
    if k < count {
      RejectedRuleEnds(meetings, speakers, rules, rows, k, count - 1);
    }
  }

  lemma {:induction false} RejectedMergeEnds(db: Db, rows: seq<Row<RuleKey, SpeakerId>>, k: nat, count: nat)
    requires k <= count <= |rows| && ApplyRules(db, rows, k).Err?
    ensures ApplyRules(db, rows, count) == ApplyRules(db, rows, k)
    decreases count
  {
    if k < count {
      RejectedMergeEnds(db, rows, k, count - 1);
    }
  }

  // ---------------------------------------------------------------------------------------
  // The upsert loops
  // ---------------------------------------------------------------------------------------

  method UpsertProfiles(profiles: map<ProfileId, string>, rows: seq<Row<ProfileId, string>>)
    returns (tx: map<ProfileId, string>)
    ensures tx == PutProfiles(profiles, rows, |rows|)
  {
    tx := profiles;
    for i := 0 to |rows|
      invariant tx == PutProfiles(profiles, rows, i)
    {
      tx := tx[rows[i].key := rows[i].value];
    }
  }

  method UpsertSpeakers(meetings: set<MeetingId>, profiles: set<ProfileId>, speakers: map<SpeakerId, Speaker>,
                        rows: seq<Row<SpeakerId, Speaker>>) returns (r: Result<map<SpeakerId, Speaker>, Rejection>)
    ensures r == PutSpeakers(meetings, profiles, speakers, rows, |rows|)
  {
    var tx := speakers;
    for i := 0 to |rows|
      invariant PutSpeakers(meetings, profiles, speakers, rows, i) == Ok(tx)
    {
      var row := rows[i];
      if row.value.meeting in meetings {
        var conflicting := SpeakerConflict(tx, row);
        if conflicting {
          RejectedSpeakerEnds(meetings, profiles, speakers, rows, i + 1, |rows|);
          return Err(InvalidInput);
        }
        if row.value.profile.Some? && row.value.profile.value !in profiles {
          RejectedSpeakerEnds(meetings, profiles, speakers, rows, i + 1, |rows|);
          return Err(ConstraintViolation);
        }
        tx := tx[row.key := row.value];
      }
    }
    return Ok(tx);
  }

  method UpsertSamples(meetings: set<MeetingId>, profiles: set<ProfileId>, speakers: map<SpeakerId, Speaker>,
                       samples: map<SampleId, Sample>, rows: seq<Row<SampleId, Sample>>)
    returns (r: Result<map<SampleId, Sample>, Rejection>)
    ensures r == PutSamples(meetings, profiles, speakers, samples, rows, |rows|)
  {
    var tx := samples;
    for i := 0 to |rows|
      invariant PutSamples(meetings, profiles, speakers, samples, rows, i) == Ok(tx)
    {
      var row := rows[i];
      if row.value.meeting in meetings && row.value.speaker in speakers {
        var put := PutSample(meetings, profiles, speakers, tx, row);
        if put.Err? {
          RejectedSampleEnds(meetings, profiles, speakers, samples, rows, i + 1, |rows|);
          return put;
        }
        tx := put.value;
      }
    }
    return Ok(tx);
  }

  method UpsertRules(meetings: set<MeetingId>, speakers: map<SpeakerId, Speaker>, rules: map<RuleKey, SpeakerId>,
                     rows: seq<Row<RuleKey, SpeakerId>>) returns (r: Result<map<RuleKey, SpeakerId>, Rejection>)
    ensures r == PutRules(meetings, speakers, rules, rows, |rows|)
  {
    var tx := rules;
    for i := 0 to |rows|
      invariant PutRules(meetings, speakers, rules, rows, i) == Ok(tx)
    {
      var row := rows[i];
      if row.key.meeting in meetings && row.value in speakers {
        if speakers[row.value].meeting != row.key.meeting {
          RejectedRuleEnds(meetings, speakers, rules, rows, i + 1, |rows|);
          return Err(InvalidInput);
        }
        tx := tx[row.key := row.value];
      }
    }
    return Ok(tx);
  }

  // ---------------------------------------------------------------------------------------
  // The merge loop
  // ---------------------------------------------------------------------------------------

  method FindOwner(speakers: map<SpeakerId, Speaker>, key: RuleKey) returns (owner: Option<SpeakerId>)
    requires ClustersUnique(speakers)
    ensures owner == Owner(speakers, key)
  {
    var owners := set id | id in speakers && speakers[id].meeting == key.meeting && speakers[id].cluster == key.cluster;
    if owners == {} {
      assert forall id :: Owns(speakers, id, key) ==> id in owners;
      return None;
    }
    var id :| id in owners;
    assert Owns(speakers, id, key);
    assert SameCluster(speakers[id], speakers[Owner(speakers, key).value]);
    return Some(id);
  }

  lemma MovedTurnsNameAnother(turns: map<TurnId, Turn>, source: SpeakerId, target: SpeakerId)
    requires source != target
    ensures var moved := MovedTurns(turns, source, target);
            (map id | id in moved :: moved[id].(speaker := WithoutSpeaker(moved[id].speaker, source))) == moved
  {
  }

  lemma MovedWordsNameAnother(words: map<WordId, Word>, source: SpeakerId, target: SpeakerId)
    requires source != target
    ensures var moved := MovedWords(words, source, target);
            (map id | id in moved :: moved[id].(speaker := WithoutSpeaker(moved[id].speaker, source))) == moved
  {
  }

  lemma MovedSamplesNameAnother(samples: map<SampleId, Sample>, source: SpeakerId, target: SpeakerId)
    requires source != target
    ensures var moved := MovedSamples(samples, source, target);
            (map id | id in moved && moved[id].speaker != source :: moved[id]) == moved
  {
  }

  lemma RetargetedRulesNameAnother(rules: map<RuleKey, SpeakerId>, source: SpeakerId, target: SpeakerId)
    requires source != target
    ensures var moved := RetargetedRules(rules, source, target);
            (map key | key in moved && moved[key] != source :: moved[key]) == moved
  {
  }

  lemma DeletingTheAbsorbedSpeaker(db: Db, source: SpeakerId, target: SpeakerId)
    requires source != target
    ensures var after := Absorbed(db, source, target);
            DeleteSpeaker(after.(speakers := db.speakers, candidates := db.candidates), source) == after
  {
    MovedTurnsNameAnother(db.turns, source, target);
    MovedWordsNameAnother(db.words, source, target);
    MovedSamplesNameAnother(db.samples, source, target);
    RetargetedRulesNameAnother(db.rules, source, target);
    assert (map id | id in db.speakers && id != source :: db.speakers[id]) == db.speakers - {source};
  }

  method AbsorbSpeaker(db: Db, source: SpeakerId, target: SpeakerId) returns (tx: Db)
    requires source != target
    ensures tx == Absorbed(db, source, target)
  {
    tx := db;
    tx := tx.(turns := MovedTurns(tx.turns, source, target));
    tx := tx.(words := MovedWords(tx.words, source, target));
    tx := tx.(samples := MovedSamples(tx.samples, source, target));
    tx := tx.(rules := RetargetedRules(tx.rules, source, target));
    DeletingTheAbsorbedSpeaker(db, source, target);
    tx := DeleteSpeaker(tx, source);
  }

  /** One saved merge: skipped, rejected, or applied to the speaker that has its cluster. */
  method ApplySavedMerge(db: Db, row: Row<RuleKey, SpeakerId>) returns (r: Result<Db, Rejection>)
    requires Store(db)
    ensures r == ApplyRule(db, row)
  {
    if row.key.meeting in db.meetings && row.value in db.speakers {
      var source := FindOwner(db.speakers, row.key);
      if source.Some? {
        if source.value == row.value {
          return Err(InvalidInput);
        }
        var tx := AbsorbSpeaker(db, source.value, row.value);
        return Ok(tx);
      }
    }
    return Ok(db);
  }

  method ApplySavedMerges(db: Db, rows: seq<Row<RuleKey, SpeakerId>>) returns (r: Result<Db, Rejection>)
    requires Store(db) && RowsBelong(db.meetings.Keys, db.speakers, rows, |rows|)
    ensures r == ApplyRules(db, rows, |rows|)
  {
    var tx := db;
    for i := 0 to |rows|
      invariant ApplyRules(db, rows, i) == Ok(tx)
    {
      ApplyingKeeps(db, rows, i);
      var applied := ApplySavedMerge(tx, rows[i]);
      if applied.Err? {
        RejectedMergeEnds(db, rows, i + 1, |rows|);
        return applied;
      }
      tx := applied.value;
    }
    return Ok(tx);
  }

  method LoadBackup(db: Db, b: Backup) returns (r: Result<Db, Rejection>)
    ensures r == Loaded(db, b)
  {
    var meetings := db.meetings.Keys;
    var profiles := UpsertProfiles(db.profiles, b.profiles);
    var speakers := UpsertSpeakers(meetings, profiles.Keys, db.speakers, b.speakers);
    if speakers.Err? {
      return Err(speakers.error);
    }
    var samples := UpsertSamples(meetings, profiles.Keys, speakers.value, db.samples, b.samples);
    if samples.Err? {
      return Err(samples.error);
    }
    var rules := UpsertRules(meetings, speakers.value, db.rules, b.rules);
    if rules.Err? {
      return Err(rules.error);
    }
    return Ok(db.(profiles := profiles, speakers := speakers.value, samples := samples.value, rules := rules.value));
  }

  /** The database a restore works on. A restore may break the merge invariant, but not these. */
  class Recovery {
    var database: Db

    ghost predicate Valid()
      reads this
    {
      Store(database)
    }

    constructor (db: Db)
      requires Store(db)
      ensures Valid() && database == db
    {
      database := db;
    }

    method RestoreSpeakerBackup(b: Backup) returns (r: Result<(), Rejection>)
      requires Valid()
      modifies this
      ensures Valid()
      ensures r.Ok? <==> Restore(old(database), b).Ok?
      ensures database == Restore(old(database), b).GetOr(old(database))
    {
      var loaded := LoadBackup(database, b);
      if loaded.Err? {
        return Err(loaded.error);
      }
      LoadingKeepsTheStore(database, b);
      var merged := ApplySavedMerges(loaded.value, b.rules);
      if merged.Err? {
        return Err(merged.error);
      }
      ApplyingKeeps(loaded.value, b.rules, |b.rules|);
      database := merged.value;
      return Ok(());
    }
  }
}
