/**
 What a committed result leaves of the transcript, row by row (src-tauri/src/job_coordinator.rs, commit_canonical_result
 and import_turn): the rows its turns landed on say what the artifact says, word for word, and every other row is kept,
 flagged or deleted by what it was before. Stated over the tables before and after, for any artifact.
 */
module ImportedTranscript {
  import opened Wrappers
  import opened Tables
  import opened SpeakerMerge
  import opened TranscriptImport
  import opened ReprocessingLaws

  // ---------------------------------------------------------------------------------------
  // Which artifact turns are accepted
  // ---------------------------------------------------------------------------------------

  predicate InTime(startMs: int, endMs: int) {
    0 <= startMs <= endMs
  }

  /** Words in time, under identifiers that differ and that no word of another row has. */
  ghost predicate WordsFit(words: map<WordId, Word>, m: MeetingId, a: ArtifactTurn, id: TurnId, count: nat)
    requires a.ArtifactTurn? && count <= |a.words|
  {
    && (forall k :: 0 <= k < count ==>
          && InTime(a.words[k].startMs, a.words[k].endMs)
          && (WordKey(m, a, k) in words ==> words[WordKey(m, a, k)].turn == id))
    && (forall j, k :: 0 <= j < k < count ==> WordKey(m, a, j) != WordKey(m, a, k))
  }

  /** A word's identifier is taken after some words if another row has it or one of those words does. */
  lemma TakenKeys(words: map<WordId, Word>, before: map<WordId, Word>, m: MeetingId, a: ArtifactTurn, id: TurnId,
                  speaker: SpeakerId, k: nat)
    requires a.ArtifactTurn? && k < |a.words| && HasWords(words, before, m, a, id, speaker, k)
    ensures WordKey(m, a, k) in before
       <==> || (WordKey(m, a, k) in words && words[WordKey(m, a, k)].turn != id)
            || IsWordKey(m, a, WordKey(m, a, k), k)
  {
  }

  lemma WordsFitOneMore(words: map<WordId, Word>, m: MeetingId, a: ArtifactTurn, id: TurnId, k: nat)
    requires a.ArtifactTurn? && k < |a.words|
    ensures WordsFit(words, m, a, id, k + 1)
       <==> && WordsFit(words, m, a, id, k)
            && InTime(a.words[k].startMs, a.words[k].endMs)
            && (WordKey(m, a, k) in words ==> words[WordKey(m, a, k)].turn == id)
            && !IsWordKey(m, a, WordKey(m, a, k), k)
  {
  }

  lemma NextWordIsAcceptedExactly(words: map<WordId, Word>, m: MeetingId, a: ArtifactTurn, id: TurnId, speaker: SpeakerId,
                                  k: nat)
    requires a.ArtifactTurn? && k < |a.words|
    ensures AddWords(words, m, a, id, speaker, k + 1).Ok?
       <==> && AddWords(words, m, a, id, speaker, k).Ok?
            && InTime(a.words[k].startMs, a.words[k].endMs)
            && WordKey(m, a, k) !in AddWords(words, m, a, id, speaker, k).value
  {
  }

  /** A word's identifier is free exactly if no other row and no word before it has it. */
  lemma FreeKeys(words: map<WordId, Word>, m: MeetingId, a: ArtifactTurn, id: TurnId, speaker: SpeakerId, k: nat)
    requires a.ArtifactTurn? && k < |a.words| && AddWords(WordsElsewhere(words, id), m, a, id, speaker, k).Ok?
    ensures WordKey(m, a, k) !in AddWords(WordsElsewhere(words, id), m, a, id, speaker, k).value
       <==> && (WordKey(m, a, k) in words ==> words[WordKey(m, a, k)].turn == id)
            && !IsWordKey(m, a, WordKey(m, a, k), k)
  {
    AddWordsEffect(words, m, a, id, speaker, k);
    TakenKeys(words, AddWords(WordsElsewhere(words, id), m, a, id, speaker, k).value, m, a, id, speaker, k);
  }

  lemma {:induction false} WordsAreAcceptedExactly(words: map<WordId, Word>, m: MeetingId, a: ArtifactTurn, id: TurnId,
                                                   speaker: SpeakerId, count: nat)
    requires a.ArtifactTurn? && count <= |a.words|
    ensures AddWords(WordsElsewhere(words, id), m, a, id, speaker, count).Ok? <==> WordsFit(words, m, a, id, count)
  {
    if count > 0 {
      WordsAreAcceptedExactly(words, m, a, id, speaker, count - 1);
      WordsFitOneMore(words, m, a, id, count - 1);
      NextWordIsAcceptedExactly(WordsElsewhere(words, id), m, a, id, speaker, count - 1);
      if AddWords(WordsElsewhere(words, id), m, a, id, speaker, count - 1).Ok? {
        FreeKeys(words, m, a, id, speaker, count - 1);
      }
    }
  }

  /** In a sane library every cluster of an existing meeting has a speaker to attribute its turns to. */
  lemma EveryClusterIsAdmitted(db: Db, history: History, m: MeetingId, matches: Matches, a: ArtifactTurn)
    requires UnionFind(db, history) && m in db.meetings && a.ArtifactTurn?
    ensures AdmitSpeaker(db, m, matches, a).Ok?
    ensures Resolve(db.rules, RuleKey(m, a.cluster)) in AdmitSpeaker(db, m, matches, a).value.speakers
  {
  }

  /** An artifact turn is imported exactly if it is well-formed, in time, and its words fit. */
  lemma ImportAcceptsExactly(db: Db, history: History, m: MeetingId, out: OutputId, matches: Matches, a: ArtifactTurn,
                             claim: Option<TurnId>)
    requires UnionFind(db, history) && m in db.meetings
    ensures ImportTurn(db, m, out, matches, a, claim).Ok?
       <==> && a.ArtifactTurn?
            && InTime(a.startMs, a.endMs)
            && WordsFit(db.words, m, a, Landing(m, a, claim), |a.words|)
  {
    if a.ArtifactTurn? {
      EveryClusterIsAdmitted(db, history, m, matches, a);
      WordsAreAcceptedExactly(db.words, m, a, Landing(m, a, claim), Resolve(db.rules, RuleKey(m, a.cluster)), |a.words|);
    }
  }

  // ---------------------------------------------------------------------------------------
  // The rows landed on
  // ---------------------------------------------------------------------------------------

  /** The words of a row are those of an artifact turn, in order, and no others. */
  ghost predicate SpeaksTheWords(words: map<WordId, Word>, m: MeetingId, a: ArtifactTurn, id: TurnId, speaker: SpeakerId)
    requires a.ArtifactTurn?
  {
    && (forall k :: 0 <= k < |a.words| ==>
          && WordKey(m, a, k) in words
          && words[WordKey(m, a, k)]
             == Word(id, Some(speaker), k, a.words[k].startMs, a.words[k].endMs, a.words[k].text))
    && (forall key :: key in words && words[key].turn == id ==> IsWordKey(m, a, key, |a.words|))
  }

  /** A row of the new output with the times, text, speaker and words of an artifact turn. */
  ghost predicate Arrived(db: Db, m: MeetingId, out: OutputId, a: ArtifactTurn, id: TurnId) {
    && a.ArtifactTurn?
    && id in db.turns && SaysWhat(db.turns[id], a)
    && db.turns[id].output == Some(out)
    && db.turns[id].speaker == Some(Resolve(db.rules, RuleKey(m, a.cluster)))
    && SpeaksTheWords(db.words, m, a, id, Resolve(db.rules, RuleKey(m, a.cluster)))
  }

  lemma ImportedArrives(before: Db, after: Db, m: MeetingId, out: OutputId, a: ArtifactTurn, id: TurnId)
    requires Imported(before, after, m, out, a, id)
    ensures Arrived(after, m, out, a, id)
  {
  }

  lemma WordsStaySpoken(before: map<WordId, Word>, after: map<WordId, Word>, m: MeetingId, a: ArtifactTurn, id: TurnId,
                        speaker: SpeakerId, b: ArtifactTurn, landing: TurnId, other: SpeakerId)
    requires a.ArtifactTurn? && SpeaksTheWords(before, m, a, id, speaker)
    requires b.ArtifactTurn? && HasWords(before, after, m, b, landing, other, |b.words|) && landing != id
    ensures SpeaksTheWords(after, m, a, id, speaker)
  {
  }

  /** Importing another turn on another row leaves it. */
  lemma ArrivedStays(before: Db, after: Db, m: MeetingId, out: OutputId, a: ArtifactTurn, id: TurnId, b: ArtifactTurn,
                     landing: TurnId)
    requires Arrived(before, m, out, a, id) && Imported(before, after, m, out, b, landing) && landing != id
    ensures Arrived(after, m, out, a, id)
  {
    WordsStaySpoken(before.words, after.words, m, a, id, Resolve(before.rules, RuleKey(m, a.cluster)), b, landing,
                    Resolve(before.rules, RuleKey(m, b.cluster)));
  }

  ghost predicate AllArrived(db: Db, m: MeetingId, out: OutputId, artifact: seq<ArtifactTurn>, claims: seq<Option<TurnId>>,
                             count: nat)
    requires count <= |artifact| == |claims|
  {
    forall k :: 0 <= k < count ==> Arrived(db, m, out, artifact[k], LandingAt(m, artifact, claims, k))
  }

  ghost predicate LandApart(m: MeetingId, artifact: seq<ArtifactTurn>, claims: seq<Option<TurnId>>, count: nat)
    requires count <= |artifact| == |claims|
  {
    forall j, k :: 0 <= j < k < count ==> LandingAt(m, artifact, claims, j) != LandingAt(m, artifact, claims, k)
  }

  lemma OneMoreArrives(before: Db, after: Db, m: MeetingId, out: OutputId, artifact: seq<ArtifactTurn>,
                       claims: seq<Option<TurnId>>, k: nat)
    requires k < |artifact| == |claims| && AllArrived(before, m, out, artifact, claims, k)
    requires ImportStep(before, after, m, out, artifact[k], claims[k])
    requires LandApart(m, artifact, claims, k + 1)
    ensures AllArrived(after, m, out, artifact, claims, k + 1)
  {
    var id := LandingAt(m, artifact, claims, k);
    forall j | 0 <= j < k + 1 ensures Arrived(after, m, out, artifact[j], LandingAt(m, artifact, claims, j)) {
      if j < k {
        ArrivedStays(before, after, m, out, artifact[j], LandingAt(m, artifact, claims, j), artifact[k], id);
      } else {
        ImportedArrives(before, after, m, out, artifact[k], id);
      }
    }
  }

  lemma {:induction false} TraceArrives(states: seq<Db>, m: MeetingId, out: OutputId, artifact: seq<ArtifactTurn>,
                                        claims: seq<Option<TurnId>>, count: nat)
    requires ImportTrace(states, m, out, artifact, claims, count)
    requires LandApart(m, artifact, claims, count)
    ensures AllArrived(states[count], m, out, artifact, claims, count)
  {
    if count > 0 {
      TraceShortens(states, m, out, artifact, claims, count);
      assert AllArrived(states[count - 1], m, out, artifact, claims, count - 1) by {
        assert states[..count][count - 1] == states[count - 1];
        TraceArrives(states[..count], m, out, artifact, claims, count - 1);
      }
      OneMoreArrives(states[count - 1], states[count], m, out, artifact, claims, count - 1);
    }
  }

  // ---------------------------------------------------------------------------------------
  // The other rows
  // ---------------------------------------------------------------------------------------

  /** A row no artifact turn landed on, with its words, is as it was. */
  ghost predicate Undisturbed(db: Db, after: Db, id: TurnId) {
    && (id in after.turns <==> id in db.turns)
    && (id in db.turns ==> after.turns[id] == db.turns[id])
    && (forall key :: key in db.words && db.words[key].turn == id ==> key in after.words && after.words[key] == db.words[key])
    && (forall key :: key in after.words && after.words[key].turn == id ==> key in db.words && db.words[key] == after.words[key])
  }

  lemma ImportLeavesOthers(before: Db, after: Db, m: MeetingId, out: OutputId, a: ArtifactTurn, landing: TurnId, id: TurnId)
    requires Imported(before, after, m, out, a, landing) && id != landing
    ensures Undisturbed(before, after, id)
  {
  }

  lemma UndisturbedTwice(db: Db, between: Db, after: Db, id: TurnId)
    requires Undisturbed(db, between, id) && Undisturbed(between, after, id)
    ensures Undisturbed(db, after, id)
  {
  }

  lemma {:induction false} TraceLeavesOthers(states: seq<Db>, m: MeetingId, out: OutputId, artifact: seq<ArtifactTurn>,
                                             claims: seq<Option<TurnId>>, count: nat, id: TurnId)
    requires ImportTrace(states, m, out, artifact, claims, count)
    requires !LandedOn(m, artifact, claims, count, id)
    ensures Undisturbed(states[0], states[count], id)
  {
    if count > 0 {
      assert LandingAt(m, artifact, claims, count - 1) != id;
      assert !LandedOn(m, artifact, claims, count - 1, id);
      TraceShortens(states, m, out, artifact, claims, count);
      assert states[..count][0] == states[0] && states[..count][count - 1] == states[count - 1];
      TraceLeavesOthers(states[..count], m, out, artifact, claims, count - 1, id);
      ImportLeavesOthers(states[count - 1], states[count], m, out, artifact[count - 1],
                         LandingAt(m, artifact, claims, count - 1), id);
      UndisturbedTwice(states[0], states[count - 1], states[count], id);
    }
  }

  // ---------------------------------------------------------------------------------------
  // The sweep
  // ---------------------------------------------------------------------------------------

  lemma SweepKeepsArrived(db: Db, m: MeetingId, out: OutputId, a: ArtifactTurn, id: TurnId)
    requires Arrived(db, m, out, a, id)
    ensures Arrived(Sweep(db, m, out), m, out, a, id)
  {
    var after := Sweep(db, m, out);
    assert id in after.turns && after.turns[id] == db.turns[id];
    forall key | key in after.words && after.words[key].turn == id ensures IsWordKey(m, a, key, |a.words|) {
      assert db.words[key].turn == id;
    }
  }

  /** What becomes of a row that belongs to another output than the new one, or to none. */
  ghost predicate Decided(before: Turn, turns: map<TurnId, Turn>, id: TurnId, m: MeetingId) {
    if before.meeting != m || before.output.None? then id in turns && turns[id] == before
    else if before.editedText.Some? then id in turns && turns[id] == before.(needsReview := true)
    else id !in turns
  }

  lemma SweepDecides(db: Db, m: MeetingId, out: OutputId, id: TurnId)
    requires id in db.turns && db.turns[id].output != Some(out)
    ensures Decided(db.turns[id], Sweep(db, m, out).turns, id, m)
  {
  }

  /** Words go with the rows they belong to. */
  ghost predicate WordsGoWithRows(db: Db, after: Db, id: TurnId) {
    && (forall key :: key in after.words && after.words[key].turn == id ==> key in db.words && db.words[key] == after.words[key])
    && (id in after.turns ==>
          forall key :: key in db.words && db.words[key].turn == id ==> key in after.words && after.words[key] == db.words[key])
  }

  lemma SweepTakesWordsWithRows(db: Db, m: MeetingId, out: OutputId, id: TurnId)
    requires id in db.turns
    ensures WordsGoWithRows(db, Sweep(db, m, out), id)
  {
  }

  // ---------------------------------------------------------------------------------------
  // The commit
  // ---------------------------------------------------------------------------------------

  /** The tables between the import and the sweep: the sweep is all that follows for transcript rows. */
  lemma CommitSweeps(db: Db, m: MeetingId, out: OutputId, matches: Matches, artifact: seq<ArtifactTurn>,
                     claims: seq<Option<TurnId>>, offers: seq<Offer>) returns (states: seq<Db>, swept: Db)
    requires CommitSucceeds(db, m, out, matches, artifact, claims, offers)
    ensures ImportTrace(states, m, out, artifact, claims, |artifact|)
    ensures states[0] == Promote(db, m, out)
    ensures swept == states[|artifact|].(candidates := swept.candidates)
    ensures Commit(db, m, out, matches, artifact, claims, offers) == Ok(Sweep(swept, m, out))
  {
    states := ImportHasTrace(Promote(db, m, out), m, out, matches, artifact, claims, |artifact|);
    swept := PersistFirst(states[|artifact|], m, offers, |offers|);
    PersistFirstTouchesCandidates(states[|artifact|], m, offers, |offers|);
  }

  lemma NoRowHasTheNewOutput(db: Db, m: MeetingId, out: OutputId)
    requires TurnsInMeetings(db) && out !in db.outputs
    ensures FreshOutput(Promote(db, m, out), out)
  {
  }

  /**
   After a commit every turn of the artifact stands on a row of its own, with its times, its text, the speaker its
   cluster leads to, and exactly its words in order.
   */
  lemma CommitBringsTheTranscript(db: Db, history: History, m: MeetingId, out: OutputId, matches: Matches,
                                  artifact: seq<ArtifactTurn>, claims: seq<Option<TurnId>>, offers: seq<Offer>)
    requires Invariant(db, history) && FreshWorkerIds(db, m, artifact)
    requires CommitSucceeds(db, m, out, matches, artifact, claims, offers)
    ensures AllArrived(Commit(db, m, out, matches, artifact, claims, offers).value, m, out, artifact, claims, |artifact|)
    ensures LandApart(m, artifact, claims, |artifact|)
  {
    var states, swept := CommitSweeps(db, m, out, matches, artifact, claims, offers);
    CommitLandsInjectively(db, history, m, out, matches, artifact, claims, offers);
    TraceArrives(states, m, out, artifact, claims, |artifact|);
    forall k | 0 <= k < |artifact|
      ensures Arrived(Sweep(swept, m, out), m, out, artifact[k], LandingAt(m, artifact, claims, k))
    {
      assert Arrived(states[|artifact|], m, out, artifact[k], LandingAt(m, artifact, claims, k));
      SweepKeepsArrived(swept, m, out, artifact[k], LandingAt(m, artifact, claims, k));
    }
  }

  /**
   And every other row is decided by what it was: rows of other meetings and rows without an output stay as they are,
   corrected rows of other outputs of the meeting are flagged for review, the rest of those go. Words go with their rows,
   and no other row is new.
   */
  lemma CommitDecidesEveryOtherRow(db: Db, history: History, m: MeetingId, out: OutputId, matches: Matches,
                                   artifact: seq<ArtifactTurn>, claims: seq<Option<TurnId>>, offers: seq<Offer>, id: TurnId)
    requires Invariant(db, history)
    requires CommitSucceeds(db, m, out, matches, artifact, claims, offers)
    requires !LandedOn(m, artifact, claims, |artifact|, id)
    ensures var after := Commit(db, m, out, matches, artifact, claims, offers).value;
            if id in db.turns then Decided(db.turns[id], after.turns, id, m) && WordsGoWithRows(db, after, id)
            else id !in after.turns
  {
    var states, swept := CommitSweeps(db, m, out, matches, artifact, claims, offers);
    NoRowHasTheNewOutput(db, m, out);
    TraceLeavesOthers(states, m, out, artifact, claims, |artifact|, id);
    assert Undisturbed(db, swept, id);
    if id in db.turns {
      SweepDecides(swept, m, out, id);
      SweepTakesWordsWithRows(swept, m, out, id);
    }
  }

  lemma StepMissesOtherMeetings(before: Db, after: Db, history: History, m: MeetingId, out: OutputId, a: ArtifactTurn,
                                claim: Option<TurnId>, id: TurnId)
    requires Invariant(before, history) && ImportStep(before, after, m, out, a, claim)
    requires id in before.turns && before.turns[id].meeting != m
    ensures Landing(m, a, claim) != id
  {
    GoodLandingIsInMeeting(before, m, out, a, claim);
  }

  lemma LandedOnOneMore(m: MeetingId, artifact: seq<ArtifactTurn>, claims: seq<Option<TurnId>>, count: nat, id: TurnId)
    requires count < |artifact| == |claims| && !LandedOn(m, artifact, claims, count, id)
    requires LandingAt(m, artifact, claims, count) != id
    ensures !LandedOn(m, artifact, claims, count + 1, id)
  {
    forall k | 0 <= k < count + 1 ensures LandingAt(m, artifact, claims, k) != id {
    }
  }

  lemma LastStepMisses(states: seq<Db>, history: History, m: MeetingId, out: OutputId, artifact: seq<ArtifactTurn>,
                       claims: seq<Option<TurnId>>, count: nat, id: TurnId)
    requires ImportTrace(states, m, out, artifact, claims, count) && count > 0
    requires Invariant(states[0], history) && out in states[0].outputs && m in states[0].meetings
    requires id in states[0].turns && states[0].turns[id].meeting != m
    requires !LandedOn(m, artifact, claims, count - 1, id) && Undisturbed(states[0], states[count - 1], id)
    ensures !LandedOn(m, artifact, claims, count, id)
  {
    TraceShortens(states, m, out, artifact, claims, count);
    assert Invariant(states[count - 1], history) by {
      assert states[..count][0] == states[0] && states[..count][count - 1] == states[count - 1];
      TraceKeeps(states[..count], history, m, out, artifact, claims, count - 1);
    }
    StepMissesOtherMeetings(states[count - 1], states[count], history, m, out, artifact[count - 1], claims[count - 1], id);
    LandedOnOneMore(m, artifact, claims, count - 1, id);
  }

  lemma {:induction false} TraceStaysInMeeting(states: seq<Db>, history: History, m: MeetingId, out: OutputId,
                                               artifact: seq<ArtifactTurn>, claims: seq<Option<TurnId>>, count: nat, id: TurnId)
    requires ImportTrace(states, m, out, artifact, claims, count)
    requires Invariant(states[0], history) && out in states[0].outputs && m in states[0].meetings
    requires id in states[0].turns && states[0].turns[id].meeting != m
    ensures !LandedOn(m, artifact, claims, count, id)
    ensures Undisturbed(states[0], states[count], id)
  {
    if count > 0 {
      assert !LandedOn(m, artifact, claims, count - 1, id) && Undisturbed(states[0], states[count - 1], id) by {
        TraceShortens(states, m, out, artifact, claims, count);
        assert states[..count][0] == states[0] && states[..count][count - 1] == states[count - 1];
        TraceStaysInMeeting(states[..count], history, m, out, artifact, claims, count - 1, id);
      }
      LastStepMisses(states, history, m, out, artifact, claims, count, id);
    }
    TraceLeavesOthers(states, m, out, artifact, claims, count, id);
  }

  /** Only rows of its own meeting are landed on. */
  lemma OtherMeetingsAreNotLandedOn(db: Db, history: History, m: MeetingId, out: OutputId, matches: Matches,
                                    artifact: seq<ArtifactTurn>, claims: seq<Option<TurnId>>, offers: seq<Offer>, id: TurnId)
    requires Invariant(db, history)
    requires CommitSucceeds(db, m, out, matches, artifact, claims, offers)
    requires id in db.turns && db.turns[id].meeting != m
    ensures !LandedOn(m, artifact, claims, |artifact|, id)
  {
    var states, swept := CommitSweeps(db, m, out, matches, artifact, claims, offers);
    PromoteKeepsInvariant(db, history, m, out);
    TraceStaysInMeeting(states, history, m, out, artifact, claims, |artifact|, id);
  }
}
