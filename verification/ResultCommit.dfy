/**
 The commit of a canonical result (src-tauri/src/job_coordinator.rs), statement by statement, with
 its loops over turns, words and candidates and its query for the edited turn to reattach.
 Each method is proved to have the effect TranscriptImport specifies, for a claim the query may
 return.
 */
module ResultCommit {
  import opened Wrappers
  import opened Tables
  import opened SpeakerMerge
  import opened TranscriptImport

  // ---------------------------------------------------------------------------------------
  // The query for the edited turn to reattach
  // ---------------------------------------------------------------------------------------

  /** Whatever does not rank before the best so far does not rank before a better one. */
  lemma RankingIsTransitive(turn: Turn, best: Turn, better: Turn, startMs: int, endMs: int)
    requires RanksBefore(better, best, startMs, endMs) && !RanksBefore(turn, best, startMs, endMs)
    ensures !RanksBefore(turn, better, startMs, endMs)
  {
  }

  ghost predicate BestAmong(turns: map<TurnId, Turn>, seen: set<TurnId>, m: MeetingId, speaker: SpeakerId,
                            out: OutputId, startMs: int, endMs: int, claim: Option<TurnId>)
    requires seen <= turns.Keys
  {
    && (claim.None? ==>
          forall id {:trigger Claimable(turns[id], m, speaker, out, startMs, endMs)} ::
            id in seen ==> !Claimable(turns[id], m, speaker, out, startMs, endMs))
    && (claim.Some? ==>
          && claim.value in seen
          && Claimable(turns[claim.value], m, speaker, out, startMs, endMs)
          && forall id {:trigger Beats(turns, id, claim.value, m, speaker, out, startMs, endMs)} ::
               id in seen ==> !Beats(turns, id, claim.value, m, speaker, out, startMs, endMs))
  }

  method FindClaim(turns: map<TurnId, Turn>, m: MeetingId, speaker: SpeakerId, out: OutputId, startMs: int, endMs: int)
    returns (claim: Option<TurnId>)
    ensures BestClaim(turns, m, speaker, out, startMs, endMs, claim)
  {
    claim := None;
    var rest := turns.Keys;
    while rest != {}
      invariant rest <= turns.Keys
      invariant BestAmong(turns, turns.Keys - rest, m, speaker, out, startMs, endMs, claim)
      decreases |rest|
    {
      var id :| id in rest;
      if Claimable(turns[id], m, speaker, out, startMs, endMs)
         && (claim.None? || RanksBefore(turns[id], turns[claim.value], startMs, endMs))
      {
        forall other | other in turns.Keys - (rest - {id})
          ensures !Beats(turns, other, id, m, speaker, out, startMs, endMs)
        {
          if other != id && Claimable(turns[other], m, speaker, out, startMs, endMs) {
            assert !Beats(turns, other, claim.value, m, speaker, out, startMs, endMs);
            RankingIsTransitive(turns[other], turns[claim.value], turns[id], startMs, endMs);
          }
        }
        claim := Some(id);
      }
      rest := rest - {id};
    }
    assert turns.Keys - rest == turns.Keys;
  }

  // ---------------------------------------------------------------------------------------
  // import_turn
  // ---------------------------------------------------------------------------------------

  method InsertWords(words: map<WordId, Word>, m: MeetingId, a: ArtifactTurn, id: TurnId, speaker: SpeakerId)
    returns (r: Result<map<WordId, Word>, Rejection>)
    requires a.ArtifactTurn?
    ensures r == AddWords(words, m, a, id, speaker, |a.words|)
  {
    var tx := words;
    for sequence := 0 to |a.words|
      invariant AddWords(words, m, a, id, speaker, sequence) == Ok(tx)
    {
      var word := a.words[sequence];
      var key := WordOf(m, a.id + ":" + word.id);
      if BadTiming(word.startMs, word.endMs) {
        FailedWordsStayFailed(words, m, a, id, speaker, sequence + 1, |a.words|);
        return Err(WorkerFault);
      }
      if key in tx {
        FailedWordsStayFailed(words, m, a, id, speaker, sequence + 1, |a.words|);
        return Err(ConstraintViolation);
      }
      tx := tx[key := Word(id, Some(speaker), sequence, word.startMs, word.endMs, word.text)];
    }
    return Ok(tx);
  }

  lemma {:induction false} FailedWordsStayFailed(words: map<WordId, Word>, m: MeetingId, a: ArtifactTurn, id: TurnId,
                                                 speaker: SpeakerId, k: nat, count: nat)
    requires a.ArtifactTurn? && k <= count <= |a.words|
    requires AddWords(words, m, a, id, speaker, k).Err?
    ensures AddWords(words, m, a, id, speaker, count) == AddWords(words, m, a, id, speaker, k)
    decreases count
  {
    if k < count {
      FailedWordsStayFailed(words, m, a, id, speaker, k, count - 1);
    }
  }

  lemma WritingATurnTouchesNoWord(db: Db, id: TurnId, turn: Turn)
    ensures RewriteTurn(db, id, turn).words == db.words && InsertTurn(db, id, turn).words == db.words
  {
  }

  lemma PlacingTouchesNoWord(db: Db, m: MeetingId, out: OutputId, id: TurnId, speaker: SpeakerId, a: ArtifactTurn, review: bool)
    requires a.ArtifactTurn?
    ensures PlaceTurn(db, m, out, id, speaker, a, review).words == db.words
  {
    if id in db.turns {
      WritingATurnTouchesNoWord(db, id, Overwritten(db.turns[id], out, speaker, a, review));
    } else {
      WritingATurnTouchesNoWord(db, id, Turn(m, Some(out), Some(speaker), a.startMs, a.endMs, a.modelText, None, 0, review));
    }
  }

  method WriteTurn(db: Db, m: MeetingId, out: OutputId, a: ArtifactTurn, id: TurnId, speaker: SpeakerId, review: bool)
    returns (r: Result<Db, Rejection>)
    requires a.ArtifactTurn?
    ensures r == TurnWritten(db, m, out, a, id, speaker, review)
  {
    var tx := PlaceTurn(db, m, out, id, speaker, a, review);
    PlacingTouchesNoWord(db, m, out, id, speaker, a, review);
    assert WordsElsewhere(tx.words, id) == WordsElsewhere(db.words, id);
    var words := InsertWords(WordsElsewhere(tx.words, id), m, a, id, speaker);
    if words.Err? {
      return Err(words.error);
    }
    tx := tx.(words := words.value);
    return Ok(tx);
  }

  /** The speaker upsert, the checks and the turn, once the query has picked its row. */
  method ImportWithClaim(db: Db, m: MeetingId, out: OutputId, matches: Matches, a: ArtifactTurn, claim: Option<TurnId>)
    returns (r: Result<Db, Rejection>)
    requires a.ArtifactTurn?
    ensures r == ImportTurn(db, m, out, matches, a, claim)
  {
    var speaker := Resolve(db.rules, RuleKey(m, a.cluster));
    var admitted := AdmitSpeaker(db, m, matches, a);
    if admitted.Err? {
      return admitted;
    }
    if BadTiming(a.startMs, a.endMs) {
      return Err(WorkerFault);
    }
    if speaker !in admitted.value.speakers {
      return Err(ConstraintViolation);
    }
    r := WriteTurn(admitted.value, m, out, a, Landing(m, a, claim), speaker, NeedsReview(matches, a));
  }

  /** The claim returned is the row the query picked; the query reads rows no statement changed yet. */
  method ImportOneTurn(db: Db, m: MeetingId, out: OutputId, matches: Matches, a: ArtifactTurn)
    returns (r: Result<Db, Rejection>, claim: Option<TurnId>)
    ensures GoodClaim(db, m, out, a, claim)
    ensures r == ImportTurn(db, m, out, matches, a, claim)
  {
    if a.MalformedTurn? {
      return Err(WorkerFault), None;
    }
    claim := FindClaim(db.turns, m, Resolve(db.rules, RuleKey(m, a.cluster)), out, a.startMs, a.endMs);
    r := ImportWithClaim(db, m, out, matches, a, claim);
  }

  // ---------------------------------------------------------------------------------------
  // commit_canonical_result
  // ---------------------------------------------------------------------------------------

  ghost predicate AgreeAt(step: Step, other: Step, k: nat) {
    forall db: Db :: step(db, k) == other(db, k)
  }

  lemma {:induction false} AgreeingStepsAgree(step: Step, other: Step, db: Db, count: nat)
    requires forall k :: 0 <= k < count ==> AgreeAt(step, other, k)
    ensures Steps(step, db, count) == Steps(other, db, count)
  {
    if count > 0 {
      AgreeingStepsAgree(step, other, db, count - 1);
      assert AgreeAt(step, other, count - 1);
    }
  }

  /** What an import has done depends only on the claims made so far. */
  lemma LaterClaimsDoNotMatter(db: Db, m: MeetingId, out: OutputId, matches: Matches, artifact: seq<ArtifactTurn>,
                               claims: seq<Option<TurnId>>, others: seq<Option<TurnId>>, count: nat)
    requires count <= |artifact| == |claims| == |others|
    requires forall k :: 0 <= k < count ==> claims[k] == others[k]
    ensures ImportFirst(db, m, out, matches, artifact, claims, count)
         == ImportFirst(db, m, out, matches, artifact, others, count)
  {
    AgreeingStepsAgree(ImportStepAt(m, out, matches, artifact, claims), ImportStepAt(m, out, matches, artifact, others),
                       db, count);
  }

  lemma {:induction false} FailedStepsStayFailed(step: Step, db: Db, k: nat, count: nat)
    requires k <= count && Steps(step, db, k).Err?
    ensures Steps(step, db, count) == Steps(step, db, k)
    decreases count
  {
    if k < count {
      FailedStepsStayFailed(step, db, k, count - 1);
    }
  }

  /** One more turn: the claim just found extends the good claims, and the result the import. */
  lemma OneMoreTurn(db: Db, tx: Db, m: MeetingId, out: OutputId, matches: Matches, artifact: seq<ArtifactTurn>,
                    claims: seq<Option<TurnId>>, i: nat, claim: Option<TurnId>)
    requires i < |artifact| == |claims|
    requires GoodClaims(db, m, out, matches, artifact, claims, i)
    requires ImportFirst(db, m, out, matches, artifact, claims, i) == Ok(tx)
    requires GoodClaim(tx, m, out, artifact[i], claim)
    ensures var longer := claims[i := claim];
            && GoodClaims(db, m, out, matches, artifact, longer, i + 1)
            && ImportFirst(db, m, out, matches, artifact, longer, i) == Ok(tx)
            && ImportFirst(db, m, out, matches, artifact, longer, i + 1)
               == ImportTurn(tx, m, out, matches, artifact[i], claim)
  {
    var longer := claims[i := claim];
    forall k | 0 <= k <= i
      ensures ImportFirst(db, m, out, matches, artifact, longer, k)
           == ImportFirst(db, m, out, matches, artifact, claims, k)
    {
      LaterClaimsDoNotMatter(db, m, out, matches, artifact, longer, claims, k);
    }
    forall k | 0 <= k < i + 1 ensures GoodClaimAt(db, m, out, matches, artifact, longer, k) {
      if k < i {
        assert GoodClaimAt(db, m, out, matches, artifact, claims, k);
      }
    }
    assert ImportStepAt(m, out, matches, artifact, longer)(tx, i) == ImportTurn(tx, m, out, matches, artifact[i], claim);
  }

  /** Once a turn is rejected, nothing is asked of the claims of later turns. */
  lemma RejectionEndsTheImport(db: Db, m: MeetingId, out: OutputId, matches: Matches, artifact: seq<ArtifactTurn>,
                               claims: seq<Option<TurnId>>, i: nat)
    requires i <= |artifact| == |claims|
    requires GoodClaims(db, m, out, matches, artifact, claims, i)
    requires ImportFirst(db, m, out, matches, artifact, claims, i).Err?
    ensures GoodClaims(db, m, out, matches, artifact, claims, |artifact|)
    ensures ImportFirst(db, m, out, matches, artifact, claims, |artifact|)
         == ImportFirst(db, m, out, matches, artifact, claims, i)
  {
    forall k | i <= k <= |artifact|
      ensures ImportFirst(db, m, out, matches, artifact, claims, k)
           == ImportFirst(db, m, out, matches, artifact, claims, i)
    {
      FailedStepsStayFailed(ImportStepAt(m, out, matches, artifact, claims), db, i, k);
    }
  }

  method ImportTurns(db: Db, m: MeetingId, out: OutputId, matches: Matches, artifact: seq<ArtifactTurn>)
    returns (r: Result<Db, Rejection>, claims: seq<Option<TurnId>>)
    ensures |claims| == |artifact|
    ensures GoodClaims(db, m, out, matches, artifact, claims, |artifact|)
    ensures r == ImportFirst(db, m, out, matches, artifact, claims, |artifact|)
  {
    claims := seq(|artifact|, _ => None);
    var tx := db;
    for i := 0 to |artifact|
      invariant |claims| == |artifact|
      invariant GoodClaims(db, m, out, matches, artifact, claims, i)
      invariant ImportFirst(db, m, out, matches, artifact, claims, i) == Ok(tx)
    {
      var imported, claim := ImportOneTurn(tx, m, out, matches, artifact[i]);
      OneMoreTurn(db, tx, m, out, matches, artifact, claims, i, claim);
      claims := claims[i := claim];
      if imported.Err? {
        RejectionEndsTheImport(db, m, out, matches, artifact, claims, i + 1);
        return imported, claims;
      }
      tx := imported.value;
    }
    return Ok(tx), claims;
  }

  method PersistCandidates(db: Db, m: MeetingId, offers: seq<Offer>) returns (tx: Db)
    ensures tx == PersistFirst(db, m, offers, |offers|)
  {
    tx := db;
    for i := 0 to |offers|
      invariant tx == PersistFirst(db, m, offers, i)
    {
      var key := RuleKey(m, offers[i].cluster);
      var speaker := if key in tx.rules then tx.rules[key] else SpeakerOf(m, offers[i].cluster);
      if speaker in tx.speakers && tx.speakers[speaker].meeting == m {
        tx := tx.(candidates := OfferedFor(tx.candidates, CandidateKey(m, speaker), offers[i]));
      }
    }
  }

  /** The statements that retire superseded turns: delete the unedited, then flag the edited. */
  method RetireSuperseded(db: Db, m: MeetingId, out: OutputId) returns (tx: Db)
    ensures tx == Sweep(db, m, out)
  {
    var unedited := set id | id in db.turns && Superseded(db.turns[id], m, out) && db.turns[id].editedText.None?;
    assert unedited == Unedited(db, m, out);
    tx := DeleteTurns(db, unedited);
    EditedTurnsAreLeft(db, m, out);
    var flagged := FlagEdited(tx.turns, m, out);
    tx := tx.(turns := flagged);
  }

  ghost predicate SupersededAreEdited(turns: map<TurnId, Turn>, m: MeetingId, out: OutputId) {
    forall id :: id in turns && Superseded(turns[id], m, out) ==> turns[id].editedText.Some?
  }

  lemma EditedTurnsAreLeft(db: Db, m: MeetingId, out: OutputId)
    ensures SupersededAreEdited(DeleteTurns(db, Unedited(db, m, out)).turns, m, out)
  {
  }

  method FlagEdited(turns: map<TurnId, Turn>, m: MeetingId, out: OutputId) returns (after: map<TurnId, Turn>)
    requires SupersededAreEdited(turns, m, out)
    ensures after == Flagged(turns, m, out)
  {
    after := map id | id in turns ::
      if Superseded(turns[id], m, out) && turns[id].editedText.Some? then turns[id].(needsReview := true) else turns[id];
  }

  method CommitCanonicalResult(db: Db, m: MeetingId, out: OutputId, matches: Matches, artifact: seq<ArtifactTurn>,
                               offers: seq<Offer>)
    returns (r: Result<Db, Rejection>, claims: seq<Option<TurnId>>)
    ensures |claims| == |artifact|
    ensures out !in db.outputs && m in db.meetings ==>
              GoodClaims(Promote(db, m, out), m, out, matches, artifact, claims, |artifact|)
    ensures r == Commit(db, m, out, matches, artifact, claims, offers)
  {
    claims := seq(|artifact|, _ => None);
    if out in db.outputs || m !in db.meetings {
      return Err(ConstraintViolation), claims;
    }
    var tx := db.(outputs := Demoted(db.outputs, m));
    tx := tx.(outputs := tx.outputs[out := Output(m, true)]);
    assert tx == Promote(db, m, out);
    var imported;
    imported, claims := ImportTurns(tx, m, out, matches, artifact);
    if imported.Err? {
      return imported, claims;
    }
    tx := PersistCandidates(imported.value, m, offers);
    tx := RetireSuperseded(tx, m, out);
    return Ok(tx), claims;
  }
}
