/**
 What re-importing a transcript keeps: human edits, attributions, the edit log, the search index,
 the merge rules and the single canonical output.
 */
module ReprocessingLaws {
  import opened Wrappers
  import opened Tables
  import opened SpeakerMerge
  import opened TranscriptEdits
  import opened TranscriptImport

  // ---------------------------------------------------------------------------------------
  // The library invariant
  // ---------------------------------------------------------------------------------------

  ghost predicate TurnsPlaced(turns: map<TurnId, Turn>, meetings: set<MeetingId>, outputs: set<OutputId>) {
    forall id :: id in turns ==>
      && turns[id].meeting in meetings
      && (id.TurnOf? ==> id.meeting == turns[id].meeting)
      && (turns[id].output.Some? ==> turns[id].output.value in outputs)
  }

  ghost predicate TurnsInMeetings(db: Db) {
    TurnsPlaced(db.turns, db.meetings.Keys, db.outputs.Keys)
  }

  /** UNIQUE(meeting_id) WHERE is_canonical = 1, and outputs belong to meetings. */
  ghost predicate OneCanonicalEach(outputs: map<OutputId, Output>, meetings: set<MeetingId>) {
    && (forall id :: id in outputs ==> outputs[id].meeting in meetings)
    && (forall id, other | id in outputs && other in outputs && outputs[id].canonical && outputs[other].canonical
          && outputs[id].meeting == outputs[other].meeting :: id == other)
  }

  ghost predicate CanonicalUnique(db: Db) {
    OneCanonicalEach(db.outputs, db.meetings.Keys)
  }

  ghost predicate Invariant(db: Db, history: History) {
    && UnionFind(db, history)
    && AttributionsLive(db)
    && EvidenceLive(db)
    && TurnsInMeetings(db)
    && CanonicalUnique(db)
    && EditLog(db)
    && IndexAgrees(db)
  }

  /** The other parts of the invariant do not read speakers, profiles or voice evidence. */
  lemma LabelsAreApart(db: Db, history: History, after: Db)
    requires Invariant(db, history)
    requires after == db.(speakers := after.speakers, profiles := after.profiles, samples := after.samples,
                          candidates := after.candidates)
    requires UnionFind(after, history) && AttributionsLive(after) && EvidenceLive(after)
    ensures Invariant(after, history)
  {
  }

  // ---------------------------------------------------------------------------------------
  // One artifact turn
  // ---------------------------------------------------------------------------------------

  /** A row keeps its meeting and cluster, and everything once it has an identity. */
  ghost predicate KeepsIdentity(row: Speaker, after: Speaker) {
    && after.meeting == row.meeting
    && after.cluster == row.cluster
    && (!row.state.Unknown? ==> after == row)
  }

  /** Speakers gain at most the row of an unruled cluster, and no row loses its identity. */
  ghost predicate Admits(db: Db, speakers: map<SpeakerId, Speaker>, m: MeetingId, cluster: ClusterLabel) {
    && (forall id :: id in db.speakers ==> id in speakers && KeepsIdentity(db.speakers[id], speakers[id]))
    && (forall id :: id in db.speakers && id != SpeakerOf(m, cluster) ==> speakers[id] == db.speakers[id])
    && (forall id :: id in speakers && id !in db.speakers ==>
          && id == SpeakerOf(m, cluster)
          && speakers[id].meeting == m && speakers[id].cluster == cluster
          && RuleKey(m, cluster) !in db.rules)
  }

  lemma RefreshKeepsIdentity(row: Speaker, proposed: Speaker)
    ensures KeepsIdentity(row, Refreshed(row, proposed))
  {
  }

  lemma ReplacedRowAdmits(db: Db, m: MeetingId, cluster: ClusterLabel, id: SpeakerId, row: Speaker)
    requires id in db.speakers && KeepsIdentity(db.speakers[id], row) && id == SpeakerOf(m, cluster)
    ensures Admits(db, db.speakers[id := row], m, cluster)
  {
  }

  lemma NewRowAdmits(db: Db, m: MeetingId, cluster: ClusterLabel, row: Speaker)
    requires SpeakerOf(m, cluster) !in db.speakers && row.meeting == m && row.cluster == cluster
    requires RuleKey(m, cluster) !in db.rules
    ensures Admits(db, db.speakers[SpeakerOf(m, cluster) := row], m, cluster)
  {
  }

  lemma SpeakersAreAdmitted(db: Db, m: MeetingId, cluster: ClusterLabel, row: Speaker)
    requires row.meeting == m && row.cluster == cluster
    requires AdmittedSpeakers(db, m, cluster, row).Ok?
    ensures Admits(db, AdmittedSpeakers(db, m, cluster, row).value, m, cluster)
  {
    var id := SpeakerOf(m, cluster);
    if RuleKey(m, cluster) !in db.rules {
      if id in db.speakers {
        RefreshKeepsIdentity(db.speakers[id], row);
        ReplacedRowAdmits(db, m, cluster, id, Refreshed(db.speakers[id], row));
      } else {
        NewRowAdmits(db, m, cluster, row);
      }
    }
  }

  /** The row landed on, and no other, changes; its edit and its meeting survive. */
  ghost predicate LandsOn(turns: map<TurnId, Turn>, after: map<TurnId, Turn>, id: TurnId, m: MeetingId,
                          out: OutputId, speaker: SpeakerId)
  {
    && after.Keys == turns.Keys + {id}
    && (forall other :: other in turns && other != id ==> after[other] == turns[other])
    && after[id].output == Some(out)
    && after[id].speaker == Some(speaker)
    && (if id in turns then
          && after[id].editedText == turns[id].editedText
          && after[id].revision == turns[id].revision
          && after[id].meeting == turns[id].meeting
        else
          after[id].editedText == None && after[id].revision == 0 && after[id].meeting == m)
  }

  /** The times and the text are the artifact's. */
  ghost predicate SaysWhat(row: Turn, a: ArtifactTurn)
    requires a.ArtifactTurn?
  {
    row.startMs == a.startMs && row.endMs == a.endMs && row.modelText == a.modelText
  }

  /**
   The row landed on says what the artifact says: its times and its text. Its review flag is the artifact's own, if it
   has one, unless a revision has settled the row's before.
   */
  ghost predicate Carries(turns: map<TurnId, Turn>, after: map<TurnId, Turn>, id: TurnId, a: ArtifactTurn)
    requires a.ArtifactTurn?
  {
    && id in after
    && SaysWhat(after[id], a)
    && (if id in turns && turns[id].revision > 0 then after[id].needsReview == turns[id].needsReview
        else a.needsReview.Some? ==> after[id].needsReview == a.needsReview.value)
  }

  lemma OverwrittenSays(row: Turn, out: OutputId, speaker: SpeakerId, a: ArtifactTurn, review: bool)
    requires a.ArtifactTurn?
    ensures var after := Overwritten(row, out, speaker, a, review);
            && SaysWhat(after, a)
            && after.needsReview == if row.revision > 0 then row.needsReview else review
  {
  }

  lemma PlaceTurnCarries(db: Db, m: MeetingId, out: OutputId, id: TurnId, speaker: SpeakerId, a: ArtifactTurn, review: bool)
    requires a.ArtifactTurn? && (a.needsReview.Some? ==> review == a.needsReview.value)
    ensures Carries(db.turns, PlaceTurn(db, m, out, id, speaker, a, review).turns, id, a)
  {
    if id in db.turns {
      var row := Overwritten(db.turns[id], out, speaker, a, review);
      OverwrittenSays(db.turns[id], out, speaker, a, review);
      assert PlaceTurn(db, m, out, id, speaker, a, review).turns == db.turns[id := row];
    }
  }

  lemma PlaceTurnLands(db: Db, m: MeetingId, out: OutputId, id: TurnId, speaker: SpeakerId, a: ArtifactTurn, review: bool)
    requires a.ArtifactTurn?
    ensures var after := PlaceTurn(db, m, out, id, speaker, a, review);
            && after == db.(turns := after.turns, index := after.index, nextIndexRow := after.nextIndexRow)
            && LandsOn(db.turns, after.turns, id, m, out, speaker)
  {
    if id in db.turns {
      var row := Overwritten(db.turns[id], out, speaker, a, review);
      assert PlaceTurn(db, m, out, id, speaker, a, review).turns == db.turns[id := row];
    }
  }

  lemma PlaceTurnKeepsIndex(db: Db, m: MeetingId, out: OutputId, id: TurnId, speaker: SpeakerId, a: ArtifactTurn, review: bool)
    requires a.ArtifactTurn? && IndexAgrees(db)
    ensures IndexAgrees(PlaceTurn(db, m, out, id, speaker, a, review))
  {
    if id in db.turns {
      RewriteTurnKeepsIndex(db, id, Overwritten(db.turns[id], out, speaker, a, review));
    } else {
      InsertTurnKeepsIndex(db, id,
                           Turn(m, Some(out), Some(speaker), a.startMs, a.endMs, a.modelText, None, 0, review));
    }
  }

  function WordKey(m: MeetingId, a: ArtifactTurn, k: nat): WordId
    requires a.ArtifactTurn? && k < |a.words|
  {
    WordOf(m, a.id + ":" + a.words[k].id)
  }

  ghost predicate IsWordKey(m: MeetingId, a: ArtifactTurn, key: WordId, count: nat)
    requires a.ArtifactTurn? && count <= |a.words|
  {
    exists k | 0 <= k < count :: WordKey(m, a, k) == key
  }

  /** The words of the row landed on are the artifact's, in order; all others stay. */
  ghost predicate HasWords(words: map<WordId, Word>, after: map<WordId, Word>, m: MeetingId, a: ArtifactTurn,
                           id: TurnId, speaker: SpeakerId, count: nat)
    requires a.ArtifactTurn? && count <= |a.words|
  {
    && (forall key :: key in words && words[key].turn != id ==> key in after && after[key] == words[key])
    && (forall key :: key in after && after[key].turn != id ==> key in words && words[key] == after[key])
    && (forall key :: key in after && after[key].turn == id ==>
          after[key].speaker == Some(speaker) && IsWordKey(m, a, key, count))
    && (forall k :: 0 <= k < count ==>
          && WordKey(m, a, k) in after
          && after[WordKey(m, a, k)]
             == Word(id, Some(speaker), k, a.words[k].startMs, a.words[k].endMs, a.words[k].text))
  }

  lemma OneMoreWord(words: map<WordId, Word>, before: map<WordId, Word>, m: MeetingId, a: ArtifactTurn, id: TurnId,
                    speaker: SpeakerId, k: nat)
    requires a.ArtifactTurn? && k < |a.words| && HasWords(words, before, m, a, id, speaker, k)
    requires WordKey(m, a, k) !in before
    ensures var word := a.words[k];
            HasWords(words, before[WordKey(m, a, k) := Word(id, Some(speaker), k, word.startMs, word.endMs, word.text)],
                     m, a, id, speaker, k + 1)
  {
    forall key | IsWordKey(m, a, key, k) ensures IsWordKey(m, a, key, k + 1) {
    }
    assert IsWordKey(m, a, WordKey(m, a, k), k + 1);
  }

  lemma AddWordsOneMore(words: map<WordId, Word>, m: MeetingId, a: ArtifactTurn, id: TurnId, speaker: SpeakerId, count: nat)
    requires a.ArtifactTurn? && 0 < count <= |a.words| && AddWords(words, m, a, id, speaker, count).Ok?
    ensures var before, word := AddWords(words, m, a, id, speaker, count - 1), a.words[count - 1];
            && before.Ok? && WordKey(m, a, count - 1) !in before.value
            && AddWords(words, m, a, id, speaker, count).value
               == before.value[WordKey(m, a, count - 1) := Word(id, Some(speaker), count - 1, word.startMs, word.endMs, word.text)]
  {
  }

  lemma NoWordsYet(words: map<WordId, Word>, m: MeetingId, a: ArtifactTurn, id: TurnId, speaker: SpeakerId)
    requires a.ArtifactTurn?
    ensures HasWords(words, WordsElsewhere(words, id), m, a, id, speaker, 0)
  {
  }

  lemma NextWordAdded(words: map<WordId, Word>, m: MeetingId, a: ArtifactTurn, id: TurnId, speaker: SpeakerId, count: nat)
    requires a.ArtifactTurn? && 0 < count <= |a.words|
    requires AddWords(WordsElsewhere(words, id), m, a, id, speaker, count).Ok?
    requires var before := AddWords(WordsElsewhere(words, id), m, a, id, speaker, count - 1);
             before.Ok? && HasWords(words, before.value, m, a, id, speaker, count - 1)
    ensures HasWords(words, AddWords(WordsElsewhere(words, id), m, a, id, speaker, count).value, m, a, id, speaker, count)
  {
    AddWordsOneMore(WordsElsewhere(words, id), m, a, id, speaker, count);
    OneMoreWord(words, AddWords(WordsElsewhere(words, id), m, a, id, speaker, count - 1).value, m, a, id, speaker, count - 1);
  }

  lemma {:induction false} AddWordsEffect(words: map<WordId, Word>, m: MeetingId, a: ArtifactTurn, id: TurnId,
                                          speaker: SpeakerId, count: nat)
    requires a.ArtifactTurn? && count <= |a.words|
    requires AddWords(WordsElsewhere(words, id), m, a, id, speaker, count).Ok?
    ensures HasWords(words, AddWords(WordsElsewhere(words, id), m, a, id, speaker, count).value,
                     m, a, id, speaker, count)
  {
    if count == 0 {
      NoWordsYet(words, m, a, id, speaker);
    } else {
      AddWordsEffect(words, m, a, id, speaker, count - 1);
      NextWordAdded(words, m, a, id, speaker, count);
    }
  }

  /** All that importing one artifact turn does. */
  ghost predicate Imported(db: Db, after: Db, m: MeetingId, out: OutputId, a: ArtifactTurn, id: TurnId) {
    var speaker := if a.ArtifactTurn? then Resolve(db.rules, RuleKey(m, a.cluster)) else SpeakerOf(m, "");
    && a.ArtifactTurn?
    && after == db.(speakers := after.speakers, turns := after.turns, words := after.words,
                    index := after.index, nextIndexRow := after.nextIndexRow)
    && Admits(db, after.speakers, m, a.cluster)
    && speaker in after.speakers
    && LandsOn(db.turns, after.turns, id, m, out, speaker)
    && Carries(db.turns, after.turns, id, a)
    && HasWords(db.words, after.words, m, a, id, speaker, |a.words|)
    && (IndexAgrees(db) ==> IndexAgrees(after))
  }

  /** The row, placed for the admitted speakers; only words are written after it. */
  function PlacedFor(db: Db, m: MeetingId, out: OutputId, matches: Matches, a: ArtifactTurn, claim: Option<TurnId>): Db
    requires a.ArtifactTurn? && AdmitSpeaker(db, m, matches, a).Ok?
  {
    PlaceTurn(AdmitSpeaker(db, m, matches, a).value, m, out, Landing(m, a, claim), Resolve(db.rules, RuleKey(m, a.cluster)),
              a, NeedsReview(matches, a))
  }

  lemma ImportTurnPlaces(db: Db, m: MeetingId, out: OutputId, matches: Matches, a: ArtifactTurn, claim: Option<TurnId>)
    requires ImportTurn(db, m, out, matches, a, claim).Ok?
    ensures a.ArtifactTurn? && AdmitSpeaker(db, m, matches, a).Ok?
    ensures var after, placed := ImportTurn(db, m, out, matches, a, claim).value, PlacedFor(db, m, out, matches, a, claim);
            && after == placed.(words := after.words)
            && placed.words == db.words
            && Resolve(db.rules, RuleKey(m, a.cluster)) in after.speakers
            && AddWords(WordsElsewhere(db.words, Landing(m, a, claim)), m, a, Landing(m, a, claim),
                        Resolve(db.rules, RuleKey(m, a.cluster)), |a.words|) == Ok(after.words)
  {
  }

  lemma PlacedForKeepsIndex(db: Db, m: MeetingId, out: OutputId, matches: Matches, a: ArtifactTurn, claim: Option<TurnId>)
    requires a.ArtifactTurn? && AdmitSpeaker(db, m, matches, a).Ok? && IndexAgrees(db)
    ensures IndexAgrees(PlacedFor(db, m, out, matches, a, claim))
  {
    var admitted := AdmitSpeaker(db, m, matches, a).value;
    QuietUpdateKeepsIndex(db, admitted);
    PlaceTurnKeepsIndex(admitted, m, out, Landing(m, a, claim), Resolve(db.rules, RuleKey(m, a.cluster)), a,
                        NeedsReview(matches, a));
  }

  lemma ImportTurnEffect(db: Db, m: MeetingId, out: OutputId, matches: Matches, a: ArtifactTurn, claim: Option<TurnId>)
    requires ImportTurn(db, m, out, matches, a, claim).Ok?
    ensures a.ArtifactTurn?
    ensures Imported(db, ImportTurn(db, m, out, matches, a, claim).value, m, out, a, Landing(m, a, claim))
  {
    ImportTurnPlaces(db, m, out, matches, a, claim);
    var speaker, id := Resolve(db.rules, RuleKey(m, a.cluster)), Landing(m, a, claim);
    SpeakersAreAdmitted(db, m, a.cluster, ProposedSpeaker(db, m, matches, a));
    PlaceTurnLands(AdmitSpeaker(db, m, matches, a).value, m, out, id, speaker, a, NeedsReview(matches, a));
    PlaceTurnCarries(AdmitSpeaker(db, m, matches, a).value, m, out, id, speaker, a, NeedsReview(matches, a));
    AddWordsEffect(db.words, m, a, id, speaker, |a.words|);
    if IndexAgrees(db) {
      PlacedForKeepsIndex(db, m, out, matches, a, claim);
      QuietUpdateKeepsIndex(PlacedFor(db, m, out, matches, a, claim), ImportTurn(db, m, out, matches, a, claim).value);
    }
  }

  lemma ImportedKeepsUnionFind(db: Db, after: Db, history: History, m: MeetingId, out: OutputId, a: ArtifactTurn, id: TurnId)
    requires UnionFind(db, history) && Imported(db, after, m, out, a, id)
    ensures UnionFind(after, history)
    ensures after.speakers[Resolve(db.rules, RuleKey(m, a.cluster))].meeting == m
  {
  }

  /** A row can only be landed on within its own meeting. */
  ghost predicate LandsInMeeting(db: Db, m: MeetingId, id: TurnId) {
    id in db.turns ==> db.turns[id].meeting == m
  }

  lemma ImportedKeepsTurnsAttributed(db: Db, after: Db, history: History, m: MeetingId, out: OutputId, a: ArtifactTurn, id: TurnId)
    requires UnionFind(db, history) && TurnsAttributed(db.turns, db.speakers)
    requires Imported(db, after, m, out, a, id) && LandsInMeeting(db, m, id)
    ensures TurnsAttributed(after.turns, after.speakers)
  {
    ImportedKeepsUnionFind(db, after, history, m, out, a, id);
    forall other | other in after.turns && after.turns[other].speaker.Some?
      ensures after.turns[other].speaker.value in after.speakers
      ensures after.speakers[after.turns[other].speaker.value].meeting == after.turns[other].meeting
    {
      if other != id {
        assert after.turns[other] == db.turns[other];
      }
    }
  }

  lemma ImportedKeepsWordsAttributed(db: Db, after: Db, m: MeetingId, out: OutputId, a: ArtifactTurn, id: TurnId)
    requires WordsAttributed(db.words, db.turns.Keys, db.speakers.Keys) && Imported(db, after, m, out, a, id)
    ensures WordsAttributed(after.words, after.turns.Keys, after.speakers.Keys)
  {
    forall key | key in after.words
      ensures after.words[key].turn in after.turns
      ensures after.words[key].speaker.Some? ==> after.words[key].speaker.value in after.speakers
    {
      if after.words[key].turn != id {
        assert db.words[key] == after.words[key];
      }
    }
  }

  lemma LandingKeepsTurnsPlaced(turns: map<TurnId, Turn>, after: map<TurnId, Turn>, id: TurnId, m: MeetingId,
                                out: OutputId, speaker: SpeakerId, meetings: set<MeetingId>, outputs: set<OutputId>)
    requires TurnsPlaced(turns, meetings, outputs) && LandsOn(turns, after, id, m, out, speaker)
    requires id.TurnOf? ==> id.meeting == m
    requires out in outputs && m in meetings
    ensures TurnsPlaced(after, meetings, outputs)
  {
    forall other | other in after && other != id
      ensures after[other] == turns[other]
    {
    }
  }

  lemma LandingKeepsLog(turns: map<TurnId, Turn>, after: map<TurnId, Turn>, revisions: map<RevisionKey, Revision>,
                        id: TurnId, m: MeetingId, out: OutputId, speaker: SpeakerId)
    requires LogOf(turns, revisions) && LandsOn(turns, after, id, m, out, speaker)
    ensures LogOf(after, revisions)
  {
    UneditedUpdateKeepsLog(turns, after, revisions);
  }

  lemma ImportedKeepsEvidence(db: Db, after: Db, m: MeetingId, out: OutputId, a: ArtifactTurn, id: TurnId)
    requires EvidenceLive(db) && CanonicalUnique(db) && Imported(db, after, m, out, a, id)
    ensures EvidenceLive(after) && CanonicalUnique(after)
  {
  }

  lemma ImportedKeepsInvariant(db: Db, after: Db, history: History, m: MeetingId, out: OutputId, a: ArtifactTurn, id: TurnId)
    requires Invariant(db, history)
    requires Imported(db, after, m, out, a, id) && LandsInMeeting(db, m, id)
    requires id.TurnOf? ==> id.meeting == m
    requires out in db.outputs && m in db.meetings
    ensures Invariant(after, history)
  {
    ImportedKeepsUnionFind(db, after, history, m, out, a, id);
    ImportedKeepsTurnsAttributed(db, after, history, m, out, a, id);
    ImportedKeepsWordsAttributed(db, after, m, out, a, id);
    LandingKeepsTurnsPlaced(db.turns, after.turns, id, m, out, Resolve(db.rules, RuleKey(m, a.cluster)),
                            db.meetings.Keys, db.outputs.Keys);
    ImportedKeepsEvidence(db, after, m, out, a, id);
    LandingKeepsLog(db.turns, after.turns, db.revisions, id, m, out, Resolve(db.rules, RuleKey(m, a.cluster)));
  }

  // ---------------------------------------------------------------------------------------
  // The whole artifact
  // ---------------------------------------------------------------------------------------

  lemma GoodLandingIsInMeeting(db: Db, m: MeetingId, out: OutputId, a: ArtifactTurn, claim: Option<TurnId>)
    requires TurnsInMeetings(db) && a.ArtifactTurn? && GoodClaim(db, m, out, a, claim)
    ensures LandsInMeeting(db, m, Landing(m, a, claim))
    ensures Landing(m, a, claim).TurnOf? ==> Landing(m, a, claim).meeting == m
  {
  }

  /** A human correction: the edited text and its revision, in a meeting. */
  datatype Correction = Correction(meeting: MeetingId, text: string, revision: nat)

  function EditsOf(turns: map<TurnId, Turn>): map<TurnId, Correction> {
    map id | id in turns && turns[id].editedText.Some?
      :: Correction(turns[id].meeting, turns[id].editedText.value, turns[id].revision)
  }

  lemma LandingKeepsEdits(turns: map<TurnId, Turn>, after: map<TurnId, Turn>, id: TurnId, m: MeetingId,
                          out: OutputId, speaker: SpeakerId)
    requires LandsOn(turns, after, id, m, out, speaker)
    ensures EditsOf(after) == EditsOf(turns)
  {
  }

  /** The edits, their log and the tables of meetings and outputs are as before. */
  ghost predicate SameEdits(db: Db, after: Db) {
    && EditsOf(after.turns) == EditsOf(db.turns)
    && after.revisions == db.revisions && after.outputs == db.outputs && after.meetings == db.meetings
  }

  /** One turn imported, with a claim the query may return. */
  ghost predicate ImportStep(before: Db, after: Db, m: MeetingId, out: OutputId, a: ArtifactTurn, claim: Option<TurnId>) {
    && a.ArtifactTurn?
    && GoodClaim(before, m, out, a, claim)
    && Imported(before, after, m, out, a, Landing(m, a, claim))
  }

  /** The states an import of `count` turns passes through. */
  ghost predicate ImportTrace(states: seq<Db>, m: MeetingId, out: OutputId, artifact: seq<ArtifactTurn>,
                              claims: seq<Option<TurnId>>, count: nat)
  {
    && count <= |artifact| == |claims|
    && |states| == count + 1
    && forall k :: 0 <= k < count ==> ImportStep(states[k], states[k + 1], m, out, artifact[k], claims[k])
  }

  lemma TraceShortens(states: seq<Db>, m: MeetingId, out: OutputId, artifact: seq<ArtifactTurn>,
                      claims: seq<Option<TurnId>>, count: nat)
    requires ImportTrace(states, m, out, artifact, claims, count) && count > 0
    ensures ImportTrace(states[..count], m, out, artifact, claims, count - 1)
    ensures ImportStep(states[count - 1], states[count], m, out, artifact[count - 1], claims[count - 1])
  {
    forall k | 0 <= k < count - 1
      ensures ImportStep(states[..count][k], states[..count][k + 1], m, out, artifact[k], claims[k])
    {
      assert ImportStep(states[k], states[k + 1], m, out, artifact[k], claims[k]);
    }
  }

  lemma ImportTurnSteps(db: Db, m: MeetingId, out: OutputId, matches: Matches, a: ArtifactTurn, claim: Option<TurnId>)
    requires GoodClaim(db, m, out, a, claim) && ImportTurn(db, m, out, matches, a, claim).Ok?
    ensures ImportStep(db, ImportTurn(db, m, out, matches, a, claim).value, m, out, a, claim)
  {
    ImportTurnEffect(db, m, out, matches, a, claim);
  }

  /** The states that the first `count` steps pass through. */
  ghost predicate StepTrace(step: Step, states: seq<Db>, count: nat) {
    |states| == count + 1 && forall k :: 0 <= k < count ==> step(states[k], k) == Ok(states[k + 1])
  }

  lemma {:induction false} StepsHaveTrace(step: Step, db: Db, count: nat) returns (states: seq<Db>)
    requires Steps(step, db, count).Ok?
    ensures StepTrace(step, states, count)
    ensures states[0] == db && states[count] == Steps(step, db, count).value
    ensures forall k :: 0 <= k <= count ==> Steps(step, db, k) == Ok(states[k])
  {
    if count == 0 {
      states := [db];
    } else {
      var shorter := StepsHaveTrace(step, db, count - 1);
      states := shorter + [Steps(step, db, count).value];
    }
  }

  lemma ImportHasTrace(db: Db, m: MeetingId, out: OutputId, matches: Matches,
                       artifact: seq<ArtifactTurn>, claims: seq<Option<TurnId>>, count: nat)
    returns (states: seq<Db>)
    requires count <= |artifact| == |claims|
    requires GoodClaims(db, m, out, matches, artifact, claims, count)
    requires ImportFirst(db, m, out, matches, artifact, claims, count).Ok?
    ensures ImportTrace(states, m, out, artifact, claims, count)
    ensures states[0] == db && states[count] == ImportFirst(db, m, out, matches, artifact, claims, count).value
  {
    var step := ImportStepAt(m, out, matches, artifact, claims);
    states := StepsHaveTrace(step, db, count);
    forall k | 0 <= k < count
      ensures ImportStep(states[k], states[k + 1], m, out, artifact[k], claims[k])
    {
      assert GoodClaimAt(db, m, out, matches, artifact, claims, k);
      assert step(states[k], k) == Ok(states[k + 1]);
      ImportTurnSteps(states[k], m, out, matches, artifact[k], claims[k]);
    }
  }

  /** One turn imported keeps the invariant and every edit. */
  lemma ImportStepKeeps(db: Db, after: Db, history: History, m: MeetingId, out: OutputId, a: ArtifactTurn,
                        claim: Option<TurnId>)
    requires Invariant(db, history) && out in db.outputs && m in db.meetings
    requires ImportStep(db, after, m, out, a, claim)
    ensures Invariant(after, history) && SameEdits(db, after)
  {
    GoodLandingIsInMeeting(db, m, out, a, claim);
    ImportedKeepsInvariant(db, after, history, m, out, a, Landing(m, a, claim));
    LandingKeepsEdits(db.turns, after.turns, Landing(m, a, claim), m, out, Resolve(db.rules, RuleKey(m, a.cluster)));
  }

  lemma SameEditsTwice(db: Db, between: Db, after: Db)
    requires SameEdits(db, between) && SameEdits(between, after)
    ensures SameEdits(db, after)
  {
  }

  lemma {:induction false} TraceKeeps(states: seq<Db>, history: History, m: MeetingId, out: OutputId,
                                      artifact: seq<ArtifactTurn>, claims: seq<Option<TurnId>>, count: nat)
    requires ImportTrace(states, m, out, artifact, claims, count)
    requires Invariant(states[0], history) && out in states[0].outputs && m in states[0].meetings
    ensures Invariant(states[count], history) && SameEdits(states[0], states[count])
  {
    if count > 0 {
      TraceShortens(states, m, out, artifact, claims, count);
      assert states[..count][0] == states[0] && states[..count][count - 1] == states[count - 1];
      TraceKeeps(states[..count], history, m, out, artifact, claims, count - 1);
      ImportStepKeeps(states[count - 1], states[count], history, m, out, artifact[count - 1], claims[count - 1]);
      SameEditsTwice(states[0], states[count - 1], states[count]);
    }
  }

  lemma ImportFirstKeepsInvariant(db: Db, history: History, m: MeetingId, out: OutputId, matches: Matches,
                                  artifact: seq<ArtifactTurn>, claims: seq<Option<TurnId>>, count: nat)
    requires count <= |artifact| == |claims|
    requires Invariant(db, history) && out in db.outputs && m in db.meetings
    requires GoodClaims(db, m, out, matches, artifact, claims, count)
    requires ImportFirst(db, m, out, matches, artifact, claims, count).Ok?
    ensures Invariant(ImportFirst(db, m, out, matches, artifact, claims, count).value, history)
    ensures SameEdits(db, ImportFirst(db, m, out, matches, artifact, claims, count).value)
  {
    var states := ImportHasTrace(db, m, out, matches, artifact, claims, count);
    TraceKeeps(states, history, m, out, artifact, claims, count);
  }

  // ---------------------------------------------------------------------------------------
  // Landings are injective
  // ---------------------------------------------------------------------------------------

  /** Worker identifiers are job-scoped: distinct within an artifact and not seen before. */
  ghost predicate FreshWorkerIds(db: Db, m: MeetingId, artifact: seq<ArtifactTurn>) {
    && (forall k :: 0 <= k < |artifact| && artifact[k].ArtifactTurn? ==> TurnOf(m, artifact[k].id) !in db.turns)
    && (forall j, k :: 0 <= j < k < |artifact| && artifact[j].ArtifactTurn? && artifact[k].ArtifactTurn? ==>
          artifact[j].id != artifact[k].id)
  }

  ghost predicate FreshOutput(db: Db, out: OutputId) {
    forall id :: id in db.turns ==> db.turns[id].output != Some(out)
  }

  ghost predicate AllWellFormed(artifact: seq<ArtifactTurn>, count: nat)
    requires count <= |artifact|
  {
    forall k :: 0 <= k < count ==> artifact[k].ArtifactTurn?
  }

  function LandingAt(m: MeetingId, artifact: seq<ArtifactTurn>, claims: seq<Option<TurnId>>, k: nat): TurnId
    requires k < |artifact| == |claims|
  {
    if artifact[k].ArtifactTurn? then Landing(m, artifact[k], claims[k]) else TurnOf(m, "")
  }

  /** A row landed on carries the new output, and is either an old row or the turn's own. */
  ghost predicate LandedAt(db: Db, after: Db, m: MeetingId, out: OutputId, a: ArtifactTurn, id: TurnId) {
    && id in after.turns && after.turns[id].output == Some(out)
    && a.ArtifactTurn?
    && (id in db.turns || id == TurnOf(m, a.id))
  }

  /** Rows landed on are distinct, and no row without the new output is new. */
  ghost predicate LandedApart(db: Db, after: Db, m: MeetingId, out: OutputId, artifact: seq<ArtifactTurn>,
                              claims: seq<Option<TurnId>>, count: nat)
    requires count <= |artifact| == |claims|
  {
    && (forall k :: 0 <= k < count ==>
          LandedAt(db, after, m, out, artifact[k], LandingAt(m, artifact, claims, k)))
    && (forall j, k :: 0 <= j < k < count ==>
          LandingAt(m, artifact, claims, j) != LandingAt(m, artifact, claims, k))
    && (forall id :: id in after.turns && after.turns[id].output != Some(out) ==> id in db.turns)
  }

  lemma NewLandingIsApart(db: Db, before: Db, m: MeetingId, out: OutputId, artifact: seq<ArtifactTurn>,
                          claims: seq<Option<TurnId>>, j: nat, k: nat)
    requires j < k < |artifact| == |claims|
    requires FreshWorkerIds(db, m, artifact)
    requires LandedAt(db, before, m, out, artifact[j], LandingAt(m, artifact, claims, j))
    requires artifact[k].ArtifactTurn? && GoodClaim(before, m, out, artifact[k], claims[k])
    ensures LandingAt(m, artifact, claims, j) != LandingAt(m, artifact, claims, k)
  {
    if claims[k].Some? {
      assert before.turns[claims[k].value].output != Some(out);
    }
  }

  lemma LandedStays(db: Db, before: Db, after: Db, m: MeetingId, out: OutputId, a: ArtifactTurn, id: TurnId,
                    b: ArtifactTurn, landing: TurnId)
    requires LandedAt(db, before, m, out, a, id)
    requires Imported(before, after, m, out, b, landing)
    ensures LandedAt(db, after, m, out, a, id)
  {
  }

  /** What landed earlier stays landed, apart from the new landing. */
  lemma EarlierLandingsStay(db: Db, before: Db, after: Db, m: MeetingId, out: OutputId, artifact: seq<ArtifactTurn>,
                            claims: seq<Option<TurnId>>, k: nat, j: nat)
    requires j < k < |artifact| == |claims|
    requires FreshWorkerIds(db, m, artifact)
    requires LandedAt(db, before, m, out, artifact[j], LandingAt(m, artifact, claims, j))
    requires artifact[k].ArtifactTurn? && GoodClaim(before, m, out, artifact[k], claims[k])
    requires Imported(before, after, m, out, artifact[k], Landing(m, artifact[k], claims[k]))
    ensures LandingAt(m, artifact, claims, j) != Landing(m, artifact[k], claims[k])
    ensures LandedAt(db, after, m, out, artifact[j], LandingAt(m, artifact, claims, j))
  {
    NewLandingIsApart(db, before, m, out, artifact, claims, j, k);
    LandedStays(db, before, after, m, out, artifact[j], LandingAt(m, artifact, claims, j), artifact[k],
                Landing(m, artifact[k], claims[k]));
  }

  lemma LandOneMore(db: Db, before: Db, after: Db, m: MeetingId, out: OutputId, artifact: seq<ArtifactTurn>,
                    claims: seq<Option<TurnId>>, k: nat)
    requires k < |artifact| == |claims|
    requires FreshWorkerIds(db, m, artifact)
    requires LandedApart(db, before, m, out, artifact, claims, k)
    requires artifact[k].ArtifactTurn? && GoodClaim(before, m, out, artifact[k], claims[k])
    requires Imported(before, after, m, out, artifact[k], Landing(m, artifact[k], claims[k]))
    ensures LandedApart(db, after, m, out, artifact, claims, k + 1)
  {
    var id := Landing(m, artifact[k], claims[k]);
    forall j | 0 <= j < k
      ensures LandingAt(m, artifact, claims, j) != id
      ensures LandedAt(db, after, m, out, artifact[j], LandingAt(m, artifact, claims, j))
    {
      EarlierLandingsStay(db, before, after, m, out, artifact, claims, k, j);
    }
    assert claims[k].Some? ==> before.turns[id].output != Some(out);
    assert LandedAt(db, after, m, out, artifact[k], id);
  }

  lemma {:induction false} TraceLandsApart(states: seq<Db>, m: MeetingId, out: OutputId, artifact: seq<ArtifactTurn>,
                                           claims: seq<Option<TurnId>>, count: nat)
    requires ImportTrace(states, m, out, artifact, claims, count)
    requires FreshWorkerIds(states[0], m, artifact) && FreshOutput(states[0], out)
    ensures LandedApart(states[0], states[count], m, out, artifact, claims, count)
  {
    if count > 0 {
      TraceLandsApart(states[..count], m, out, artifact, claims, count - 1);
      assert ImportStep(states[count - 1], states[count], m, out, artifact[count - 1], claims[count - 1]);
      LandOneMore(states[0], states[count - 1], states[count], m, out, artifact, claims, count - 1);
    }
  }

  /** No two turns of an artifact land on the same row, so no two take over the same edit. */
  lemma LandingsAreDistinct(db: Db, m: MeetingId, out: OutputId, matches: Matches,
                            artifact: seq<ArtifactTurn>, claims: seq<Option<TurnId>>, count: nat)
    requires count <= |artifact| == |claims|
    requires FreshWorkerIds(db, m, artifact) && FreshOutput(db, out)
    requires GoodClaims(db, m, out, matches, artifact, claims, count)
    requires ImportFirst(db, m, out, matches, artifact, claims, count).Ok?
    ensures LandedApart(db, ImportFirst(db, m, out, matches, artifact, claims, count).value,
                        m, out, artifact, claims, count)
  {
    var states := ImportHasTrace(db, m, out, matches, artifact, claims, count);
    TraceLandsApart(states, m, out, artifact, claims, count);
  }

  // ---------------------------------------------------------------------------------------
  // The commit transaction
  // ---------------------------------------------------------------------------------------

  lemma PromoteKeepsOutputs(db: Db, m: MeetingId, out: OutputId)
    requires TurnsInMeetings(db) && CanonicalUnique(db) && out !in db.outputs && m in db.meetings
    ensures TurnsInMeetings(Promote(db, m, out)) && CanonicalUnique(Promote(db, m, out))
    ensures Promote(db, m, out) == db.(outputs := Promote(db, m, out).outputs)
  {
  }

  lemma PromoteKeepsInvariant(db: Db, history: History, m: MeetingId, out: OutputId)
    requires Invariant(db, history) && out !in db.outputs && m in db.meetings
    ensures Invariant(Promote(db, m, out), history)
  {
    PromoteKeepsOutputs(db, m, out);
  }

  lemma PersistKeepsCandidates(db: Db, m: MeetingId, offer: Offer)
    requires CandidatesLive(db.candidates, db.speakers)
    ensures CandidatesLive(PersistCandidate(db, m, offer).candidates, db.speakers)
    ensures PersistCandidate(db, m, offer) == db.(candidates := PersistCandidate(db, m, offer).candidates)
  {
  }

  lemma PersistKeepsInvariant(db: Db, history: History, m: MeetingId, offer: Offer)
    requires Invariant(db, history)
    ensures Invariant(PersistCandidate(db, m, offer), history)
    ensures PersistCandidate(db, m, offer) == db.(candidates := PersistCandidate(db, m, offer).candidates)
  {
    PersistKeepsCandidates(db, m, offer);
    LabelsAreApart(db, history, PersistCandidate(db, m, offer));
  }

  lemma {:induction false} PersistFirstTouchesCandidates(db: Db, m: MeetingId, offers: seq<Offer>, count: nat)
    requires count <= |offers|
    ensures PersistFirst(db, m, offers, count) == db.(candidates := PersistFirst(db, m, offers, count).candidates)
  {
    if count > 0 {
      PersistFirstTouchesCandidates(db, m, offers, count - 1);
    }
  }

  lemma {:induction false} PersistFirstKeepsInvariant(db: Db, history: History, m: MeetingId, offers: seq<Offer>, count: nat)
    requires Invariant(db, history) && count <= |offers|
    ensures Invariant(PersistFirst(db, m, offers, count), history)
    ensures PersistFirst(db, m, offers, count) == db.(candidates := PersistFirst(db, m, offers, count).candidates)
  {
    if count > 0 {
      PersistFirstKeepsInvariant(db, history, m, offers, count - 1);
      PersistKeepsInvariant(PersistFirst(db, m, offers, count - 1), history, m, offers[count - 1]);
    }
  }

  lemma DeleteTurnsKeepsAttributions(db: Db, ids: set<TurnId>)
    requires AttributionsLive(db) && TurnsInMeetings(db)
    ensures AttributionsLive(DeleteTurns(db, ids)) && TurnsInMeetings(DeleteTurns(db, ids))
  {
  }

  lemma DeleteTurnsKeepsInvariant(db: Db, history: History, ids: set<TurnId>)
    requires Invariant(db, history)
    ensures Invariant(DeleteTurns(db, ids), history)
  {
    DeletedTurnsKeepLog(db, ids);
    DeleteTurnsKeepsIndex(db, ids);
    DeleteTurnsKeepsAttributions(db, ids);
  }

  lemma FlaggingKeepsRows(db: Db, m: MeetingId, out: OutputId)
    requires AttributionsLive(db) && TurnsInMeetings(db)
    ensures var after := db.(turns := Flagged(db.turns, m, out)); AttributionsLive(after) && TurnsInMeetings(after)
    ensures SameShownText(db.turns, Flagged(db.turns, m, out))
  {
  }

  lemma FlaggingKeepsLog(db: Db, m: MeetingId, out: OutputId)
    requires EditLog(db)
    ensures EditLog(db.(turns := Flagged(db.turns, m, out)))
  {
    UneditedUpdateKeepsLog(db.turns, Flagged(db.turns, m, out), db.revisions);
  }

  lemma FlaggingKeepsInvariant(db: Db, history: History, m: MeetingId, out: OutputId)
    requires Invariant(db, history)
    ensures Invariant(db.(turns := Flagged(db.turns, m, out)), history)
  {
    var after := db.(turns := Flagged(db.turns, m, out));
    FlaggingKeepsRows(db, m, out);
    FlaggingKeepsLog(db, m, out);
    QuietUpdateKeepsIndex(db, after);
  }

  lemma SweepKeepsInvariant(db: Db, history: History, m: MeetingId, out: OutputId)
    requires Invariant(db, history)
    ensures Invariant(Sweep(db, m, out), history)
  {
    var kept := DeleteTurns(db, Unedited(db, m, out));
    DeleteTurnsKeepsInvariant(db, history, Unedited(db, m, out));
    FlaggingKeepsInvariant(kept, history, m, out);
  }

  lemma SweepKeepsEdits(db: Db, m: MeetingId, out: OutputId)
    ensures var after := Sweep(db, m, out);
            && EditsOf(after.turns) == EditsOf(db.turns)
            && after.outputs == db.outputs
            && (forall id :: id in db.turns && db.turns[id].editedText.Some? ==>
                  id in after.turns
                  && after.turns[id] == if Superseded(db.turns[id], m, out) then db.turns[id].(needsReview := true)
                                        else db.turns[id])
            && (forall id :: id in after.turns && Superseded(after.turns[id], m, out) ==>
                  after.turns[id].editedText.Some? && after.turns[id].needsReview)
            && (forall key :: key in db.revisions && key.turn in EditsOf(db.turns) ==>
                  key in after.revisions && after.revisions[key] == db.revisions[key])
  {
  }

  ghost predicate CommitSucceeds(db: Db, m: MeetingId, out: OutputId, matches: Matches, artifact: seq<ArtifactTurn>,
                                 claims: seq<Option<TurnId>>, offers: seq<Offer>)
  {
    && |artifact| == |claims|
    && GoodClaims(Promote(db, m, out), m, out, matches, artifact, claims, |artifact|)
    && Commit(db, m, out, matches, artifact, claims, offers).Ok?
  }

  lemma CommitKeepsInvariant(db: Db, history: History, m: MeetingId, out: OutputId, matches: Matches,
                             artifact: seq<ArtifactTurn>, claims: seq<Option<TurnId>>, offers: seq<Offer>)
    requires Invariant(db, history)
    requires CommitSucceeds(db, m, out, matches, artifact, claims, offers)
    ensures Invariant(Commit(db, m, out, matches, artifact, claims, offers).value, history)
  {
    var promoted := Promote(db, m, out);
    PromoteKeepsInvariant(db, history, m, out);
    ImportFirstKeepsInvariant(promoted, history, m, out, matches, artifact, claims, |artifact|);
    var imported := ImportFirst(promoted, m, out, matches, artifact, claims, |artifact|).value;
    PersistFirstKeepsInvariant(imported, history, m, offers, |offers|);
    SweepKeepsInvariant(PersistFirst(imported, m, offers, |offers|), history, m, out);
  }

  /** No edit is lost, changed or invented by reprocessing, and its revision rows stay. */
  lemma CommitConservesEdits(db: Db, history: History, m: MeetingId, out: OutputId, matches: Matches,
                             artifact: seq<ArtifactTurn>, claims: seq<Option<TurnId>>, offers: seq<Offer>)
    requires Invariant(db, history)
    requires CommitSucceeds(db, m, out, matches, artifact, claims, offers)
    ensures var after := Commit(db, m, out, matches, artifact, claims, offers).value;
            && EditsOf(after.turns) == EditsOf(db.turns)
            && (forall key :: key in db.revisions && key.turn in EditsOf(db.turns) ==>
                  key in after.revisions && after.revisions[key] == db.revisions[key])
  {
    var promoted := Promote(db, m, out);
    PromoteKeepsInvariant(db, history, m, out);
    ImportFirstKeepsInvariant(promoted, history, m, out, matches, artifact, claims, |artifact|);
    var imported := ImportFirst(promoted, m, out, matches, artifact, claims, |artifact|).value;
    PersistFirstKeepsInvariant(imported, history, m, offers, |offers|);
    SweepKeepsEdits(PersistFirst(imported, m, offers, |offers|), m, out);
  }

  ghost predicate LandedOn(m: MeetingId, artifact: seq<ArtifactTurn>, claims: seq<Option<TurnId>>, count: nat, id: TurnId)
    requires count <= |artifact| == |claims|
  {
    exists k :: 0 <= k < count && LandingAt(m, artifact, claims, k) == id
  }

  lemma {:induction false} TraceLeavesUnclaimed(states: seq<Db>, m: MeetingId, out: OutputId, artifact: seq<ArtifactTurn>,
                                                claims: seq<Option<TurnId>>, count: nat, id: TurnId)
    requires ImportTrace(states, m, out, artifact, claims, count)
    requires id in states[0].turns && !LandedOn(m, artifact, claims, count, id)
    ensures id in states[count].turns && states[count].turns[id] == states[0].turns[id]
  {
    if count > 0 {
      assert LandingAt(m, artifact, claims, count - 1) != id;
      assert !LandedOn(m, artifact, claims, count - 1, id);
      TraceLeavesUnclaimed(states[..count], m, out, artifact, claims, count - 1, id);
      assert ImportStep(states[count - 1], states[count], m, out, artifact[count - 1], claims[count - 1]);
    }
  }

  /** Rows before the sweep: an unclaimed edited turn stands as it was. */
  lemma UnclaimedEditsStand(db: Db, m: MeetingId, out: OutputId, matches: Matches, artifact: seq<ArtifactTurn>,
                            claims: seq<Option<TurnId>>, offers: seq<Offer>, id: TurnId)
    requires CommitSucceeds(db, m, out, matches, artifact, claims, offers)
    requires id in db.turns && !LandedOn(m, artifact, claims, |artifact|, id)
    ensures var imported := ImportFirst(Promote(db, m, out), m, out, matches, artifact, claims, |artifact|);
            && imported.Ok?
            && id in imported.value.turns && imported.value.turns[id] == db.turns[id]
  {
    var states := ImportHasTrace(Promote(db, m, out), m, out, matches, artifact, claims, |artifact|);
    TraceLeavesUnclaimed(states, m, out, artifact, claims, |artifact|, id);
  }

  /**
   A corrected turn that no artifact turn took over keeps its row; if it belongs to another output
   of the meeting it is flagged for review, and only such turns of other outputs remain.
   */
  lemma CommitFlagsUnclaimedEdits(db: Db, m: MeetingId, out: OutputId, matches: Matches,
                                  artifact: seq<ArtifactTurn>, claims: seq<Option<TurnId>>, offers: seq<Offer>,
                                  id: TurnId)
    requires CommitSucceeds(db, m, out, matches, artifact, claims, offers)
    requires id in db.turns && db.turns[id].editedText.Some?
    requires !LandedOn(m, artifact, claims, |artifact|, id)
    ensures var after := Commit(db, m, out, matches, artifact, claims, offers).value;
            && id in after.turns
            && after.turns[id] == (if Superseded(db.turns[id], m, out) then db.turns[id].(needsReview := true)
                                   else db.turns[id])
            && (forall other :: other in after.turns && Superseded(after.turns[other], m, out) ==>
                  after.turns[other].editedText.Some? && after.turns[other].needsReview)
  {
    UnclaimedEditsStand(db, m, out, matches, artifact, claims, offers, id);
    var imported := ImportFirst(Promote(db, m, out), m, out, matches, artifact, claims, |artifact|).value;
    PersistFirstTouchesCandidates(imported, m, offers, |offers|);
    SweepKeepsEdits(PersistFirst(imported, m, offers, |offers|), m, out);
  }

  /** With fresh worker identifiers the turns of an artifact land on rows of their own. */
  lemma CommitLandsInjectively(db: Db, history: History, m: MeetingId, out: OutputId, matches: Matches,
                               artifact: seq<ArtifactTurn>, claims: seq<Option<TurnId>>, offers: seq<Offer>)
    requires Invariant(db, history)
    requires CommitSucceeds(db, m, out, matches, artifact, claims, offers)
    requires FreshWorkerIds(db, m, artifact)
    ensures AllWellFormed(artifact, |artifact|)
    ensures forall j, k :: 0 <= j < k < |artifact| ==>
              LandingAt(m, artifact, claims, j) != LandingAt(m, artifact, claims, k)
  {
    assert FreshOutput(Promote(db, m, out), out);
    LandingsAreDistinct(Promote(db, m, out), m, out, matches, artifact, claims, |artifact|);
  }

  /** A committed meeting has exactly one canonical output: the new one. */
  lemma CommitLeavesOneCanonical(db: Db, history: History, m: MeetingId, out: OutputId, matches: Matches,
                                 artifact: seq<ArtifactTurn>, claims: seq<Option<TurnId>>, offers: seq<Offer>)
    requires Invariant(db, history)
    requires CommitSucceeds(db, m, out, matches, artifact, claims, offers)
    ensures var after := Commit(db, m, out, matches, artifact, claims, offers).value;
            forall id :: id in after.outputs && after.outputs[id].meeting == m ==>
              (after.outputs[id].canonical <==> id == out)
    ensures Commit(db, m, out, matches, artifact, claims, offers).value.outputs == Promote(db, m, out).outputs
  {
    var promoted := Promote(db, m, out);
    PromoteKeepsInvariant(db, history, m, out);
    ImportFirstKeepsInvariant(promoted, history, m, out, matches, artifact, claims, |artifact|);
    var imported := ImportFirst(promoted, m, out, matches, artifact, claims, |artifact|).value;
    PersistFirstKeepsInvariant(imported, history, m, offers, |offers|);
    SweepKeepsEdits(PersistFirst(imported, m, offers, |offers|), m, out);
  }
}
