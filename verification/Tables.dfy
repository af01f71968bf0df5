/**
 The library database of src-tauri/src/db.rs: its rows, the cascades of its foreign keys,
 and the three triggers that maintain the full-text index.

 A table is a map from its key. Identifiers that the host derives with UUIDv5 are injective
 constructors over the text they hash, so equal identifiers mean equal origins.
 */
module Tables {
  import opened Wrappers

  type MeetingId = string
  type ClusterLabel = string
  type ProfileId = string
  type OutputId = string
  type SampleId = string
  type Embedding = seq<int>

  datatype SpeakerId =
    | SpeakerOf(meeting: MeetingId, cluster: ClusterLabel)
    | ForeignSpeaker(key: string)

  datatype TurnId =
    | TurnOf(meeting: MeetingId, workerTurn: string)
    | ForeignTurn(key: string)

  datatype WordId = WordOf(meeting: MeetingId, key: string)

  datatype MatchState = Matched | Review | Unknown

  datatype Source =
    | FromNothing | FromVoice | FromIsolatedSource | FromVisual
    | FromUser | VoiceConfirmed | VisualConfirmed

  datatype Confidence = High | ForReview | Confirmed

  datatype Speaker = Speaker(
    meeting: MeetingId,
    cluster: ClusterLabel,
    name: string,
    profile: Option<ProfileId>,
    state: MatchState,
    needsReview: bool,
    source: Source,
    confidence: Option<Confidence>)

  datatype RuleKey = RuleKey(meeting: MeetingId, cluster: ClusterLabel)

  datatype Output = Output(meeting: MeetingId, canonical: bool)

  datatype Turn = Turn(
    meeting: MeetingId,
    output: Option<OutputId>,
    speaker: Option<SpeakerId>,
    startMs: int,
    endMs: int,
    modelText: string,
    editedText: Option<string>,
    revision: nat,
    needsReview: bool)

  datatype RevisionKey = RevisionKey(turn: TurnId, number: nat)
  datatype Revision = Revision(prior: Option<string>, next: Option<string>)

  datatype Word = Word(
    turn: TurnId,
    speaker: Option<SpeakerId>,
    sequence: nat,
    startMs: int,
    endMs: int,
    text: string)

  datatype IndexRow = IndexRow(turn: TurnId, meeting: MeetingId, content: string)

  datatype CandidateKey = CandidateKey(meeting: MeetingId, speaker: SpeakerId)
  datatype Candidate = Candidate(cluster: ClusterLabel, cleanMs: int, embedding: Embedding)

  datatype Sample = Sample(
    profile: ProfileId,
    meeting: MeetingId,
    speaker: SpeakerId,
    cleanMs: int,
    embedding: Embedding)

  datatype Db = Db(
    meetings: map<MeetingId, bool>,
    profiles: map<ProfileId, string>,
    speakers: map<SpeakerId, Speaker>,
    rules: map<RuleKey, SpeakerId>,
    outputs: map<OutputId, Output>,
    turns: map<TurnId, Turn>,
    revisions: map<RevisionKey, Revision>,
    words: map<WordId, Word>,
    index: map<nat, IndexRow>,
    nextIndexRow: nat,
    candidates: map<CandidateKey, Candidate>,
    samples: map<SampleId, Sample>)

  const EMPTY_DB := Db(map[], map[], map[], map[], map[], map[], map[], map[], map[], 0, map[], map[])

  /** Why an operation rejects; its transaction then rolls back. */
  datatype Rejection =
    | NotFound
    | Conflict
    | InvalidInput
    | WorkerFault
    | ConstraintViolation

  // ---------------------------------------------------------------------------------------
  // Statements that fire triggers or cascades
  // ---------------------------------------------------------------------------------------

  /** What search indexes for a turn: the edited text, else the model text. */
  function Shown(turn: Turn): string {
    turn.editedText.GetOr(turn.modelText)
  }

  function RowFor(id: TurnId, turn: Turn): IndexRow {
    IndexRow(id, turn.meeting, Shown(turn))
  }

  /** INSERT INTO transcript_turns, with its insert trigger. */
  function InsertTurn(db: Db, id: TurnId, turn: Turn): Db {
    db.(turns := db.turns[id := turn],
        index := db.index[db.nextIndexRow := RowFor(id, turn)],
        nextIndexRow := db.nextIndexRow + 1)
  }

  /** The index rows of the other turns. */
  function RowsBut(index: map<nat, IndexRow>, id: TurnId): map<nat, IndexRow> {
    map row | row in index && index[row].turn != id :: index[row]
  }

  /** UPDATE transcript_turns naming a text column, with its update trigger. */
  function RewriteTurn(db: Db, id: TurnId, turn: Turn): Db {
    db.(turns := db.turns[id := turn],
        index := RowsBut(db.index, id)[db.nextIndexRow := RowFor(id, turn)],
        nextIndexRow := db.nextIndexRow + 1)
  }

  /** DELETE FROM transcript_turns, with its delete trigger and the cascades to children. */
  function DeleteTurns(db: Db, ids: set<TurnId>): Db {
    db.(turns := map id | id in db.turns && id !in ids :: db.turns[id],
        revisions := map key | key in db.revisions && key.turn !in ids :: db.revisions[key],
        words := map word | word in db.words && db.words[word].turn !in ids :: db.words[word],
        index := map row | row in db.index && db.index[row].turn !in ids :: db.index[row])
  }

  function WithoutSpeaker(speaker: Option<SpeakerId>, gone: SpeakerId): Option<SpeakerId> {
    if speaker == Some(gone) then None else speaker
  }

  /** DELETE FROM meeting_speakers: rules, candidates and samples go; turns and words lose it. */
  function DeleteSpeaker(db: Db, gone: SpeakerId): Db {
    db.(speakers := map id | id in db.speakers && id != gone :: db.speakers[id],
        rules := map key | key in db.rules && db.rules[key] != gone :: db.rules[key],
        turns := map id | id in db.turns ::
          db.turns[id].(speaker := WithoutSpeaker(db.turns[id].speaker, gone)),
        words := map id | id in db.words ::
          db.words[id].(speaker := WithoutSpeaker(db.words[id].speaker, gone)),
        candidates := map key | key in db.candidates && key.speaker != gone :: db.candidates[key],
        samples := map id | id in db.samples && db.samples[id].speaker != gone :: db.samples[id])
  }

  function WithoutSpeakersOf(db: Db, speaker: Option<SpeakerId>, gone: MeetingId): Option<SpeakerId> {
    if speaker.Some? && speaker.value in db.speakers && db.speakers[speaker.value].meeting == gone then None
    else speaker
  }

  predicate OwnedBy(db: Db, speaker: SpeakerId, gone: MeetingId) {
    speaker in db.speakers && db.speakers[speaker].meeting == gone
  }

  /** DELETE FROM meetings: every child of the meeting goes, and the children of those. */
  function DeleteMeetingRows(db: Db, gone: MeetingId): Db {
    var rest := DeleteTurns(db, set id | id in db.turns && db.turns[id].meeting == gone);
    rest.(meetings := map id | id in db.meetings && id != gone :: db.meetings[id],
          speakers := map id | id in db.speakers && db.speakers[id].meeting != gone :: db.speakers[id],
          rules := map key | key in db.rules && key.meeting != gone && !OwnedBy(db, db.rules[key], gone)
                     :: db.rules[key],
          outputs := map id | id in db.outputs && db.outputs[id].meeting != gone :: db.outputs[id],
          turns := map id | id in rest.turns ::
            rest.turns[id].(output := WithoutOutputsOf(db, rest.turns[id].output, gone),
                            speaker := WithoutSpeakersOf(db, rest.turns[id].speaker, gone)),
          words := map id | id in rest.words ::
            rest.words[id].(speaker := WithoutSpeakersOf(db, rest.words[id].speaker, gone)),
          candidates := map key | key in db.candidates && key.meeting != gone && !OwnedBy(db, key.speaker, gone)
                          :: db.candidates[key],
          samples := map id | id in db.samples && db.samples[id].meeting != gone
                              && !OwnedBy(db, db.samples[id].speaker, gone)
                       :: db.samples[id])
  }

  function WithoutOutputsOf(db: Db, output: Option<OutputId>, gone: MeetingId): Option<OutputId> {
    if output.Some? && output.value in db.outputs && db.outputs[output.value].meeting == gone then None
    else output
  }

  // ---------------------------------------------------------------------------------------
  // The search index agrees with the turns
  // ---------------------------------------------------------------------------------------

  ghost predicate Indexed(index: map<nat, IndexRow>, id: TurnId) {
    exists row :: row in index && index[row].turn == id
  }

  /** Exactly one index row for each turn, carrying that turn's meeting and shown text. */
  ghost predicate IndexOf(index: map<nat, IndexRow>, nextIndexRow: nat, turns: map<TurnId, Turn>) {
    && (forall row :: row in index ==> row < nextIndexRow)
    && (forall row :: row in index ==>
          index[row].turn in turns && index[row] == RowFor(index[row].turn, turns[index[row].turn]))
    && (forall row, other | row in index && other in index :: index[row].turn == index[other].turn ==> row == other)
    && (forall id :: id in turns ==> Indexed(index, id))
  }

  ghost predicate IndexAgrees(db: Db) {
    IndexOf(db.index, db.nextIndexRow, db.turns)
  }

  /** Without the rows of a turn, the index agrees with the other turns. */
  lemma RowsButAgree(index: map<nat, IndexRow>, next: nat, turns: map<TurnId, Turn>, id: TurnId)
    requires IndexOf(index, next, turns)
    ensures IndexOf(RowsBut(index, id), next, turns - {id})
  {
    forall other | other in turns - {id} ensures Indexed(RowsBut(index, id), other) {
      var row :| row in index && index[row].turn == other;
      assert RowsBut(index, id)[row].turn == other;
    }
  }

  /** A row for a turn that has none makes the index agree with that turn too. */
  lemma NewRowAgrees(index: map<nat, IndexRow>, next: nat, turns: map<TurnId, Turn>, id: TurnId, turn: Turn)
    requires IndexOf(index, next, turns) && id !in turns
    ensures IndexOf(index[next := RowFor(id, turn)], next + 1, turns[id := turn])
  {
    var after := index[next := RowFor(id, turn)];
    forall other | other in turns[id := turn] ensures Indexed(after, other) {
      if other == id {
        assert after[next].turn == id;
      } else {
        var row :| row in index && index[row].turn == other;
        assert after[row].turn == other;
      }
    }
  }

  lemma InsertTurnKeepsIndex(db: Db, id: TurnId, turn: Turn)
    requires IndexAgrees(db) && id !in db.turns
    ensures IndexAgrees(InsertTurn(db, id, turn))
  {
    NewRowAgrees(db.index, db.nextIndexRow, db.turns, id, turn);
  }

  lemma RewriteTurnKeepsIndex(db: Db, id: TurnId, turn: Turn)
    requires IndexAgrees(db) && id in db.turns
    ensures IndexAgrees(RewriteTurn(db, id, turn))
  {
    RowsButAgree(db.index, db.nextIndexRow, db.turns, id);
    NewRowAgrees(RowsBut(db.index, id), db.nextIndexRow, db.turns - {id}, id, turn);
    assert (db.turns - {id})[id := turn] == db.turns[id := turn];
  }

  lemma DeleteTurnsKeepsIndex(db: Db, ids: set<TurnId>)
    requires IndexAgrees(db)
    ensures IndexAgrees(DeleteTurns(db, ids))
  {
    var after := DeleteTurns(db, ids);
    forall other | other in after.turns ensures Indexed(after.index, other) {
      var row :| row in db.index && db.index[row].turn == other;
      assert after.index[row].turn == other;
    }
  }

  /** Updates that name neither text column fire no trigger, and need none. */
  ghost predicate SameShownText(before: map<TurnId, Turn>, after: map<TurnId, Turn>) {
    && before.Keys == after.Keys
    && (forall id :: id in before ==> RowFor(id, before[id]) == RowFor(id, after[id]))
  }

  lemma QuietUpdateKeepsIndex(db: Db, after: Db)
    requires IndexAgrees(db)
    requires after.index == db.index && after.nextIndexRow == db.nextIndexRow
    requires SameShownText(db.turns, after.turns)
    ensures IndexAgrees(after)
  {
    assert forall id :: id in after.turns ==> id in db.turns;
  }

  lemma DeleteMeetingKeepsIndex(db: Db, gone: MeetingId)
    requires IndexAgrees(db)
    ensures IndexAgrees(DeleteMeetingRows(db, gone))
  {
    var lost := set id | id in db.turns && db.turns[id].meeting == gone;
    DeleteTurnsKeepsIndex(db, lost);
    QuietUpdateKeepsIndex(DeleteTurns(db, lost), DeleteMeetingRows(db, gone));
  }

  // ---------------------------------------------------------------------------------------
  // What a deleted meeting takes with it
  // ---------------------------------------------------------------------------------------

  ghost predicate OfMeeting(db: Db, turn: TurnId, m: MeetingId) {
    turn in db.turns && db.turns[turn].meeting == m
  }

  /** A reference to a speaker is lost if the speaker was of the meeting, and only then. */
  ghost predicate SpeakerLost(db: Db, before: Option<SpeakerId>, after: Option<SpeakerId>, gone: MeetingId) {
    if before.Some? && before.value in db.speakers && db.speakers[before.value].meeting == gone then after.None?
    else after == before
  }

  ghost predicate OutputLost(db: Db, before: Option<OutputId>, after: Option<OutputId>, gone: MeetingId) {
    if before.Some? && before.value in db.outputs && db.outputs[before.value].meeting == gone then after.None?
    else after == before
  }

  /** Turns and words of other meetings stay; they lose at most references to what goes. */
  lemma DeletingAMeetingKeepsOtherTranscripts(db: Db, gone: MeetingId, id: TurnId, word: WordId, key: RevisionKey)
    ensures var after := DeleteMeetingRows(db, gone);
            && (id in after.turns <==> id in db.turns && db.turns[id].meeting != gone)
            && (id in after.turns ==>
                  && after.turns[id] == db.turns[id].(output := after.turns[id].output, speaker := after.turns[id].speaker)
                  && OutputLost(db, db.turns[id].output, after.turns[id].output, gone)
                  && SpeakerLost(db, db.turns[id].speaker, after.turns[id].speaker, gone))
            && (word in after.words <==> word in db.words && !OfMeeting(db, db.words[word].turn, gone))
            && (word in after.words ==>
                  && after.words[word] == db.words[word].(speaker := after.words[word].speaker)
                  && SpeakerLost(db, db.words[word].speaker, after.words[word].speaker, gone))
            && (key in after.revisions <==> key in db.revisions && !OfMeeting(db, key.turn, gone))
            && (key in after.revisions ==> after.revisions[key] == db.revisions[key])
  {
  }

  /** Speakers, rules and outputs go with their meeting, or with a speaker of it; the others stay, and every profile does. */
  lemma DeletingAMeetingKeepsOtherSpeakers(db: Db, gone: MeetingId, speaker: SpeakerId, rule: RuleKey, output: OutputId)
    ensures var after := DeleteMeetingRows(db, gone);
            && after.meetings == db.meetings - {gone} && after.profiles == db.profiles
            && (speaker in after.speakers <==> speaker in db.speakers && db.speakers[speaker].meeting != gone)
            && (speaker in after.speakers ==> after.speakers[speaker] == db.speakers[speaker])
            && (rule in after.rules <==> rule in db.rules && rule.meeting != gone && !OwnedBy(db, db.rules[rule], gone))
            && (rule in after.rules ==> after.rules[rule] == db.rules[rule])
            && (output in after.outputs <==> output in db.outputs && db.outputs[output].meeting != gone)
            && (output in after.outputs ==> after.outputs[output] == db.outputs[output])
  {
  }

  /** So do candidates and samples. */
  lemma DeletingAMeetingKeepsOtherEvidence(db: Db, gone: MeetingId, candidate: CandidateKey, sample: SampleId)
    ensures var after := DeleteMeetingRows(db, gone);
            && (candidate in after.candidates <==>
                  candidate in db.candidates && candidate.meeting != gone && !OwnedBy(db, candidate.speaker, gone))
            && (candidate in after.candidates ==> after.candidates[candidate] == db.candidates[candidate])
            && (sample in after.samples <==>
                  sample in db.samples && db.samples[sample].meeting != gone && !OwnedBy(db, db.samples[sample].speaker, gone))
            && (sample in after.samples ==> after.samples[sample] == db.samples[sample])
  {
  }
}
