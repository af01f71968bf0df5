/**
 Correcting a turn (service.rs, update_transcript_turn) and the revision log it appends to.
 */
module TranscriptEdits {
  import opened Wrappers
  import opened Tables
  import opened SpeakerNames

  /** A correction that leaves nothing after trimming clears the edit. */
  function NextText(submitted: string): Option<string> {
    if Trim(submitted) == "" then None else Some(Trim(submitted))
  }

  function NextRevision(revision: nat): nat {
    if revision < U32_MAX then revision + 1 else U32_MAX
  }

  function MarkedEdited(meetings: map<MeetingId, bool>, m: MeetingId): map<MeetingId, bool> {
    if m in meetings then meetings[m := true] else meetings
  }

  /** One more revision of a turn: a log row, and the turn with its index row. */
  function Appended(db: Db, id: TurnId, next: Option<string>): Db
    requires id in db.turns
  {
    var turn := db.turns[id];
    var number := NextRevision(turn.revision);
    RewriteTurn(db, id, turn.(editedText := next, revision := number)).(
      revisions := db.revisions[RevisionKey(id, number) := Revision(turn.editedText, next)],
      meetings := MarkedEdited(db.meetings, turn.meeting))
  }

  function Edit(db: Db, id: TurnId, submitted: string, expected: Option<nat>): Result<Db, Rejection> {
    if id !in db.turns then Err(NotFound)
    else
      var turn := db.turns[id];
      var key := RevisionKey(id, NextRevision(turn.revision));
      if expected.Some? && expected.value != turn.revision then Err(Conflict)
      else if key in db.revisions then Err(ConstraintViolation)
      else Ok(Appended(db, id, NextText(submitted)))
  }

  /** The edited text after the first `count` revisions of a turn, replayed from the log. */
  function Replayed(revisions: map<RevisionKey, Revision>, id: TurnId, count: nat): Option<string> {
    if count == 0 || RevisionKey(id, count) !in revisions then None
    else revisions[RevisionKey(id, count)].next
  }

  /** Row n exists and starts from the text that the rows before it left. */
  ghost predicate Continues(revisions: map<RevisionKey, Revision>, id: TurnId, n: nat) {
    && n > 0
    && RevisionKey(id, n) in revisions
    && revisions[RevisionKey(id, n)].prior == Replayed(revisions, id, n - 1)
  }

  /** The log of one turn: rows 1..revision, each continuing the one before, ending in the turn. */
  ghost predicate Logged(revisions: map<RevisionKey, Revision>, id: TurnId, turn: Turn) {
    && turn.revision <= U32_MAX
    && turn.editedText == Replayed(revisions, id, turn.revision)
    && forall n :: 1 <= n <= turn.revision ==> Continues(revisions, id, n)
  }

  ghost predicate LogOf(turns: map<TurnId, Turn>, revisions: map<RevisionKey, Revision>) {
    && (forall id :: id in turns ==> Logged(revisions, id, turns[id]))
    && (forall key :: key in revisions ==> key.turn in turns && 1 <= key.number <= turns[key.turn].revision)
  }

  ghost predicate EditLog(db: Db) {
    LogOf(db.turns, db.revisions)
  }

  /** A statement that keeps revision numbers and edited texts keeps the log. */
  lemma UneditedUpdateKeepsLog(turns: map<TurnId, Turn>, after: map<TurnId, Turn>, revisions: map<RevisionKey, Revision>)
    requires LogOf(turns, revisions)
    requires turns.Keys <= after.Keys
    requires forall id :: id in turns ==>
               after[id].editedText == turns[id].editedText && after[id].revision == turns[id].revision
    requires forall id :: id in after && id !in turns ==> after[id].editedText == None && after[id].revision == 0
    ensures LogOf(after, revisions)
  {
    forall id | id in after ensures Logged(revisions, id, after[id]) {
      if id in turns {
        assert Logged(revisions, id, turns[id]);
      }
    }
  }

  lemma DeletedTurnsKeepLog(db: Db, ids: set<TurnId>)
    requires EditLog(db)
    ensures EditLog(DeleteTurns(db, ids))
  {
    var after := DeleteTurns(db, ids);
    forall id | id in after.turns ensures Logged(after.revisions, id, after.turns[id]) {
      assert Logged(db.revisions, id, db.turns[id]);
      forall n | 1 <= n <= after.turns[id].revision ensures Continues(after.revisions, id, n) {
        assert Continues(db.revisions, id, n);
      }
    }
  }

  ghost predicate HasRoom(db: Db, id: TurnId) {
    id in db.turns && RevisionKey(id, NextRevision(db.turns[id].revision)) !in db.revisions
  }

  lemma RoomIsBelowTheCap(db: Db, id: TurnId)
    requires EditLog(db) && HasRoom(db, id)
    ensures db.turns[id].revision < U32_MAX
  {
    assert Logged(db.revisions, id, db.turns[id]);
    assert db.turns[id].revision > 0 ==> Continues(db.revisions, id, db.turns[id].revision);
  }

  lemma AppendKeepsOtherLogs(revisions: map<RevisionKey, Revision>, key: RevisionKey, row: Revision,
                             other: TurnId, turn: Turn)
    requires Logged(revisions, other, turn) && other != key.turn
    ensures Logged(revisions[key := row], other, turn)
  {
    var after := revisions[key := row];
    forall n | 1 <= n <= turn.revision ensures Continues(after, other, n) {
      assert Continues(revisions, other, n);
    }
  }

  lemma AppendExtendsOwnLog(revisions: map<RevisionKey, Revision>, id: TurnId, turn: Turn, next: Option<string>)
    requires Logged(revisions, id, turn) && turn.revision < U32_MAX
    ensures var key := RevisionKey(id, turn.revision + 1);
            Logged(revisions[key := Revision(turn.editedText, next)], id,
                   turn.(editedText := next, revision := turn.revision + 1))
  {
    var after := revisions[RevisionKey(id, turn.revision + 1) := Revision(turn.editedText, next)];
    forall n | 1 <= n <= turn.revision + 1 ensures Continues(after, id, n) {
      assert n <= turn.revision ==> Continues(revisions, id, n);
      assert turn.revision > 0 ==> Continues(revisions, id, turn.revision);
    }
  }

  lemma OneMoreRevision(turns: map<TurnId, Turn>, revisions: map<RevisionKey, Revision>, id: TurnId, next: Option<string>)
    requires LogOf(turns, revisions) && id in turns && turns[id].revision < U32_MAX
    ensures var number := turns[id].revision + 1;
            LogOf(turns[id := turns[id].(editedText := next, revision := number)],
                  revisions[RevisionKey(id, number) := Revision(turns[id].editedText, next)])
  {
    var turn := turns[id];
    var key, row := RevisionKey(id, turn.revision + 1), Revision(turn.editedText, next);
    AppendExtendsOwnLog(revisions, id, turn, next);
    forall other | other in turns && other != id ensures Logged(revisions[key := row], other, turns[other]) {
      AppendKeepsOtherLogs(revisions, key, row, other, turns[other]);
    }
  }

  ghost predicate LogGrows(db: Db, after: Db, id: TurnId, next: Option<string>)
    requires id in db.turns
  {
    var turn := db.turns[id];
    && after.turns == db.turns[id := turn.(editedText := next, revision := turn.revision + 1)]
    && after.revisions == db.revisions[RevisionKey(id, turn.revision + 1) := Revision(turn.editedText, next)]
  }

  lemma AppendedLogGrows(db: Db, id: TurnId, next: Option<string>)
    requires id in db.turns && db.turns[id].revision < U32_MAX
    ensures LogGrows(db, Appended(db, id, next), id, next)
  {
  }

  lemma GrownLogIsALog(db: Db, after: Db, id: TurnId, next: Option<string>)
    requires EditLog(db) && id in db.turns && db.turns[id].revision < U32_MAX && LogGrows(db, after, id, next)
    ensures EditLog(after)
  {
    OneMoreRevision(db.turns, db.revisions, id, next);
  }

  lemma AppendKeepsLog(db: Db, id: TurnId, next: Option<string>)
    requires EditLog(db) && HasRoom(db, id)
    ensures EditLog(Appended(db, id, next))
  {
    RoomIsBelowTheCap(db, id);
    AppendedLogGrows(db, id, next);
    GrownLogIsALog(db, Appended(db, id, next), id, next);
  }

  /**
   With the log intact an edit succeeds exactly when the turn exists, the expected revision, if
   one is given, is the current one, and the revision counter has room.
   */
  lemma EditSucceedsExactly(db: Db, id: TurnId, submitted: string, expected: Option<nat>)
    requires EditLog(db)
    ensures Edit(db, id, submitted, expected).Ok?
       <==> && id in db.turns
            && (expected.Some? ==> expected.value == db.turns[id].revision)
            && db.turns[id].revision < U32_MAX
  {
    if id in db.turns {
      assert Logged(db.revisions, id, db.turns[id]);
      var revision := db.turns[id].revision;
      if revision == U32_MAX {
        assert Continues(db.revisions, id, revision);
      }
    }
  }

  /** What a correction leaves as a turn's edited text: the submitted one without spaces around it, if any is left. */
  ghost predicate StandsAsSubmitted(edited: Option<string>, submitted: string) {
    match edited
    case None => AllSpaces(submitted)
    case Some(text) => text != "" && WithoutSpacesAround(submitted, text)
  }

  lemma NextTextIsTheSubmitted(submitted: string, edited: Option<string>)
    ensures StandsAsSubmitted(edited, submitted) <==> edited == NextText(submitted)
  {
    TrimLeavesTheStretch(submitted, edited.GetOr(""));
  }

  /** The meeting of the turn is marked as edited, and no other. */
  ghost predicate OneMeetingMarked(meetings: map<MeetingId, bool>, after: map<MeetingId, bool>, m: MeetingId) {
    after.Keys == meetings.Keys && forall other :: other in meetings ==> after[other] == (other == m || meetings[other])
  }

  /**
   An accepted correction stores the submitted text without the spaces around it, or no text if there is
   nothing else; one revision row records it after the text it replaces, and nothing else changes but the
   meeting's mark.
   */
  lemma EditStoresTheText(db: Db, id: TurnId, submitted: string, expected: Option<nat>)
    requires EditLog(db) && Edit(db, id, submitted, expected).Ok?
    ensures var after, turn := Edit(db, id, submitted, expected).value, db.turns[id];
            var edited, number := after.turns[id].editedText, turn.revision + 1;
            && StandsAsSubmitted(edited, submitted)
            && after.turns == db.turns[id := turn.(editedText := edited, revision := number)]
            && after.revisions == db.revisions[RevisionKey(id, number) := Revision(turn.editedText, edited)]
            && OneMeetingMarked(db.meetings, after.meetings, turn.meeting)
            && after == db.(turns := after.turns, revisions := after.revisions, meetings := after.meetings,
                            index := after.index, nextIndexRow := after.nextIndexRow)
  {
    NextTextIsTheSubmitted(submitted, NextText(submitted));
    EditSucceedsExactly(db, id, submitted, expected);
  }

  // ---------------------------------------------------------------------------------------
  // Several edits against the same revision
  // ---------------------------------------------------------------------------------------

  datatype EditRequest = EditRequest(turn: TurnId, submitted: string, expected: Option<nat>)

  function Attempt(db: Db, request: EditRequest): Db {
    Edit(db, request.turn, request.submitted, request.expected).GetOr(db)
  }

  /** Requests in the order the database serialises them; a rejected one rolls back. */
  function AttemptAll(db: Db, requests: seq<EditRequest>): Db
    decreases |requests|
  {
    if requests == [] then db else AttemptAll(Attempt(db, requests[0]), requests[1..])
  }

  function Successes(db: Db, requests: seq<EditRequest>): nat
    decreases |requests|
  {
    if requests == [] then 0
    else
      (if Edit(db, requests[0].turn, requests[0].submitted, requests[0].expected).Ok? then 1 else 0)
      + Successes(Attempt(db, requests[0]), requests[1..])
  }

  ghost predicate SameExpectation(requests: seq<EditRequest>, id: TurnId, revision: nat) {
    forall i :: 0 <= i < |requests| ==> requests[i].turn == id && requests[i].expected == Some(revision)
  }

  lemma {:induction false} StaleEditsChangeNothing(db: Db, requests: seq<EditRequest>, id: TurnId, revision: nat)
    requires SameExpectation(requests, id, revision)
    requires id !in db.turns || db.turns[id].revision != revision
    ensures AttemptAll(db, requests) == db && Successes(db, requests) == 0
    decreases |requests|
  {
    if requests != [] {
      StaleEditsChangeNothing(db, requests[1..], id, revision);
    }
  }

  /** Of several edits that expect the current revision, the first succeeds and no other does. */
  lemma ExactlyOneEditWins(db: Db, requests: seq<EditRequest>, id: TurnId)
    requires EditLog(db) && requests != []
    requires id in db.turns && db.turns[id].revision < U32_MAX
    requires SameExpectation(requests, id, db.turns[id].revision)
    ensures Successes(db, requests) == 1
    ensures AttemptAll(db, requests) == Edit(db, id, requests[0].submitted, requests[0].expected).GetOr(db)
  {
    EditSucceedsExactly(db, id, requests[0].submitted, requests[0].expected);
    StaleEditsChangeNothing(Attempt(db, requests[0]), requests[1..], id, db.turns[id].revision);
  }
}
