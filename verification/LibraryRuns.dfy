/**
 Whole runs of the library: any sequence of user commands and re-imports, in the order the
 database serialises their transactions. A rejected command changes nothing.
 */
module LibraryRuns {
  import opened Wrappers
  import opened Tables
  import SpeakerNames
  import opened SpeakerMerge
  import opened TranscriptEdits
  import opened TranscriptImport
  import opened ReprocessingLaws
  import opened VoiceEvidence
  import opened Housekeeping

  datatype Command =
    | CreateMeeting(m: MeetingId)
    | DeleteMeeting(m: MeetingId)
    | MergeSpeakers(m: MeetingId, source: SpeakerId, target: SpeakerId)
    | CommitResult(m: MeetingId, out: OutputId, matches: Matches, artifact: seq<ArtifactTurn>,
                   claims: seq<Option<TurnId>>, offers: seq<Offer>)
    | EditTurn(turn: TurnId, submitted: string, expected: Option<nat>)
    | RenameSpeaker(m: MeetingId, speaker: SpeakerId, name: string, profile: ProfileId, sample: SampleId)
    | ConfirmVoice(m: MeetingId, speaker: SpeakerId, profile: ProfileId, sample: SampleId)
    | SuggestName(m: MeetingId, speaker: SpeakerId, name: string)
    | JudgeMatch(speaker: SpeakerId, accepted: bool)
    | NewProfile(profile: ProfileId, name: string)
    | DropProfile(profile: ProfileId)
    | MarkSpeaker(speaker: SpeakerId, needsReview: bool)
    | MarkTurn(turn: TurnId, needsReview: bool)

  /** The tables, and what the user and the worker have done to them so far. */
  datatype World = World(db: Db, history: History, offered: Offered, committed: set<MeetingId>)

  const EMPTY_WORLD := World(EMPTY_DB, map[], map[], {})

  function Outcome(db: Db, command: Command): Result<Db, Rejection>
    requires command.CommitResult? ==> |command.artifact| == |command.claims|
  {
    match command
    case CreateMeeting(m) => if m in db.meetings then Err(ConstraintViolation) else Ok(db.(meetings := db.meetings[m := false]))
    case DeleteMeeting(m) => if m in db.meetings then Ok(DeleteMeetingRows(db, m)) else Err(NotFound)
    case MergeSpeakers(m, source, target) => Merge(db, m, source, target)
    case CommitResult(m, out, matches, artifact, claims, offers) => Commit(db, m, out, matches, artifact, claims, offers)
    case EditTurn(turn, submitted, expected) => Edit(db, turn, submitted, expected)
    case RenameSpeaker(m, speaker, name, profile, sample) => Rename(db, m, speaker, name, profile, sample)
    case ConfirmVoice(m, speaker, profile, sample) => ConfirmSample(db, m, speaker, profile, sample)
    case SuggestName(m, speaker, name) => Ok(Suggest(db, m, speaker, name))
    case JudgeMatch(speaker, accepted) => ReviewMatch(db, speaker, accepted)
    case NewProfile(profile, name) => CreateProfile(db, profile, name)
    case DropProfile(profile) => DeleteProfile(db, profile)
    case MarkSpeaker(speaker, needsReview) => FlagSpeaker(db, speaker, needsReview)
    case MarkTurn(turn, needsReview) => FlagTurn(db, turn, needsReview)
  }

  /** Claims and profiles are ones the queries may return, and identifiers drawn for new rows are new. */
  ghost predicate Possible(db: Db, command: Command) {
    match command
    case CommitResult(m, out, matches, artifact, claims, _) =>
      |artifact| == |claims| && GoodClaims(Promote(db, m, out), m, out, matches, artifact, claims, |artifact|)
    case RenameSpeaker(_, _, name, profile, sample) =>
      sample !in db.samples && FoundByName(db.profiles, SpeakerNames.Trim(name), profile)
    case ConfirmVoice(_, _, _, sample) => sample !in db.samples
    case NewProfile(profile, _) => profile !in db.profiles
    case _ => true
  }

  // ---------------------------------------------------------------------------------------
  // What the commands have done so far
  // ---------------------------------------------------------------------------------------

  function HistoryAfter(history: History, command: Command): History {
    match command
    case MergeSpeakers(m, source, target) => Recorded(history, m, source, target)
    case DeleteMeeting(m) => history - {m}
    case _ => history
  }

  /** The speaker an offer reaches, if it belongs to the meeting. */
  function OfferedOne(db: Db, offered: Offered, m: MeetingId, offer: Offer): Offered {
    var speaker := Resolve(db.rules, RuleKey(m, offer.cluster));
    if Belongs(db, m, speaker) then
      offered[speaker := OffersTo(offered, speaker) + {Candidate(offer.cluster, offer.cleanMs, offer.embedding)}]
    else offered
  }

  function OfferedFirst(db: Db, offered: Offered, m: MeetingId, offers: seq<Offer>, count: nat): Offered
    requires count <= |offers|
  {
    if count == 0 then offered
    else OfferedOne(db, OfferedFirst(db, offered, m, offers, count - 1), m, offers[count - 1])
  }

  /** `db` holds the tables before the command and `after` those after it succeeded. */
  function OfferedAfter(db: Db, after: Db, offered: Offered, command: Command): Offered {
    match command
    case MergeSpeakers(_, source, target) => Pooled(offered, source, target)
    case CommitResult(m, _, _, _, _, offers) => OfferedFirst(after, offered, m, offers, |offers|)
    case RenameSpeaker(m, speaker, _, _, _) => if ConsumesOnRename(db, m, speaker) then offered - {speaker} else offered
    case ConfirmVoice(_, speaker, _, _) => offered - {speaker}
    case DeleteMeeting(m) => offered - (set speaker | speaker in offered && speaker !in after.speakers)
    case _ => offered
  }

  function CommittedAfter(committed: set<MeetingId>, command: Command): set<MeetingId> {
    match command
    case CommitResult(m, _, _, _, _, _) => committed + {m}
    case DeleteMeeting(m) => committed - {m}
    case _ => committed
  }

  ghost function Apply(w: World, command: Command): World {
    if !Possible(w.db, command) || Outcome(w.db, command).Err? then w
    else
      var after := Outcome(w.db, command).value;
      World(after, HistoryAfter(w.history, command), OfferedAfter(w.db, after, w.offered, command),
            CommittedAfter(w.committed, command))
  }

  ghost function Run(w: World, commands: seq<Command>): World
    decreases |commands|
  {
    if commands == [] then w else Run(Apply(w, commands[0]), commands[1..])
  }

  predicate KeepsHouse(command: Command) {
    command.NewProfile? || command.DropProfile? || command.MarkSpeaker? || command.MarkTurn?
  }

  lemma Applied(w: World, command: Command)
    requires Possible(w.db, command) && Outcome(w.db, command).Ok?
    ensures command.MergeSpeakers? ==>
              Apply(w, command) == w.(db := Outcome(w.db, command).value,
                                      history := Recorded(w.history, command.m, command.source, command.target),
                                      offered := Pooled(w.offered, command.source, command.target))
    ensures command.EditTurn? || KeepsHouse(command) || command.CreateMeeting? || command.SuggestName? || command.JudgeMatch? ==>
              Apply(w, command) == w.(db := Outcome(w.db, command).value)
    ensures command.CommitResult? ==>
              var after := Outcome(w.db, command).value;
              Apply(w, command) == World(after, w.history,
                                         OfferedFirst(after, w.offered, command.m, command.offers, |command.offers|),
                                         w.committed + {command.m})
    ensures command.ConfirmVoice? ==>
              Apply(w, command) == w.(db := Outcome(w.db, command).value, offered := w.offered - {command.speaker})
    ensures command.RenameSpeaker? ==>
              Apply(w, command) == w.(db := Outcome(w.db, command).value,
                                      offered := if ConsumesOnRename(w.db, command.m, command.speaker)
                                                 then w.offered - {command.speaker} else w.offered)
  {
  }

  // ---------------------------------------------------------------------------------------
  // The invariant of every run
  // ---------------------------------------------------------------------------------------

  ghost predicate HasCanonical(outputs: map<OutputId, Output>, m: MeetingId) {
    exists id :: id in outputs && outputs[id].meeting == m && outputs[id].canonical
  }

  ghost predicate CommittedHaveCanonical(outputs: map<OutputId, Output>, committed: set<MeetingId>) {
    forall m :: m in committed ==> HasCanonical(outputs, m)
  }

  ghost predicate Sound(w: World) {
    && Invariant(w.db, w.history)
    && BestKept(w.db.candidates, w.db.speakers, w.offered)
    && CommittedHaveCanonical(w.db.outputs, w.committed)
  }

  lemma EmptyWorldIsSound()
    ensures Sound(EMPTY_WORLD)
  {
    forall key: RuleKey ensures ResolvesAt(map[], map[], key) {
    }
  }

  // ---------------------------------------------------------------------------------------
  // Each command keeps it
  // ---------------------------------------------------------------------------------------

  lemma AnEmptyMeetingDisturbsNothing(db: Db, m: MeetingId)
    requires TurnsInMeetings(db) && CanonicalUnique(db)
    ensures TurnsInMeetings(db.(meetings := db.meetings[m := false])) && CanonicalUnique(db.(meetings := db.meetings[m := false]))
  {
  }

  lemma CreatingAMeetingKeepsInvariant(db: Db, history: History, m: MeetingId)
    requires Invariant(db, history)
    ensures Invariant(db.(meetings := db.meetings[m := false]), history)
  {
    var after := db.(meetings := db.meetings[m := false]);
    AnEmptyMeetingDisturbsNothing(db, m);
    assert UnionFind(after, history) && AttributionsLive(after) && EvidenceLive(after);
    assert EditLog(after) && IndexAgrees(after);
  }

  lemma CreateMeetingIsSound(w: World, m: MeetingId)
    requires Sound(w)
    ensures Sound(w.(db := w.db.(meetings := w.db.meetings[m := false])))
  {
    CreatingAMeetingKeepsInvariant(w.db, w.history, m);
  }

  lemma MergeKeepsTurnsPlaced(db: Db, m: MeetingId, source: SpeakerId, target: SpeakerId)
    requires Merge(db, m, source, target).Ok? && TurnsInMeetings(db)
    ensures TurnsInMeetings(Merge(db, m, source, target).value)
  {
  }

  lemma MergeKeepsTexts(turns: map<TurnId, Turn>, revisions: map<RevisionKey, Revision>, source: SpeakerId, target: SpeakerId)
    requires LogOf(turns, revisions)
    ensures LogOf(MovedTurns(turns, source, target), revisions)
    ensures SameShownText(turns, MovedTurns(turns, source, target))
  {
    UneditedUpdateKeepsLog(turns, MovedTurns(turns, source, target), revisions);
  }

  lemma MergeKeepsInvariant(db: Db, history: History, m: MeetingId, source: SpeakerId, target: SpeakerId)
    requires Invariant(db, history) && Merge(db, m, source, target).Ok?
    ensures Invariant(Merge(db, m, source, target).value, Recorded(history, m, source, target))
  {
    MergeKeepsUnionFind(db, history, m, source, target);
    MergeKeepsAttributions(db, m, source, target);
    MergeKeepsEvidence(db, m, source, target);
    MergeKeepsTurnsPlaced(db, m, source, target);
    MergeKeepsTexts(db.turns, db.revisions, source, target);
    QuietUpdateKeepsIndex(db, Merge(db, m, source, target).value);
  }

  lemma MergeIsSound(w: World, m: MeetingId, source: SpeakerId, target: SpeakerId)
    requires Sound(w) && Merge(w.db, m, source, target).Ok?
    ensures Sound(w.(db := Merge(w.db, m, source, target).value, history := Recorded(w.history, m, source, target),
                     offered := Pooled(w.offered, source, target)))
  {
    MergeKeepsInvariant(w.db, w.history, m, source, target);
    MergeKeepsBest(w.db, m, source, target, w.offered);
  }

  lemma EditKeepsPlaces(db: Db, id: TurnId, next: Option<string>)
    requires id in db.turns && AttributionsLive(db) && TurnsInMeetings(db)
    ensures var after := Appended(db, id, next);
            AttributionsLive(after) && TurnsInMeetings(after) && after.meetings.Keys == db.meetings.Keys
  {
    assert Appended(db, id, next).turns.Keys == db.turns.Keys;
  }

  lemma EditKeepsIndex(db: Db, id: TurnId, next: Option<string>)
    requires id in db.turns && IndexAgrees(db)
    ensures IndexAgrees(Appended(db, id, next))
  {
    var row := db.turns[id].(editedText := next, revision := NextRevision(db.turns[id].revision));
    RewriteTurnKeepsIndex(db, id, row);
    QuietUpdateKeepsIndex(RewriteTurn(db, id, row), Appended(db, id, next));
  }

  lemma AppendedIsSound(w: World, id: TurnId, next: Option<string>)
    requires Sound(w) && HasRoom(w.db, id)
    ensures Sound(w.(db := Appended(w.db, id, next)))
  {
    EditKeepsPlaces(w.db, id, next);
    EditKeepsIndex(w.db, id, next);
    AppendKeepsLog(w.db, id, next);
  }

  lemma EditIsSound(w: World, id: TurnId, submitted: string, expected: Option<nat>)
    requires Sound(w) && Edit(w.db, id, submitted, expected).Ok?
    ensures Sound(w.(db := Edit(w.db, id, submitted, expected).value))
  {
    AppendedIsSound(w, id, NextText(submitted));
  }

  lemma RelabelKeepsInvariant(db: Db, history: History, after: Db, speaker: SpeakerId, row: Speaker)
    requires Invariant(db, history) && speaker in db.speakers && SamePlace(row, db.speakers[speaker])
    requires after == db.(speakers := db.speakers[speaker := row], profiles := after.profiles,
                          samples := after.samples, candidates := after.candidates)
    requires EvidenceLive(after.(speakers := db.speakers))
    ensures Invariant(after, history)
  {
    assert UnionFind(after, history) && AttributionsLive(after) by {
      RelabellingKeepsSpeakers(db, history, after.speakers);
    }
    assert EvidenceLive(after) by {
      RelabellingKeepsEvidence(after.(speakers := db.speakers), after.speakers);
    }
    LabelsAreApart(db, history, after);
  }

  /** A speaker row relabelled, with profiles, samples and candidates changed along with it. */
  lemma RelabelIsSound(w: World, after: Db, offered: Offered, speaker: SpeakerId, row: Speaker)
    requires Sound(w) && speaker in w.db.speakers && SamePlace(row, w.db.speakers[speaker])
    requires after == w.db.(speakers := w.db.speakers[speaker := row], profiles := after.profiles,
                            samples := after.samples, candidates := after.candidates)
    requires EvidenceLive(after.(speakers := w.db.speakers)) && BestKept(after.candidates, w.db.speakers, offered)
    ensures Sound(w.(db := after, offered := offered))
  {
    RelabelKeepsInvariant(w.db, w.history, after, speaker, row);
    OtherSpeakersKeepBest(after.candidates, w.db.speakers, after.speakers, offered);
  }

  lemma SuggestIsSound(w: World, m: MeetingId, speaker: SpeakerId, name: string)
    requires Sound(w)
    ensures Sound(w.(db := Suggest(w.db, m, speaker, name)))
  {
    var after := Suggest(w.db, m, speaker, name);
    if Belongs(w.db, m, speaker) && OpenToSuggestion(w.db.speakers[speaker]) {
      RelabelIsSound(w, after, w.offered, speaker, after.speakers[speaker]);
    }
  }

  lemma JudgeIsSound(w: World, speaker: SpeakerId, accepted: bool)
    requires Sound(w) && ReviewMatch(w.db, speaker, accepted).Ok?
    ensures Sound(w.(db := ReviewMatch(w.db, speaker, accepted).value))
  {
    var after := ReviewMatch(w.db, speaker, accepted).value;
    RelabelIsSound(w, after, w.offered, speaker, after.speakers[speaker]);
  }

  lemma ConfirmIsSound(w: World, m: MeetingId, speaker: SpeakerId, profile: ProfileId, sample: SampleId)
    requires Sound(w) && sample !in w.db.samples
    requires ConfirmSample(w.db, m, speaker, profile, sample).Ok?
    ensures Sound(w.(db := ConfirmSample(w.db, m, speaker, profile, sample).value, offered := w.offered - {speaker}))
  {
    var after := ConfirmSample(w.db, m, speaker, profile, sample).value;
    ConsumingKeepsEvidence(w.db, m, speaker, profile, sample);
    ConsumingKeepsBest(w.db.candidates, w.db.speakers, w.offered, speaker);
    RelabelIsSound(w, after, w.offered - {speaker}, speaker, after.speakers[speaker]);
  }

  /** Naming a speaker without a candidate consumes nothing: it had no offers left. */
  lemma LearningKeepsEvidence(db: Db, offered: Offered, m: MeetingId, speaker: SpeakerId, profile: ProfileId, sample: SampleId)
    requires EvidenceLive(db) && BestKept(db.candidates, db.speakers, offered)
    requires Belongs(db, m, speaker) && sample !in db.samples
    ensures var after := Learned(db, m, speaker, profile, sample);
            && EvidenceLive(after)
            && BestKept(after.candidates, after.speakers, offered - {speaker})
            && after == db.(samples := after.samples, candidates := after.candidates)
  {
    ConsumingKeepsBest(db.candidates, db.speakers, offered, speaker);
    if CandidateKey(m, speaker) in db.candidates {
      ConsumingKeepsEvidence(db, m, speaker, profile, sample);
    } else {
      assert db.candidates - {CandidateKey(m, speaker)} == db.candidates;
    }
  }

  lemma NewProfileKeepsEvidence(db: Db, profiled: Db, offered: Offered)
    requires EvidenceLive(db) && BestKept(db.candidates, db.speakers, offered)
    requires profiled == db.(profiles := profiled.profiles)
    ensures EvidenceLive(profiled) && BestKept(profiled.candidates, profiled.speakers, offered)
  {
  }

  lemma LearnedIsSound(w: World, profiled: Db, learned: Db, after: Db, m: MeetingId, speaker: SpeakerId,
                       profile: ProfileId, sample: SampleId, row: Speaker)
    requires Sound(w) && Belongs(w.db, m, speaker) && sample !in w.db.samples
    requires SamePlace(row, w.db.speakers[speaker])
    requires profiled == w.db.(profiles := profiled.profiles)
    requires learned == Learned(profiled, m, speaker, profile, sample)
    requires after == learned.(speakers := w.db.speakers[speaker := row])
    ensures Sound(w.(db := after, offered := w.offered - {speaker}))
  {
    NewProfileKeepsEvidence(w.db, profiled, w.offered);
    LearningKeepsEvidence(profiled, w.offered, m, speaker, profile, sample);
    assert learned == w.db.(profiles := learned.profiles, samples := learned.samples, candidates := learned.candidates);
    RelabelIsSound(w, after, w.offered - {speaker}, speaker, row);
  }

  lemma DropProfileIsSound(w: World, profile: ProfileId)
    requires Sound(w) && profile in w.db.profiles
    ensures Sound(w.(db := ProfileDeleted(w.db, profile)))
  {
    DeletingAProfileKeepsInvariant(w.db, w.history, profile);
    DeletingAProfileKeepsBest(w.db, profile, w.offered);
  }

  lemma NewProfileIsSound(w: World, profile: ProfileId, name: string)
    requires Sound(w) && CreateProfile(w.db, profile, name).Ok?
    ensures Sound(w.(db := CreateProfile(w.db, profile, name).value))
  {
    LabelsAreApart(w.db, w.history, CreateProfile(w.db, profile, name).value);
  }

  lemma MarkTurnIsSound(w: World, turn: TurnId, needsReview: bool)
    requires Sound(w) && FlagTurn(w.db, turn, needsReview).Ok?
    ensures Sound(w.(db := FlagTurn(w.db, turn, needsReview).value))
  {
    FlaggingATurnKeepsInvariant(w.db, w.history, turn, needsReview);
  }

  lemma MarkSpeakerIsSound(w: World, speaker: SpeakerId, needsReview: bool)
    requires Sound(w) && FlagSpeaker(w.db, speaker, needsReview).Ok?
    ensures Sound(w.(db := FlagSpeaker(w.db, speaker, needsReview).value))
  {
    var after := FlagSpeaker(w.db, speaker, needsReview).value;
    FlaggingASpeakerKeepsInvariant(w.db, w.history, speaker, needsReview);
    OtherSpeakersKeepBest(w.db.candidates, w.db.speakers, after.speakers, w.offered);
  }

  /** Naming a speaker may add a profile, and leaves the speaker's meeting and cluster. */
  lemma NamingTouchesLittle(db: Db, row: Speaker, name: string, profile: ProfileId)
    ensures var profiled := WithProfile(db, profile, name); profiled == db.(profiles := profiled.profiles)
    ensures SamePlace(NamedByUser(row, name, Some(profile)), row)
  {
  }

  lemma NamedAndLearnedIsSound(w: World, after: Db, m: MeetingId, speaker: SpeakerId, name: string, profile: ProfileId,
                               sample: SampleId)
    requires Sound(w) && Belongs(w.db, m, speaker) && sample !in w.db.samples
    requires after == NamedAndLearned(w.db, m, speaker, name, profile, sample)
    ensures Sound(w.(db := after, offered := w.offered - {speaker}))
  {
    var profiled := WithProfile(w.db, profile, name);
    var learned := Learned(profiled, m, speaker, profile, sample);
    var row := w.db.speakers[speaker];
    NamingTouchesLittle(w.db, row, name, profile);
    LearnedIsSound(w, profiled, learned, after, m, speaker, profile, sample, NamedByUser(row, name, Some(profile)));
  }

  lemma RenameIsSound(w: World, m: MeetingId, speaker: SpeakerId, name: string, profile: ProfileId, sample: SampleId)
    requires Sound(w) && sample !in w.db.samples && Rename(w.db, m, speaker, name, profile, sample).Ok?
    ensures Sound(w.(db := Rename(w.db, m, speaker, name, profile, sample).value,
                     offered := if ConsumesOnRename(w.db, m, speaker) then w.offered - {speaker} else w.offered))
  {
    var after := Rename(w.db, m, speaker, name, profile, sample).value;
    if AttachesProfile(w.db.speakers[speaker]) {
      NamedAndLearnedIsSound(w, after, m, speaker, SpeakerNames.Trim(name), profile, sample);
    } else {
      RelabelIsSound(w, after, w.offered, speaker, NamedByUser(w.db.speakers[speaker], SpeakerNames.Trim(name), None));
    }
  }

  // ---------------------------------------------------------------------------------------
  // Deleting a meeting
  // ---------------------------------------------------------------------------------------

  lemma DeleteMeetingKeepsSpeakers(db: Db, history: History, gone: MeetingId)
    requires UnionFind(db, history)
    ensures UnionFind(DeleteMeetingRows(db, gone), history - {gone})
  {
    var after := DeleteMeetingRows(db, gone);
    forall key: RuleKey ensures ResolvesAt(after.rules, history - {gone}, key) {
      assert ResolvesAt(db.rules, history, key);
    }
  }

  lemma DeleteMeetingKeepsAttributions(db: Db, gone: MeetingId)
    requires AttributionsLive(db)
    ensures AttributionsLive(DeleteMeetingRows(db, gone))
  {
  }

  lemma DeleteMeetingKeepsPlaces(db: Db, gone: MeetingId)
    requires TurnsInMeetings(db) && CanonicalUnique(db)
    ensures TurnsInMeetings(DeleteMeetingRows(db, gone)) && CanonicalUnique(DeleteMeetingRows(db, gone))
  {
  }

  lemma DeleteMeetingKeepsLog(db: Db, gone: MeetingId)
    requires EditLog(db)
    ensures EditLog(DeleteMeetingRows(db, gone))
  {
    var lost := set id | id in db.turns && db.turns[id].meeting == gone;
    DeletedTurnsKeepLog(db, lost);
    UneditedUpdateKeepsLog(DeleteTurns(db, lost).turns, DeleteMeetingRows(db, gone).turns, DeleteTurns(db, lost).revisions);
  }

  lemma DeleteMeetingKeepsEvidence(db: Db, gone: MeetingId)
    requires EvidenceLive(db)
    ensures EvidenceLive(DeleteMeetingRows(db, gone))
  {
    var after := DeleteMeetingRows(db, gone);
    forall id, other | id in after.samples && other in after.samples && SamePair(after.samples, id, other)
      ensures id == other
    {
      assert SamePair(db.samples, id, other);
    }
  }

  function Surviving(db: Db, offered: Offered, gone: MeetingId): Offered {
    offered - (set speaker | speaker in offered && speaker !in DeleteMeetingRows(db, gone).speakers)
  }

  lemma DeleteMeetingKeepsCandidate(db: Db, gone: MeetingId, speaker: SpeakerId)
    requires speaker in db.speakers && db.speakers[speaker].meeting != gone
    ensures var key := CandidateKey(db.speakers[speaker].meeting, speaker);
            Lookup(DeleteMeetingRows(db, gone).candidates, key) == Lookup(db.candidates, key)
  {
  }

  lemma DeleteMeetingKeepsBestFor(db: Db, offered: Offered, gone: MeetingId, speaker: SpeakerId)
    requires speaker in db.speakers && db.speakers[speaker].meeting != gone
    requires BestKeptFor(db.candidates, db.speakers, offered, speaker)
    ensures var after := DeleteMeetingRows(db, gone);
            speaker in after.speakers && BestKeptFor(after.candidates, after.speakers, Surviving(db, offered, gone), speaker)
  {
    DeleteMeetingKeepsCandidate(db, gone, speaker);
  }

  lemma DeleteMeetingKeepsBest(db: Db, offered: Offered, gone: MeetingId)
    requires BestKept(db.candidates, db.speakers, offered) && CandidatesLive(db.candidates, db.speakers)
    ensures var after := DeleteMeetingRows(db, gone);
            BestKept(after.candidates, after.speakers, Surviving(db, offered, gone))
  {
    forall speaker | speaker in DeleteMeetingRows(db, gone).speakers
      ensures BestKeptFor(DeleteMeetingRows(db, gone).candidates, DeleteMeetingRows(db, gone).speakers,
                          Surviving(db, offered, gone), speaker)
    {
      DeleteMeetingKeepsBestFor(db, offered, gone, speaker);
    }
  }

  lemma DeleteMeetingKeepsCanonical(db: Db, committed: set<MeetingId>, gone: MeetingId)
    requires CommittedHaveCanonical(db.outputs, committed)
    ensures CommittedHaveCanonical(DeleteMeetingRows(db, gone).outputs, committed - {gone})
  {
    var after := DeleteMeetingRows(db, gone);
    forall m | m in committed - {gone} ensures HasCanonical(after.outputs, m) {
      assert HasCanonical(db.outputs, m);
      var id :| id in db.outputs && db.outputs[id].meeting == m && db.outputs[id].canonical;
      assert after.outputs[id] == db.outputs[id];
    }
  }

  lemma DeleteMeetingIsSound(w: World, gone: MeetingId)
    requires Sound(w)
    ensures Sound(Apply(w, DeleteMeeting(gone)))
  {
    if gone in w.db.meetings {
      DeleteMeetingKeepsSpeakers(w.db, w.history, gone);
      DeleteMeetingKeepsAttributions(w.db, gone);
      DeleteMeetingKeepsPlaces(w.db, gone);
      DeleteMeetingKeepsLog(w.db, gone);
      DeleteMeetingKeepsIndex(w.db, gone);
      DeleteMeetingKeepsEvidence(w.db, gone);
      DeleteMeetingKeepsBest(w.db, w.offered, gone);
      DeleteMeetingKeepsCanonical(w.db, w.committed, gone);
    }
  }

  // ---------------------------------------------------------------------------------------
  // Committing a result
  // ---------------------------------------------------------------------------------------

  lemma OneMoreOfferKeepsBest(candidates: map<CandidateKey, Candidate>, speakers: map<SpeakerId, Speaker>,
                              offered: Offered, speaker: SpeakerId, offer: Candidate)
    requires BestKept(candidates, speakers, offered) && speaker in speakers
    ensures var key := CandidateKey(speakers[speaker].meeting, speaker);
            BestKept(candidates[key := Better(Lookup(candidates, key), offer)], speakers,
                     offered[speaker := OffersTo(offered, speaker) + {offer}])
  {
    var key := CandidateKey(speakers[speaker].meeting, speaker);
    var after := candidates[key := Better(Lookup(candidates, key), offer)];
    var more := offered[speaker := OffersTo(offered, speaker) + {offer}];
    assert BestKeptFor(candidates, speakers, offered, speaker);
    BetterIsBest(Lookup(candidates, key), OffersTo(offered, speaker), offer);
    forall other | other in speakers ensures BestKeptFor(after, speakers, more, other) {
      assert BestKeptFor(candidates, speakers, offered, other);
    }
  }

  lemma OfferKeepsTheBetter(candidates: map<CandidateKey, Candidate>, key: CandidateKey, offer: Offer)
    ensures OfferedFor(candidates, key, offer)
         == candidates[key := Better(Lookup(candidates, key), Candidate(offer.cluster, offer.cleanMs, offer.embedding))]
  {
  }

  lemma PersistKeepsBest(db: Db, offered: Offered, m: MeetingId, offer: Offer)
    requires BestKept(db.candidates, db.speakers, offered)
    ensures BestKept(PersistCandidate(db, m, offer).candidates, db.speakers, OfferedOne(db, offered, m, offer))
  {
    var speaker := Resolve(db.rules, RuleKey(m, offer.cluster));
    OfferKeepsTheBetter(db.candidates, CandidateKey(m, speaker), offer);
    if Belongs(db, m, speaker) {
      OneMoreOfferKeepsBest(db.candidates, db.speakers, offered, speaker,
                            Candidate(offer.cluster, offer.cleanMs, offer.embedding));
    }
  }

  lemma OfferSeesSpeakersAndRules(db: Db, after: Db, offered: Offered, m: MeetingId, offer: Offer)
    requires after.speakers == db.speakers && after.rules == db.rules
    ensures OfferedOne(after, offered, m, offer) == OfferedOne(db, offered, m, offer)
  {
  }

  lemma {:induction false} PersistFirstKeepsBest(db: Db, offered: Offered, m: MeetingId, offers: seq<Offer>, count: nat)
    requires BestKept(db.candidates, db.speakers, offered) && count <= |offers|
    ensures BestKept(PersistFirst(db, m, offers, count).candidates, db.speakers,
                     OfferedFirst(db, offered, m, offers, count))
  {
    if count > 0 {
      PersistFirstKeepsBest(db, offered, m, offers, count - 1);
      PersistFirstTouchesCandidates(db, m, offers, count - 1);
      var before, earlier := PersistFirst(db, m, offers, count - 1), OfferedFirst(db, offered, m, offers, count - 1);
      PersistKeepsBest(before, earlier, m, offers[count - 1]);
      OfferSeesSpeakersAndRules(db, before, earlier, m, offers[count - 1]);
    }
  }

  lemma {:induction false} OffersSeeSpeakersAndRules(db: Db, after: Db, offered: Offered, m: MeetingId,
                                                     offers: seq<Offer>, count: nat)
    requires after.speakers == db.speakers && after.rules == db.rules && count <= |offers|
    ensures OfferedFirst(after, offered, m, offers, count) == OfferedFirst(db, offered, m, offers, count)
  {
    if count > 0 {
      OffersSeeSpeakersAndRules(db, after, offered, m, offers, count - 1);
    }
  }

  ghost predicate IdentitiesKept(speakers: map<SpeakerId, Speaker>, after: map<SpeakerId, Speaker>) {
    forall id :: id in speakers ==> id in after && KeepsIdentity(speakers[id], after[id])
  }

  /** Imports lose no speaker, move none between meetings, and touch no candidate. */
  ghost predicate SpeakersStayPut(db: Db, after: Db) {
    after.candidates == db.candidates && IdentitiesKept(db.speakers, after.speakers)
  }

  lemma StepKeepsSpeakersPut(db: Db, after: Db, m: MeetingId, out: OutputId, t: ArtifactTurn, claim: Option<TurnId>)
    requires ImportStep(db, after, m, out, t, claim)
    ensures SpeakersStayPut(db, after)
  {
  }

  lemma StayingPutTwice(db: Db, between: Db, after: Db)
    requires SpeakersStayPut(db, between) && SpeakersStayPut(between, after)
    ensures SpeakersStayPut(db, after)
  {
  }

  lemma {:induction false} TraceKeepsSpeakersPut(states: seq<Db>, m: MeetingId, out: OutputId, artifact: seq<ArtifactTurn>,
                                                 claims: seq<Option<TurnId>>, count: nat)
    requires ImportTrace(states, m, out, artifact, claims, count)
    ensures SpeakersStayPut(states[0], states[count])
  {
    if count > 0 {
      TraceShortens(states, m, out, artifact, claims, count);
      TraceKeepsSpeakersPut(states[..count], m, out, artifact, claims, count - 1);
      StepKeepsSpeakersPut(states[count - 1], states[count], m, out, artifact[count - 1], claims[count - 1]);
      StayingPutTwice(states[0], states[count - 1], states[count]);
    }
  }

  lemma CommitKeepsBest(w: World, m: MeetingId, out: OutputId, matches: Matches, artifact: seq<ArtifactTurn>,
                        claims: seq<Option<TurnId>>, offers: seq<Offer>)
    requires Sound(w) && CommitSucceeds(w.db, m, out, matches, artifact, claims, offers)
    ensures var after := Commit(w.db, m, out, matches, artifact, claims, offers).value;
            BestKept(after.candidates, after.speakers, OfferedFirst(after, w.offered, m, offers, |offers|))
  {
    var promoted := Promote(w.db, m, out);
    PromoteKeepsInvariant(w.db, w.history, m, out);
    var states := ImportHasTrace(promoted, m, out, matches, artifact, claims, |artifact|);
    TraceKeepsSpeakersPut(states, m, out, artifact, claims, |artifact|);
    var imported := ImportFirst(promoted, m, out, matches, artifact, claims, |artifact|).value;
    ImportFirstKeepsInvariant(promoted, w.history, m, out, matches, artifact, claims, |artifact|);
    OtherSpeakersKeepBest(promoted.candidates, promoted.speakers, imported.speakers, w.offered);
    PersistFirstKeepsBest(imported, w.offered, m, offers, |offers|);
    PersistFirstTouchesCandidates(imported, m, offers, |offers|);
    OffersSeeSpeakersAndRules(imported, Commit(w.db, m, out, matches, artifact, claims, offers).value,
                              w.offered, m, offers, |offers|);
  }

  lemma PromotedHaveCanonical(db: Db, committed: set<MeetingId>, m: MeetingId, out: OutputId)
    requires CommittedHaveCanonical(db.outputs, committed) && out !in db.outputs
    ensures CommittedHaveCanonical(Promote(db, m, out).outputs, committed + {m})
  {
    var after := Promote(db, m, out).outputs;
    forall other | other in committed + {m} ensures HasCanonical(after, other) {
      if other == m {
        assert after[out] == Output(m, true);
      } else {
        assert HasCanonical(db.outputs, other);
        var id :| id in db.outputs && db.outputs[id].meeting == other && db.outputs[id].canonical;
        assert after[id] == db.outputs[id];
      }
    }
  }

  lemma CommitIsSound(w: World, m: MeetingId, out: OutputId, matches: Matches, artifact: seq<ArtifactTurn>,
                      claims: seq<Option<TurnId>>, offers: seq<Offer>)
    requires Sound(w) && CommitSucceeds(w.db, m, out, matches, artifact, claims, offers)
    ensures Sound(Apply(w, CommitResult(m, out, matches, artifact, claims, offers)))
  {
    CommitKeepsInvariant(w.db, w.history, m, out, matches, artifact, claims, offers);
    CommitKeepsBest(w, m, out, matches, artifact, claims, offers);
    CommitLeavesOneCanonical(w.db, w.history, m, out, matches, artifact, claims, offers);
    PromotedHaveCanonical(w.db, w.committed, m, out);
    Applied(w, CommitResult(m, out, matches, artifact, claims, offers));
  }

  /** Commands of the user that reach turns; the others only relabel speakers. */
  predicate TouchesRows(command: Command) {
    command.DeleteMeeting? || command.MergeSpeakers? || command.EditTurn? || command.MarkTurn?
  }

  lemma HousekeepingIsSound(w: World, command: Command)
    requires Sound(w) && Possible(w.db, command) && Outcome(w.db, command).Ok? && KeepsHouse(command)
    ensures Sound(Apply(w, command))
  {
    Applied(w, command);
    match command {
      case NewProfile(profile, name) => NewProfileIsSound(w, profile, name);
      case DropProfile(profile) => DropProfileIsSound(w, profile);
      case MarkSpeaker(speaker, needsReview) => MarkSpeakerIsSound(w, speaker, needsReview);
      case MarkTurn(turn, needsReview) => MarkTurnIsSound(w, turn, needsReview);
    }
  }

  lemma RowCommandIsSound(w: World, command: Command)
    requires Sound(w) && Possible(w.db, command) && Outcome(w.db, command).Ok?
    requires command.DeleteMeeting? || command.MergeSpeakers? || command.EditTurn?
    ensures Sound(Apply(w, command))
  {
    Applied(w, command);
    match command {
      case DeleteMeeting(m) => DeleteMeetingIsSound(w, m);
      case MergeSpeakers(m, source, target) => MergeIsSound(w, m, source, target);
      case EditTurn(turn, submitted, expected) => EditIsSound(w, turn, submitted, expected);
    }
  }

  /** The commands that may learn a voice. */
  lemma LearningCommandIsSound(w: World, command: Command)
    requires Sound(w) && Possible(w.db, command) && Outcome(w.db, command).Ok?
    requires command.RenameSpeaker? || command.ConfirmVoice?
    ensures Sound(Apply(w, command))
  {
    Applied(w, command);
    match command {
      case RenameSpeaker(m, speaker, name, profile, sample) => RenameIsSound(w, m, speaker, name, profile, sample);
      case ConfirmVoice(m, speaker, profile, sample) => ConfirmIsSound(w, m, speaker, profile, sample);
    }
  }

  lemma LabelCommandIsSound(w: World, command: Command)
    requires Sound(w) && Possible(w.db, command) && Outcome(w.db, command).Ok?
    requires command.CreateMeeting? || command.SuggestName? || command.JudgeMatch?
    ensures Sound(Apply(w, command))
  {
    Applied(w, command);
    match command {
      case CreateMeeting(m) => CreateMeetingIsSound(w, m);
      case SuggestName(m, speaker, name) => SuggestIsSound(w, m, speaker, name);
      case JudgeMatch(speaker, accepted) => JudgeIsSound(w, speaker, accepted);
    }
  }

  lemma ApplyKeepsSound(w: World, command: Command)
    requires Sound(w)
    ensures Sound(Apply(w, command))
  {
    if Possible(w.db, command) && Outcome(w.db, command).Ok? {
      if command.CommitResult? {
        CommitIsSound(w, command.m, command.out, command.matches, command.artifact, command.claims, command.offers);
      } else if KeepsHouse(command) {
        HousekeepingIsSound(w, command);
      } else if TouchesRows(command) {
        RowCommandIsSound(w, command);
      } else if command.RenameSpeaker? || command.ConfirmVoice? {
        LearningCommandIsSound(w, command);
      } else {
        LabelCommandIsSound(w, command);
      }
    }
  }

  /** What every allowed command keeps, every run of allowed commands keeps. */
  lemma {:induction false} RunInduction(kept: World -> bool, allowed: Command -> bool, w: World, commands: seq<Command>)
    requires kept(w) && forall i :: 0 <= i < |commands| ==> allowed(commands[i])
    requires forall v, command {:trigger Apply(v, command)} :: kept(v) && allowed(command) ==> kept(Apply(v, command))
    ensures kept(Run(w, commands))
    decreases |commands|
  {
    if commands != [] {
      assert kept(w) && allowed(commands[0]);
      RunInduction(kept, allowed, Apply(w, commands[0]), commands[1..]);
    }
  }

  lemma RunKeepsSound(w: World, commands: seq<Command>)
    requires Sound(w)
    ensures Sound(Run(w, commands))
  {
    forall v, command | Sound(v) ensures Sound(Apply(v, command)) {
      ApplyKeepsSound(v, command);
    }
    RunInduction(v => Sound(v), _ => true, w, commands);
  }

  // ---------------------------------------------------------------------------------------
  // Main results, over every run from an empty library
  // ---------------------------------------------------------------------------------------

  ghost function Reached(commands: seq<Command>): World {
    Run(EMPTY_WORLD, commands)
  }

  lemma ReachedIsSound(commands: seq<Command>)
    ensures Sound(Reached(commands))
  {
    EmptyWorldIsSound();
    RunKeepsSound(EMPTY_WORLD, commands);
  }

  /**
   An import sends every cluster to the speaker reached by following the meeting's merges one by
   one. A ruled cluster leads to a live speaker of its meeting, and labels no live speaker itself.
   */
  lemma RulesAreACompressedUnionFind(commands: seq<Command>, key: RuleKey, id: SpeakerId)
    ensures var w := Reached(commands);
            && Resolve(w.db.rules, key) == Follow(Past(w.history, key.meeting), SpeakerOf(key.meeting, key.cluster))
            && (key in w.db.rules ==> Belongs(w.db, key.meeting, w.db.rules[key]))
            && (key in w.db.rules && id in w.db.speakers ==>
                  !(w.db.speakers[id].meeting == key.meeting && w.db.speakers[id].cluster == key.cluster))
  {
    var w := Reached(commands);
    ReachedIsSound(commands);
    assert ResolvesAt(w.db.rules, w.history, key);
    if key in w.db.rules && id in w.db.speakers {
      NoRuledClusterLabelsALiveSpeaker(w.db, w.history, key, id);
    }
  }

  /** The revision rows of a turn are exactly 1..revision, chained, and replay to its text. */
  lemma LogReplaysToTheText(commands: seq<Command>, id: TurnId, n: nat)
    requires id in Reached(commands).db.turns
    ensures var db := Reached(commands).db;
            && (RevisionKey(id, n) in db.revisions <==> 1 <= n <= db.turns[id].revision)
            && (RevisionKey(id, n) in db.revisions ==>
                  db.revisions[RevisionKey(id, n)].prior == Replayed(db.revisions, id, n - 1))
            && db.turns[id].editedText == Replayed(db.revisions, id, db.turns[id].revision)
  {
    ReachedIsSound(commands);
    var db := Reached(commands).db;
    assert Logged(db.revisions, id, db.turns[id]);
    assert 1 <= n <= db.turns[id].revision ==> Continues(db.revisions, id, n);
  }

  /** Search finds each turn once, under its own meeting and shown text, and nothing else. */
  lemma IndexHasOneRowPerTurn(commands: seq<Command>)
    ensures var db := Reached(commands).db;
            && (forall id :: id in db.turns ==> Indexed(db.index, id))
            && (forall row :: row in db.index ==>
                  && db.index[row].turn in db.turns
                  && db.index[row].meeting == db.turns[db.index[row].turn].meeting
                  && db.index[row].content == db.turns[db.index[row].turn].editedText.GetOr(db.turns[db.index[row].turn].modelText))
            && (forall row, other | row in db.index && other in db.index :: db.index[row].turn == db.index[other].turn ==>
                  row == other)
  {
    ReachedIsSound(commands);
  }

  /** A speaker's candidate is the longest of those offered to it since it was last consumed. */
  lemma CandidateIsTheLongestOffered(commands: seq<Command>, speaker: SpeakerId)
    requires speaker in Reached(commands).db.speakers
    ensures var w := Reached(commands);
            var kept := Lookup(w.db.candidates, CandidateKey(w.db.speakers[speaker].meeting, speaker));
            && (kept.None? <==> OffersTo(w.offered, speaker) == {})
            && (kept.Some? ==>
                  && kept.value in OffersTo(w.offered, speaker)
                  && forall other :: other in OffersTo(w.offered, speaker) ==> other.cleanMs <= kept.value.cleanMs)
  {
    ReachedIsSound(commands);
    assert BestKeptFor(Reached(commands).db.candidates, Reached(commands).db.speakers, Reached(commands).offered, speaker);
  }

  /** A committed meeting has exactly one canonical output; every meeting has at most one. */
  lemma CommittedMeetingHasOneCanonical(commands: seq<Command>, m: MeetingId) returns (out: OutputId)
    requires m in Reached(commands).committed
    ensures var outputs := Reached(commands).db.outputs;
            && out in outputs && outputs[out].meeting == m && outputs[out].canonical
            && forall id :: id in outputs && outputs[id].meeting == m && outputs[id].canonical ==> id == out
  {
    ReachedIsSound(commands);
    var outputs := Reached(commands).db.outputs;
    assert HasCanonical(outputs, m);
    out :| out in outputs && outputs[out].meeting == m && outputs[out].canonical;
  }

  // ---------------------------------------------------------------------------------------
  // Human work survives everything but the user's own commands
  // ---------------------------------------------------------------------------------------

  /** The user's own commands on a turn: correcting it and deleting its meeting. */
  predicate Touches(command: Command, id: TurnId, m: MeetingId) {
    (command.EditTurn? && command.turn == id) || (command.DeleteMeeting? && command.m == m)
  }

  /** The correction of a turn, if it has one. */
  function CorrectionOf(db: Db, id: TurnId): Option<Correction> {
    Lookup(EditsOf(db.turns), id)
  }

  ghost predicate SameCorrection(turns: map<TurnId, Turn>, after: map<TurnId, Turn>, id: TurnId) {
    && id in turns && id in after
    && after[id].editedText == turns[id].editedText
    && after[id].revision == turns[id].revision
    && after[id].meeting == turns[id].meeting
  }

  lemma EditingAnotherTurnKeeps(db: Db, other: TurnId, submitted: string, expected: Option<nat>, id: TurnId)
    requires Edit(db, other, submitted, expected).Ok? && id != other && id in db.turns
    ensures SameCorrection(db.turns, Edit(db, other, submitted, expected).value.turns, id)
  {
  }

  lemma DeletingAnotherMeetingKeeps(db: Db, gone: MeetingId, id: TurnId)
    requires id in db.turns && db.turns[id].meeting != gone
    ensures SameCorrection(db.turns, DeleteMeetingRows(db, gone).turns, id)
  {
  }

  lemma LearningTouchesNoTurn(db: Db, m: MeetingId, speaker: SpeakerId, name: string, profile: ProfileId, sample: SampleId)
    ensures Learned(WithProfile(db, profile, name), m, speaker, profile, sample).turns == db.turns
  {
    var profiled := WithProfile(db, profile, name);
    assert profiled.turns == db.turns;
    if CandidateKey(m, speaker) in profiled.candidates {
      assert Consumed(profiled, m, speaker, profile, sample).turns == db.turns;
    }
  }

  lemma RenamingTouchesNoTurn(db: Db, m: MeetingId, speaker: SpeakerId, name: string, profile: ProfileId, sample: SampleId)
    requires Rename(db, m, speaker, name, profile, sample).Ok?
    ensures Rename(db, m, speaker, name, profile, sample).value.turns == db.turns
  {
    var trimmed := SpeakerNames.Trim(name);
    if AttachesProfile(db.speakers[speaker]) {
      LearningTouchesNoTurn(db, m, speaker, trimmed, profile, sample);
      assert NamedAndLearned(db, m, speaker, trimmed, profile, sample).turns == db.turns;
    }
  }

  lemma ConfirmingTouchesNoTurn(db: Db, m: MeetingId, speaker: SpeakerId, profile: ProfileId, sample: SampleId)
    requires ConfirmSample(db, m, speaker, profile, sample).Ok?
    ensures ConfirmSample(db, m, speaker, profile, sample).value.turns == db.turns
  {
  }

  lemma JudgingTouchesNoTurn(db: Db, speaker: SpeakerId, accepted: bool)
    requires ReviewMatch(db, speaker, accepted).Ok?
    ensures ReviewMatch(db, speaker, accepted).value.turns == db.turns
  {
  }

  lemma MergingKeepsCorrection(db: Db, m: MeetingId, source: SpeakerId, target: SpeakerId, id: TurnId)
    requires Merge(db, m, source, target).Ok? && id in db.turns
    ensures SameCorrection(db.turns, Merge(db, m, source, target).value.turns, id)
  {
    assert Merge(db, m, source, target).value.turns == MovedTurns(db.turns, source, target);
  }

  lemma MarkingKeepsCorrection(db: Db, turn: TurnId, needsReview: bool, id: TurnId)
    requires FlagTurn(db, turn, needsReview).Ok? && id in db.turns
    ensures SameCorrection(db.turns, FlagTurn(db, turn, needsReview).value.turns, id)
  {
  }

  lemma LabelCommandsTouchNoTurn(db: Db, command: Command)
    requires !TouchesRows(command) && !command.CommitResult? && Outcome(db, command).Ok?
    ensures Outcome(db, command).value.turns == db.turns
  {
    if command.RenameSpeaker? {
      RenamingTouchesNoTurn(db, command.m, command.speaker, command.name, command.profile, command.sample);
    } else if command.ConfirmVoice? {
      ConfirmingTouchesNoTurn(db, command.m, command.speaker, command.profile, command.sample);
    } else if command.JudgeMatch? {
      JudgingTouchesNoTurn(db, command.speaker, command.accepted);
    }
  }

  lemma RowCommandsKeepCorrection(db: Db, command: Command, id: TurnId)
    requires id in db.turns && TouchesRows(command) && Outcome(db, command).Ok?
    requires !Touches(command, id, db.turns[id].meeting)
    ensures SameCorrection(db.turns, Outcome(db, command).value.turns, id)
  {
    if command.DeleteMeeting? {
      DeletingAnotherMeetingKeeps(db, command.m, id);
    } else if command.MergeSpeakers? {
      MergingKeepsCorrection(db, command.m, command.source, command.target, id);
    } else if command.MarkTurn? {
      MarkingKeepsCorrection(db, command.turn, command.needsReview, id);
    } else {
      EditingAnotherTurnKeeps(db, command.turn, command.submitted, command.expected, id);
    }
  }

  lemma SameCorrectionReads(db: Db, after: Db, id: TurnId)
    requires SameCorrection(db.turns, after.turns, id)
    ensures CorrectionOf(after, id) == CorrectionOf(db, id)
  {
  }

  lemma OtherOutcomesKeepCorrection(db: Db, command: Command, id: TurnId)
    requires CorrectionOf(db, id).Some? && !command.CommitResult? && Outcome(db, command).Ok?
    requires !Touches(command, id, CorrectionOf(db, id).value.meeting)
    ensures CorrectionOf(Outcome(db, command).value, id) == CorrectionOf(db, id)
  {
    if TouchesRows(command) {
      RowCommandsKeepCorrection(db, command, id);
    } else {
      LabelCommandsTouchNoTurn(db, command);
    }
    SameCorrectionReads(db, Outcome(db, command).value, id);
  }

  lemma UserCommandKeepsCorrection(w: World, command: Command, id: TurnId)
    requires CorrectionOf(w.db, id).Some? && !command.CommitResult?
    requires !Touches(command, id, CorrectionOf(w.db, id).value.meeting)
    ensures CorrectionOf(Apply(w, command).db, id) == CorrectionOf(w.db, id)
  {
    if Possible(w.db, command) && Outcome(w.db, command).Ok? {
      OtherOutcomesKeepCorrection(w.db, command, id);
    }
  }

  lemma CommitKeepsCorrection(w: World, command: Command, id: TurnId)
    requires Sound(w) && command.CommitResult?
    ensures CorrectionOf(Apply(w, command).db, id) == CorrectionOf(w.db, id)
  {
    if Possible(w.db, command) && Outcome(w.db, command).Ok? {
      CommitConservesEdits(w.db, w.history, command.m, command.out, command.matches, command.artifact,
                           command.claims, command.offers);
    }
  }

  lemma OtherCommandsKeepCorrection(w: World, command: Command, id: TurnId)
    requires Sound(w) && CorrectionOf(w.db, id).Some?
    requires !Touches(command, id, CorrectionOf(w.db, id).value.meeting)
    ensures CorrectionOf(Apply(w, command).db, id) == CorrectionOf(w.db, id)
  {
    if command.CommitResult? {
      CommitKeepsCorrection(w, command, id);
    } else {
      UserCommandKeepsCorrection(w, command, id);
    }
  }

  ghost predicate Corrected(w: World, id: TurnId, correction: Option<Correction>) {
    Sound(w) && CorrectionOf(w.db, id) == correction
  }

  lemma CommandKeepsCorrected(w: World, command: Command, id: TurnId, correction: Option<Correction>)
    requires Corrected(w, id, correction) && correction.Some? && !Touches(command, id, correction.value.meeting)
    ensures Corrected(Apply(w, command), id, correction)
  {
    OtherCommandsKeepCorrection(w, command, id);
    ApplyKeepsSound(w, command);
  }

  ghost predicate Untouched(commands: seq<Command>, id: TurnId, m: MeetingId) {
    forall i :: 0 <= i < |commands| ==> !Touches(commands[i], id, m)
  }

  /** Over any run in which the user does not touch a corrected turn, its correction stays. */
  lemma CorrectionsSurvive(w: World, commands: seq<Command>, id: TurnId)
    requires Sound(w) && CorrectionOf(w.db, id).Some?
    requires Untouched(commands, id, CorrectionOf(w.db, id).value.meeting)
    ensures CorrectionOf(Run(w, commands).db, id) == CorrectionOf(w.db, id)
  {
    var correction := CorrectionOf(w.db, id);
    var allowed := (command: Command) => !Touches(command, id, correction.value.meeting);
    forall v, command | Corrected(v, id, correction) && allowed(command) ensures Corrected(Apply(v, command), id, correction) {
      CommandKeepsCorrected(v, command, id, correction);
    }
    RunInduction(v => Corrected(v, id, correction), allowed, w, commands);
  }

  /** What a turn shows, in the transcript and in search, is a submitted text without the spaces around it. */
  ghost predicate ShowsText(db: Db, id: TurnId, submitted: string) {
    && id in db.turns && db.turns[id].editedText.Some?
    && SpeakerNames.WithoutSpacesAround(submitted, db.turns[id].editedText.value)
    && exists row :: row in db.index && db.index[row] == IndexRow(id, db.turns[id].meeting, db.turns[id].editedText.value)
  }

  lemma CorrectedTurnsAreFound(db: Db, id: TurnId, submitted: string)
    requires IndexAgrees(db) && id in db.turns && db.turns[id].editedText.Some?
    requires SpeakerNames.WithoutSpacesAround(submitted, db.turns[id].editedText.value)
    ensures ShowsText(db, id, submitted)
  {
    assert Indexed(db.index, id);
    var row :| row in db.index && db.index[row].turn == id;
    assert db.index[row] == RowFor(id, db.turns[id]);
  }

  lemma AnAcceptedCorrectionIsMade(w: World, id: TurnId, submitted: string, expected: Option<nat>)
    requires Sound(w) && Edit(w.db, id, submitted, expected).Ok? && !SpeakerNames.AllSpaces(submitted)
    ensures var after := Apply(w, EditTurn(id, submitted, expected));
            && Sound(after) && CorrectionOf(after.db, id).Some?
            && CorrectionOf(after.db, id).value.meeting == w.db.turns[id].meeting
            && SpeakerNames.WithoutSpacesAround(submitted, CorrectionOf(after.db, id).value.text)
  {
    EditStoresTheText(w.db, id, submitted, expected);
    ApplyKeepsSound(w, EditTurn(id, submitted, expected));
    Applied(w, EditTurn(id, submitted, expected));
  }

  /**
   Once a correction is accepted, and until the user touches the turn again, its text is what the transcript and search
   show, whatever is imported, merged, named or deleted meanwhile.
   */
  lemma TheLastCorrectionIsShown(w: World, id: TurnId, submitted: string, expected: Option<nat>, commands: seq<Command>)
    requires Sound(w) && Edit(w.db, id, submitted, expected).Ok? && !SpeakerNames.AllSpaces(submitted)
    requires Untouched(commands, id, w.db.turns[id].meeting)
    ensures ShowsText(Run(Apply(w, EditTurn(id, submitted, expected)), commands).db, id, submitted)
  {
    var corrected := Apply(w, EditTurn(id, submitted, expected));
    AnAcceptedCorrectionIsMade(w, id, submitted, expected);
    CorrectionsSurvive(corrected, commands, id);
    RunKeepsSound(corrected, commands);
    CorrectedTurnsAreFound(Run(corrected, commands).db, id, submitted);
  }

  /** Steps the host takes by itself: importing a result and proposing a name seen on screen. */
  predicate Automatic(command: Command) {
    command.CommitResult? || command.SuggestName?
  }

  lemma CommitKeepsIdentities(w: World, m: MeetingId, out: OutputId, matches: Matches, artifact: seq<ArtifactTurn>,
                              claims: seq<Option<TurnId>>, offers: seq<Offer>)
    requires CommitSucceeds(w.db, m, out, matches, artifact, claims, offers)
    ensures IdentitiesKept(w.db.speakers, Commit(w.db, m, out, matches, artifact, claims, offers).value.speakers)
  {
    var promoted := Promote(w.db, m, out);
    var states := ImportHasTrace(promoted, m, out, matches, artifact, claims, |artifact|);
    TraceKeepsSpeakersPut(states, m, out, artifact, claims, |artifact|);
    var imported := ImportFirst(promoted, m, out, matches, artifact, claims, |artifact|).value;
    PersistFirstTouchesCandidates(imported, m, offers, |offers|);
  }

  lemma SuggestKeepsIdentities(db: Db, m: MeetingId, speaker: SpeakerId, name: string)
    ensures IdentitiesKept(db.speakers, Suggest(db, m, speaker, name).speakers)
  {
  }

  lemma AutomaticStepKeepsIdentities(w: World, command: Command)
    requires Automatic(command)
    ensures IdentitiesKept(w.db.speakers, Apply(w, command).db.speakers)
  {
    if command.SuggestName? {
      SuggestKeepsIdentities(w.db, command.m, command.speaker, command.name);
    } else if Possible(w.db, command) && Outcome(w.db, command).Ok? {
      CommitKeepsIdentities(w, command.m, command.out, command.matches, command.artifact, command.claims, command.offers);
    }
  }

  ghost predicate Identified(w: World, speakers: map<SpeakerId, Speaker>) {
    Sound(w) && IdentitiesKept(speakers, w.db.speakers)
  }

  lemma KeptIdentitiesAreKept(speakers: map<SpeakerId, Speaker>, between: map<SpeakerId, Speaker>,
                              after: map<SpeakerId, Speaker>)
    requires IdentitiesKept(speakers, between) && IdentitiesKept(between, after)
    ensures IdentitiesKept(speakers, after)
  {
  }

  lemma AutomaticStepKeepsIdentified(w: World, command: Command, speakers: map<SpeakerId, Speaker>)
    requires Identified(w, speakers) && Automatic(command)
    ensures Identified(Apply(w, command), speakers)
  {
    AutomaticStepKeepsIdentities(w, command);
    ApplyKeepsSound(w, command);
    KeptIdentitiesAreKept(speakers, w.db.speakers, Apply(w, command).db.speakers);
  }

  /** No run of automatic steps renames, reattaches or downgrades a matched or review speaker. */
  lemma AutomaticRunsKeepIdentities(w: World, commands: seq<Command>)
    requires Sound(w) && forall i :: 0 <= i < |commands| ==> Automatic(commands[i])
    ensures IdentitiesKept(w.db.speakers, Run(w, commands).db.speakers)
  {
    var speakers := w.db.speakers;
    forall v, command | Identified(v, speakers) && Automatic(command) ensures Identified(Apply(v, command), speakers) {
      AutomaticStepKeepsIdentified(v, command, speakers);
    }
    RunInduction(v => Identified(v, speakers), command => Automatic(command), w, commands);
  }
}
