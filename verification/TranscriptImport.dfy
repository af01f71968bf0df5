/**
 Importing a canonical transcript (job_coordinator.rs: import_turn, persist_speaker_candidate and
 the transaction of commit_canonical_result).

 Where the source takes the first row of an ordered query, ties may fall either way. The row
 taken is a parameter here, `claim`, and BestClaim says which rows the query may return.
 */
module TranscriptImport {
  import opened Wrappers
  import opened Tables
  import opened SpeakerNames
  import opened SpeakerMerge

  /** What the worker's matching reports for a cluster. An unrecognised state reads Unknown. */
  datatype Reported = Reported(name: Option<string>, state: Option<MatchState>, profile: Option<ProfileId>)

  type Matches = map<ClusterLabel, Reported>

  datatype ArtifactWord = ArtifactWord(id: string, startMs: int, endMs: int, text: string)

  datatype ArtifactTurn =
    | MalformedTurn
    | ArtifactTurn(
        id: string,
        cluster: ClusterLabel,
        speakerName: Option<string>,
        speakerState: Option<MatchState>,
        needsReview: Option<bool>,
        startMs: int,
        endMs: int,
        modelText: string,
        words: seq<ArtifactWord>)

  datatype Offer = Offer(cluster: ClusterLabel, cleanMs: int, embedding: Embedding)

  // ---------------------------------------------------------------------------------------
  // The speaker row of a cluster
  // ---------------------------------------------------------------------------------------

  function OrElse<T>(first: Option<T>, second: Option<T>): Option<T> {
    if first.Some? then first else second
  }

  function ReportedFor(matches: Matches, a: ArtifactTurn): Reported
    requires a.ArtifactTurn?
  {
    if a.cluster in matches then matches[a.cluster] else Reported(None, None, None)
  }

  function StateOf(matches: Matches, a: ArtifactTurn): MatchState
    requires a.ArtifactTurn?
  {
    OrElse(ReportedFor(matches, a).state, a.speakerState).GetOr(Unknown)
  }

  const ISOLATED := "isolated:"

  function NeedsReview(matches: Matches, a: ArtifactTurn): bool
    requires a.ArtifactTurn?
  {
    a.needsReview.GetOr(!StateOf(matches, a).Matched?)
  }

  function ProposedSpeaker(db: Db, m: MeetingId, matches: Matches, a: ArtifactTurn): Speaker
    requires a.ArtifactTurn?
  {
    var state := StateOf(matches, a);
    var proposed := OrElse(ReportedFor(matches, a).name, a.speakerName).GetOr("Unknown");
    var wanted := ReportedFor(matches, a).profile;
    var profile := if !state.Unknown? && wanted.Some? && wanted.value in db.profiles then wanted else None;
    var source := if profile.Some? then FromVoice else if ISOLATED <= a.cluster then FromIsolatedSource else FromNothing;
    var confidence :=
      if source == FromIsolatedSource || (source == FromVoice && state.Matched?) then Some(High)
      else if source == FromVoice && state.Review? then Some(ForReview)
      else None;
    Speaker(m, a.cluster, if state.Matched? then proposed else DefaultName(a.cluster),
            profile, state, NeedsReview(matches, a), source, confidence)
  }

  /** The pattern 'Speaker [0-9]*'. */
  predicate LooksNumbered(name: string) {
    PREFIX <= name && |name| > |PREFIX| && IsDigit(name[|PREFIX|])
  }

  /** What the upsert makes of an existing row: only an anonymous one takes the new identity. */
  function Refreshed(row: Speaker, proposed: Speaker): Speaker {
    var open := row.state.Unknown? && (IsPlaceholder(row.name) || LooksNumbered(row.name));
    var named := if open then
                   row.(name := proposed.name, profile := proposed.profile, state := proposed.state,
                        needsReview := proposed.needsReview)
                 else row;
    if row.state.Unknown? && row.source.FromNothing? then
      named.(source := proposed.source, confidence := proposed.confidence)
    else named
  }

  predicate ClusterTaken(db: Db, m: MeetingId, cluster: ClusterLabel) {
    exists id :: id in db.speakers && db.speakers[id].meeting == m && db.speakers[id].cluster == cluster
  }

  /** The speaker table after the upsert, which a cluster with a merge rule skips. */
  function AdmittedSpeakers(db: Db, m: MeetingId, cluster: ClusterLabel, row: Speaker)
    : Result<map<SpeakerId, Speaker>, Rejection>
  {
    var id := SpeakerOf(m, cluster);
    if RuleKey(m, cluster) in db.rules then Ok(db.speakers)
    else if id in db.speakers then
      if db.speakers[id].meeting != m || db.speakers[id].cluster != cluster then Err(ConstraintViolation)
      else Ok(db.speakers[id := Refreshed(db.speakers[id], row)])
    else if m !in db.meetings || ClusterTaken(db, m, cluster) then Err(ConstraintViolation)
    else Ok(db.speakers[id := row])
  }

  function AdmitSpeaker(db: Db, m: MeetingId, matches: Matches, a: ArtifactTurn): Result<Db, Rejection>
    requires a.ArtifactTurn?
  {
    var speakers := AdmittedSpeakers(db, m, a.cluster, ProposedSpeaker(db, m, matches, a));
    if speakers.Err? then Err(speakers.error) else Ok(db.(speakers := speakers.value))
  }

  // ---------------------------------------------------------------------------------------
  // Which edited turn an artifact turn reattaches to
  // ---------------------------------------------------------------------------------------

  function Min(a: int, b: int): int { if a <= b then a else b }
  function Max(a: int, b: int): int { if a >= b then a else b }
  function Abs(a: int): int { if a >= 0 then a else -a }

  function Overlap(turn: Turn, startMs: int, endMs: int): int {
    Min(turn.endMs, endMs) - Max(turn.startMs, startMs)
  }

  /** An edited turn of the same speaker, from another output, that shares half of the shorter. */
  predicate Claimable(turn: Turn, m: MeetingId, speaker: SpeakerId, out: OutputId, startMs: int, endMs: int) {
    && turn.meeting == m
    && turn.speaker == Some(speaker)
    && turn.editedText.Some?
    && turn.output != Some(out)
    && turn.startMs < endMs && turn.endMs > startMs
    && Overlap(turn, startMs, endMs) * 2 >= Min(turn.endMs - turn.startMs, endMs - startMs)
  }

  function Closeness(turn: Turn, startMs: int, endMs: int): real {
    Overlap(turn, startMs, endMs) as real / Max(1, Max(turn.endMs, endMs) - Min(turn.startMs, startMs)) as real
  }

  /** The order of the query: closest first, then the nearest start. */
  predicate RanksBefore(turn: Turn, other: Turn, startMs: int, endMs: int) {
    || Closeness(turn, startMs, endMs) > Closeness(other, startMs, endMs)
    || (Closeness(turn, startMs, endMs) == Closeness(other, startMs, endMs)
        && Abs(turn.startMs - startMs) < Abs(other.startMs - startMs))
  }

  predicate Beats(turns: map<TurnId, Turn>, id: TurnId, best: TurnId, m: MeetingId, speaker: SpeakerId,
                  out: OutputId, startMs: int, endMs: int)
    requires id in turns && best in turns
  {
    Claimable(turns[id], m, speaker, out, startMs, endMs) && RanksBefore(turns[id], turns[best], startMs, endMs)
  }

  predicate BestClaim(turns: map<TurnId, Turn>, m: MeetingId, speaker: SpeakerId, out: OutputId,
                      startMs: int, endMs: int, claim: Option<TurnId>)
  {
    match claim
    case None =>
      forall id {:trigger Claimable(turns[id], m, speaker, out, startMs, endMs)} ::
        id in turns ==> !Claimable(turns[id], m, speaker, out, startMs, endMs)
    case Some(best) =>
      && best in turns
      && Claimable(turns[best], m, speaker, out, startMs, endMs)
      && forall id {:trigger Beats(turns, id, best, m, speaker, out, startMs, endMs)} ::
           id in turns ==> !Beats(turns, id, best, m, speaker, out, startMs, endMs)
  }

  /** The claims the query may return for an artifact turn. */
  predicate GoodClaim(db: Db, m: MeetingId, out: OutputId, a: ArtifactTurn, claim: Option<TurnId>) {
    a.ArtifactTurn? ==>
      BestClaim(db.turns, m, Resolve(db.rules, RuleKey(m, a.cluster)), out, a.startMs, a.endMs, claim)
  }

  // ---------------------------------------------------------------------------------------
  // One artifact turn
  // ---------------------------------------------------------------------------------------

  function Landing(m: MeetingId, a: ArtifactTurn, claim: Option<TurnId>): TurnId
    requires a.ArtifactTurn?
  {
    claim.GetOr(TurnOf(m, a.id))
  }

  function Overwritten(row: Turn, out: OutputId, speaker: SpeakerId, a: ArtifactTurn, review: bool): Turn
    requires a.ArtifactTurn?
  {
    row.(output := Some(out), speaker := Some(speaker), startMs := a.startMs, endMs := a.endMs,
         modelText := a.modelText,
         needsReview := if row.revision > 0 then row.needsReview else review)
  }

  /** The turn upsert. */
  function PlaceTurn(db: Db, m: MeetingId, out: OutputId, id: TurnId, speaker: SpeakerId, a: ArtifactTurn,
                     review: bool): Db
    requires a.ArtifactTurn?
  {
    if id in db.turns then RewriteTurn(db, id, Overwritten(db.turns[id], out, speaker, a, review))
    else InsertTurn(db, id, Turn(m, Some(out), Some(speaker), a.startMs, a.endMs, a.modelText, None, 0, review))
  }

  predicate BadTiming(startMs: int, endMs: int) {
    startMs < 0 || endMs < startMs
  }

  /** The first `count` words of an artifact turn, added to a table that has none of that turn. */
  function AddWords(words: map<WordId, Word>, m: MeetingId, a: ArtifactTurn, id: TurnId, speaker: SpeakerId, count: nat)
    : Result<map<WordId, Word>, Rejection>
    requires a.ArtifactTurn? && count <= |a.words|
  {
    if count == 0 then Ok(words)
    else
      var before := AddWords(words, m, a, id, speaker, count - 1);
      var word := a.words[count - 1];
      var key := WordOf(m, a.id + ":" + word.id);
      if before.Err? then before
      else if BadTiming(word.startMs, word.endMs) then Err(WorkerFault)
      else if key in before.value then Err(ConstraintViolation)
      else Ok(before.value[key := Word(id, Some(speaker), count - 1, word.startMs, word.endMs, word.text)])
  }

  function WordsElsewhere(words: map<WordId, Word>, id: TurnId): map<WordId, Word> {
    map word | word in words && words[word].turn != id :: words[word]
  }

  /** The turn upsert, and its words anew. */
  function TurnWritten(db: Db, m: MeetingId, out: OutputId, a: ArtifactTurn, id: TurnId, speaker: SpeakerId, review: bool)
    : Result<Db, Rejection>
    requires a.ArtifactTurn?
  {
    var words := AddWords(WordsElsewhere(db.words, id), m, a, id, speaker, |a.words|);
    if words.Err? then Err(words.error)
    else Ok(PlaceTurn(db, m, out, id, speaker, a, review).(words := words.value))
  }

  function ImportTurn(db: Db, m: MeetingId, out: OutputId, matches: Matches, a: ArtifactTurn, claim: Option<TurnId>)
    : Result<Db, Rejection>
  {
    if a.MalformedTurn? then Err(WorkerFault)
    else
      var admitted := AdmitSpeaker(db, m, matches, a);
      var speaker := Resolve(db.rules, RuleKey(m, a.cluster));
      if admitted.Err? then admitted
      else if BadTiming(a.startMs, a.endMs) then Err(WorkerFault)
      else if speaker !in admitted.value.speakers then Err(ConstraintViolation)
      else TurnWritten(admitted.value, m, out, a, Landing(m, a, claim), speaker, NeedsReview(matches, a))
  }

  // ---------------------------------------------------------------------------------------
  // The whole artifact
  // ---------------------------------------------------------------------------------------

  /** A step of a transaction: the tables and the position to the tables, or a rejection. */
  type Step = (Db, nat) -> Result<Db, Rejection>

  /** The first `count` steps, up to the first rejection. */
  function Steps(step: Step, db: Db, count: nat): Result<Db, Rejection> {
    if count == 0 then Ok(db)
    else
      var before := Steps(step, db, count - 1);
      if before.Err? then before else step(before.value, count - 1)
  }

  function ImportStepAt(m: MeetingId, out: OutputId, matches: Matches, artifact: seq<ArtifactTurn>,
                        claims: seq<Option<TurnId>>): Step
    requires |artifact| == |claims|
  {
    (db: Db, k: nat) =>
      if k < |artifact| then ImportTurn(db, m, out, matches, artifact[k], claims[k]) else Err(WorkerFault)
  }

  /** The first `count` turns of an artifact. */
  function ImportFirst(db: Db, m: MeetingId, out: OutputId, matches: Matches, artifact: seq<ArtifactTurn>,
                       claims: seq<Option<TurnId>>, count: nat): Result<Db, Rejection>
    requires count <= |artifact| == |claims|
  {
    Steps(ImportStepAt(m, out, matches, artifact, claims), db, count)
  }

  ghost predicate GoodClaimAt(db: Db, m: MeetingId, out: OutputId, matches: Matches, artifact: seq<ArtifactTurn>,
                              claims: seq<Option<TurnId>>, k: nat)
    requires k < |artifact| == |claims|
  {
    var before := ImportFirst(db, m, out, matches, artifact, claims, k);
    before.Ok? ==> GoodClaim(before.value, m, out, artifact[k], claims[k])
  }

  ghost predicate GoodClaims(db: Db, m: MeetingId, out: OutputId, matches: Matches, artifact: seq<ArtifactTurn>,
                             claims: seq<Option<TurnId>>, count: nat)
    requires count <= |artifact| == |claims|
  {
    forall k :: 0 <= k < count ==> GoodClaimAt(db, m, out, matches, artifact, claims, k)
  }

  /** A candidate replaces the one it is offered against unless that one has more clean speech. */
  function OfferedFor(candidates: map<CandidateKey, Candidate>, key: CandidateKey, offer: Offer)
    : map<CandidateKey, Candidate>
  {
    if key in candidates && offer.cleanMs < candidates[key].cleanMs then candidates
    else candidates[key := Candidate(offer.cluster, offer.cleanMs, offer.embedding)]
  }

  function PersistCandidate(db: Db, m: MeetingId, offer: Offer): Db {
    var speaker := Resolve(db.rules, RuleKey(m, offer.cluster));
    if speaker !in db.speakers || db.speakers[speaker].meeting != m then db
    else db.(candidates := OfferedFor(db.candidates, CandidateKey(m, speaker), offer))
  }

  function PersistFirst(db: Db, m: MeetingId, offers: seq<Offer>, count: nat): Db
    requires count <= |offers|
  {
    if count == 0 then db else PersistCandidate(PersistFirst(db, m, offers, count - 1), m, offers[count - 1])
  }

  function Demoted(outputs: map<OutputId, Output>, m: MeetingId): map<OutputId, Output> {
    map id | id in outputs :: if outputs[id].meeting == m then outputs[id].(canonical := false) else outputs[id]
  }

  function Promote(db: Db, m: MeetingId, out: OutputId): Db {
    db.(outputs := Demoted(db.outputs, m)[out := Output(m, true)])
  }

  /** A turn of the meeting that belongs to another output. A turn without output does not. */
  predicate Superseded(turn: Turn, m: MeetingId, out: OutputId) {
    turn.meeting == m && turn.output.Some? && turn.output != Some(out)
  }

  function Unedited(db: Db, m: MeetingId, out: OutputId): set<TurnId> {
    set id | id in db.turns && Superseded(db.turns[id], m, out) && db.turns[id].editedText.None?
  }

  function Flagged(turns: map<TurnId, Turn>, m: MeetingId, out: OutputId): map<TurnId, Turn> {
    map id | id in turns ::
      if Superseded(turns[id], m, out) then turns[id].(needsReview := true) else turns[id]
  }

  /** Superseded turns go if unedited, and are flagged for review if edited. */
  function Sweep(db: Db, m: MeetingId, out: OutputId): Db {
    var kept := DeleteTurns(db, Unedited(db, m, out));
    kept.(turns := Flagged(kept.turns, m, out))
  }

  function Commit(db: Db, m: MeetingId, out: OutputId, matches: Matches, artifact: seq<ArtifactTurn>,
                  claims: seq<Option<TurnId>>, offers: seq<Offer>): Result<Db, Rejection>
    requires |artifact| == |claims|
  {
    if out in db.outputs || m !in db.meetings then Err(ConstraintViolation)
    else
      var imported := ImportFirst(Promote(db, m, out), m, out, matches, artifact, claims, |artifact|);
      if imported.Err? then imported
      else Ok(Sweep(PersistFirst(imported.value, m, offers, |offers|), m, out))
  }
}
