/**
 What an imported turn makes of its speaker, its review flag and an earlier correction (src-tauri/src/job_coordinator.rs,
 import_turn), stated over the worker's report and the rows before and after: when a cluster shows a name and a profile,
 which rows an import may relabel, and that the same stretch of speech finds its correction again.
 */
module ImportedSpeakers {
  import opened Wrappers
  import opened Tables
  import opened SpeakerNames
  import opened SpeakerMerge
  import opened TranscriptImport
  import opened ReprocessingLaws

  // ---------------------------------------------------------------------------------------
  // The report
  // ---------------------------------------------------------------------------------------

  /** The worker says that the cluster is in a state; its matching is asked before the turn. */
  ghost predicate Reports(matches: Matches, a: ArtifactTurn, state: MatchState)
    requires a.ArtifactTurn?
  {
    if a.cluster in matches && matches[a.cluster].state.Some? then matches[a.cluster].state == Some(state)
    else a.speakerState == Some(state) || (a.speakerState.None? && state.Unknown?)
  }

  /** The report names a profile that exists here. */
  ghost predicate Recognises(db: Db, matches: Matches, cluster: ClusterLabel, profile: ProfileId) {
    cluster in matches && matches[cluster].profile == Some(profile) && profile in db.profiles
  }

  lemma ReportsOneState(matches: Matches, a: ArtifactTurn, state: MatchState)
    requires a.ArtifactTurn?
    ensures Reports(matches, a, state) <==> state == StateOf(matches, a)
  {
  }

  // ---------------------------------------------------------------------------------------
  // The row proposed for a cluster
  // ---------------------------------------------------------------------------------------

  /** A speaker who is only guessed at stays anonymous, whatever name the report proposes. */
  ghost predicate NamedOnlyIfMatched(row: Speaker, matches: Matches, a: ArtifactTurn)
    requires a.ArtifactTurn?
  {
    && (!Reports(matches, a, Matched) ==> row.name == DefaultName(a.cluster))
    && (Reports(matches, a, Matched) && a.cluster in matches && matches[a.cluster].name.Some? ==>
          row.name == matches[a.cluster].name.value)
    && (Reports(matches, a, Matched) && (a.cluster in matches ==> matches[a.cluster].name.None?) && a.speakerName.Some? ==>
          row.name == a.speakerName.value)
  }

  /** A profile is attached exactly if the report recognises it, and only to a matched or likely speaker. */
  ghost predicate ProfiledIfRecognised(row: Speaker, db: Db, matches: Matches, a: ArtifactTurn)
    requires a.ArtifactTurn?
  {
    && (forall p :: row.profile == Some(p) <==> Recognises(db, matches, a.cluster, p) && !Reports(matches, a, Unknown))
    && (row.source.FromVoice? <==> row.profile.Some?)
    && (row.source.FromIsolatedSource? <==> row.profile.None? && "isolated:" <= a.cluster)
  }

  ghost predicate Proposed(row: Speaker, db: Db, m: MeetingId, matches: Matches, a: ArtifactTurn)
    requires a.ArtifactTurn?
  {
    && row.meeting == m && row.cluster == a.cluster
    && Reports(matches, a, row.state)
    && NamedOnlyIfMatched(row, matches, a)
    && ProfiledIfRecognised(row, db, matches, a)
    && row.needsReview == a.needsReview.GetOr(!Reports(matches, a, Matched))
    && (row.confidence == Some(High) <==> row.source.FromIsolatedSource? || (row.source.FromVoice? && row.state.Matched?))
    && (row.confidence == Some(ForReview) <==> row.source.FromVoice? && row.state.Review?)
    && row.confidence != Some(Confirmed)
  }

  lemma ProposalFollowsTheReport(db: Db, m: MeetingId, matches: Matches, a: ArtifactTurn)
    requires a.ArtifactTurn?
    ensures Proposed(ProposedSpeaker(db, m, matches, a), db, m, matches, a)
  {
    assert ISOLATED == "isolated:";
  }

  /** A row that still shows a placeholder or a number, and that nothing has identified. */
  ghost predicate StillAnonymous(row: Speaker) {
    && row.state.Unknown?
    && (row.name == "Unknown" || row.name == "Unknown speaker"
        || (|row.name| > 8 && row.name[..8] == "Speaker " && '0' <= row.name[8] <= '9'))
  }

  /** An anonymous row takes the identity proposed; any other keeps its name, profile, state and flag. */
  ghost predicate Relabelled(row: Speaker, after: Speaker, proposed: Speaker) {
    && after.meeting == row.meeting && after.cluster == row.cluster
    && (if StillAnonymous(row) then
          after.name == proposed.name && after.profile == proposed.profile && after.state == proposed.state
          && after.needsReview == proposed.needsReview
        else
          after.name == row.name && after.profile == row.profile && after.state == row.state
          && after.needsReview == row.needsReview)
    && (if row.state.Unknown? && row.source.FromNothing? then
          after.source == proposed.source && after.confidence == proposed.confidence
        else after.source == row.source && after.confidence == row.confidence)
  }

  lemma RefreshRelabels(row: Speaker, proposed: Speaker)
    ensures Relabelled(row, Refreshed(row, proposed), proposed)
  {
    assert PREFIX <= row.name <==> |row.name| >= 8 && row.name[..8] == "Speaker ";
  }

  /** The speakers admitted, and the row placed for them, are those of the result. */
  lemma ImportedRows(db: Db, m: MeetingId, out: OutputId, matches: Matches, a: ArtifactTurn, claim: Option<TurnId>)
    requires ImportTurn(db, m, out, matches, a, claim).Ok?
    ensures a.ArtifactTurn? && AdmitSpeaker(db, m, matches, a).Ok?
    ensures var after, admitted := ImportTurn(db, m, out, matches, a, claim).value, AdmitSpeaker(db, m, matches, a).value;
            && AdmittedSpeakers(db, m, a.cluster, ProposedSpeaker(db, m, matches, a)) == Ok(after.speakers)
            && admitted.turns == db.turns
            && after.turns == PlaceTurn(admitted, m, out, Landing(m, a, claim), Resolve(db.rules, RuleKey(m, a.cluster)), a,
                                        NeedsReview(matches, a)).turns
  {
    ImportTurnPlaces(db, m, out, matches, a, claim);
    var placed := PlacedFor(db, m, out, matches, a, claim);
    PlaceTurnLands(AdmitSpeaker(db, m, matches, a).value, m, out, Landing(m, a, claim), Resolve(db.rules, RuleKey(m, a.cluster)), a,
                   NeedsReview(matches, a));
    assert placed.speakers == AdmitSpeaker(db, m, matches, a).value.speakers;
  }

  /**
   Importing a turn: the cluster's row is the one proposed if it is new, relabelled with it if there was one, and
   absent or untouched if the cluster has been merged away. Every other row stays.
   */
  lemma ImportLabelsTheCluster(db: Db, m: MeetingId, out: OutputId, matches: Matches, a: ArtifactTurn, claim: Option<TurnId>,
                               other: SpeakerId)
    requires ImportTurn(db, m, out, matches, a, claim).Ok?
    ensures a.ArtifactTurn?
    ensures var after, id := ImportTurn(db, m, out, matches, a, claim).value.speakers, SpeakerOf(m, a.cluster);
            if RuleKey(m, a.cluster) in db.rules then after == db.speakers
            else
              && id in after
              && (id !in db.speakers ==> Proposed(after[id], db, m, matches, a))
              && (id in db.speakers ==>
                    exists proposed :: Proposed(proposed, db, m, matches, a) && Relabelled(db.speakers[id], after[id], proposed))
              && (other != id ==> Lookup(after, other) == Lookup(db.speakers, other))
  {
    ImportedRows(db, m, out, matches, a, claim);
    var proposed := ProposedSpeaker(db, m, matches, a);
    ProposalFollowsTheReport(db, m, matches, a);
    AdmissionLabels(db, m, a.cluster, proposed, other);
  }

  lemma AdmissionLabels(db: Db, m: MeetingId, cluster: ClusterLabel, proposed: Speaker, other: SpeakerId)
    requires AdmittedSpeakers(db, m, cluster, proposed).Ok?
    ensures var after, id := AdmittedSpeakers(db, m, cluster, proposed).value, SpeakerOf(m, cluster);
            if RuleKey(m, cluster) in db.rules then after == db.speakers
            else
              && id in after
              && (if id in db.speakers then Relabelled(db.speakers[id], after[id], proposed) else after[id] == proposed)
              && (other != id ==> Lookup(after, other) == Lookup(db.speakers, other))
  {
    var id := SpeakerOf(m, cluster);
    if id in db.speakers {
      RefreshRelabels(db.speakers[id], proposed);
    }
  }

  // ---------------------------------------------------------------------------------------
  // The review flag of the turn
  // ---------------------------------------------------------------------------------------

  /** A revised row keeps its flag; any other takes the one given. */
  ghost predicate Flags(turns: map<TurnId, Turn>, after: map<TurnId, Turn>, id: TurnId, review: bool) {
    && id in after
    && after[id].needsReview == if id in turns && turns[id].revision > 0 then turns[id].needsReview else review
  }

  lemma PlacedTurnIsFlagged(db: Db, m: MeetingId, out: OutputId, id: TurnId, speaker: SpeakerId, a: ArtifactTurn, review: bool)
    requires a.ArtifactTurn?
    ensures Flags(db.turns, PlaceTurn(db, m, out, id, speaker, a, review).turns, id, review)
  {
    if id in db.turns {
      OverwrittenSays(db.turns[id], out, speaker, a, review);
      assert PlaceTurn(db, m, out, id, speaker, a, review).turns == db.turns[id := Overwritten(db.turns[id], out, speaker, a, review)];
    }
  }

  /** A row without revisions takes the artifact's flag, or is flagged unless its speaker is matched. */
  lemma ImportFlagsTheTurn(db: Db, m: MeetingId, out: OutputId, matches: Matches, a: ArtifactTurn, claim: Option<TurnId>)
    requires ImportTurn(db, m, out, matches, a, claim).Ok?
    ensures a.ArtifactTurn?
    ensures Flags(db.turns, ImportTurn(db, m, out, matches, a, claim).value.turns, Landing(m, a, claim),
                  a.needsReview.GetOr(!Reports(matches, a, Matched)))
  {
    ImportedRows(db, m, out, matches, a, claim);
    ReportsOneState(matches, a, Matched);
    assert NeedsReview(matches, a) == a.needsReview.GetOr(!Reports(matches, a, Matched));
    PlacedTurnIsFlagged(AdmitSpeaker(db, m, matches, a).value, m, out, Landing(m, a, claim),
                        Resolve(db.rules, RuleKey(m, a.cluster)), a, NeedsReview(matches, a));
  }

  // ---------------------------------------------------------------------------------------
  // Finding an earlier correction again
  // ---------------------------------------------------------------------------------------

  /** Union and intersection of two stretches differ by how far their ends are apart. */
  lemma UnionExceedsOverlap(turn: Turn, startMs: int, endMs: int)
    ensures Max(turn.endMs, endMs) - Min(turn.startMs, startMs)
         == Overlap(turn, startMs, endMs) + Abs(turn.endMs - endMs) + Abs(turn.startMs - startMs)
  {
  }

  /** Closeness is at most one, and one only for the same stretch. */
  lemma ClosestIsTheSameStretch(turn: Turn, startMs: int, endMs: int)
    requires Overlap(turn, startMs, endMs) > 0
    ensures 0.0 < Closeness(turn, startMs, endMs) <= 1.0
    ensures Closeness(turn, startMs, endMs) == 1.0 <==> turn.startMs == startMs && turn.endMs == endMs
  {
    var overlap, union := Overlap(turn, startMs, endMs), Max(1, Max(turn.endMs, endMs) - Min(turn.startMs, startMs));
    UnionExceedsOverlap(turn, startMs, endMs);
    QuotientAgainstOne(overlap as real, union as real);
  }

  lemma QuotientAgainstOne(x: real, y: real)
    requires 0.0 < x && 0.0 < y
    ensures 0.0 < x / y
    ensures x / y <= 1.0 <==> x <= y
    ensures x / y == 1.0 <==> x == y
  {
    assert x == (x / y) * y;
  }

  /** The milliseconds of a stretch. */
  ghost function Stretch(startMs: int, endMs: int): (stretch: set<int>)
    ensures forall t :: t in stretch <==> startMs <= t < endMs
    ensures |stretch| == Max(0, endMs - startMs)
    decreases endMs - startMs
  {
    if endMs <= startMs then {} else Stretch(startMs, endMs - 1) + {endMs - 1}
  }

  /** Time that a turn and a stretch share, and time that either covers. */
  ghost function Shared(turn: Turn, startMs: int, endMs: int): nat {
    |Stretch(turn.startMs, turn.endMs) * Stretch(startMs, endMs)|
  }

  ghost function Covered(turn: Turn, startMs: int, endMs: int): nat {
    |Stretch(turn.startMs, turn.endMs) + Stretch(startMs, endMs)|
  }

  ghost predicate IsStretch(s: set<int>, startMs: int, endMs: int) {
    forall t :: t in s <==> startMs <= t < endMs
  }

  lemma StretchesMeet(s: set<int>, t: set<int>, both: set<int>, a: int, b: int, c: int, d: int)
    requires IsStretch(s, a, b) && IsStretch(t, c, d) && IsStretch(both, Max(a, c), Min(b, d))
    ensures s * t == both
  {
    forall x
      ensures x in s * t <==> x in both
    {
      assert (x in s <==> a <= x < b) && (x in t <==> c <= x < d) && (x in both <==> Max(a, c) <= x < Min(b, d));
    }
  }

  lemma SharedMilliseconds(turn: Turn, startMs: int, endMs: int)
    requires turn.startMs < endMs && turn.endMs > startMs && turn.startMs < turn.endMs && startMs < endMs
    ensures Shared(turn, startMs, endMs) == Overlap(turn, startMs, endMs) > 0
  {
    var low, high := Max(turn.startMs, startMs), Min(turn.endMs, endMs);
    StretchesMeet(Stretch(turn.startMs, turn.endMs), Stretch(startMs, endMs), Stretch(low, high), turn.startMs, turn.endMs,
                  startMs, endMs);
  }

  ghost predicate TakesOver(turn: Turn, m: MeetingId, speaker: SpeakerId, out: OutputId, startMs: int, endMs: int) {
    var shared := Shared(turn, startMs, endMs);
    && turn.meeting == m && turn.speaker == Some(speaker) && turn.editedText.Some? && turn.output != Some(out)
    && 0 < shared && (2 * shared >= turn.endMs - turn.startMs || 2 * shared >= endMs - startMs)
  }

  /**
   A turn can be taken over exactly if it is a correction of this speaker from another output whose stretch shares time
   with the new one, at least half of the shorter.
   */
  lemma CorrectionsAreClaimedExactly(turn: Turn, m: MeetingId, speaker: SpeakerId, out: OutputId, startMs: int, endMs: int)
    requires turn.startMs < turn.endMs && startMs < endMs
    ensures Claimable(turn, m, speaker, out, startMs, endMs) <==> TakesOver(turn, m, speaker, out, startMs, endMs)
  {
    if turn.startMs < endMs && turn.endMs > startMs {
      SharedMilliseconds(turn, startMs, endMs);
    } else {
      assert Stretch(turn.startMs, turn.endMs) * Stretch(startMs, endMs) == {};
    }
  }

  lemma CoveredMilliseconds(turn: Turn, startMs: int, endMs: int)
    requires turn.startMs < endMs && turn.endMs > startMs && turn.startMs < turn.endMs && startMs < endMs
    ensures Covered(turn, startMs, endMs) == Max(turn.endMs, endMs) - Min(turn.startMs, startMs)
  {
    assert Stretch(turn.startMs, turn.endMs) + Stretch(startMs, endMs) == Stretch(Min(turn.startMs, startMs), Max(turn.endMs, endMs));
  }

  lemma SharingMeansOverlapping(turn: Turn, startMs: int, endMs: int)
    requires turn.startMs < turn.endMs && startMs < endMs && Shared(turn, startMs, endMs) > 0
    ensures Shared(turn, startMs, endMs) == Overlap(turn, startMs, endMs)
    ensures Covered(turn, startMs, endMs) == Max(turn.endMs, endMs) - Min(turn.startMs, startMs) > 0
  {
    var t :| t in Stretch(turn.startMs, turn.endMs) * Stretch(startMs, endMs);
    assert turn.startMs <= t < turn.endMs && startMs <= t < endMs;
    SharedMilliseconds(turn, startMs, endMs);
    CoveredMilliseconds(turn, startMs, endMs);
  }

  lemma ClosenessIsTheShare(turn: Turn, startMs: int, endMs: int)
    requires turn.startMs < turn.endMs && startMs < endMs && Shared(turn, startMs, endMs) > 0
    ensures Covered(turn, startMs, endMs) > 0
    ensures Closeness(turn, startMs, endMs) == Shared(turn, startMs, endMs) as real / Covered(turn, startMs, endMs) as real
  {
    SharingMeansOverlapping(turn, startMs, endMs);
  }

  ghost predicate IsCloser(turn: Turn, other: Turn, startMs: int, endMs: int) {
    var mine := Shared(turn, startMs, endMs) * Covered(other, startMs, endMs);
    var theirs := Shared(other, startMs, endMs) * Covered(turn, startMs, endMs);
    mine > theirs || (mine == theirs && Abs(turn.startMs - startMs) < Abs(other.startMs - startMs))
  }

  /** Of two corrections the one with the larger share of the time either covers comes first, then the one that starts nearer. */
  lemma CloserCorrectionsComeFirst(turn: Turn, other: Turn, startMs: int, endMs: int)
    requires turn.startMs < turn.endMs && other.startMs < other.endMs && startMs < endMs
    requires Shared(turn, startMs, endMs) > 0 && Shared(other, startMs, endMs) > 0
    ensures RanksBefore(turn, other, startMs, endMs) <==> IsCloser(turn, other, startMs, endMs)
  {
    ClosenessIsTheShare(turn, startMs, endMs);
    ClosenessIsTheShare(other, startMs, endMs);
    QuotientsCompare(Shared(turn, startMs, endMs), Covered(turn, startMs, endMs),
                     Shared(other, startMs, endMs), Covered(other, startMs, endMs));
  }

  lemma QuotientsCompare(x: int, u: int, y: int, v: int)
    requires u > 0 && v > 0
    ensures x as real / u as real > y as real / v as real <==> x * v > y * u
    ensures x as real / u as real == y as real / v as real <==> x * v == y * u
  {
    var p, q := x as real / u as real, y as real / v as real;
    assert x as real == p * u as real && y as real == q * v as real;
    assert (x * v) as real == p * (u as real * v as real);
    assert (y * u) as real == q * (u as real * v as real);
    ScalingKeepsOrder(p, q, u as real * v as real);
  }

  lemma ScalingKeepsOrder(p: real, q: real, scale: real)
    requires scale > 0.0
    ensures p > q <==> p * scale > q * scale
    ensures p == q <==> p * scale == q * scale
  {
    if p > q {
      assert (p - q) * scale > 0.0;
    } else if p < q {
      assert (q - p) * scale > 0.0;
    }
  }

  /**
   A corrected turn of the same speaker and the very same stretch of speech is found again: some corrected turn is taken
   over, and one of that stretch.
   */
  lemma TheSameStretchIsFoundAgain(turns: map<TurnId, Turn>, m: MeetingId, speaker: SpeakerId, out: OutputId, startMs: int,
                                   endMs: int, claim: Option<TurnId>, id: TurnId)
    requires BestClaim(turns, m, speaker, out, startMs, endMs, claim) && startMs < endMs
    requires id in turns && turns[id].meeting == m && turns[id].speaker == Some(speaker) && turns[id].editedText.Some?
    requires turns[id].output != Some(out) && turns[id].startMs == startMs && turns[id].endMs == endMs
    ensures claim.Some? && claim.value in turns && turns[claim.value].editedText.Some?
    ensures turns[claim.value].startMs == startMs && turns[claim.value].endMs == endMs
  {
    assert Claimable(turns[id], m, speaker, out, startMs, endMs);
    ClosestIsTheSameStretch(turns[id], startMs, endMs);
    assert claim.Some?;
    assert !Beats(turns, id, claim.value, m, speaker, out, startMs, endMs);
    assert Overlap(turns[claim.value], startMs, endMs) > 0;
    ClosestIsTheSameStretch(turns[claim.value], startMs, endMs);
  }
}
