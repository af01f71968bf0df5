/**
 Voting on a name for a speaker seen on screen (src-tauri/src/visual_context.rs,
 analyze_speakers and sanitize_speaker_name): a name is suggested only if at least two distinct
 turns support it, and strictly more than any other. `fold` is the lower-casing of names. Spellings
 of one name that differ in case are one ballot, shown in the spelling seen first.
 */
module VisualVotes {
  import opened Wrappers
  import opened SpeakerNames
  import opened VisualObservations

  /** An answer about a frame of one speaker, in the order of the frames. */
  datatype Evidence = Evidence(turn: string, observation: Observation)

  function Utf8Length(s: string): nat {
    if s == "" then 0
    else
      var code := s[|s| - 1] as int;
      Utf8Length(s[..|s| - 1]) + if code < 0x80 then 1 else if code < 0x800 then 2 else if code < 0x10000 then 3 else 4
  }

  const NOT_NAMES := {"unknown", "unknown speaker", "speaker", "none", "n/a"}

  function SanitizeSpeakerName(value: string): Option<string> {
    var trimmed := Trim(value);
    if Utf8Length(trimmed) < 2 || Utf8Length(trimmed) > 120 then None
    else if exists i :: 0 <= i < |trimmed| && trimmed[i] in ['\n', '\r', '\t'] then None
    else if ToLowerAscii(trimmed) in NOT_NAMES then None
    else Some(trimmed)
  }

  /** The name an answer votes for: only confident answers with a usable name count. */
  function Vote(e: Evidence): Option<string> {
    if e.observation.confidence != "high" || e.observation.name.None? then None
    else SanitizeSpeakerName(e.observation.name.value)
  }

  /** Between 2 and 120 bytes on one line, and not one of the words for having no name. */
  ghost predicate UsableName(name: string) {
    && 2 <= Utf8Length(name) <= 120
    && (forall i :: 0 <= i < |name| ==> name[i] != '\n' && name[i] != '\r' && name[i] != '\t')
    && ToLowerAscii(name) != "unknown" && ToLowerAscii(name) != "unknown speaker" && ToLowerAscii(name) != "speaker"
    && ToLowerAscii(name) != "none" && ToLowerAscii(name) != "n/a"
  }

  /** An answer votes for a name exactly if it is sure of it, and for that name without the spaces around it. */
  lemma SureAnswersVote(e: Evidence, name: string)
    ensures Vote(e) == Some(name)
       <==> && e.observation.confidence == "high" && e.observation.name.Some?
            && WithoutSpacesAround(e.observation.name.value, name) && UsableName(name)
  {
    if e.observation.name.Some? {
      TrimLeavesTheStretch(e.observation.name.value, name);
      assert name in NOT_NAMES <==> name == "unknown" || name == "unknown speaker" || name == "speaker" || name == "none" || name == "n/a";
    }
  }

  type Fold = string -> string

  predicate VotesFor(e: Evidence, fold: Fold, key: string) {
    Vote(e).Some? && fold(Vote(e).value) == key
  }

  /** The distinct turns whose answers vote for a name. */
  function Supporters(evidence: seq<Evidence>, fold: Fold, key: string): set<string> {
    set i | 0 <= i < |evidence| && VotesFor(evidence[i], fold, key) :: evidence[i].turn
  }

  datatype Ballot = Ballot(name: string, turns: set<string>)

  type Ballots = map<string, Ballot>

  function CountOne(ballots: Ballots, e: Evidence, fold: Fold): Ballots {
    if Vote(e).None? then ballots
    else
      var name := Vote(e).value;
      var entry := if fold(name) in ballots then ballots[fold(name)] else Ballot(name, {});
      ballots[fold(name) := entry.(turns := entry.turns + {e.turn})]
  }

  function Count(evidence: seq<Evidence>, fold: Fold): Ballots {
    if evidence == [] then map[]
    else CountOne(Count(evidence[..|evidence| - 1], fold), evidence[|evidence| - 1], fold)
  }

  /** A name with at least two supporting turns and strictly more than any rival. */
  ghost predicate Wins(evidence: seq<Evidence>, fold: Fold, key: string) {
    && |Supporters(evidence, fold, key)| >= 2
    && forall other :: other != key ==> |Supporters(evidence, fold, other)| < |Supporters(evidence, fold, key)|
  }

  /** The name as first written among the answers that vote for it. */
  ghost predicate FirstWritten(evidence: seq<Evidence>, fold: Fold, key: string, name: string) {
    exists i :: 0 <= i < |evidence| && VotesFor(evidence[i], fold, key) && Vote(evidence[i]).value == name
                && forall j :: 0 <= j < i ==> !VotesFor(evidence[j], fold, key)
  }

  // ---------------------------------------------------------------------------------------
  // The count is right
  // ---------------------------------------------------------------------------------------

  ghost predicate CountedRight(evidence: seq<Evidence>, fold: Fold, ballots: Ballots, key: string) {
    if key in ballots then
      && ballots[key].turns == Supporters(evidence, fold, key) != {}
      && FirstWritten(evidence, fold, key, ballots[key].name)
    else Supporters(evidence, fold, key) == {}
  }

  lemma SupportersOneMore(evidence: seq<Evidence>, last: Evidence, fold: Fold, key: string)
    ensures Supporters(evidence + [last], fold, key)
         == Supporters(evidence, fold, key) + if VotesFor(last, fold, key) then {last.turn} else {}
  {
    var all := evidence + [last];
    forall turn | turn in Supporters(evidence, fold, key) ensures turn in Supporters(all, fold, key) {
      var i :| 0 <= i < |evidence| && VotesFor(evidence[i], fold, key) && evidence[i].turn == turn;
      assert all[i] == evidence[i];
    }
    assert all[|evidence|] == last;
  }

  lemma FirstStaysFirst(evidence: seq<Evidence>, last: Evidence, fold: Fold, key: string, name: string)
    requires FirstWritten(evidence, fold, key, name)
    ensures FirstWritten(evidence + [last], fold, key, name)
  {
    var i :| 0 <= i < |evidence| && VotesFor(evidence[i], fold, key) && Vote(evidence[i]).value == name
             && forall j :: 0 <= j < i ==> !VotesFor(evidence[j], fold, key);
    var all := evidence + [last];
    assert all[i] == evidence[i];
    forall j | 0 <= j < i ensures !VotesFor(all[j], fold, key) {
      assert all[j] == evidence[j];
    }
  }

  lemma VotersSupport(evidence: seq<Evidence>, fold: Fold, key: string)
    ensures forall j :: 0 <= j < |evidence| && VotesFor(evidence[j], fold, key) ==>
              evidence[j].turn in Supporters(evidence, fold, key)
  {
  }

  lemma FirstVoteIsFirst(evidence: seq<Evidence>, last: Evidence, fold: Fold, key: string)
    requires Supporters(evidence, fold, key) == {} && VotesFor(last, fold, key)
    ensures FirstWritten(evidence + [last], fold, key, Vote(last).value)
  {
    var all := evidence + [last];
    VotersSupport(evidence, fold, key);
    forall j | 0 <= j < |evidence| ensures !VotesFor(all[j], fold, key) {
      assert all[j] == evidence[j];
    }
    assert all[|evidence|] == last;
  }

  lemma {:induction false} CountIsRight(evidence: seq<Evidence>, fold: Fold, key: string)
    ensures CountedRight(evidence, fold, Count(evidence, fold), key)
  {
    if evidence != [] {
      var before, last := evidence[..|evidence| - 1], evidence[|evidence| - 1];
      assert evidence == before + [last];
      CountIsRight(before, fold, key);
      SupportersOneMore(before, last, fold, key);
      if key in Count(before, fold) {
        FirstStaysFirst(before, last, fold, key, Count(before, fold)[key].name);
      } else if VotesFor(last, fold, key) {
        FirstVoteIsFirst(before, last, fold, key);
      }
    }
  }

  // ---------------------------------------------------------------------------------------
  // The ranking
  // ---------------------------------------------------------------------------------------

  /** The ballots one by one, each name once. */
  method ListBallots(ballots: Ballots) returns (keys: seq<string>, list: seq<Ballot>)
    ensures |keys| == |list| && (forall i :: 0 <= i < |keys| ==> keys[i] in ballots && ballots[keys[i]] == list[i])
    ensures forall i, j :: 0 <= i < j < |keys| ==> keys[i] != keys[j]
    ensures forall key :: key in ballots ==> key in keys
  {
    keys, list := [], [];
    var rest := ballots.Keys;
    while rest != {}
      invariant rest <= ballots.Keys && |keys| == |list|
      invariant forall i :: 0 <= i < |keys| ==> keys[i] in ballots && keys[i] !in rest && ballots[keys[i]] == list[i]
      invariant forall i, j :: 0 <= i < j < |keys| ==> keys[i] != keys[j]
      invariant forall key :: key in ballots && key !in rest ==> key in keys
      decreases |rest|
    {
      var key :| key in rest;
      keys, list := keys + [key], list + [ballots[key]];
      rest := rest - {key};
    }
  }

  /** The index of the most supported ballot, and how many turns support the next. */
  method Rank(list: seq<Ballot>) returns (top: nat, runnerUp: nat)
    requires list != []
    ensures top < |list| && forall i :: 0 <= i < |list| ==> |list[i].turns| <= |list[top].turns|
    ensures forall i :: 0 <= i < |list| && i != top ==> |list[i].turns| <= runnerUp
    ensures if |list| == 1 then runnerUp == 0
            else exists i :: 0 <= i < |list| && i != top && |list[i].turns| == runnerUp
  {
    top, runnerUp := 0, 0;
    ghost var second := 0;
    for k := 1 to |list|
      invariant top < k && second < k
      invariant forall i :: 0 <= i < k ==> |list[i].turns| <= |list[top].turns|
      invariant forall i :: 0 <= i < k && i != top ==> |list[i].turns| <= runnerUp
      invariant if k == 1 then runnerUp == 0 else second != top && |list[second].turns| == runnerUp
    {
      if |list[k].turns| > |list[top].turns| {
        runnerUp, second := |list[top].turns|, top;
        top := k;
      } else if |list[k].turns| > runnerUp || k == 1 {
        runnerUp, second := |list[k].turns|, k;
      }
    }
  }

  method CountVotes(evidence: seq<Evidence>, fold: Fold) returns (ballots: Ballots)
    ensures ballots == Count(evidence, fold)
  {
    ballots := map[];
    for i := 0 to |evidence|
      invariant ballots == Count(evidence[..i], fold)
    {
      assert evidence[..i + 1][..i] == evidence[..i];
      var name := Vote(evidence[i]);
      if name.Some? {
        var key := fold(name.value);
        var entry := if key in ballots then ballots[key] else Ballot(name.value, {});
        ballots := ballots[key := entry.(turns := entry.turns + {evidence[i].turn})];
      }
    }
    assert evidence[..|evidence|] == evidence;
  }

  lemma TopWins(evidence: seq<Evidence>, fold: Fold, keys: seq<string>, list: seq<Ballot>, top: nat, runnerUp: nat)
    requires |keys| == |list| && top < |list|
    requires forall i :: 0 <= i < |keys| ==> keys[i] in Count(evidence, fold) && Count(evidence, fold)[keys[i]] == list[i]
    requires forall key :: key in Count(evidence, fold) ==> key in keys
    requires forall i :: 0 <= i < |list| && i != top ==> |list[i].turns| <= runnerUp
    requires |list[top].turns| >= 2 && |list[top].turns| > runnerUp
    ensures Wins(evidence, fold, keys[top])
  {
    CountIsRight(evidence, fold, keys[top]);
    forall other | other != keys[top]
      ensures |Supporters(evidence, fold, other)| < |Supporters(evidence, fold, keys[top])|
    {
      CountIsRight(evidence, fold, other);
      if other in Count(evidence, fold) {
        var i :| 0 <= i < |keys| && keys[i] == other;
        assert |list[i].turns| <= runnerUp;
      }
    }
  }

  lemma WinnerIsTop(evidence: seq<Evidence>, fold: Fold, keys: seq<string>, list: seq<Ballot>, top: nat, winner: string)
    requires |keys| == |list| && top < |list|
    requires forall i :: 0 <= i < |keys| ==> keys[i] in Count(evidence, fold) && Count(evidence, fold)[keys[i]] == list[i]
    requires forall key :: key in Count(evidence, fold) ==> key in keys
    requires forall i :: 0 <= i < |list| ==> |list[i].turns| <= |list[top].turns|
    requires Wins(evidence, fold, winner)
    ensures keys[top] == winner && list[top].turns == Supporters(evidence, fold, winner)
  {
    CountIsRight(evidence, fold, winner);
    CountIsRight(evidence, fold, keys[top]);
    var i :| 0 <= i < |keys| && keys[i] == winner;
    assert |list[i].turns| <= |list[top].turns|;
  }

  lemma WinnerBeatsRunnerUp(evidence: seq<Evidence>, fold: Fold, keys: seq<string>, list: seq<Ballot>, top: nat, i: nat)
    requires |keys| == |list| && top < |list| && i < |list| && i != top
    requires forall k :: 0 <= k < |keys| ==> keys[k] in Count(evidence, fold) && Count(evidence, fold)[keys[k]] == list[k]
    requires keys[i] != keys[top] && Wins(evidence, fold, keys[top])
    ensures |list[i].turns| < |list[top].turns|
  {
    CountIsRight(evidence, fold, keys[i]);
    CountIsRight(evidence, fold, keys[top]);
  }

  lemma WinnerHasABallot(evidence: seq<Evidence>, fold: Fold, winner: string)
    requires Wins(evidence, fold, winner)
    ensures winner in Count(evidence, fold)
  {
    CountIsRight(evidence, fold, winner);
  }

  /**
   A name is suggested exactly if some name wins: at least two distinct turns support it and
   strictly more than any other. The suggestion is that name as first written.
   */
  method SuggestName(evidence: seq<Evidence>, fold: Fold) returns (suggestion: Option<string>)
    ensures suggestion.Some? ==>
              exists key :: Wins(evidence, fold, key) && FirstWritten(evidence, fold, key, suggestion.value)
    ensures suggestion.None? ==> forall key :: !Wins(evidence, fold, key)
  {
    var ballots := CountVotes(evidence, fold);
    var keys, list := ListBallots(ballots);
    if |list| == 0 {
      forall key ensures !Wins(evidence, fold, key) {
        if Wins(evidence, fold, key) {
          WinnerHasABallot(evidence, fold, key);
        }
      }
      return None;
    }
    var top, runnerUp := Rank(list);
    if |list[top].turns| < 2 || |list[top].turns| <= runnerUp {
      forall key ensures !Wins(evidence, fold, key) {
        if Wins(evidence, fold, key) {
          WinnerIsTop(evidence, fold, keys, list, top, key);
          if |list| > 1 {
            var i :| 0 <= i < |list| && i != top && |list[i].turns| == runnerUp;
            WinnerBeatsRunnerUp(evidence, fold, keys, list, top, i);
          }
        }
      }
      return None;
    }
    TopWins(evidence, fold, keys, list, top, runnerUp);
    CountIsRight(evidence, fold, keys[top]);
    return Some(list[top].name);
  }
}
