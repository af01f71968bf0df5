/**
 Choosing moments to illustrate with a screenshot (src-tauri/src/visual_context.rs,
 select_moments): greedy by score with a minimum spacing of twenty seconds, at most twelve, handed
 on in order of time. The score itself, made of phrase lists and lengths, is an input, so the
 results hold of any score. Ties keep the order of the transcript, because the sort is stable.
 */
module Moments {
  import opened Ordering

  const SPACING_MS := 20000
  const MAX_MOMENTS := 12

  /** A scored turn: its place in the transcript, its score and the instant chosen in it. */
  datatype Moment = Moment(turn: nat, score: nat, atMs: int)

  function Distance(a: Moment, b: Moment): nat {
    if a.atMs >= b.atMs then a.atMs - b.atMs else b.atMs - a.atMs
  }

  predicate TooClose(a: Moment, b: Moment) {
    Distance(a, b) < SPACING_MS
  }

  /** Highest score first, then earliest instant. */
  predicate Ranks(a: Moment, b: Moment) {
    a.score > b.score || (a.score == b.score && a.atMs <= b.atMs)
  }

  predicate Earlier(a: Moment, b: Moment) {
    a.atMs <= b.atMs
  }

  const BY_RANK := (a: Moment, b: Moment) => Ranks(a, b)
  const BY_TIME := (a: Moment, b: Moment) => Earlier(a, b)

  lemma OrdersAreTotal()
    ensures TotalOrder(BY_RANK) && TotalOrder(BY_TIME)
  {
  }

  predicate Crowded(selected: seq<Moment>, candidate: Moment) {
    exists i :: 0 <= i < |selected| && TooClose(selected[i], candidate)
  }

  function TakeOne(selected: seq<Moment>, candidate: Moment): seq<Moment> {
    if |selected| == MAX_MOMENTS || Crowded(selected, candidate) then selected else selected + [candidate]
  }

  /** The greedy pass over the first `count` candidates. */
  function Take(ranked: seq<Moment>, count: nat): seq<Moment>
    requires count <= |ranked|
  {
    if count == 0 then [] else TakeOne(Take(ranked, count - 1), ranked[count - 1])
  }

  function Selected(scored: seq<Moment>): seq<Moment> {
    var ranked := Sort(scored, BY_RANK);
    Sort(Take(ranked, |ranked|), BY_TIME)
  }

  // ---------------------------------------------------------------------------------------
  // What the greedy pass keeps
  // ---------------------------------------------------------------------------------------

  ghost predicate Spaced(selected: seq<Moment>) {
    forall i, j :: 0 <= i < j < |selected| ==> !TooClose(selected[i], selected[j])
  }

  /** A chosen moment that explains why a candidate was passed over. */
  ghost predicate PassedOverFor(selected: seq<Moment>, candidate: Moment) {
    exists chosen :: chosen in selected && Ranks(chosen, candidate) && TooClose(chosen, candidate)
  }

  /** The cap was reached on moments that all rank at least as high. */
  ghost predicate CutOff(selected: seq<Moment>, candidate: Moment) {
    |selected| == MAX_MOMENTS && forall chosen :: chosen in selected ==> Ranks(chosen, candidate)
  }

  ghost predicate Explained(selected: seq<Moment>, candidate: Moment) {
    candidate in selected || PassedOverFor(selected, candidate) || CutOff(selected, candidate)
  }

  ghost predicate Greedy(ranked: seq<Moment>, count: nat, selected: seq<Moment>)
    requires count <= |ranked|
  {
    && |selected| <= MAX_MOMENTS
    && Spaced(selected)
    && (forall chosen :: chosen in selected ==> chosen in ranked[..count])
    && (forall k :: 0 <= k < count ==> Explained(selected, ranked[k]))
  }

  lemma ChosenRankBefore(ranked: seq<Moment>, count: nat, selected: seq<Moment>)
    requires count < |ranked| && Sorted(ranked, BY_RANK) && Greedy(ranked, count, selected)
    ensures forall chosen :: chosen in selected ==> Ranks(chosen, ranked[count])
  {
    forall chosen | chosen in selected ensures Ranks(chosen, ranked[count]) {
      var k :| 0 <= k < count && ranked[k] == chosen;
      assert BY_RANK(ranked[k], ranked[count]);
    }
  }

  lemma NewCandidateIsExplained(ranked: seq<Moment>, count: nat, selected: seq<Moment>)
    requires count < |ranked| && Sorted(ranked, BY_RANK) && Greedy(ranked, count, selected)
    ensures Explained(TakeOne(selected, ranked[count]), ranked[count])
  {
    var candidate := ranked[count];
    ChosenRankBefore(ranked, count, selected);
    if |selected| < MAX_MOMENTS && Crowded(selected, candidate) {
      var i :| 0 <= i < |selected| && TooClose(selected[i], candidate);
      assert selected[i] in selected;
    }
  }

  lemma EarlierStayExplained(selected: seq<Moment>, candidate: Moment, earlier: Moment)
    requires Explained(selected, earlier)
    ensures Explained(TakeOne(selected, candidate), earlier)
  {
    if PassedOverFor(selected, earlier) {
      var chosen :| chosen in selected && Ranks(chosen, earlier) && TooClose(chosen, earlier);
      assert chosen in TakeOne(selected, candidate);
    }
  }

  lemma TakingKeepsSpacing(selected: seq<Moment>, candidate: Moment)
    requires Spaced(selected)
    ensures Spaced(TakeOne(selected, candidate))
  {
    var after := TakeOne(selected, candidate);
    forall i, j | 0 <= i < j < |after| ensures !TooClose(after[i], after[j]) {
      if j == |selected| {
        assert !TooClose(selected[i], candidate);
      }
    }
  }

  lemma {:induction false} TakeIsGreedy(ranked: seq<Moment>, count: nat)
    requires count <= |ranked| && Sorted(ranked, BY_RANK)
    ensures Greedy(ranked, count, Take(ranked, count))
  {
    if count > 0 {
      TakeIsGreedy(ranked, count - 1);
      var before := Take(ranked, count - 1);
      TakingKeepsSpacing(before, ranked[count - 1]);
      NewCandidateIsExplained(ranked, count - 1, before);
      forall k | 0 <= k < count ensures Explained(Take(ranked, count), ranked[k]) {
        if k < count - 1 {
          EarlierStayExplained(before, ranked[count - 1], ranked[k]);
        }
      }
      forall chosen | chosen in Take(ranked, count) ensures chosen in ranked[..count] {
        if chosen in before {
          assert chosen in ranked[..count - 1];
        } else {
          assert ranked[..count][count - 1] == chosen;
        }
      }
    }
  }

  // ---------------------------------------------------------------------------------------
  // Main result
  // ---------------------------------------------------------------------------------------

  lemma TimeOrderKeepsSelection(taken: seq<Moment>, candidate: Moment)
    requires Explained(taken, candidate)
    ensures Explained(Sort(taken, BY_TIME), candidate)
  {
    SortPermutes(taken, BY_TIME);
    SameElements(taken, Sort(taken, BY_TIME));
  }

  const CLASH := (a: Moment, b: Moment) => TooClose(a, b)

  lemma RearrangedStaysSpaced(s: seq<Moment>, t: seq<Moment>)
    requires Spaced(s) && multiset(t) == multiset(s)
    ensures Spaced(t)
  {
    assert Apart(s, CLASH);
    RearrangedStaysApart(s, t, CLASH);
    forall i, j | 0 <= i < j < |t| ensures !TooClose(t[i], t[j]) {
      assert !CLASH(t[i], t[j]);
    }
  }

  /**
   The selection is in time order, at most twelve long and spaced by twenty seconds; it contains
   only scored moments, and each one left out is too close to a chosen one that ranks no lower,
   unless twelve that rank no lower were chosen.
   */
  lemma SelectionIsSpacedAndJustified(scored: seq<Moment>)
    ensures var r := Selected(scored);
            && Sorted(r, BY_TIME) && |r| <= MAX_MOMENTS && Spaced(r)
            && (forall chosen :: chosen in r ==> chosen in scored)
            && (forall candidate :: candidate in scored ==> Explained(r, candidate))
  {
    var ranked := Sort(scored, BY_RANK);
    var taken := Take(ranked, |ranked|);
    OrdersAreTotal();
    SortSorts(scored, BY_RANK);
    SortPermutes(scored, BY_RANK);
    SameElements(scored, ranked);
    TakeIsGreedy(ranked, |ranked|);
    SortSorts(taken, BY_TIME);
    SortPermutes(taken, BY_TIME);
    SameElements(taken, Selected(scored));
    RearrangedStaysSpaced(taken, Selected(scored));
    assert ranked[..|ranked|] == ranked;
    forall candidate | candidate in scored ensures Explained(Selected(scored), candidate) {
      assert candidate in ranked;
      var k :| 0 <= k < |ranked| && ranked[k] == candidate;
      assert Explained(taken, ranked[k]);
      TimeOrderKeepsSelection(taken, candidate);
    }
  }

  /** The chosen moment scores higher, or the same and is no later. */
  ghost predicate NoWorse(chosen: Moment, candidate: Moment) {
    chosen.score > candidate.score || (chosen.score == candidate.score && chosen.atMs <= candidate.atMs)
  }

  ghost predicate Within(a: int, b: int, limit: int) {
    a - b < limit && b - a < limit
  }

  ghost predicate Justified(r: seq<Moment>, candidate: Moment) {
    || candidate in r
    || (exists chosen :: chosen in r && NoWorse(chosen, candidate) && Within(chosen.atMs, candidate.atMs, 20_000))
    || (|r| == 12 && forall chosen :: chosen in r ==> NoWorse(chosen, candidate))
  }

  lemma ExplanationsJustify(r: seq<Moment>, candidate: Moment)
    requires Explained(r, candidate)
    ensures Justified(r, candidate)
  {
    if PassedOverFor(r, candidate) {
      var chosen :| chosen in r && Ranks(chosen, candidate) && TooClose(chosen, candidate);
      assert NoWorse(chosen, candidate) && Within(chosen.atMs, candidate.atMs, 20_000);
    } else if CutOff(r, candidate) {
      assert forall chosen :: chosen in r ==> Ranks(chosen, candidate) && NoWorse(chosen, candidate);
    }
  }

  /** The same in scores and milliseconds: at most twelve, in order, each twenty seconds after the one before. */
  lemma SelectedMomentsAreApart(scored: seq<Moment>)
    ensures var r := Selected(scored);
            && |r| <= 12
            && (forall i, j :: 0 <= i < j < |r| ==> r[j].atMs - r[i].atMs >= 20_000)
            && (forall candidate :: candidate in scored ==> Justified(r, candidate))
  {
    var r := Selected(scored);
    SelectionIsSpacedAndJustified(scored);
    forall i, j | 0 <= i < j < |r| ensures r[j].atMs - r[i].atMs >= 20_000 {
      assert BY_TIME(r[i], r[j]) && !TooClose(r[i], r[j]);
    }
    forall candidate | candidate in scored ensures Justified(r, candidate) {
      ExplanationsJustify(r, candidate);
    }
  }

  lemma {:induction false} FullStaysFull(ranked: seq<Moment>, k: nat, count: nat)
    requires k <= count <= |ranked| && |Take(ranked, k)| == MAX_MOMENTS
    ensures Take(ranked, count) == Take(ranked, k)
    decreases count
  {
    if k < count {
      FullStaysFull(ranked, k, count - 1);
    }
  }

  method TakeMoments(ranked: seq<Moment>) returns (selected: seq<Moment>)
    ensures selected == Take(ranked, |ranked|)
  {
    selected := [];
    for i := 0 to |ranked|
      invariant selected == Take(ranked, i) && |selected| < MAX_MOMENTS
    {
      if !Crowded(selected, ranked[i]) {
        selected := selected + [ranked[i]];
        if |selected| == MAX_MOMENTS {
          FullStaysFull(ranked, i + 1, |ranked|);
          return;
        }
      }
    }
  }

  method SelectMoments(scored: seq<Moment>) returns (r: seq<Moment>)
    ensures r == Selected(scored)
  {
    var selected := TakeMoments(Sort(scored, BY_RANK));
    r := Sort(selected, BY_TIME);
  }
}
