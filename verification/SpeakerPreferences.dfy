/**
 Who gets which number when the anonymous speakers of a meeting are numbered (service.rs, normalize_unknown_speaker_names),
 told from the list alone: first the number in the cluster label, then the number in the current name, then the least number
 nobody has.
 */
module SpeakerPreferences {
  import opened Wrappers
  import opened SpeakerNames
  import opened SpeakerNumbering

  // ---------------------------------------------------------------------------------------
  // Who asks for a number, and who gets it
  // ---------------------------------------------------------------------------------------

  ghost predicate AsksByLabel(speakers: seq<MeetingSpeaker>, i: nat, n: nat) {
    i < |speakers| && Anonymous(speakers[i]) && NumberFromLabel(speakers[i].cluster) == Some(n)
  }

  ghost predicate AsksByName(speakers: seq<MeetingSpeaker>, i: nat, n: nat) {
    i < |speakers| && Anonymous(speakers[i]) && NumberedName(speakers[i].name) == Some(n)
  }

  /** A name that stays as it is shows the number. */
  ghost predicate Kept(speakers: seq<MeetingSpeaker>, n: nat) {
    exists j :: 0 <= j < |speakers| && !Anonymous(speakers[j]) && NumberedName(speakers[j].name) == Some(n)
  }

  /** The first to ask for a number by label gets it, unless a name that stays has it. */
  ghost predicate GetsByLabel(speakers: seq<MeetingSpeaker>, i: nat, n: nat) {
    AsksByLabel(speakers, i, n) && !Kept(speakers, n) && forall j :: 0 <= j < i ==> !AsksByLabel(speakers, j, n)
  }

  ghost predicate Served(speakers: seq<MeetingSpeaker>, i: nat) {
    exists n: nat :: GetsByLabel(speakers, i, n)
  }

  ghost predicate TakenByLabel(speakers: seq<MeetingSpeaker>, n: nat) {
    exists j: nat :: GetsByLabel(speakers, j, n)
  }

  /** Of those left, the first to ask for a number by name gets it, unless it is taken by a label or a name that stays. */
  ghost predicate GetsByName(speakers: seq<MeetingSpeaker>, i: nat, n: nat) {
    && AsksByName(speakers, i, n) && !Served(speakers, i)
    && !Kept(speakers, n) && !TakenByLabel(speakers, n)
    && forall j :: 0 <= j < i ==> Served(speakers, j) || !AsksByName(speakers, j, n)
  }

  ghost predicate TakenByName(speakers: seq<MeetingSpeaker>, n: nat) {
    exists j: nat :: GetsByName(speakers, j, n)
  }

  /** Neither label nor name gets the speaker a number. */
  ghost predicate LeftOver(speakers: seq<MeetingSpeaker>, i: nat) {
    && i < |speakers| && Anonymous(speakers[i])
    && !Served(speakers, i) && forall n: nat :: !GetsByName(speakers, i, n)
  }

  /** Speakers that nothing matched and that show a placeholder or a number; the others keep their names. */
  lemma AnonymousSpeakersExactly(s: MeetingSpeaker)
    ensures Anonymous(s)
       <==> && s.state != Matched
            && (|| WithoutSpacesAround(s.name, "Unknown") || WithoutSpacesAround(s.name, "Unknown speaker")
                || exists n :: AsksByItsName(s, n))
  {
    TrimLeavesTheStretch(s.name, "Unknown");
    TrimLeavesTheStretch(s.name, "Unknown speaker");
    if NumberedName(s.name).Some? {
      assert AsksByItsName(s, NumberedName(s.name).value);
    }
  }

  ghost predicate AsksByItsName(s: MeetingSpeaker, n: nat) {
    NumberedName(s.name) == Some(n)
  }

  // ---------------------------------------------------------------------------------------
  // A pass of wishes
  // ---------------------------------------------------------------------------------------

  /** The wish is the first for a number that nobody used before the pass. */
  ghost predicate FirstWish(p: Progress, wishes: seq<Option<nat>>, i: nat)
    requires i < |wishes| == |p.granted|
  {
    && p.granted[i].None? && wishes[i].Some? && wishes[i].value !in p.used
    && forall j :: 0 <= j < i ==> p.granted[j].Some? || wishes[j] != wishes[i]
  }

  ghost predicate GrantedInPass(p: Progress, wishes: seq<Option<nat>>, count: nat, n: nat)
    requires count <= |wishes| == |p.granted|
  {
    exists i :: 0 <= i < count && FirstWish(p, wishes, i) && wishes[i] == Some(n)
  }

  ghost predicate PassedUpTo(p: Progress, q: Progress, wishes: seq<Option<nat>>, count: nat)
    requires count <= |wishes| == |p.granted| == |q.granted|
  {
    && (forall i :: 0 <= i < |wishes| ==>
          q.granted[i] == if i < count && FirstWish(p, wishes, i) then wishes[i] else p.granted[i])
    && (forall n: nat :: n in q.used <==> n in p.used || GrantedInPass(p, wishes, count, n))
  }

  /** A wish is still open at its turn exactly if it is the first of its kind. */
  lemma OpenWishIsFirst(p: Progress, q: Progress, wishes: seq<Option<nat>>, k: nat)
    requires k < |wishes| == |p.granted| == |q.granted| && PassedUpTo(p, q, wishes, k)
    ensures FirstWish(p, wishes, k) <==> q.granted[k].None? && wishes[k].Some? && wishes[k].value !in q.used
  {
    if p.granted[k].None? && wishes[k].Some? && wishes[k].value !in p.used && !FirstWish(p, wishes, k) {
      var first := FirstFor(p, wishes, k);
      assert GrantedInPass(p, wishes, k, wishes[k].value);
    }
  }

  /** Among the speakers without a number that wish for what the k-th wishes for, there is a first. */
  lemma {:induction false} FirstFor(p: Progress, wishes: seq<Option<nat>>, k: nat) returns (first: nat)
    requires k < |wishes| == |p.granted| && p.granted[k].None? && wishes[k].Some? && wishes[k].value !in p.used
    ensures first <= k && FirstWish(p, wishes, first) && wishes[first] == wishes[k]
    decreases k
  {
    if j :| 0 <= j < k && p.granted[j].None? && wishes[j] == wishes[k] {
      first := FirstFor(p, wishes, j);
    } else {
      first := k;
    }
  }

  lemma PassOneMore(p: Progress, q: Progress, wishes: seq<Option<nat>>, k: nat)
    requires k < |wishes| == |p.granted| == |q.granted| && PassedUpTo(p, q, wishes, k)
    ensures PassedUpTo(p, Grant(q, k, wishes[k]), wishes, k + 1)
  {
    var r := Grant(q, k, wishes[k]);
    OpenWishIsFirst(p, q, wishes, k);
    forall n: nat ensures n in r.used <==> n in p.used || GrantedInPass(p, wishes, k + 1, n) {
      if GrantedInPass(p, wishes, k, n) {
        assert GrantedInPass(p, wishes, k + 1, n);
      }
      if FirstWish(p, wishes, k) && wishes[k] == Some(n) {
        assert GrantedInPass(p, wishes, k + 1, n);
      }
    }
  }

  lemma {:induction false} PassGrantsFirstWishes(p: Progress, wishes: seq<Option<nat>>, count: nat)
    requires count <= |wishes| == |p.granted|
    ensures PassedUpTo(p, GrantAll(p, wishes, count), wishes, count)
  {
    if count > 0 {
      PassGrantsFirstWishes(p, wishes, count - 1);
      PassOneMore(p, GrantAll(p, wishes, count - 1), wishes, count - 1);
    }
  }

  // ---------------------------------------------------------------------------------------
  // Labels, then names
  // ---------------------------------------------------------------------------------------

  lemma KeptNumbersAreKept(speakers: seq<MeetingSpeaker>, n: nat)
    ensures n in KeptNumbers(speakers) <==> Kept(speakers, n)
  {
    if Kept(speakers, n) {
      var j :| 0 <= j < |speakers| && !Anonymous(speakers[j]) && NumberedName(speakers[j].name) == Some(n);
      assert KeptNumber(speakers[j]) == Some(n);
    }
  }

  lemma LabelPassServes(speakers: seq<MeetingSpeaker>, i: nat)
    requires i < |speakers|
    ensures FirstWish(Begin(speakers), LabelWishes(speakers), i) <==> Served(speakers, i)
    ensures forall n: nat :: FirstWish(Begin(speakers), LabelWishes(speakers), i) && LabelWishes(speakers)[i] == Some(n)
                        <==> GetsByLabel(speakers, i, n)
  {
    var wish := LabelWishes(speakers)[i];
    forall n: nat ensures FirstWish(Begin(speakers), LabelWishes(speakers), i) && wish == Some(n) <==> GetsByLabel(speakers, i, n) {
      KeptNumbersAreKept(speakers, n);
      if wish == Some(n) {
        assert forall j :: 0 <= j < i ==> (LabelWishes(speakers)[j] == Some(n) <==> AsksByLabel(speakers, j, n));
      }
    }
    if FirstWish(Begin(speakers), LabelWishes(speakers), i) {
      assert GetsByLabel(speakers, i, wish.value);
    }
  }

  /** After the first pass: who got a number by label, and which numbers are in use. */
  lemma AfterLabelsExactly(speakers: seq<MeetingSpeaker>)
    ensures var p := AfterLabels(speakers);
            && (forall i :: 0 <= i < |speakers| ==> (p.granted[i].Some? <==> Served(speakers, i)))
            && (forall i, n: nat :: 0 <= i < |speakers| ==> (p.granted[i] == Some(n) <==> GetsByLabel(speakers, i, n)))
            && (forall n: nat :: n in p.used <==> Kept(speakers, n) || TakenByLabel(speakers, n))
  {
    var none, p, wishes := Begin(speakers), AfterLabels(speakers), LabelWishes(speakers);
    PassGrantsFirstWishes(none, wishes, |speakers|);
    forall i | 0 <= i < |speakers|
      ensures p.granted[i].Some? <==> Served(speakers, i)
      ensures forall n: nat :: p.granted[i] == Some(n) <==> GetsByLabel(speakers, i, n)
    {
      LabelPassServes(speakers, i);
    }
    forall n: nat ensures n in p.used <==> Kept(speakers, n) || TakenByLabel(speakers, n) {
      KeptNumbersAreKept(speakers, n);
      if GrantedInPass(none, wishes, |speakers|, n) {
        var i :| 0 <= i < |speakers| && FirstWish(none, wishes, i) && wishes[i] == Some(n);
        LabelPassServes(speakers, i);
        assert GetsByLabel(speakers, i, n);
      }
      if TakenByLabel(speakers, n) {
        var j: nat :| GetsByLabel(speakers, j, n);
        LabelPassServes(speakers, j);
        assert FirstWish(none, wishes, j) && wishes[j] == Some(n);
      }
    }
  }

  lemma NamePassServes(speakers: seq<MeetingSpeaker>, i: nat, n: nat)
    requires i < |speakers|
    ensures FirstWish(AfterLabels(speakers), NameWishes(speakers), i) && NameWishes(speakers)[i] == Some(n)
            <==> GetsByName(speakers, i, n)
  {
    AfterLabelsExactly(speakers);
    assert forall j :: 0 <= j <= i ==> (NameWishes(speakers)[j] == Some(n) <==> AsksByName(speakers, j, n));
  }

  lemma NameGrantsExactly(speakers: seq<MeetingSpeaker>, i: nat, n: nat)
    requires i < |speakers|
    ensures AfterNames(speakers).granted[i] == Some(n) <==> GetsByLabel(speakers, i, n) || GetsByName(speakers, i, n)
  {
    PassGrantsFirstWishes(AfterLabels(speakers), NameWishes(speakers), |speakers|);
    NamePassServes(speakers, i, n);
    LabelGrantsExactly(speakers, i, n);
  }

  lemma LabelGrantsExactly(speakers: seq<MeetingSpeaker>, i: nat, n: nat)
    requires i < |speakers|
    ensures AfterLabels(speakers).granted[i] == Some(n) <==> GetsByLabel(speakers, i, n)
    ensures GetsByName(speakers, i, n) ==> AfterLabels(speakers).granted[i].None?
  {
    AfterLabelsExactly(speakers);
  }

  lemma NamesInUseExactly(speakers: seq<MeetingSpeaker>, n: nat)
    ensures n in AfterNames(speakers).used <==> Kept(speakers, n) || TakenByLabel(speakers, n) || TakenByName(speakers, n)
  {
    var first, wishes := AfterLabels(speakers), NameWishes(speakers);
    PassGrantsFirstWishes(first, wishes, |speakers|);
    assert n in first.used <==> Kept(speakers, n) || TakenByLabel(speakers, n) by {
      AfterLabelsExactly(speakers);
    }
    if GrantedInPass(first, wishes, |speakers|, n) {
      var i :| 0 <= i < |speakers| && FirstWish(first, wishes, i) && wishes[i] == Some(n);
      NamePassServes(speakers, i, n);
      assert GetsByName(speakers, i, n);
    }
    if TakenByName(speakers, n) {
      var j: nat :| GetsByName(speakers, j, n);
      NamePassServes(speakers, j, n);
      assert FirstWish(first, wishes, j) && wishes[j] == Some(n);
    }
  }

  // ---------------------------------------------------------------------------------------
  // The rest
  // ---------------------------------------------------------------------------------------

  ghost predicate HandedToOneBefore(p: Progress, f: seq<Option<nat>>, count: nat, n: nat)
    requires count <= |f| == |p.granted|
  {
    exists j :: 0 <= j < count && p.granted[j].None? && f[j] == Some(n)
  }

  /** The least number that was not in use and that no speaker before was handed. */
  ghost predicate LeastFree(p: Progress, f: seq<Option<nat>>, i: nat)
    requires i < |f| == |p.granted|
  {
    && f[i].Some? && 0 < f[i].value && f[i].value !in p.used && !HandedToOneBefore(p, f, i, f[i].value)
    && forall n: nat :: 0 < n < f[i].value ==> n in p.used || HandedToOneBefore(p, f, i, n)
  }

  ghost predicate FilledUpTo(speakers: seq<MeetingSpeaker>, p: Progress, f: Filled, count: nat)
    requires count <= |speakers| == |p.granted| == |f.granted|
  {
    && (forall n: nat :: n in f.used <==> n in p.used || HandedToOneBefore(p, f.granted, count, n))
    && (forall i :: 0 <= i < count && Anonymous(speakers[i]) && p.granted[i].None? ==> LeastFree(p, f.granted, i))
    && (forall i :: 0 <= i < |speakers| && (count <= i || !Anonymous(speakers[i])) ==> f.granted[i] == p.granted[i])
  }

  lemma HandingOnKeepsWhatWas(p: Progress, before: seq<Option<nat>>, after: seq<Option<nat>>, k: nat, i: nat, n: nat)
    requires i <= k < |before| == |after| == |p.granted| && after == before[k := after[k]]
    ensures HandedToOneBefore(p, after, i, n) <==> HandedToOneBefore(p, before, i, n)
  {
    if HandedToOneBefore(p, before, i, n) {
      var j :| 0 <= j < i && p.granted[j].None? && before[j] == Some(n);
      assert after[j] == Some(n);
    }
  }

  lemma LeastStaysLeast(p: Progress, before: seq<Option<nat>>, after: seq<Option<nat>>, k: nat, i: nat)
    requires i < k < |before| == |after| == |p.granted| && after == before[k := after[k]] && LeastFree(p, before, i)
    ensures LeastFree(p, after, i)
  {
    forall n: nat ensures HandedToOneBefore(p, after, i, n) <==> HandedToOneBefore(p, before, i, n) {
      HandingOnKeepsWhatWas(p, before, after, k, i, n);
    }
  }

  lemma UsedOneMore(p: Progress, before: seq<Option<nat>>, after: seq<Option<nat>>, k: nat, n: nat)
    requires k < |before| == |after| == |p.granted| && after == before[k := after[k]]
    ensures HandedToOneBefore(p, after, k + 1, n)
       <==> HandedToOneBefore(p, before, k, n) || (p.granted[k].None? && after[k] == Some(n))
  {
    HandingOnKeepsWhatWas(p, before, after, k, k, n);
    if HandedToOneBefore(p, after, k, n) {
      var j :| 0 <= j < k && p.granted[j].None? && after[j] == Some(n);
      assert HandedToOneBefore(p, after, k + 1, n);
    }
  }

  ghost predicate OnlyAnonymous(speakers: seq<MeetingSpeaker>, p: Progress)
    requires |speakers| == |p.granted|
  {
    forall i :: 0 <= i < |speakers| && !Anonymous(speakers[i]) ==> p.granted[i].None?
  }

  lemma NothingFilledYet(speakers: seq<MeetingSpeaker>, p: Progress)
    requires |speakers| == |p.granted|
    ensures FilledUpTo(speakers, p, Fill(speakers, p, 0), 0)
  {
  }

  lemma FillOneMore(speakers: seq<MeetingSpeaker>, p: Progress, f: Filled, k: nat)
    requires k < |speakers| == |p.granted| == |f.granted| && FilledWell(f) && FilledUpTo(speakers, p, f, k)
    requires !Anonymous(speakers[k]) ==> p.granted[k].None?
    ensures FilledUpTo(speakers, p, FillOne(speakers[k], f, k), k + 1)
  {
    var g := FillOne(speakers[k], f, k);
    assert g.granted == f.granted[k := g.granted[k]];
    forall n: nat ensures n in g.used <==> n in p.used || HandedToOneBefore(p, g.granted, k + 1, n) {
      UsedOneMore(p, f.granted, g.granted, k, n);
    }
    forall i | 0 <= i < k + 1 && Anonymous(speakers[i]) && p.granted[i].None? ensures LeastFree(p, g.granted, i) {
      if i < k {
        LeastStaysLeast(p, f.granted, g.granted, k, i);
      } else {
        FreshIsLeast(speakers, p, f, k);
      }
    }
  }

  lemma FreshIsLeast(speakers: seq<MeetingSpeaker>, p: Progress, f: Filled, k: nat)
    requires k < |speakers| == |p.granted| == |f.granted| && FilledWell(f) && FilledUpTo(speakers, p, f, k)
    requires Anonymous(speakers[k]) && p.granted[k].None?
    ensures LeastFree(p, FillOne(speakers[k], f, k).granted, k)
  {
    var g := FillOne(speakers[k], f, k);
    forall n: nat ensures HandedToOneBefore(p, g.granted, k, n) <==> HandedToOneBefore(p, f.granted, k, n) {
      HandingOnKeepsWhatWas(p, f.granted, g.granted, k, k, n);
    }
  }

  lemma {:induction false} FillHandsOutTheLeast(speakers: seq<MeetingSpeaker>, p: Progress, count: nat)
    requires count <= |speakers| == |p.granted| && OnlyAnonymous(speakers, p)
    ensures FilledUpTo(speakers, p, Fill(speakers, p, count), count)
  {
    if count == 0 {
      NothingFilledYet(speakers, p);
    } else {
      FillHandsOutTheLeast(speakers, p, count - 1);
      FillOneMore(speakers, p, Fill(speakers, p, count - 1), count - 1);
    }
  }

  // ---------------------------------------------------------------------------------------
  // Main result
  // ---------------------------------------------------------------------------------------

  /** The number is shown by a name that stays, or got by a label or a name. */
  ghost predicate Claimed(speakers: seq<MeetingSpeaker>, n: nat) {
    Kept(speakers, n) || TakenByLabel(speakers, n) || TakenByName(speakers, n)
  }

  ghost predicate HandedOut(speakers: seq<MeetingSpeaker>, i: nat, n: nat)
    requires i <= |speakers|
  {
    exists j :: 0 <= j < i && LeftOver(speakers, j) && Numbers(speakers)[j] == Some(n)
  }

  lemma LeftOverIsUngranted(speakers: seq<MeetingSpeaker>, i: nat)
    requires i < |speakers|
    ensures LeftOver(speakers, i) <==> Anonymous(speakers[i]) && AfterNames(speakers).granted[i].None?
  {
    var granted := AfterNames(speakers).granted[i];
    if granted.Some? {
      NameGrantsExactly(speakers, i, granted.value);
    } else {
      forall n: nat ensures !GetsByLabel(speakers, i, n) && !GetsByName(speakers, i, n) {
        NameGrantsExactly(speakers, i, n);
      }
    }
  }

  lemma OnlyTheAnonymousAreGranted(speakers: seq<MeetingSpeaker>, i: nat)
    requires i < |speakers| && !Anonymous(speakers[i])
    ensures AfterNames(speakers).granted[i].None?
  {
    forall n: nat ensures AfterNames(speakers).granted[i] != Some(n) {
      NameGrantsExactly(speakers, i, n);
    }
  }

  lemma HandedOutIsHanded(speakers: seq<MeetingSpeaker>, i: nat, n: nat)
    requires i <= |speakers|
    ensures HandedToOneBefore(AfterNames(speakers), Numbers(speakers), i, n) <==> HandedOut(speakers, i, n)
  {
    var p := AfterNames(speakers);
    FillReaches(speakers, p, |speakers|);
    if HandedToOneBefore(p, Numbers(speakers), i, n) {
      var j :| 0 <= j < i && p.granted[j].None? && Numbers(speakers)[j] == Some(n);
      LeftOverIsUngranted(speakers, j);
    }
    if HandedOut(speakers, i, n) {
      var j :| 0 <= j < i && LeftOver(speakers, j) && Numbers(speakers)[j] == Some(n);
      LeftOverIsUngranted(speakers, j);
    }
  }

  /**
   Every anonymous speaker that asks by label for a number first gets it; of the others, so does every one that asks by
   name for a number first; and each one left over gets the least number nobody has claimed or been handed before.
   */
  lemma NumbersFollowPreferences(speakers: seq<MeetingSpeaker>, i: nat, n: nat)
    requires i < |speakers|
    ensures GetsByLabel(speakers, i, n) || GetsByName(speakers, i, n) ==> Numbers(speakers)[i] == Some(n)
    ensures LeftOver(speakers, i) ==>
              (Numbers(speakers)[i] == Some(n)
               <==> && 0 < n && !Claimed(speakers, n) && !HandedOut(speakers, i, n)
                    && forall k: nat :: 0 < k < n ==> Claimed(speakers, k) || HandedOut(speakers, i, k))
  {
    var p := AfterNames(speakers);
    NameGrantsExactly(speakers, i, n);
    FillReaches(speakers, p, |speakers|);
    if LeftOver(speakers, i) {
      TheRestGetTheLeast(speakers, i);
      var least := Numbers(speakers)[i].value;
      if 0 < n && !Claimed(speakers, n) && !HandedOut(speakers, i, n)
         && forall k: nat :: 0 < k < n ==> Claimed(speakers, k) || HandedOut(speakers, i, k)
      {
        assert n == least;
      }
    }
  }

  lemma TheRestGetTheLeast(speakers: seq<MeetingSpeaker>, i: nat)
    requires LeftOver(speakers, i)
    ensures var number := Numbers(speakers)[i];
            && number.Some? && 0 < number.value
            && !Claimed(speakers, number.value) && !HandedOut(speakers, i, number.value)
            && forall k: nat :: 0 < k < number.value ==> Claimed(speakers, k) || HandedOut(speakers, i, k)
  {
    var p := AfterNames(speakers);
    forall j | 0 <= j < |speakers| && !Anonymous(speakers[j]) ensures p.granted[j].None? {
      OnlyTheAnonymousAreGranted(speakers, j);
    }
    FillHandsOutTheLeast(speakers, p, |speakers|);
    LeftOverIsUngranted(speakers, i);
    assert LeastFree(p, Numbers(speakers), i);
    forall k: nat ensures k in p.used <==> Claimed(speakers, k) {
      NamesInUseExactly(speakers, k);
    }
    forall k: nat ensures HandedToOneBefore(p, Numbers(speakers), i, k) <==> HandedOut(speakers, i, k) {
      HandedOutIsHanded(speakers, i, k);
    }
  }

  /** Two numbers never look alike. */
  lemma NamesDiffer(n: nat, k: nat)
    requires AnonymousName(n) == AnonymousName(k)
    ensures n == k
  {
    DecimalReadsBack(n);
    DecimalReadsBack(k);
    assert AnonymousName(n)[|PREFIX|..] == Decimal(n) && AnonymousName(k)[|PREFIX|..] == Decimal(k);
  }

  /** And the number is what the speaker's name shows afterwards. */
  lemma NamesShowTheNumbers(speakers: seq<MeetingSpeaker>, i: nat, n: nat)
    requires i < |speakers| && Anonymous(speakers[i])
    ensures ShowsNumber(Normalized(speakers)[i], n) <==> Numbers(speakers)[i] == Some(n)
  {
    NumbersAreDistinct(speakers);
    var number := Numbers(speakers)[i].value;
    assert Normalized(speakers)[i].name == AnonymousName(number);
    if Normalized(speakers)[i].name == AnonymousName(n) {
      NamesDiffer(number, n);
    }
  }
}
