/**
 Unique numbers for anonymous speakers (service.rs, normalize_unknown_speaker_names): three
 passes over the speaker list of a meeting, in place.
 */
module SpeakerNumbering {
  import opened Wrappers
  import opened SpeakerNames

  datatype State = Matched | Review | Unknown

  datatype MeetingSpeaker = MeetingSpeaker(cluster: string, name: string, initials: string, state: State)

  predicate Anonymous(s: MeetingSpeaker) {
    !s.state.Matched? && (IsPlaceholder(Trim(s.name)) || NumberedName(s.name).Some?)
  }

  /** The two wishes of an anonymous speaker; the others wish for nothing. */
  function LabelWish(s: MeetingSpeaker): Option<nat> {
    if Anonymous(s) then NumberFromLabel(s.cluster) else None
  }

  function NameWish(s: MeetingSpeaker): Option<nat> {
    if Anonymous(s) then NumberedName(s.name) else None
  }

  /** Numbers in names that stay as they are. */
  function KeptNumber(s: MeetingSpeaker): Option<nat> {
    if Anonymous(s) then None else NumberedName(s.name)
  }

  function KeptNumbers(speakers: seq<MeetingSpeaker>): set<nat> {
    set i | 0 <= i < |speakers| && KeptNumber(speakers[i]).Some? :: KeptNumber(speakers[i]).value
  }

  /** The working variables: numbers in use and the assignments made. */
  datatype Progress = Progress(used: set<nat>, granted: seq<Option<nat>>)

  function Begin(speakers: seq<MeetingSpeaker>): Progress {
    Progress(KeptNumbers(speakers), seq(|speakers|, i => None))
  }

  function Grant(p: Progress, i: nat, wish: Option<nat>): Progress
    requires i < |p.granted|
  {
    if p.granted[i].None? && wish.Some? && wish.value !in p.used then
      Progress(p.used + {wish.value}, p.granted[i := wish])
    else p
  }

  /** Grants the wishes of the first `count` speakers, first come first served. */
  function GrantAll(p: Progress, wishes: seq<Option<nat>>, count: nat): (q: Progress)
    requires count <= |wishes| == |p.granted|
    ensures |q.granted| == |p.granted|
  {
    if count == 0 then p else Grant(GrantAll(p, wishes, count - 1), count - 1, wishes[count - 1])
  }

  function LabelWishes(speakers: seq<MeetingSpeaker>): seq<Option<nat>> {
    seq(|speakers|, i requires 0 <= i < |speakers| => LabelWish(speakers[i]))
  }

  function NameWishes(speakers: seq<MeetingSpeaker>): seq<Option<nat>> {
    seq(|speakers|, i requires 0 <= i < |speakers| => NameWish(speakers[i]))
  }

  function AfterLabels(speakers: seq<MeetingSpeaker>): (p: Progress)
    ensures |p.granted| == |speakers|
  {
    GrantAll(Begin(speakers), LabelWishes(speakers), |speakers|)
  }

  function AfterNames(speakers: seq<MeetingSpeaker>): (p: Progress)
    ensures |p.granted| == |speakers|
  {
    GrantAll(AfterLabels(speakers), NameWishes(speakers), |speakers|)
  }

  predicate UsedBelow(used: set<nat>, bound: nat) {
    forall n :: 0 < n < bound ==> n in used
  }

  lemma {:induction false} UsedBelowBoundsSize(used: set<nat>, bound: nat)
    requires 0 < bound && UsedBelow(used, bound)
    ensures bound - 1 <= |used|
    decreases bound
  {
    if bound > 1 {
      var rest := used - {bound - 1};
      assert UsedBelow(rest, bound - 1);
      UsedBelowBoundsSize(rest, bound - 1);
    }
  }

  /** The fallback search: the first free number from `from` on. It terminates. */
  function FirstFree(used: set<nat>, from: nat): (n: nat)
    requires 0 < from && UsedBelow(used, from)
    ensures n >= from && n !in used && UsedBelow(used, n)
    decreases |used| + 1 - from
  {
    if from in used then
      assert UsedBelow(used, from + 1);
      UsedBelowBoundsSize(used, from + 1);
      FirstFree(used, from + 1)
    else from
  }

  datatype Filled = Filled(used: set<nat>, fallback: nat, granted: seq<Option<nat>>)

  predicate FilledWell(f: Filled) {
    0 < f.fallback && UsedBelow(f.used, f.fallback)
  }

  function FillOne(s: MeetingSpeaker, f: Filled, i: nat): (g: Filled)
    requires FilledWell(f) && i < |f.granted|
    ensures FilledWell(g) && |g.granted| == |f.granted|
  {
    if Anonymous(s) && f.granted[i].None? then
      var n := FirstFree(f.used, f.fallback);
      Filled(f.used + {n}, n, f.granted[i := Some(n)])
    else f
  }

  /** The third pass over the first `count` speakers. */
  function Fill(speakers: seq<MeetingSpeaker>, p: Progress, count: nat): (f: Filled)
    requires count <= |speakers| == |p.granted|
    ensures FilledWell(f) && |f.granted| == |speakers|
  {
    if count == 0 then Filled(p.used, 1, p.granted)
    else FillOne(speakers[count - 1], Fill(speakers, p, count - 1), count - 1)
  }

  function Numbers(speakers: seq<MeetingSpeaker>): (granted: seq<Option<nat>>)
    ensures |granted| == |speakers|
  {
    Fill(speakers, AfterNames(speakers), |speakers|).granted
  }

  function Renamed(s: MeetingSpeaker, number: Option<nat>): MeetingSpeaker {
    if Anonymous(s) && number.Some? then
      s.(name := AnonymousName(number.value), initials := "S" + Decimal(number.value))
    else s
  }

  function Normalized(speakers: seq<MeetingSpeaker>): (result: seq<MeetingSpeaker>)
    ensures |result| == |speakers|
  {
    seq(|speakers|, i requires 0 <= i < |speakers| => Renamed(speakers[i], Numbers(speakers)[i]))
  }

  // ---------------------------------------------------------------------------------------
  // What the passes keep
  // ---------------------------------------------------------------------------------------

  /** The number a speaker holds: granted if anonymous, kept otherwise. */
  function Holds(speakers: seq<MeetingSpeaker>, granted: seq<Option<nat>>, i: nat): Option<nat>
    requires i < |speakers| == |granted|
  {
    if Anonymous(speakers[i]) then granted[i] else KeptNumber(speakers[i])
  }

  /** No two anonymous speakers share a number, nor one with a kept name. */
  ghost predicate Distinct(speakers: seq<MeetingSpeaker>, used: set<nat>, granted: seq<Option<nat>>) {
    && |granted| == |speakers|
    && (forall i :: 0 <= i < |speakers| && granted[i].Some? ==>
          && Anonymous(speakers[i])
          && 0 < granted[i].value
          && granted[i].value in used
          && granted[i].value !in KeptNumbers(speakers))
    && (forall i, j :: 0 <= i < j < |speakers| && granted[i].Some? ==> granted[i] != granted[j])
    && KeptNumbers(speakers) <= used
  }

  ghost predicate Held(speakers: seq<MeetingSpeaker>, granted: seq<Option<nat>>, n: nat)
    requires |granted| == |speakers|
  {
    exists i :: 0 <= i < |speakers| && Holds(speakers, granted, i) == Some(n)
  }

  /** Every number in use is held by somebody. */
  ghost predicate UsedIsHeld(speakers: seq<MeetingSpeaker>, used: set<nat>, granted: seq<Option<nat>>)
    requires |granted| == |speakers|
  {
    forall n :: n in used ==> Held(speakers, granted, n)
  }

  lemma BeginIsHeld(speakers: seq<MeetingSpeaker>)
    ensures UsedIsHeld(speakers, Begin(speakers).used, Begin(speakers).granted)
  {
    var p := Begin(speakers);
    forall n | n in p.used ensures Held(speakers, p.granted, n) {
      var i :| 0 <= i < |speakers| && KeptNumber(speakers[i]) == Some(n);
      assert Holds(speakers, p.granted, i) == Some(n);
    }
  }

  /** One more assignment of an unused positive number keeps all numbers distinct. */
  lemma AssignKeepsDistinct(speakers: seq<MeetingSpeaker>, used: set<nat>, granted: seq<Option<nat>>, i: nat, n: nat)
    requires Distinct(speakers, used, granted)
    requires i < |speakers| && Anonymous(speakers[i]) && granted[i].None?
    requires 0 < n && n !in used
    ensures Distinct(speakers, used + {n}, granted[i := Some(n)])
  {
  }

  lemma AssignKeepsHeld(speakers: seq<MeetingSpeaker>, used: set<nat>, granted: seq<Option<nat>>, i: nat, n: nat)
    requires |granted| == |speakers| && UsedIsHeld(speakers, used, granted)
    requires i < |speakers| && Anonymous(speakers[i]) && granted[i].None?
    ensures UsedIsHeld(speakers, used + {n}, granted[i := Some(n)])
  {
    var after := granted[i := Some(n)];
    forall k | k in used + {n} ensures Held(speakers, after, k) {
      if k == n {
        assert Holds(speakers, after, i) == Some(k);
      } else {
        assert Held(speakers, granted, k);
        var j :| 0 <= j < |speakers| && Holds(speakers, granted, j) == Some(k);
        assert Holds(speakers, after, j) == Some(k);
      }
    }
  }

  ghost predicate WishesFit(speakers: seq<MeetingSpeaker>, wishes: seq<Option<nat>>) {
    && |wishes| == |speakers|
    && forall i :: 0 <= i < |wishes| && wishes[i].Some? ==>
         Anonymous(speakers[i]) && 0 < wishes[i].value <= U32_MAX
  }

  lemma GrantKeepsDistinct(speakers: seq<MeetingSpeaker>, q: Progress, i: nat, wish: Option<nat>)
    requires Distinct(speakers, q.used, q.granted) && i < |speakers|
    requires wish.Some? ==> Anonymous(speakers[i]) && 0 < wish.value
    ensures var r := Grant(q, i, wish); Distinct(speakers, r.used, r.granted)
  {
    if q.granted[i].None? && wish.Some? && wish.value !in q.used {
      AssignKeepsDistinct(speakers, q.used, q.granted, i, wish.value);
    }
  }

  lemma GrantKeepsHeld(speakers: seq<MeetingSpeaker>, q: Progress, i: nat, wish: Option<nat>)
    requires |q.granted| == |speakers| && UsedIsHeld(speakers, q.used, q.granted) && i < |speakers|
    requires wish.Some? ==> Anonymous(speakers[i])
    ensures var r := Grant(q, i, wish); UsedIsHeld(speakers, r.used, r.granted)
  {
    if q.granted[i].None? && wish.Some? && wish.value !in q.used {
      AssignKeepsHeld(speakers, q.used, q.granted, i, wish.value);
    }
  }

  /** What every grant keeps, a pass of grants keeps. */
  lemma {:induction false} GrantInduction(kept: Progress -> bool, p: Progress, wishes: seq<Option<nat>>, count: nat)
    requires count <= |wishes| == |p.granted| && kept(p)
    requires forall q: Progress, i {:trigger Grant(q, i, wishes[i])} ::
               0 <= i < |wishes| == |q.granted| && kept(q) ==> kept(Grant(q, i, wishes[i]))
    ensures kept(GrantAll(p, wishes, count))
  {
    if count > 0 {
      GrantInduction(kept, p, wishes, count - 1);
    }
  }

  lemma GrantAllKeepsDistinct(speakers: seq<MeetingSpeaker>, p: Progress, wishes: seq<Option<nat>>, count: nat)
    requires Distinct(speakers, p.used, p.granted) && WishesFit(speakers, wishes) && count <= |speakers|
    ensures var q := GrantAll(p, wishes, count); Distinct(speakers, q.used, q.granted)
  {
    forall q: Progress, i | 0 <= i < |wishes| == |q.granted| && Distinct(speakers, q.used, q.granted)
      ensures var r := Grant(q, i, wishes[i]); Distinct(speakers, r.used, r.granted)
    {
      GrantKeepsDistinct(speakers, q, i, wishes[i]);
    }
    GrantInduction((q: Progress) => Distinct(speakers, q.used, q.granted), p, wishes, count);
  }

  lemma GrantAllKeepsHeld(speakers: seq<MeetingSpeaker>, p: Progress, wishes: seq<Option<nat>>, count: nat)
    requires |p.granted| == |speakers| && UsedIsHeld(speakers, p.used, p.granted)
    requires WishesFit(speakers, wishes) && count <= |speakers|
    ensures var q := GrantAll(p, wishes, count); UsedIsHeld(speakers, q.used, q.granted)
  {
    forall q: Progress, i | 0 <= i < |wishes| == |q.granted| && UsedIsHeld(speakers, q.used, q.granted)
      ensures var r := Grant(q, i, wishes[i]); UsedIsHeld(speakers, r.used, r.granted)
    {
      GrantKeepsHeld(speakers, q, i, wishes[i]);
    }
    GrantInduction((q: Progress) => |q.granted| == |speakers| && UsedIsHeld(speakers, q.used, q.granted), p, wishes, count);
  }

  lemma FillOneKeepsDistinct(speakers: seq<MeetingSpeaker>, f: Filled, i: nat)
    requires i < |speakers| == |f.granted| && Distinct(speakers, f.used, f.granted) && FilledWell(f)
    ensures var g := FillOne(speakers[i], f, i); Distinct(speakers, g.used, g.granted)
  {
    if Anonymous(speakers[i]) && f.granted[i].None? {
      AssignKeepsDistinct(speakers, f.used, f.granted, i, FirstFree(f.used, f.fallback));
    }
  }

  lemma FillOneKeepsHeld(speakers: seq<MeetingSpeaker>, f: Filled, i: nat)
    requires i < |speakers| == |f.granted| && UsedIsHeld(speakers, f.used, f.granted) && FilledWell(f)
    ensures var g := FillOne(speakers[i], f, i); UsedIsHeld(speakers, g.used, g.granted)
  {
    if Anonymous(speakers[i]) && f.granted[i].None? {
      AssignKeepsHeld(speakers, f.used, f.granted, i, FirstFree(f.used, f.fallback));
    }
  }

  /** And what every fallback keeps, the last pass keeps. */
  lemma {:induction false} FillInduction(kept: Filled -> bool, speakers: seq<MeetingSpeaker>, p: Progress, count: nat)
    requires count <= |speakers| == |p.granted| && kept(Filled(p.used, 1, p.granted))
    requires forall f: Filled, i {:trigger FillOne(speakers[i], f, i)} ::
               0 <= i < |speakers| == |f.granted| && FilledWell(f) && kept(f) ==> kept(FillOne(speakers[i], f, i))
    ensures kept(Fill(speakers, p, count))
  {
    if count > 0 {
      FillInduction(kept, speakers, p, count - 1);
    }
  }

  lemma FillKeepsDistinct(speakers: seq<MeetingSpeaker>, p: Progress, count: nat)
    requires Distinct(speakers, p.used, p.granted) && count <= |speakers|
    ensures var f := Fill(speakers, p, count); Distinct(speakers, f.used, f.granted)
  {
    forall f: Filled, i | 0 <= i < |speakers| == |f.granted| && FilledWell(f) && Distinct(speakers, f.used, f.granted)
      ensures var g := FillOne(speakers[i], f, i); Distinct(speakers, g.used, g.granted)
    {
      FillOneKeepsDistinct(speakers, f, i);
    }
    FillInduction((f: Filled) => Distinct(speakers, f.used, f.granted), speakers, p, count);
  }

  lemma {:induction false} FillReaches(speakers: seq<MeetingSpeaker>, p: Progress, count: nat)
    requires count <= |speakers| == |p.granted|
    ensures var f := Fill(speakers, p, count);
            && (forall i :: 0 <= i < count && Anonymous(speakers[i]) ==> f.granted[i].Some?)
            && (forall i :: 0 <= i < |speakers| && p.granted[i].Some? ==> f.granted[i] == p.granted[i])
            && (forall i :: 0 <= i < |speakers| && (count <= i || !Anonymous(speakers[i])) ==>
                  f.granted[i] == p.granted[i])
  {
    if count > 0 {
      FillReaches(speakers, p, count - 1);
    }
  }

  lemma PassesAreDistinct(speakers: seq<MeetingSpeaker>)
    ensures var p := AfterNames(speakers);
            Distinct(speakers, p.used, p.granted) && UsedIsHeld(speakers, p.used, p.granted)
  {
    var none, first := Begin(speakers), AfterLabels(speakers);
    BeginIsHeld(speakers);
    GrantAllKeepsDistinct(speakers, none, LabelWishes(speakers), |speakers|);
    GrantAllKeepsHeld(speakers, none, LabelWishes(speakers), |speakers|);
    GrantAllKeepsDistinct(speakers, first, NameWishes(speakers), |speakers|);
    GrantAllKeepsHeld(speakers, first, NameWishes(speakers), |speakers|);
  }

  /** The numbers handed out: every anonymous speaker has one, all of them distinct. */
  lemma NumbersAreDistinct(speakers: seq<MeetingSpeaker>)
    ensures exists used :: Distinct(speakers, used, Numbers(speakers))
    ensures forall i :: 0 <= i < |speakers| ==> (Numbers(speakers)[i].Some? <==> Anonymous(speakers[i]))
  {
    PassesAreDistinct(speakers);
    FillKeepsDistinct(speakers, AfterNames(speakers), |speakers|);
    FillReaches(speakers, AfterNames(speakers), |speakers|);
    var f := Fill(speakers, AfterNames(speakers), |speakers|);
    assert Distinct(speakers, f.used, Numbers(speakers));
  }

  // ---------------------------------------------------------------------------------------
  // Numbers stay within 32 bits
  // ---------------------------------------------------------------------------------------

  function HoldersBut(speakers: seq<MeetingSpeaker>, granted: seq<Option<nat>>, skip: nat): set<nat>
    requires |granted| == |speakers|
  {
    set i | 0 <= i < |speakers| && i != skip && Holds(speakers, granted, i).Some?
  }

  function Below(n: nat): (indices: set<nat>)
    ensures |indices| == n
    ensures forall i :: i in indices <==> 0 <= i < n
  {
    if n == 0 then {} else Below(n - 1) + {n - 1}
  }

  lemma SubsetIsNoLarger<T>(small: set<T>, large: set<T>)
    requires small <= large
    ensures |small| <= |large|
  {
    assert large == small + (large - small);
  }

  lemma {:induction false} ImageIsNoLarger(used: set<nat>, holders: set<nat>, speakers: seq<MeetingSpeaker>,
                                           granted: seq<Option<nat>>)
    requires |granted| == |speakers|
    requires forall i :: i in holders ==> i < |speakers|
    requires forall n :: n in used ==> exists i :: i in holders && Holds(speakers, granted, i) == Some(n)
    ensures |used| <= |holders|
    decreases |used|
  {
    if used != {} {
      var n :| n in used;
      var i :| i in holders && Holds(speakers, granted, i) == Some(n);
      forall k | k in used - {n}
        ensures exists j :: j in holders - {i} && Holds(speakers, granted, j) == Some(k)
      {
        var j :| j in holders && Holds(speakers, granted, j) == Some(k);
        assert j in holders - {i};
      }
      ImageIsNoLarger(used - {n}, holders - {i}, speakers, granted);
    }
  }

  /** While some speaker holds no number, fewer numbers are used than there are speakers. */
  lemma FewerNumbersThanSpeakers(speakers: seq<MeetingSpeaker>, used: set<nat>, granted: seq<Option<nat>>, waiting: nat)
    requires |granted| == |speakers| && UsedIsHeld(speakers, used, granted)
    requires waiting < |speakers| && Holds(speakers, granted, waiting).None?
    ensures |used| < |speakers|
  {
    var holders := HoldersBut(speakers, granted, waiting);
    forall n | n in used ensures exists i :: i in holders && Holds(speakers, granted, i) == Some(n) {
      assert Held(speakers, granted, n);
      var i :| 0 <= i < |speakers| && Holds(speakers, granted, i) == Some(n);
      assert i in holders;
    }
    ImageIsNoLarger(used, holders, speakers, granted);
    SubsetIsNoLarger(holders, Below(|speakers|) - {waiting});
  }

  /** Each number handed out was a wish, which fits 32 bits, or is at most the speaker count. */
  predicate Bounded(speakers: seq<MeetingSpeaker>, granted: seq<Option<nat>>) {
    forall i :: 0 <= i < |granted| && granted[i].Some? ==> granted[i].value <= U32_MAX || granted[i].value <= |speakers|
  }

  lemma GrantAllBounded(speakers: seq<MeetingSpeaker>, p: Progress, wishes: seq<Option<nat>>, count: nat)
    requires WishesFit(speakers, wishes) && |p.granted| == |speakers| && Bounded(speakers, p.granted)
    requires count <= |speakers|
    ensures Bounded(speakers, GrantAll(p, wishes, count).granted)
  {
    GrantInduction((q: Progress) => Bounded(speakers, q.granted), p, wishes, count);
  }

  lemma FillOneBounded(speakers: seq<MeetingSpeaker>, f: Filled, i: nat)
    requires i < |speakers| == |f.granted| && UsedIsHeld(speakers, f.used, f.granted) && FilledWell(f)
    requires Bounded(speakers, f.granted)
    ensures Bounded(speakers, FillOne(speakers[i], f, i).granted)
  {
    if Anonymous(speakers[i]) && f.granted[i].None? {
      FewerNumbersThanSpeakers(speakers, f.used, f.granted, i);
      UsedBelowBoundsSize(f.used, FirstFree(f.used, f.fallback));
    }
  }

  lemma FillBounded(speakers: seq<MeetingSpeaker>, p: Progress, count: nat)
    requires |p.granted| == |speakers| && UsedIsHeld(speakers, p.used, p.granted)
    requires Bounded(speakers, p.granted) && count <= |speakers|
    ensures Bounded(speakers, Fill(speakers, p, count).granted)
  {
    var kept := (f: Filled) => |f.granted| == |speakers| && UsedIsHeld(speakers, f.used, f.granted) && Bounded(speakers, f.granted);
    forall f: Filled, i | 0 <= i < |speakers| == |f.granted| && FilledWell(f) && kept(f)
      ensures kept(FillOne(speakers[i], f, i))
    {
      FillOneKeepsHeld(speakers, f, i);
      FillOneBounded(speakers, f, i);
    }
    FillInduction(kept, speakers, p, count);
  }

  /** The counter never leaves 32 bits for a list that fits them. */
  lemma NumbersFit(speakers: seq<MeetingSpeaker>)
    requires |speakers| <= U32_MAX
    ensures forall i :: 0 <= i < |speakers| && Numbers(speakers)[i].Some? ==> 0 < Numbers(speakers)[i].value <= U32_MAX
  {
    PassesAreDistinct(speakers);
    GrantAllBounded(speakers, Begin(speakers), LabelWishes(speakers), |speakers|);
    GrantAllBounded(speakers, AfterLabels(speakers), NameWishes(speakers), |speakers|);
    FillBounded(speakers, AfterNames(speakers), |speakers|);
    NumbersAreDistinct(speakers);
  }

  // ---------------------------------------------------------------------------------------
  // Main results
  // ---------------------------------------------------------------------------------------

  /** The number a reader sees in the name of an anonymous speaker. */
  ghost predicate ShowsNumber(s: MeetingSpeaker, n: nat) {
    s.name == AnonymousName(n) && s.initials == "S" + Decimal(n)
  }

  /**
   After the three passes every anonymous speaker shows a positive number that no other speaker
   shows, kept names included, and every other speaker is untouched.
   */
  lemma NormalizedNamesAreUnique(speakers: seq<MeetingSpeaker>)
    requires |speakers| <= U32_MAX
    ensures var result := Normalized(speakers);
            forall i :: 0 <= i < |speakers| ==>
              && (Anonymous(speakers[i]) ==> Anonymous(result[i]))
              && (!Anonymous(speakers[i]) ==> result[i] == speakers[i])
              && (Anonymous(speakers[i]) ==>
                    && NumberedName(result[i].name).Some?
                    && ShowsNumber(result[i], NumberedName(result[i].name).value)
                    && result[i].cluster == speakers[i].cluster && result[i].state == speakers[i].state)
    ensures var result := Normalized(speakers);
            forall i, j :: 0 <= i < |speakers| && 0 <= j < |speakers| && i != j && Anonymous(speakers[i]) ==>
              NumberedName(result[i].name) != NumberedName(result[j].name)
  {
    NumbersAreDistinct(speakers);
    NumbersFit(speakers);
    var result := Normalized(speakers);
    var granted := Numbers(speakers);
    forall i | 0 <= i < |speakers| && Anonymous(speakers[i])
      ensures NumberedName(result[i].name) == granted[i] && Anonymous(result[i])
    {
      AnonymousNameReadsBack(granted[i].value);
    }
    forall i, j | 0 <= i < |speakers| && 0 <= j < |speakers| && i != j && Anonymous(speakers[i])
      ensures NumberedName(result[i].name) != NumberedName(result[j].name)
    {
      if Anonymous(speakers[j]) {
        assert granted[i] != granted[j];
      } else if NumberedName(speakers[j].name).Some? {
        assert KeptNumber(speakers[j]).value in KeptNumbers(speakers);
      }
    }
  }

  lemma {:induction false} GrantAllKeepsGrants(p: Progress, wishes: seq<Option<nat>>, count: nat)
    requires count <= |wishes| == |p.granted|
    ensures forall i :: 0 <= i < |wishes| && p.granted[i].Some? ==>
              GrantAll(p, wishes, count).granted[i] == p.granted[i]
  {
    if count > 0 {
      GrantAllKeepsGrants(p, wishes, count - 1);
    }
  }

  ghost predicate Extends(granted: seq<Option<nat>>, numbers: seq<Option<nat>>) {
    |granted| == |numbers| && forall i :: 0 <= i < |granted| && granted[i].Some? ==> numbers[i] == granted[i]
  }

  /** A number handed out later was not in use before. */
  lemma LaterNumberWasFree(speakers: seq<MeetingSpeaker>, p: Progress, numbers: seq<Option<nat>>, used: set<nat>, i: nat)
    requires |p.granted| == |speakers| && UsedIsHeld(speakers, p.used, p.granted)
    requires Distinct(speakers, used, numbers) && Extends(p.granted, numbers)
    requires i < |speakers| && p.granted[i].None? && numbers[i].Some?
    ensures numbers[i].value !in p.used
  {
  }

  ghost predicate HandedOut(numbers: seq<Option<nat>>, count: nat, n: nat)
    requires count <= |numbers|
  {
    exists j :: 0 <= j < count && numbers[j] == Some(n)
  }

  ghost predicate ReplayedUpTo(q: Progress, p: Progress, numbers: seq<Option<nat>>, count: nat)
    requires count <= |numbers| == |p.granted| == |q.granted|
  {
    && (forall i :: 0 <= i < |numbers| ==> q.granted[i] == if i < count then numbers[i] else p.granted[i])
    && (forall n :: n in q.used ==> n in p.used || HandedOut(numbers, count, n))
  }

  lemma ReplayOne(speakers: seq<MeetingSpeaker>, q: Progress, p: Progress, numbers: seq<Option<nat>>, used: set<nat>, i: nat)
    requires |p.granted| == |q.granted| == |speakers| && UsedIsHeld(speakers, p.used, p.granted)
    requires Distinct(speakers, used, numbers) && Extends(p.granted, numbers) && i < |speakers|
    requires ReplayedUpTo(q, p, numbers, i)
    ensures ReplayedUpTo(Grant(q, i, numbers[i]), p, numbers, i + 1)
  {
    var r := Grant(q, i, numbers[i]);
    if p.granted[i].None? && numbers[i].Some? {
      LaterNumberWasFree(speakers, p, numbers, used, i);
      assert !HandedOut(numbers, i, numbers[i].value);
    }
    forall n | n in r.used && n !in p.used ensures HandedOut(numbers, i + 1, n) {
      if n in q.used {
        var j :| 0 <= j < i && numbers[j] == Some(n);
        assert numbers[j] == Some(n);
      } else {
        assert numbers[i] == Some(n);
      }
    }
  }

  lemma {:induction false} GrantingNumbersAgain(speakers: seq<MeetingSpeaker>, p: Progress,
                                                numbers: seq<Option<nat>>, used: set<nat>, count: nat)
    requires |p.granted| == |speakers| && UsedIsHeld(speakers, p.used, p.granted)
    requires Distinct(speakers, used, numbers) && Extends(p.granted, numbers) && count <= |speakers|
    ensures ReplayedUpTo(GrantAll(p, numbers, count), p, numbers, count)
  {
    if count > 0 {
      var before := GrantAll(p, numbers, count - 1);
      GrantingNumbersAgain(speakers, p, numbers, used, count - 1);
      assert ReplayedUpTo(Grant(before, count - 1, numbers[count - 1]), p, numbers, count) by {
        ReplayOne(speakers, before, p, numbers, used, count - 1);
      }
    }
  }

  lemma SecondRunStartsAlike(speakers: seq<MeetingSpeaker>)
    requires |speakers| <= U32_MAX
    ensures var again := Normalized(speakers);
            && AfterLabels(again) == AfterLabels(speakers)
            && NameWishes(again) == Numbers(speakers)
            && KeptNumbers(again) == KeptNumbers(speakers)
            && (forall i :: 0 <= i < |speakers| ==> Anonymous(again[i]) == Anonymous(speakers[i]))
  {
    var again := Normalized(speakers);
    NumbersAreDistinct(speakers);
    NumbersFit(speakers);
    forall i | 0 <= i < |speakers|
      ensures Anonymous(again[i]) == Anonymous(speakers[i])
      ensures LabelWish(again[i]) == LabelWish(speakers[i])
      ensures KeptNumber(again[i]) == KeptNumber(speakers[i])
      ensures NameWish(again[i]) == Numbers(speakers)[i]
    {
      if Anonymous(speakers[i]) {
        AnonymousNameReadsBack(Numbers(speakers)[i].value);
      }
    }
    assert LabelWishes(again) == LabelWishes(speakers);
    assert NameWishes(again) == Numbers(speakers);
    assert KeptNumbers(again) == KeptNumbers(speakers);
    assert Begin(again) == Begin(speakers);
  }

  lemma SecondRunHandsOutTheSame(speakers: seq<MeetingSpeaker>)
    requires |speakers| <= U32_MAX
    ensures Numbers(Normalized(speakers)) == Numbers(speakers)
  {
    var again, numbers := Normalized(speakers), Numbers(speakers);
    SecondRunStartsAlike(speakers);
    NumbersAreDistinct(speakers);
    var used :| Distinct(speakers, used, numbers);
    var p := AfterLabels(speakers);
    BeginIsHeld(speakers);
    GrantAllKeepsHeld(speakers, Begin(speakers), LabelWishes(speakers), |speakers|);
    GrantAllKeepsGrants(p, NameWishes(speakers), |speakers|);
    FillReaches(speakers, AfterNames(speakers), |speakers|);
    GrantingNumbersAgain(speakers, p, numbers, used, |speakers|);
    assert AfterNames(again).granted == numbers;
    FillReaches(again, AfterNames(again), |again|);
    assert Numbers(again) == numbers;
  }

  /** A second run changes nothing. */
  lemma NormalizingAgainChangesNothing(speakers: seq<MeetingSpeaker>)
    requires |speakers| <= U32_MAX
    ensures Normalized(Normalized(speakers)) == Normalized(speakers)
  {
    SecondRunHandsOutTheSame(speakers);
    SecondRunStartsAlike(speakers);
    var again := Normalized(speakers);
    forall i | 0 <= i < |speakers| ensures Normalized(again)[i] == again[i] {
    }
  }

  // ---------------------------------------------------------------------------------------
  // The algorithm, in place
  // ---------------------------------------------------------------------------------------

  lemma KeptNumbersGrow(speakers: seq<MeetingSpeaker>, last: MeetingSpeaker)
    ensures KeptNumbers(speakers + [last])
         == KeptNumbers(speakers) + (if KeptNumber(last).Some? then {KeptNumber(last).value} else {})
  {
    var all := speakers + [last];
    forall n | n in KeptNumbers(speakers) ensures n in KeptNumbers(all) {
      var i :| 0 <= i < |speakers| && KeptNumber(speakers[i]) == Some(n);
      assert KeptNumber(all[i]) == Some(n);
    }
    assert all[|speakers|] == last;
  }

  method CollectKept(speakers: array<MeetingSpeaker>) returns (used: set<nat>)
    ensures used == KeptNumbers(speakers[..])
  {
    used := {};
    for i := 0 to speakers.Length
      invariant used == KeptNumbers(speakers[..i])
    {
      assert speakers[..i + 1] == speakers[..i] + [speakers[i]];
      KeptNumbersGrow(speakers[..i], speakers[i]);
      if !Anonymous(speakers[i]) && NumberedName(speakers[i].name).Some? {
        used := used + {NumberedName(speakers[i].name).value};
      }
    }
    assert speakers[..speakers.Length] == speakers[..];
  }

  /** A wish is granted if the speaker has no number yet and nobody uses the one wished for. */
  method GrantWish(used: set<nat>, assignments: seq<Option<nat>>, i: nat, wish: Option<nat>)
    returns (inUse: set<nat>, granted: seq<Option<nat>>)
    requires i < |assignments|
    ensures Progress(inUse, granted) == Grant(Progress(used, assignments), i, wish)
  {
    inUse, granted := used, assignments;
    if assignments[i].None? && wish.Some? && wish.value !in used {
      inUse := used + {wish.value};
      granted := assignments[i := wish];
    }
  }

  /** One pass over the speakers; those that keep their names wish for nothing. */
  method GrantPass(used: set<nat>, assignments: seq<Option<nat>>, wishes: seq<Option<nat>>)
    returns (inUse: set<nat>, granted: seq<Option<nat>>)
    requires |wishes| == |assignments|
    ensures Progress(inUse, granted) == GrantAll(Progress(used, assignments), wishes, |wishes|)
  {
    inUse, granted := used, assignments;
    for i := 0 to |wishes|
      invariant |granted| == |wishes|
      invariant Progress(inUse, granted) == GrantAll(Progress(used, assignments), wishes, i)
    {
      inUse, granted := GrantWish(inUse, granted, i, wishes[i]);
    }
  }

  /** First pass: the numbers of cluster labels. */
  method PreferLabels(speakers: array<MeetingSpeaker>) returns (used: set<nat>, assignments: seq<Option<nat>>)
    ensures Progress(used, assignments) == AfterLabels(speakers[..])
  {
    used := CollectKept(speakers);
    assignments := seq(speakers.Length, k => None);
    assert Progress(used, assignments) == Begin(speakers[..]);
    used, assignments := GrantPass(used, assignments, LabelWishes(speakers[..]));
  }

  /** Second pass: the numbers of current names. */
  method PreferNames(speakers: array<MeetingSpeaker>) returns (used: set<nat>, assignments: seq<Option<nat>>)
    ensures Progress(used, assignments) == AfterNames(speakers[..])
  {
    used, assignments := PreferLabels(speakers);
    used, assignments := GrantPass(used, assignments, NameWishes(speakers[..]));
  }

  /** The counter of the third pass, advanced past numbers in use. */
  method Advance(used: set<nat>, from: nat) returns (fallback: nat)
    requires 0 < from && UsedBelow(used, from)
    ensures fallback == FirstFree(used, from)
  {
    fallback := from;
    while fallback in used
      invariant 0 < fallback && UsedBelow(used, fallback)
      invariant FirstFree(used, fallback) == FirstFree(used, from)
      decreases |used| + 1 - fallback
    {
      UsedBelowBoundsSize(used, fallback + 1);
      fallback := fallback + 1;
    }
  }

  /** The rows renamed so far, and the rest as they were. */
  ghost predicate RenamedUpTo(before: seq<MeetingSpeaker>, now: seq<MeetingSpeaker>, granted: seq<Option<nat>>, count: nat)
    requires |now| == |before| == |granted|
  {
    forall j :: 0 <= j < |before| ==> now[j] == if j < count then Renamed(before[j], granted[j]) else before[j]
  }

  method NormalizeUnknownSpeakerNames(speakers: array<MeetingSpeaker>)
    requires speakers.Length <= U32_MAX
    modifies speakers
    ensures speakers[..] == Normalized(old(speakers[..]))
  {
    ghost var before := speakers[..];
    var used, assignments := PreferNames(speakers);
    var fallback: nat := 1;
    ghost var p := AfterNames(before);
    for i := 0 to speakers.Length
      invariant |assignments| == speakers.Length
      invariant Filled(used, fallback, assignments) == Fill(before, p, i)
      invariant RenamedUpTo(before, speakers[..], assignments, i)
    {
      ghost var filled := Filled(used, fallback, assignments);
      assert speakers[..][i] == before[i];
      if Anonymous(speakers[i]) {
        if assignments[i].None? {
          fallback := Advance(used, fallback);
          used := used + {fallback};
          assignments := assignments[i := Some(fallback)];
        }
        var number := assignments[i].value;
        speakers[i] := speakers[i].(name := AnonymousName(number), initials := "S" + Decimal(number));
      }
      assert Filled(used, fallback, assignments) == FillOne(before[i], filled, i);
    }
    assert speakers[..] == Normalized(before);
  }
}
