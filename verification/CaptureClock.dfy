/**
 The capture loop (audio.rs, capture_thread_inner and push_clock_anchor): packets to the writer,
 silence for measured gaps, clock anchors, pauses and writer back-pressure; and the gap totals
 that the clock plan (recording.rs, build_clock_plan) reads off the anchors.
 */
module CaptureClock {
  import opened Wrappers
  import opened Pcm

  /** Gaps under a two-hundredth of a second are jitter. */
  const JITTER_FRAMES := SAMPLE_RATE / 200

  /** `room`: how many packets the writer's queue still takes, if it fills up during this one. */
  datatype Event =
    | Pause
    | Resume
    | Packet(frames: seq<Frame>, discontinuity: bool, qpc: nat, room: Option<nat>)

  /** The variables of the loop; `sent` is what the writer received, `silence` the gap frames in it. */
  datatype Capture = Capture(
    paused: bool,
    failed: bool,
    writtenFrames: nat,
    lastPacketEnd: Option<nat>,
    lastAnchor: Option<nat>,
    boundaryPending: bool,
    discontinuities: nat,
    anchors: seq<ClockAnchor>,
    sent: seq<Frame>,
    silence: nat)

  const START := Capture(false, false, 0, None, None, false, 0, [], [], 0)

  datatype Clock = Clock(frequency: nat, channels: nat)

  predicate Ticking(clock: Clock) {
    clock.frequency > 0
  }

  // ---------------------------------------------------------------------------------------
  // One packet
  // ---------------------------------------------------------------------------------------

  /** Ticks of a forward gap that the loop measures: flagged, with a known end and no pause between. */
  function MeasuredGap(c: Capture, e: Event): nat
    requires e.Packet?
  {
    if e.discontinuity && !c.boundaryPending && c.lastPacketEnd.Some? && e.qpc > c.lastPacketEnd.value
    then e.qpc - c.lastPacketEnd.value
    else 0
  }

  function GapFrames(c: Capture, clock: Clock, e: Event): nat
    requires e.Packet? && Ticking(clock)
  {
    var frames := MeasuredGap(c, e) * SAMPLE_RATE / clock.frequency;
    if frames >= JITTER_FRAMES then frames else 0
  }

  function Chunks(frames: nat): nat {
    (frames + SAMPLE_RATE - 1) / SAMPLE_RATE
  }

  predicate ShouldAnchor(c: Capture, clock: Clock, e: Event)
    requires e.Packet?
  {
    || c.lastAnchor.None?
    || e.discontinuity
    || c.boundaryPending
    || (if e.qpc >= c.lastAnchor.value then e.qpc - c.lastAnchor.value else 0) >= clock.frequency * 5
  }

  /** Suppresses an anchor equal to the last in tick and frame. */
  function PushAnchor(anchors: seq<ClockAnchor>, anchor: ClockAnchor): seq<ClockAnchor> {
    if anchors != [] && anchors[|anchors| - 1].qpc == anchor.qpc && anchors[|anchors| - 1].frameIndex == anchor.frameIndex
    then anchors
    else anchors + [anchor]
  }

  /** What the arithmetic of one packet decides: gap frames, whether an anchor is due, its end tick. */
  datatype Reading = Reading(gap: nat, due: bool, end: nat)

  function Read(c: Capture, clock: Clock, e: Event): Reading
    requires e.Packet? && Ticking(clock)
  {
    Reading(GapFrames(c, clock, e), ShouldAnchor(c, clock, e), e.qpc + |e.frames| * clock.frequency / SAMPLE_RATE)
  }

  function Noted(discontinuities: nat, e: Event): nat
    requires e.Packet?
  {
    if e.discontinuity then discontinuities + 1 else discontinuities
  }

  /** The whole gap went out and is counted. */
  function GapSent(c: Capture, channels: nat, e: Event, gap: nat): Capture
    requires e.Packet?
  {
    c.(sent := c.sent + Silence(channels, gap), silence := c.silence + gap,
       writtenFrames := c.writtenFrames + gap, discontinuities := Noted(c.discontinuities, e))
  }

  /** The anchor of a packet, if one is due. */
  function Anchored(c: Capture, e: Event, r: Reading): Capture
    requires e.Packet?
  {
    if r.due then
      c.(anchors := PushAnchor(c.anchors, ClockAnchor(e.qpc, c.writtenFrames, e.discontinuity, c.boundaryPending, r.gap)),
         lastAnchor := Some(e.qpc), boundaryPending := false)
    else c.(boundaryPending := false)
  }

  /** Back-pressure during the gap: only whole chunks went out, and no counter moved. */
  function FailedInGap(c: Capture, channels: nat, e: Event, chunks: nat): Capture
    requires e.Packet?
  {
    c.(failed := true, sent := c.sent + Silence(channels, chunks * SAMPLE_RATE),
       silence := c.silence + chunks * SAMPLE_RATE, discontinuities := Noted(c.discontinuities, e))
  }

  function Delivered(c: Capture, frames: seq<Frame>, end: nat): Capture {
    c.(sent := c.sent + frames, writtenFrames := c.writtenFrames + |frames|, lastPacketEnd := Some(end))
  }

  /** The writer's queue is full before the whole gap is in it. */
  predicate CutInGap(e: Event, r: Reading)
    requires e.Packet?
  {
    e.room.Some? && e.room.value < Chunks(r.gap)
  }

  function OnPacket(c: Capture, channels: nat, e: Event, r: Reading): Capture
    requires e.Packet?
  {
    if CutInGap(e, r) then FailedInGap(c, channels, e, e.room.value)
    else
      var anchored := Anchored(GapSent(c, channels, e, r.gap), e, r);
      if e.room == Some(Chunks(r.gap)) then anchored.(failed := true)
      else Delivered(anchored, e.frames, r.end)
  }

  predicate Handled(c: Capture, e: Event) {
    e.Packet? && !c.failed && !c.paused && e.frames != []
  }

  function Next(c: Capture, clock: Clock, e: Event): Capture
    requires Ticking(clock)
  {
    if c.failed then c
    else
      match e
      case Pause => c.(paused := true, lastPacketEnd := None)
      case Resume => c.(paused := false, boundaryPending := true, lastPacketEnd := None)
      case Packet(_, _, _, _) => if Handled(c, e) then OnPacket(c, clock.channels, e, Read(c, clock, e)) else c
  }

  function Run(c: Capture, clock: Clock, events: seq<Event>): Capture
    requires Ticking(clock)
    decreases |events|
  {
    if events == [] then c else Run(Next(c, clock, events[0]), clock, events[1..])
  }

  /** The packet the writer refused: within the gap before it, after so many chunks, or the packet itself. */
  datatype Refusal = InGap(chunks: nat) | Itself(anchored: bool)

  function RefusalOf(e: Event, r: Reading): Option<Refusal>
    requires e.Packet?
  {
    if CutInGap(e, r) then Some(InGap(e.room.value))
    else if e.room == Some(Chunks(r.gap)) then Some(Itself(r.due))
    else None
  }

  // ---------------------------------------------------------------------------------------
  // What every run keeps
  // ---------------------------------------------------------------------------------------

  function GapTotal(anchors: seq<ClockAnchor>): nat {
    if anchors == [] then 0 else GapTotal(anchors[..|anchors| - 1]) + anchors[|anchors| - 1].insertedGapFrames
  }

  function FlaggedCount(anchors: seq<ClockAnchor>): nat {
    if anchors == [] then 0
    else FlaggedCount(anchors[..|anchors| - 1]) + if anchors[|anchors| - 1].discontinuity then 1 else 0
  }

  lemma TotalsOneMore(anchors: seq<ClockAnchor>, last: ClockAnchor)
    ensures GapTotal(anchors + [last]) == GapTotal(anchors) + last.insertedGapFrames
    ensures FlaggedCount(anchors + [last]) == FlaggedCount(anchors) + if last.discontinuity then 1 else 0
  {
    assert (anchors + [last])[..|anchors|] == anchors;
  }

  /** The gap an anchor reports lies as silence right before the frame it points at. */
  ghost predicate AnchorFits(sent: seq<Frame>, channels: nat, a: ClockAnchor) {
    && a.insertedGapFrames <= a.frameIndex <= |sent|
    && sent[a.frameIndex - a.insertedGapFrames..a.frameIndex] == Silence(channels, a.insertedGapFrames)
  }

  ghost predicate Increasing(anchors: seq<ClockAnchor>) {
    forall i, j :: 0 <= i < j < |anchors| ==> anchors[i].frameIndex < anchors[j].frameIndex
  }

  ghost predicate AnchorsFit(sent: seq<Frame>, channels: nat, anchors: seq<ClockAnchor>) {
    (forall a :: a in anchors ==> AnchorFits(sent, channels, a)) && Increasing(anchors)
  }

  function LastTick(anchors: seq<ClockAnchor>): Option<nat> {
    if anchors == [] then None else Some(anchors[|anchors| - 1].qpc)
  }

  ghost predicate LastAnchorBefore(anchors: seq<ClockAnchor>, frame: nat) {
    anchors != [] ==> anchors[|anchors| - 1].frameIndex < frame
  }

  /** What the anchors say of the rest: every frame, all silence and all discontinuities. */
  ghost predicate Balanced(c: Capture) {
    && |c.sent| == c.writtenFrames
    && c.lastAnchor == LastTick(c.anchors)
    && GapTotal(c.anchors) == c.silence
    && FlaggedCount(c.anchors) == c.discontinuities
  }

  /** Where the last anchor points: at the end of the audio only if the packet it stands for was refused. */
  ghost predicate LastAnchorStands(c: Capture, refusal: Option<Refusal>) {
    if refusal == Some(Itself(true)) then c.anchors != [] && c.anchors[|c.anchors| - 1].frameIndex == |c.sent|
    else LastAnchorBefore(c.anchors, |c.sent|)
  }

  /** A loop that has not failed: it balances, and a packet has followed its last anchor. */
  ghost predicate Counted(c: Capture, channels: nat) {
    Balanced(c) && AnchorsFit(c.sent, channels, c.anchors) && LastAnchorBefore(c.anchors, c.writtenFrames)
  }

  /** Anchors fit whether or not the writer kept up. */
  ghost predicate Inv(c: Capture, channels: nat) {
    (!c.failed ==> Counted(c, channels)) && AnchorsFit(c.sent, channels, c.anchors)
  }

  /** An anchor at the end of what was sent is never a duplicate, because a packet is never empty. */
  lemma LoopAnchorIsNotSuppressed(c: Capture, channels: nat, anchor: ClockAnchor)
    requires Counted(c, channels) && anchor.frameIndex >= c.writtenFrames
    ensures PushAnchor(c.anchors, anchor) == c.anchors + [anchor]
  {
  }

  lemma MoreKeepsAnchor(sent: seq<Frame>, more: seq<Frame>, channels: nat, a: ClockAnchor)
    requires AnchorFits(sent, channels, a)
    ensures AnchorFits(sent + more, channels, a)
  {
    assert (sent + more)[a.frameIndex - a.insertedGapFrames..a.frameIndex]
        == sent[a.frameIndex - a.insertedGapFrames..a.frameIndex];
  }

  lemma SendingMoreKeepsAnchors(sent: seq<Frame>, more: seq<Frame>, channels: nat, anchors: seq<ClockAnchor>)
    requires AnchorsFit(sent, channels, anchors)
    ensures AnchorsFit(sent + more, channels, anchors)
  {
    forall a | a in anchors ensures AnchorFits(sent + more, channels, a) {
      MoreKeepsAnchor(sent, more, channels, a);
    }
  }

  lemma AppendingKeepsAnchors(sent: seq<Frame>, channels: nat, anchors: seq<ClockAnchor>, anchor: ClockAnchor)
    requires AnchorsFit(sent, channels, anchors) && AnchorFits(sent, channels, anchor)
    requires LastAnchorBefore(anchors, anchor.frameIndex)
    ensures AnchorsFit(sent, channels, anchors + [anchor])
  {
    forall i | 0 <= i < |anchors| ensures anchors[i].frameIndex < anchor.frameIndex {
      assert i < |anchors| - 1 ==> anchors[i].frameIndex < anchors[|anchors| - 1].frameIndex;
    }
  }

  /** The gap just sent is the silence that the new anchor reports. */
  lemma NewAnchorFits(sent: seq<Frame>, channels: nat, gap: nat, anchor: ClockAnchor)
    requires anchor.frameIndex == |sent| + gap && anchor.insertedGapFrames == gap
    ensures AnchorFits(sent + Silence(channels, gap), channels, anchor)
  {
    assert (sent + Silence(channels, gap))[|sent|..|sent| + gap] == Silence(channels, gap);
  }

  /** An anchor is due at the first packet and at every flagged one, so at every gap. */
  ghost predicate DueWhenNeeded(c: Capture, e: Event, r: Reading)
    requires e.Packet?
  {
    && (c.lastAnchor.None? || e.discontinuity ==> r.due)
    && (r.gap > 0 ==> e.discontinuity)
  }

  lemma ReadingIsDueWhenNeeded(c: Capture, clock: Clock, e: Event)
    requires e.Packet? && Ticking(clock)
    ensures DueWhenNeeded(c, e, Read(c, clock, e))
  {
    if MeasuredGap(c, e) == 0 {
      assert GapFrames(c, clock, e) == 0;
    }
  }

  /** The anchor and the gap before it. */
  lemma DueAnchorFits(c: Capture, channels: nat, anchor: ClockAnchor)
    requires Counted(c, channels) && anchor.frameIndex == c.writtenFrames + anchor.insertedGapFrames
    ensures AnchorsFit(c.sent + Silence(channels, anchor.insertedGapFrames), channels, c.anchors + [anchor])
  {
    var gap := Silence(channels, anchor.insertedGapFrames);
    SendingMoreKeepsAnchors(c.sent, gap, channels, c.anchors);
    NewAnchorFits(c.sent, channels, anchor.insertedGapFrames, anchor);
    AppendingKeepsAnchors(c.sent + gap, channels, c.anchors, anchor);
  }

  /** Everything but the packet itself, which follows and makes the last anchor's frame exist. */
  ghost predicate Anchoring(c: Capture, channels: nat) {
    Balanced(c) && AnchorsFit(c.sent, channels, c.anchors) && LastAnchorBefore(c.anchors, c.writtenFrames + 1)
  }

  lemma DueAnchorKeepsAnchoring(c: Capture, channels: nat, e: Event, r: Reading)
    requires e.Packet? && Counted(c, channels) && r.due
    ensures var after := Anchored(GapSent(c, channels, e, r.gap), e, r);
            && Anchoring(after, channels)
            && |after.anchors| == |c.anchors| + 1
            && after.anchors[|c.anchors|].frameIndex == |after.sent|
  {
    var anchor := ClockAnchor(e.qpc, c.writtenFrames + r.gap, e.discontinuity, c.boundaryPending, r.gap);
    var after := Anchored(GapSent(c, channels, e, r.gap), e, r);
    assert after.anchors == c.anchors + [anchor] by {
      LoopAnchorIsNotSuppressed(c, channels, anchor);
    }
    assert Balanced(after) by {
      TotalsOneMore(c.anchors, anchor);
    }
    assert AnchorsFit(after.sent, channels, after.anchors) by {
      DueAnchorFits(c, channels, anchor);
    }
  }

  lemma NoAnchorKeepsAnchoring(c: Capture, channels: nat, e: Event, r: Reading)
    requires e.Packet? && Counted(c, channels) && !r.due && DueWhenNeeded(c, e, r)
    ensures var after := Anchored(GapSent(c, channels, e, r.gap), e, r);
            Anchoring(after, channels) && after.anchors == c.anchors && LastAnchorBefore(c.anchors, |after.sent|)
  {
    assert c.sent + Silence(channels, r.gap) == c.sent;
  }

  lemma DeliveringKeepsCounted(c: Capture, channels: nat, frames: seq<Frame>, end: nat)
    requires Anchoring(c, channels) && frames != []
    ensures Counted(Delivered(c, frames, end), channels)
  {
    SendingMoreKeepsAnchors(c.sent, frames, channels, c.anchors);
  }

  /** One packet the writer takes, or refuses after the gap, or refuses within it. */
  lemma PacketKeepsInv(c: Capture, channels: nat, e: Event, r: Reading)
    requires e.Packet? && e.frames != [] && !c.failed && Inv(c, channels) && DueWhenNeeded(c, e, r)
    ensures Inv(OnPacket(c, channels, e, r), channels)
    ensures !CutInGap(e, r) ==> Balanced(OnPacket(c, channels, e, r))
    ensures LastAnchorStands(OnPacket(c, channels, e, r), RefusalOf(e, r))
    ensures |OnPacket(c, channels, e, r).anchors| == |c.anchors| + if r.due && !CutInGap(e, r) then 1 else 0
  {
    if CutInGap(e, r) {
      SendingMoreKeepsAnchors(c.sent, Silence(channels, e.room.value * SAMPLE_RATE), channels, c.anchors);
    } else {
      if r.due {
        DueAnchorKeepsAnchoring(c, channels, e, r);
      } else {
        NoAnchorKeepsAnchoring(c, channels, e, r);
      }
      DeliveringKeepsCounted(Anchored(GapSent(c, channels, e, r.gap), e, r), channels, e.frames, r.end);
    }
  }

  lemma NextKeepsInv(c: Capture, clock: Clock, e: Event)
    requires Ticking(clock) && Inv(c, clock.channels)
    ensures Inv(Next(c, clock, e), clock.channels)
  {
    if Handled(c, e) {
      ReadingIsDueWhenNeeded(c, clock, e);
      PacketKeepsInv(c, clock.channels, e, Read(c, clock, e));
    }
  }

  /** Whatever the packets, commands and refusals: the anchors fit the audio, and a loop still going balances. */
  lemma {:induction false} RunKeepsInv(c: Capture, clock: Clock, events: seq<Event>)
    requires Ticking(clock) && Inv(c, clock.channels)
    ensures Inv(Run(c, clock, events), clock.channels)
    decreases |events|
  {
    if events != [] {
      NextKeepsInv(c, clock, events[0]);
      RunKeepsInv(Next(c, clock, events[0]), clock, events[1..]);
    }
  }

  lemma StartIsCounted(channels: nat)
    ensures Counted(START, channels)
  {
  }

  // ---------------------------------------------------------------------------------------
  // Where back-pressure ends a run
  // ---------------------------------------------------------------------------------------

  /** The first refusal, found from the events alone. */
  function RefusalIn(c: Capture, clock: Clock, events: seq<Event>): Option<Refusal>
    requires Ticking(clock)
    decreases |events|
  {
    if events == [] then None
    else if Handled(c, events[0]) && RefusalOf(events[0], Read(c, clock, events[0])).Some?
    then RefusalOf(events[0], Read(c, clock, events[0]))
    else RefusalIn(Next(c, clock, events[0]), clock, events[1..])
  }

  lemma {:induction false} FailedRunsStop(c: Capture, clock: Clock, events: seq<Event>)
    requires Ticking(clock) && c.failed
    ensures Run(c, clock, events) == c && RefusalIn(c, clock, events) == None && AnchoredIn(c, clock, events) == 0
    decreases |events|
  {
    if events != [] {
      FailedRunsStop(c, clock, events[1..]);
    }
  }

  /** Silence that went out for a gap the writer then refused to take whole. */
  function Unreported(refusal: Option<Refusal>): nat {
    if refusal.Some? && refusal.value.InGap? then refusal.value.chunks * SAMPLE_RATE else 0
  }

  function Unanchored(refusal: Option<Refusal>): nat {
    if refusal.Some? && refusal.value.InGap? then 1 else 0
  }

  /** Packets that were due an anchor and whose gap the writer took. */
  function AnchoredIn(c: Capture, clock: Clock, events: seq<Event>): nat
    requires Ticking(clock)
    decreases |events|
  {
    if events == [] then 0
    else
      (if Handled(c, events[0]) && Read(c, clock, events[0]).due && !CutInGap(events[0], Read(c, clock, events[0])) then 1 else 0)
      + AnchoredIn(Next(c, clock, events[0]), clock, events[1..])
  }

  /** The books of a run: what neither counters nor anchors report is what a refused gap let through. */
  ghost predicate Booked(c: Capture, refusal: Option<Refusal>) {
    && |c.sent| == c.writtenFrames + Unreported(refusal)
    && c.silence == GapTotal(c.anchors) + Unreported(refusal)
    && c.discontinuities == FlaggedCount(c.anchors) + Unanchored(refusal)
    && (c.failed <==> refusal.Some?)
    && c.lastAnchor == LastTick(c.anchors)
    && LastAnchorStands(c, refusal)
  }

  lemma CutGapIsBooked(c: Capture, channels: nat, e: Event, r: Reading)
    requires e.Packet? && !c.failed && Balanced(c) && DueWhenNeeded(c, e, r) && CutInGap(e, r)
    requires LastAnchorBefore(c.anchors, c.writtenFrames)
    ensures Booked(OnPacket(c, channels, e, r), RefusalOf(e, r))
  {
    assert r.gap > 0;
  }

  /** One handled packet: either the loop goes on, or it stops with its books closed. */
  lemma PacketIsBooked(c: Capture, clock: Clock, e: Event)
    requires Ticking(clock) && Handled(c, e) && Counted(c, clock.channels)
    ensures var r, after := Read(c, clock, e), Next(c, clock, e);
            && (after.failed <==> RefusalOf(e, r).Some?)
            && (after.failed ==> Booked(after, RefusalOf(e, r)))
            && |after.anchors| == |c.anchors| + if r.due && !CutInGap(e, r) then 1 else 0
  {
    var r := Read(c, clock, e);
    ReadingIsDueWhenNeeded(c, clock, e);
    PacketKeepsInv(c, clock.channels, e, r);
    if CutInGap(e, r) {
      CutGapIsBooked(c, clock.channels, e, r);
    }
  }

  lemma {:induction false} RunIsBooked(c: Capture, clock: Clock, events: seq<Event>)
    requires Ticking(clock) && !c.failed && Counted(c, clock.channels)
    ensures Booked(Run(c, clock, events), RefusalIn(c, clock, events))
    ensures |Run(c, clock, events).anchors| == |c.anchors| + AnchoredIn(c, clock, events)
    decreases |events|
  {
    if events != [] {
      var e, after := events[0], Next(c, clock, events[0]);
      NextKeepsInv(c, clock, e);
      if Handled(c, e) {
        PacketIsBooked(c, clock, e);
      }
      if after.failed {
        FailedRunsStop(after, clock, events[1..]);
      } else {
        RunIsBooked(after, clock, events[1..]);
      }
    }
  }

  // ---------------------------------------------------------------------------------------
  // Main results
  // ---------------------------------------------------------------------------------------

  /** The writer refused a packet of silence after taking at least one. */
  predicate CutMidGap(refusal: Option<Refusal>) {
    refusal.Some? && refusal.value.InGap? && refusal.value.chunks > 0
  }

  /**
   Over every run each anchor points at the frames written before its packet, with its gap as
   silence right before them. The writer received exactly the frames counted, and the anchors report
   all the silence, precisely if no gap was cut short after some of it went out; they report all the
   discontinuities precisely if no gap was refused at all.
   */
  lemma EveryFrameIsCounted(clock: Clock, events: seq<Event>)
    requires Ticking(clock)
    ensures var c, refusal := Run(START, clock, events), RefusalIn(START, clock, events);
            && AnchorsFit(c.sent, clock.channels, c.anchors)
            && (|c.sent| == c.writtenFrames <==> !CutMidGap(refusal))
            && (GapTotal(c.anchors) == c.silence <==> !CutMidGap(refusal))
            && (FlaggedCount(c.anchors) == c.discontinuities <==> !(refusal.Some? && refusal.value.InGap?))
            && |c.sent| - c.writtenFrames == c.silence - GapTotal(c.anchors) == Unreported(refusal)
            && (c.failed <==> refusal.Some?)
  {
    StartIsCounted(clock.channels);
    RunKeepsInv(START, clock, events);
    RunIsBooked(START, clock, events);
  }

  /** The writer took 48000 frames of a gap that no counter and no anchor reports. */
  lemma ACutGapGoesUnreported(frame: Frame)
    ensures var clock := Clock(48000, 1);
            var events := [Packet([frame], false, 10, None), Packet([frame], true, 200011, Some(1))];
            var c := Run(START, clock, events);
            && RefusalIn(START, clock, events) == Some(InGap(1))
            && |c.sent| == 48001 && c.writtenFrames == 1
            && GapTotal(c.anchors) == 0 && c.silence == 48000
            && FlaggedCount(c.anchors) == 0 && c.discontinuities == 1
  {
    var clock := Clock(48000, 1);
    var first, second := Packet([frame], false, 10, None), Packet([frame], true, 200011, Some(1));
    var one := Next(START, clock, first);
    assert Read(START, clock, first) == Reading(0, true, 11);
    assert Read(one, clock, second).gap == 200000;
    assert Chunks(200000) == 5;
    var two := Next(one, clock, second);
    assert [first, second][1..] == [second] && [second][1..] == [];
    assert Run(one, clock, [second]) == Run(two, clock, []) == two;
    assert RefusalIn(START, clock, [first, second]) == RefusalIn(one, clock, [second]);
    TotalsOneMore([], ClockAnchor(10, 0, false, false, 0));
  }

  /**
   Duplicate suppression never drops an anchor of the loop. One pushed at the end is dropped only
   for equality with the anchor of a packet that the writer refused.
   */
  lemma NoAnchorIsSuppressed(clock: Clock, events: seq<Event>, anchor: ClockAnchor)
    requires Ticking(clock) && anchor.frameIndex >= |Run(START, clock, events).sent|
    ensures var c := Run(START, clock, events);
            && |c.anchors| == AnchoredIn(START, clock, events)
            && (PushAnchor(c.anchors, anchor) == c.anchors + [anchor] <==>
                  !(RefusalIn(START, clock, events) == Some(Itself(true))
                    && c.lastAnchor == Some(anchor.qpc) && anchor.frameIndex == |c.sent|))
  {
    StartIsCounted(clock.channels);
    RunIsBooked(START, clock, events);
  }

  // ---------------------------------------------------------------------------------------
  // Time that no silence stands for
  // ---------------------------------------------------------------------------------------

  lemma QuotientBounds(x: nat, f: nat)
    requires f > 0
    ensures (x / f) * f <= x < (x / f) * f + f
  {
    assert x == f * (x / f) + x % f;
  }

  lemma FewerFramesTakeLess(frames: nat, limit: nat, f: nat)
    requires frames + 1 <= limit
    ensures frames * f + f <= limit * f
  {
    assert limit * f == (frames + 1) * f + (limit - frames - 1) * f;
  }

  /** Gap time without silence, in units of a tick over the sample rate. */
  function Lost(c: Capture, clock: Clock, e: Event): int
    requires e.Packet? && Ticking(clock)
  {
    MeasuredGap(c, e) * SAMPLE_RATE - GapFrames(c, clock, e) * clock.frequency
  }

  /** A measured gap loses less than a frame if silence was inserted, less than the jitter limit if not. */
  lemma GapLosesLessThan(c: Capture, clock: Clock, e: Event)
    requires e.Packet? && Ticking(clock)
    ensures 0 <= Lost(c, clock, e)
    ensures GapFrames(c, clock, e) > 0 ==> Lost(c, clock, e) < clock.frequency
    ensures GapFrames(c, clock, e) == 0 ==> Lost(c, clock, e) < JITTER_FRAMES * clock.frequency
  {
    var ticks := MeasuredGap(c, e) * SAMPLE_RATE;
    QuotientBounds(ticks, clock.frequency);
    if ticks / clock.frequency < JITTER_FRAMES {
      FewerFramesTakeLess(ticks / clock.frequency, JITTER_FRAMES, clock.frequency);
    }
  }

  function LostIn(c: Capture, clock: Clock, events: seq<Event>): int
    requires Ticking(clock)
    decreases |events|
  {
    if events == [] then 0
    else
      (if Handled(c, events[0]) then Lost(c, clock, events[0]) else 0)
      + LostIn(Next(c, clock, events[0]), clock, events[1..])
  }

  /** How many measured gaps were filled with silence, and how many passed as jitter. */
  function FilledIn(c: Capture, clock: Clock, events: seq<Event>): nat
    requires Ticking(clock)
    decreases |events|
  {
    if events == [] then 0
    else
      (if Handled(c, events[0]) && GapFrames(c, clock, events[0]) > 0 then 1 else 0)
      + FilledIn(Next(c, clock, events[0]), clock, events[1..])
  }

  function JittersIn(c: Capture, clock: Clock, events: seq<Event>): nat
    requires Ticking(clock)
    decreases |events|
  {
    if events == [] then 0
    else
      (if Handled(c, events[0]) && MeasuredGap(c, events[0]) > 0 && GapFrames(c, clock, events[0]) == 0 then 1 else 0)
      + JittersIn(Next(c, clock, events[0]), clock, events[1..])
  }

  lemma NoGapLosesNothing(c: Capture, clock: Clock, e: Event)
    requires e.Packet? && Ticking(clock) && MeasuredGap(c, e) == 0
    ensures Lost(c, clock, e) == 0 && GapFrames(c, clock, e) == 0
  {
  }

  /** The loss allowed for some filled gaps and some jitters. */
  function Allowance(filled: nat, jitters: nat, frequency: nat): nat {
    (filled + jitters * JITTER_FRAMES) * frequency
  }

  lemma AllowanceOneMore(filled: nat, jitters: nat, frequency: nat)
    ensures Allowance(filled + 1, jitters, frequency) == Allowance(filled, jitters, frequency) + frequency
    ensures Allowance(filled, jitters + 1, frequency) == Allowance(filled, jitters, frequency) + JITTER_FRAMES * frequency
  {
  }

  /** Over a run the time lost at measured gaps stays within a frame or the jitter limit for each. */
  lemma {:induction false} LossIsBounded(c: Capture, clock: Clock, events: seq<Event>)
    requires Ticking(clock)
    ensures 0 <= LostIn(c, clock, events)
         <= Allowance(FilledIn(c, clock, events), JittersIn(c, clock, events), clock.frequency)
    decreases |events|
  {
    if events != [] {
      var e, after := events[0], Next(c, clock, events[0]);
      LossIsBounded(after, clock, events[1..]);
      if Handled(c, e) {
        GapLosesLessThan(c, clock, e);
        AllowanceOneMore(FilledIn(after, clock, events[1..]), JittersIn(after, clock, events[1..]), clock.frequency);
        if MeasuredGap(c, e) == 0 {
          NoGapLosesNothing(c, clock, e);
        }
      }
    }
  }

  // ---------------------------------------------------------------------------------------
  // The loop and the clock plan
  // ---------------------------------------------------------------------------------------

  class CaptureLoop {
    const clock: Clock
    var paused: bool
    var failed: bool
    var writtenFrames: nat
    var lastPacketEnd: Option<nat>
    var lastAnchor: Option<nat>
    var pauseBoundaryPending: bool
    var discontinuities: nat
    var anchors: seq<ClockAnchor>
    var sent: seq<Frame>
    ghost var silence: nat

    ghost function Abs(): Capture
      reads this
    {
      Capture(paused, failed, writtenFrames, lastPacketEnd, lastAnchor, pauseBoundaryPending, discontinuities, anchors,
              sent, silence)
    }

    ghost predicate Valid()
      reads this
    {
      Ticking(clock) && Inv(Abs(), clock.channels)
    }

    constructor (clock: Clock)
      requires Ticking(clock)
      ensures Valid() && Abs() == START && this.clock == clock
    {
      this.clock := clock;
      paused, failed, writtenFrames, lastPacketEnd, lastAnchor := false, false, 0, None, None;
      pauseBoundaryPending, discontinuities, anchors, sent, silence := false, 0, [], [], 0;
    }

    method OnCommand(resume: bool)
      requires Valid() && !failed
      modifies this
      ensures Valid() && Abs() == Next(old(Abs()), clock, if resume then Resume else Pause)
    {
      NextKeepsInv(Abs(), clock, if resume then Resume else Pause);
      if resume {
        paused := false;
        pauseBoundaryPending := true;
        lastPacketEnd := None;
      } else {
        paused := true;
        lastPacketEnd := None;
      }
    }

    /** Silence in chunks of a second; the queue takes `room` packets if it fills up. */
    method SendSilence(frames: nat, room: Option<nat>) returns (chunks: nat)
      modifies `failed, `sent, `silence
      ensures failed <==> old(failed) || (room.Some? && room.value < Chunks(frames))
      ensures chunks == if room.Some? && room.value < Chunks(frames) then room.value else Chunks(frames)
      ensures var gone := if room.Some? && room.value < Chunks(frames) then room.value * SAMPLE_RATE else frames;
              sent == old(sent) + Silence(clock.channels, gone) && silence == old(silence) + gone
    {
      chunks := 0;
      var remaining: nat := frames;
      assert sent == old(sent) + Silence(clock.channels, 0);
      while remaining > 0
        invariant remaining <= frames && failed == old(failed)
        invariant remaining > 0 ==> frames - remaining == chunks * SAMPLE_RATE
        invariant remaining == 0 ==> chunks == Chunks(frames)
        invariant room.Some? ==> chunks <= room.value
        invariant sent == old(sent) + Silence(clock.channels, frames - remaining)
        invariant silence == old(silence) + (frames - remaining)
      {
        if room == Some(chunks) {
          failed := true;
          return;
        }
        var size := if remaining < SAMPLE_RATE then remaining else SAMPLE_RATE;
        SilenceAdds(clock.channels, frames - remaining, size);
        assert old(sent) + Silence(clock.channels, frames - remaining) + Silence(clock.channels, size)
            == old(sent) + Silence(clock.channels, frames - remaining + size);
        sent := sent + Silence(clock.channels, size);
        silence := silence + size;
        chunks := chunks + 1;
        remaining := remaining - size;
      }
    }

    method PushClockAnchor(anchor: ClockAnchor)
      modifies `anchors
      ensures anchors == PushAnchor(old(anchors), anchor)
    {
      if |anchors| > 0 && anchors[|anchors| - 1].qpc == anchor.qpc && anchors[|anchors| - 1].frameIndex == anchor.frameIndex {
        return;
      }
      anchors := anchors + [anchor];
    }

    /** The arithmetic of a packet, on the clock of the loop. */
    method Measure(e: Event) returns (r: Reading)
      requires Ticking(clock) && e.Packet?
      ensures r == Read(Abs(), clock, e)
    {
      var gap := 0;
      if e.discontinuity && !pauseBoundaryPending && lastPacketEnd.Some? && e.qpc > lastPacketEnd.value {
        gap := (e.qpc - lastPacketEnd.value) * SAMPLE_RATE / clock.frequency;
        if gap < JITTER_FRAMES {
          gap := 0;
        }
      } else {
        NoGapLosesNothing(Abs(), clock, e);
      }
      var due := lastAnchor.None? || e.discontinuity || pauseBoundaryPending
                 || (if e.qpc >= lastAnchor.value then e.qpc - lastAnchor.value else 0) >= clock.frequency * 5;
      r := Reading(gap, due, e.qpc + |e.frames| * clock.frequency / SAMPLE_RATE);
    }

    method AnchorPacket(e: Event, r: Reading)
      requires e.Packet?
      modifies `anchors, `lastAnchor, `pauseBoundaryPending
      ensures Abs() == Anchored(old(Abs()), e, r)
    {
      if r.due {
        PushClockAnchor(ClockAnchor(e.qpc, writtenFrames, e.discontinuity, pauseBoundaryPending, r.gap));
        lastAnchor := Some(e.qpc);
      }
      pauseBoundaryPending := false;
    }

    method Deliver(frames: seq<Frame>, end: nat)
      modifies `sent, `writtenFrames, `lastPacketEnd
      ensures Abs() == Delivered(old(Abs()), frames, end)
    {
      sent := sent + frames;
      writtenFrames := writtenFrames + |frames|;
      lastPacketEnd := Some(end);
    }

    /** The gap goes out before its frames are counted. */
    method SendGap(e: Event, r: Reading) returns (chunks: nat)
      requires !failed && e.Packet?
      modifies `discontinuities, `failed, `sent, `silence, `writtenFrames
      ensures failed <==> CutInGap(e, r)
      ensures failed ==> Abs() == FailedInGap(old(Abs()), clock.channels, e, e.room.value)
      ensures !failed ==> Abs() == GapSent(old(Abs()), clock.channels, e, r.gap) && chunks == Chunks(r.gap)
    {
      if e.discontinuity {
        discontinuities := discontinuities + 1;
      }
      chunks := SendSilence(r.gap, e.room);
      if !failed {
        writtenFrames := writtenFrames + r.gap;
      }
    }

    method SendPacket(e: Event, r: Reading)
      requires !failed && e.Packet?
      modifies this
      ensures Abs() == OnPacket(old(Abs()), clock.channels, e, r)
    {
      var chunks := SendGap(e, r);
      if failed {
        return;
      }
      AnchorPacket(e, r);
      if e.room == Some(chunks) {
        failed := true;
        return;
      }
      Deliver(e.frames, r.end);
    }

    method OnPacketRead(e: Event)
      requires Valid() && !failed && e.Packet?
      modifies this
      ensures Valid() && Abs() == Next(old(Abs()), clock, e)
    {
      NextKeepsInv(Abs(), clock, e);
      if paused || |e.frames| == 0 {
        return;
      }
      var r := Measure(e);
      SendPacket(e, r);
    }
  }

  function UnrepairedCount(anchors: seq<ClockAnchor>): nat {
    if anchors == [] then 0
    else
      var last := anchors[|anchors| - 1];
      UnrepairedCount(anchors[..|anchors| - 1])
      + if last.discontinuity && !last.pauseBoundary && last.insertedGapFrames == 0 then 1 else 0
  }

  /** The gap totals of the clock plan. */
  method GapTotals(anchors: seq<ClockAnchor>) returns (materialized: nat, unrepaired: nat)
    ensures materialized == GapTotal(anchors) && unrepaired == UnrepairedCount(anchors)
  {
    materialized, unrepaired := 0, 0;
    for i := 0 to |anchors|
      invariant materialized == GapTotal(anchors[..i]) && unrepaired == UnrepairedCount(anchors[..i])
    {
      assert anchors[..i + 1][..i] == anchors[..i];
      materialized := materialized + anchors[i].insertedGapFrames;
      if anchors[i].discontinuity && !anchors[i].pauseBoundary && anchors[i].insertedGapFrames == 0 {
        unrepaired := unrepaired + 1;
      }
    }
    assert anchors[..|anchors|] == anchors;
  }

  lemma FinalAnchorAddsNoGap(anchors: seq<ClockAnchor>, last: ClockAnchor)
    requires last.insertedGapFrames == 0
    ensures GapTotal(PushAnchor(anchors, last)) == GapTotal(anchors)
  {
    TotalsOneMore(anchors, last);
  }

  /**
   The plan of any recording, finished or cut off by back-pressure: it falls short of the silence
   sent by exactly what went out of a refused gap.
   */
  lemma PlanReportsTheSilence(clock: Clock, events: seq<Event>, last: ClockAnchor)
    requires Ticking(clock) && last.insertedGapFrames == 0
    ensures var c, refusal := Run(START, clock, events), RefusalIn(START, clock, events);
            && GapTotal(PushAnchor(c.anchors, last)) == GapTotal(c.anchors) == c.silence - Unreported(refusal)
            && (GapTotal(c.anchors) == c.silence <==> !CutMidGap(refusal))
  {
    FinalAnchorAddsNoGap(Run(START, clock, events).anchors, last);
    EveryFrameIsCounted(clock, events);
  }

  // ---------------------------------------------------------------------------------------
  // Samples
  // ---------------------------------------------------------------------------------------

  ghost predicate AllWide(frames: seq<Frame>, channels: nat) {
    forall frame :: frame in frames ==> |frame| == channels
  }

  ghost predicate WidePackets(events: seq<Event>, channels: nat) {
    forall e :: e in events && e.Packet? ==> AllWide(e.frames, channels)
  }

  function SampleCount(frames: seq<Frame>): nat {
    if frames == [] then 0 else SampleCount(frames[..|frames| - 1]) + |frames[|frames| - 1]|
  }

  lemma {:induction false} WideFramesCount(frames: seq<Frame>, channels: nat)
    requires AllWide(frames, channels)
    ensures SampleCount(frames) == |frames| * channels
  {
    if frames != [] {
      WideFramesCount(frames[..|frames| - 1], channels);
      assert |frames| * channels == (|frames| - 1) * channels + channels;
    }
  }

  lemma NextKeepsWidth(c: Capture, clock: Clock, e: Event)
    requires Ticking(clock) && AllWide(c.sent, clock.channels)
    requires e.Packet? ==> AllWide(e.frames, clock.channels)
    ensures AllWide(Next(c, clock, e).sent, clock.channels)
  {
  }

  lemma {:induction false} RunKeepsWidth(c: Capture, clock: Clock, events: seq<Event>)
    requires Ticking(clock) && AllWide(c.sent, clock.channels) && WidePackets(events, clock.channels)
    ensures AllWide(Run(c, clock, events).sent, clock.channels)
    decreases |events|
  {
    if events != [] {
      assert events[0] in events;
      NextKeepsWidth(c, clock, events[0]);
      RunKeepsWidth(Next(c, clock, events[0]), clock, events[1..]);
    }
  }

  lemma MoreFramesMoreSamples(counted: nat, more: nat, channels: nat)
    requires channels > 0
    ensures (counted + more) * channels == counted * channels <==> more == 0
  {
    assert (counted + more) * channels == counted * channels + more * channels;
    if more > 0 {
      assert more * channels == channels + (more - 1) * channels;
    }
  }

  /** In samples: the writer received written_frames times channels, precisely if no gap was cut short. */
  lemma EverySampleIsCounted(clock: Clock, events: seq<Event>)
    requires Ticking(clock) && clock.channels > 0 && WidePackets(events, clock.channels)
    ensures var c, refusal := Run(START, clock, events), RefusalIn(START, clock, events);
            && SampleCount(c.sent) == (c.writtenFrames + Unreported(refusal)) * clock.channels
            && (SampleCount(c.sent) == c.writtenFrames * clock.channels <==> !CutMidGap(refusal))
  {
    var c, refusal := Run(START, clock, events), RefusalIn(START, clock, events);
    EveryFrameIsCounted(clock, events);
    RunKeepsWidth(START, clock, events);
    WideFramesCount(c.sent, clock.channels);
    MoreFramesMoreSamples(c.writtenFrames, Unreported(refusal), clock.channels);
  }
}
