/**
 The capture loop told from its events alone (src-tauri/src/audio.rs, capture_thread_inner): which packets follow a gap,
 from where the gap is measured, how much silence stands for it, and which packets are anchored. CaptureClock keeps these
 things in variables; here nothing is remembered but the commands and packets so far.
 */
module CaptureGaps {
  import opened Wrappers
  import opened Pcm
  import opened CaptureClock

  // ---------------------------------------------------------------------------------------
  // What the events say
  // ---------------------------------------------------------------------------------------

  /** The last command was to pause. */
  predicate PausedBy(events: seq<Event>) {
    if events == [] then false
    else
      match events[|events| - 1]
      case Pause => true
      case Resume => false
      case Packet(_, _, _, _) => PausedBy(events[..|events| - 1])
  }

  /** The tick at which the last packet ended, unless a command has come since. */
  function EndBefore(clock: Clock, events: seq<Event>): Option<nat> {
    if events == [] then None
    else
      match events[|events| - 1]
      case Pause => None
      case Resume => None
      case Packet(frames, _, qpc, _) =>
        if frames == [] then EndBefore(clock, events[..|events| - 1])
        else Some(qpc + |frames| * clock.frequency / 48000)
  }

  /** No packet has come since recording was resumed. */
  predicate JustResumed(events: seq<Event>) {
    if events == [] then false
    else
      match events[|events| - 1]
      case Pause => false
      case Resume => true
      case Packet(frames, _, _, _) => frames == [] && JustResumed(events[..|events| - 1])
  }

  /** Ticks between the end of the packet before and a flagged packet that starts after it. */
  function GapTicks(clock: Clock, events: seq<Event>, e: Event): nat
    requires e.Packet?
  {
    var end := EndBefore(clock, events);
    if e.discontinuity && end.Some? && e.qpc > end.value then e.qpc - end.value else 0
  }

  /** Whole frames of a gap, if it is at least a two-hundredth of a second. */
  function SilenceDue(clock: Clock, events: seq<Event>, e: Event): nat
    requires e.Packet? && Ticking(clock)
  {
    var frames := GapTicks(clock, events, e) * 48000 / clock.frequency;
    if frames >= 240 then frames else 0
  }

  /** A packet that reaches the writer: it has frames, and recording is not paused. */
  predicate Taken(events: seq<Event>, e: Event) {
    e.Packet? && e.frames != [] && !PausedBy(events)
  }

  // ---------------------------------------------------------------------------------------
  // The variables of the loop remember just that
  // ---------------------------------------------------------------------------------------

  lemma {:induction false} RunOneMore(c: Capture, clock: Clock, events: seq<Event>, e: Event)
    requires Ticking(clock)
    ensures Run(c, clock, events + [e]) == Next(Run(c, clock, events), clock, e)
    decreases |events|
  {
    if events == [] {
      assert [e][1..] == [];
    } else {
      RunOneMore(Next(c, clock, events[0]), clock, events[1..], e);
      assert (events + [e])[1..] == events[1..] + [e];
    }
  }

  /** While it has not failed, the loop is paused if it was told to; if not, it knows the last end and any boundary. */
  ghost predicate Remembers(c: Capture, clock: Clock, events: seq<Event>) {
    !c.failed ==>
      && c.paused == PausedBy(events)
      && (!c.paused ==> c.lastPacketEnd == EndBefore(clock, events) && c.boundaryPending == JustResumed(events))
  }

  lemma NextRemembers(c: Capture, clock: Clock, events: seq<Event>, e: Event)
    requires Ticking(clock) && Remembers(c, clock, events)
    ensures Remembers(Next(c, clock, e), clock, events + [e])
  {
    assert (events + [e])[..|events|] == events;
  }

  lemma {:induction false} RunRemembers(clock: Clock, events: seq<Event>)
    requires Ticking(clock)
    ensures Remembers(Run(START, clock, events), clock, events)
    decreases |events|
  {
    if events != [] {
      var before, last := events[..|events| - 1], events[|events| - 1];
      assert events == before + [last];
      RunRemembers(clock, before);
      RunOneMore(START, clock, before, last);
      NextRemembers(Run(START, clock, before), clock, before, last);
    }
  }

  /** A gap is measured from the end of the packet before, as long as no command came between. */
  lemma GapsAreMeasuredFromTheLastPacket(clock: Clock, events: seq<Event>, e: Event)
    requires Ticking(clock) && Taken(events, e) && !Run(START, clock, events).failed
    ensures var c := Run(START, clock, events);
            && Handled(c, e)
            && MeasuredGap(c, e) == GapTicks(clock, events, e)
            && GapFrames(c, clock, e) == SilenceDue(clock, events, e)
  {
    RunRemembers(clock, events);
    AfterAResumeNoEndIsKnown(clock, events);
  }

  lemma {:induction false} AfterAResumeNoEndIsKnown(clock: Clock, events: seq<Event>)
    ensures JustResumed(events) ==> EndBefore(clock, events).None?
    decreases |events|
  {
    if events != [] {
      AfterAResumeNoEndIsKnown(clock, events[..|events| - 1]);
    }
  }

  // ---------------------------------------------------------------------------------------
  // One packet
  // ---------------------------------------------------------------------------------------

  /** An anchor is due at the first packet, at a flagged one, after a resume, and five seconds after the last anchor. */
  ghost predicate AnchorDue(anchors: seq<ClockAnchor>, clock: Clock, events: seq<Event>, e: Event)
    requires e.Packet?
  {
    || anchors == [] || e.discontinuity || JustResumed(events)
    || e.qpc >= anchors[|anchors| - 1].qpc + 5 * clock.frequency
  }

  /** The anchors after a packet: one more if it is due, which points behind the silence and reports it. */
  ghost predicate AnchoredAt(anchors: seq<ClockAnchor>, after: seq<ClockAnchor>, clock: Clock, events: seq<Event>, e: Event,
                             frame: nat, gap: nat)
    requires e.Packet?
  {
    after == if AnchorDue(anchors, clock, events, e)
             then anchors + [ClockAnchor(e.qpc, frame, e.discontinuity, JustResumed(events), gap)]
             else anchors
  }

  /**
   What a packet with frames does to a loop that is not paused and has not failed. Its gap goes out as silence before it,
   in packets of a second; if the writer takes only so many, what it took stands and the loop has failed.
   */
  ghost predicate PacketGoesOut(c: Capture, after: Capture, clock: Clock, events: seq<Event>, e: Event, gap: nat)
    requires e.Packet?
  {
    var chunks := (gap + 47999) / 48000;
    if e.room.Some? && e.room.value < chunks then
      after.failed && after.sent == c.sent + Silence(clock.channels, e.room.value * 48000) && after.anchors == c.anchors
    else
      && AnchoredAt(c.anchors, after.anchors, clock, events, e, |c.sent| + gap, gap)
      && (if e.room == Some(chunks) then after.failed && after.sent == c.sent + Silence(clock.channels, gap)
          else !after.failed && after.sent == c.sent + Silence(clock.channels, gap) + e.frames)
  }

  lemma DueAnchorsAreDue(c: Capture, clock: Clock, events: seq<Event>, e: Event)
    requires Ticking(clock) && e.Packet? && c.lastAnchor == LastTick(c.anchors) && c.boundaryPending == JustResumed(events)
    ensures ShouldAnchor(c, clock, e) <==> AnchorDue(c.anchors, clock, events, e)
  {
  }

  lemma HandlingGoesOut(c: Capture, clock: Clock, events: seq<Event>, e: Event)
    requires Ticking(clock) && Handled(c, e) && Counted(c, clock.channels) && c.boundaryPending == JustResumed(events)
    ensures PacketGoesOut(c, Next(c, clock, e), clock, events, e, GapFrames(c, clock, e))
  {
    var r := Read(c, clock, e);
    DueAnchorsAreDue(c, clock, events, e);
    if r.due && !CutInGap(e, r) {
      LoopAnchorIsNotSuppressed(c, clock.channels,
                                ClockAnchor(e.qpc, c.writtenFrames + r.gap, e.discontinuity, c.boundaryPending, r.gap));
    }
  }

  /** Over every run: each packet goes out after the silence due for the gap before it, and is anchored if due. */
  lemma EveryPacketGoesOut(clock: Clock, events: seq<Event>, e: Event)
    requires Ticking(clock) && Taken(events, e) && !Run(START, clock, events).failed
    ensures PacketGoesOut(Run(START, clock, events), Run(START, clock, events + [e]), clock, events, e,
                          SilenceDue(clock, events, e))
  {
    RunRemembers(clock, events);
    StartIsCounted(clock.channels);
    RunKeepsInv(START, clock, events);
    GapsAreMeasuredFromTheLastPacket(clock, events, e);
    RunOneMore(START, clock, events, e);
    HandlingGoesOut(Run(START, clock, events), clock, events, e);
  }

  /** Commands, packets without frames and packets while paused send nothing. */
  lemma NothingElseGoesOut(clock: Clock, events: seq<Event>, e: Event)
    requires Ticking(clock) && (!Taken(events, e) || Run(START, clock, events).failed)
    ensures var c, after := Run(START, clock, events), Run(START, clock, events + [e]);
            after.sent == c.sent && after.anchors == c.anchors && after.failed == c.failed
  {
    RunRemembers(clock, events);
    RunOneMore(START, clock, events, e);
  }

  /** With room in the writer's queue, the silence due and then the packet. */
  lemma APacketWithRoomGoesOut(clock: Clock, events: seq<Event>, e: Event)
    requires Ticking(clock) && Taken(events, e) && e.room.None? && !Run(START, clock, events).failed
    ensures Run(START, clock, events + [e]).sent
         == Run(START, clock, events).sent + Silence(clock.channels, SilenceDue(clock, events, e)) + e.frames
  {
    EveryPacketGoesOut(clock, events, e);
  }

  lemma NoSilenceWithoutAnEnd(clock: Clock, events: seq<Event>, e: Event)
    requires Ticking(clock) && e.Packet? && (EndBefore(clock, events).None? || !e.discontinuity)
    ensures SilenceDue(clock, events, e) == 0
  {
    assert GapTicks(clock, events, e) == 0;
  }

  // ---------------------------------------------------------------------------------------
  // Two packets in a row
  // ---------------------------------------------------------------------------------------

  ghost predicate WithoutFrames(events: seq<Event>) {
    forall i :: 0 <= i < |events| ==> events[i].Packet? && events[i].frames == []
  }

  lemma {:induction false} EmptyPacketsAreIgnored(clock: Clock, events: seq<Event>, between: seq<Event>)
    requires WithoutFrames(between)
    ensures EndBefore(clock, events + between) == EndBefore(clock, events)
    ensures PausedBy(events + between) == PausedBy(events)
    decreases |between|
  {
    if between == [] {
      assert events + between == events;
    } else {
      EmptyPacketsAreIgnored(clock, events, between[..|between| - 1]);
      assert (events + between)[..|events + between| - 1] == events + between[..|between| - 1];
    }
  }

  lemma TheEndBeforeIsThatOf(clock: Clock, before: seq<Event>, p: Event, between: seq<Event>)
    requires Ticking(clock) && Taken(before, p) && WithoutFrames(between)
    ensures EndBefore(clock, before + [p] + between) == Some(p.qpc + |p.frames| * clock.frequency / 48000)
    ensures !PausedBy(before + [p] + between)
  {
    assert (before + [p])[..|before|] == before;
    EmptyPacketsAreIgnored(clock, before + [p], between);
  }

  /** Ticks from the end of a packet to the start of a later one. */
  function TicksBetween(clock: Clock, p: Event, e: Event): nat
    requires p.Packet? && e.Packet?
  {
    var end := p.qpc + |p.frames| * clock.frequency / 48000;
    if e.qpc > end then e.qpc - end else 0
  }

  /**
   A flagged packet right after another: the silence before it is the whole frames from the end of that packet to its
   start if those are at least 240, and none otherwise. An unflagged packet has no silence before it.
   */
  lemma SilenceFillsTheGapBetweenPackets(clock: Clock, before: seq<Event>, p: Event, between: seq<Event>, e: Event)
    requires Ticking(clock) && Taken(before, p) && WithoutFrames(between) && e.Packet? && e.frames != [] && e.room.None?
    requires !Run(START, clock, before + [p] + between).failed
    ensures var c, after := Run(START, clock, before + [p] + between), Run(START, clock, before + [p] + between + [e]);
            var frames := TicksBetween(clock, p, e) * 48000 / clock.frequency;
            after.sent == c.sent + Silence(clock.channels, if e.discontinuity && frames >= 240 then frames else 0) + e.frames
  {
    var events := before + [p] + between;
    TheEndBeforeIsThatOf(clock, before, p, between);
    APacketWithRoomGoesOut(clock, events, e);
    if e.discontinuity {
      assert GapTicks(clock, events, e) == TicksBetween(clock, p, e);
    } else {
      NoSilenceWithoutAnEnd(clock, events, e);
    }
  }

  /** Neither the first packet nor the first after a resume has silence before it, flagged or not. */
  lemma NoSilenceAfterACommand(clock: Clock, events: seq<Event>, between: seq<Event>, e: Event)
    requires Ticking(clock) && e.Packet? && e.frames != [] && e.room.None? && WithoutFrames(between)
    requires events == [] || events[|events| - 1].Resume?
    requires !Run(START, clock, events + between).failed
    ensures Run(START, clock, events + between + [e]).sent == Run(START, clock, events + between).sent + e.frames
  {
    EmptyPacketsAreIgnored(clock, events, between);
    APacketWithRoomGoesOut(clock, events + between, e);
    NoSilenceWithoutAnEnd(clock, events + between, e);
    assert Silence(clock.channels, 0) == [];
    assert Run(START, clock, events + between).sent + [] == Run(START, clock, events + between).sent;
  }

  // ---------------------------------------------------------------------------------------
  // Whole runs
  // ---------------------------------------------------------------------------------------

  /** All the silence due, and all the frames of the packets that reach the writer, in order. */
  function Due(clock: Clock, events: seq<Event>): seq<Frame>
    requires Ticking(clock)
  {
    if events == [] then []
    else
      var before, e := events[..|events| - 1], events[|events| - 1];
      Due(clock, before)
      + if Taken(before, e) then Silence(clock.channels, SilenceDue(clock, before, e)) + e.frames else []
  }

  lemma FailureIsForGood(clock: Clock, events: seq<Event>, e: Event)
    requires Ticking(clock) && !Run(START, clock, events + [e]).failed
    ensures !Run(START, clock, events).failed
  {
    RunOneMore(START, clock, events, e);
  }

  /** At the gap of a packet less than a frame of time is lost, or less than 240 if it is too short to be filled. */
  lemma SilenceDueLosesLessThan(clock: Clock, events: seq<Event>, e: Event)
    requires Ticking(clock) && Taken(events, e) && !Run(START, clock, events).failed
    ensures var lost := GapTicks(clock, events, e) * 48000 - SilenceDue(clock, events, e) * clock.frequency;
            0 <= lost < if SilenceDue(clock, events, e) > 0 then clock.frequency else 240 * clock.frequency
  {
    GapsAreMeasuredFromTheLastPacket(clock, events, e);
    GapLosesLessThan(Run(START, clock, events), clock, e);
  }

  /** What the writer has received of a run that has not failed is exactly that, whatever the gaps, pauses and commands. */
  lemma {:induction false} TheWriterReceivesWhatIsDue(clock: Clock, events: seq<Event>)
    requires Ticking(clock) && !Run(START, clock, events).failed
    ensures Run(START, clock, events).sent == Due(clock, events)
    decreases |events|
  {
    if events != [] {
      var before, last := events[..|events| - 1], events[|events| - 1];
      assert events == before + [last];
      FailureIsForGood(clock, before, last);
      TheWriterReceivesWhatIsDue(clock, before);
      if Taken(before, last) {
        EveryPacketGoesOut(clock, before, last);
      } else {
        NothingElseGoesOut(clock, before, last);
      }
    }
  }
}
