/** Recording audio in segments and recovering it after a crash. */
module AudioRecovery {
  import opened Wrappers
  import opened Pcm
  import opened PcmFallback

  // The segment writer (audio.rs, writer_loop and finalize_segment), the repair of partial files at
  // start-up (service.rs, repair_recording_partials), the collection of segments and the PCM fallback
  // (recording.rs, recoverable_wav_segments and consolidate_recovery_wav). Audio is counted in whole
  // frames. A crash falls between two steps of the writer and leaves any whole-frame prefix of the
  // open file that holds everything flushed.

  const SEGMENT_SECONDS := 30
  const SEGMENT_LIMIT := SAMPLE_RATE * SEGMENT_SECONDS

  function ConcatFirst(parts: seq<seq<Frame>>, count: nat): seq<Frame>
    requires count <= |parts|
  {
    if count == 0 then [] else ConcatFirst(parts, count - 1) + parts[count - 1]
  }

  function Concat(parts: seq<seq<Frame>>): seq<Frame> {
    ConcatFirst(parts, |parts|)
  }

  lemma {:induction false} ConcatFirstOfMore(parts: seq<seq<Frame>>, last: seq<Frame>, count: nat)
    requires count <= |parts|
    ensures ConcatFirst(parts + [last], count) == ConcatFirst(parts, count)
  {
    if count > 0 {
      ConcatFirstOfMore(parts, last, count - 1);
    }
  }

  lemma ConcatOneMore(parts: seq<seq<Frame>>, last: seq<Frame>)
    ensures Concat(parts + [last]) == Concat(parts) + last
  {
    ConcatFirstOfMore(parts, last, |parts|);
  }

  // ---------------------------------------------------------------------------------------
  // The writer, step by step
  // ---------------------------------------------------------------------------------------

  /** The open partial file: frames written, how many were flushed, and whether it is complete. */
  datatype Current = Current(frames: seq<Frame>, flushed: nat, sealed: bool)

  /** Finished segments are files 1, 2, ... in order; the open one has the next number. */
  datatype Writer = Writer(finals: seq<seq<Frame>>, current: Option<Current>)

  const FRESH := Writer([], None)

  datatype Step = Create | Put(frame: Frame) | Flush | Seal | Rename

  predicate Enabled(w: Writer, step: Step) {
    match step
    case Create => w.current.None?
    case Put(_) => w.current.Some? && !w.current.value.sealed
    case Flush => w.current.Some? && !w.current.value.sealed
    case Seal => w.current.Some?
    case Rename => w.current.Some? && w.current.value.sealed
  }

  function Do(w: Writer, step: Step): Writer {
    if !Enabled(w, step) then w
    else
      match step
      case Create => w.(current := Some(Current([], 0, false)))
      case Put(frame) => w.(current := Some(w.current.value.(frames := w.current.value.frames + [frame])))
      case Flush => w.(current := Some(w.current.value.(flushed := |w.current.value.frames|)))
      case Seal => w.(current := Some(w.current.value.(flushed := |w.current.value.frames|, sealed := true)))
      case Rename => Writer(w.finals + [w.current.value.frames], None)
  }

  function Reached(steps: seq<Step>): Writer {
    if steps == [] then FRESH else Do(Reached(steps[..|steps| - 1]), steps[|steps| - 1])
  }

  /** Frames handed to the writer so far. */
  function Stream(steps: seq<Step>): seq<Frame> {
    if steps == [] then []
    else
      var last := steps[|steps| - 1];
      Stream(steps[..|steps| - 1])
      + if last.Put? && Enabled(Reached(steps[..|steps| - 1]), last) then [last.frame] else []
  }

  function Received(w: Writer): seq<Frame> {
    Concat(w.finals) + if w.current.Some? then w.current.value.frames else []
  }

  function FlushedCount(w: Writer): nat {
    |Concat(w.finals)| + if w.current.Some? then w.current.value.flushed else 0
  }

  ghost predicate WriterSane(w: Writer) {
    w.current.Some? ==>
      && w.current.value.flushed <= |w.current.value.frames|
      && (w.current.value.sealed ==> w.current.value.flushed == |w.current.value.frames|)
  }

  lemma {:induction false} WriterHoldsTheStream(steps: seq<Step>)
    ensures WriterSane(Reached(steps))
    ensures Received(Reached(steps)) == Stream(steps)
  {
    if steps != [] {
      var before := Reached(steps[..|steps| - 1]);
      WriterHoldsTheStream(steps[..|steps| - 1]);
      if steps[|steps| - 1].Rename? && Enabled(before, Rename) {
        ConcatOneMore(before.finals, before.current.value.frames);
      }
    }
  }

  /** Nothing flushed is ever lost by a later step. */
  lemma FlushedOnlyGrows(w: Writer, step: Step)
    requires WriterSane(w)
    ensures FlushedCount(Do(w, step)) >= FlushedCount(w)
  {
    if step.Rename? && Enabled(w, step) {
      ConcatOneMore(w.finals, w.current.value.frames);
    }
  }

  // ---------------------------------------------------------------------------------------
  // The disk after a crash
  // ---------------------------------------------------------------------------------------

  /** A file too short for a header, or one whose header declares a number of frames. */
  datatype File = Short | Wav(frames: seq<Frame>, declared: nat)

  /** The files of one sequence number. */
  datatype Candidates = Candidates(finalized: Option<File>, partial: Option<File>)

  type Disk = map<nat, Candidates>

  /** A header is written when the file is flushed or completed; frames may reach the disk sooner. */
  ghost predicate ImageOf(current: Current, file: File) {
    match file
    case Short => current.flushed == 0 && !current.sealed
    case Wav(frames, declared) =>
      && current.flushed <= |frames| <= |current.frames|
      && frames == current.frames[..|frames|]
      && declared == current.flushed
  }

  ghost predicate FinalOnDisk(finals: seq<seq<Frame>>, disk: Disk, n: nat)
    requires 1 <= n <= |finals|
  {
    n in disk && disk[n] == Candidates(Some(Wav(finals[n - 1], |finals[n - 1]|)), None)
  }

  ghost predicate CrashImage(w: Writer, disk: Disk) {
    && (forall n :: n in disk ==> 1 <= n <= |w.finals| || (w.current.Some? && n == |w.finals| + 1))
    && (forall n :: 1 <= n <= |w.finals| ==> FinalOnDisk(w.finals, disk, n))
    && (w.current.Some? ==>
          && |w.finals| + 1 in disk
          && var open := disk[|w.finals| + 1];
             open.finalized.None? && open.partial.Some? && ImageOf(w.current.value, open.partial.value))
  }

  // ---------------------------------------------------------------------------------------
  // Repair and recovery
  // ---------------------------------------------------------------------------------------

  /** How far the repair of a partial file gets: its header may fail, and so may the rename. */
  datatype Repair = HeaderFails | RenameFails | Succeeds

  type Repairs = map<nat, Repair>

  function RepairOf(repairs: Repairs, n: nat): Repair {
    if n in repairs then repairs[n] else Succeeds
  }

  function RepairOne(c: Candidates, repair: Repair): Candidates {
    if c.partial.None? || c.finalized.Some? || c.partial.value.Short? || repair.HeaderFails? then c
    else
      var file := c.partial.value.(declared := |c.partial.value.frames|);
      if repair.RenameFails? then Candidates(None, Some(file)) else Candidates(Some(file), None)
  }

  function Repaired(disk: Disk, repairs: Repairs): Disk {
    map n | n in disk :: RepairOne(disk[n], RepairOf(repairs, n))
  }

  predicate Valid(file: Option<File>) {
    file.Some? && file.value.Wav? && file.value.declared > 0
  }

  function Read(file: File): seq<Frame>
    requires file.Wav?
  {
    if file.declared <= |file.frames| then file.frames[..file.declared] else file.frames
  }

  datatype Segment = Segment(sequence: nat, frames: seq<Frame>)

  /** The file accepted for a sequence number: the finished one if valid, else the partial one. */
  function Accepted(disk: Disk, n: nat): (accepted: Option<Segment>)
    ensures accepted.Some? ==> accepted.value.sequence == n
  {
    if n !in disk then None
    else if Valid(disk[n].finalized) then Some(Segment(n, Read(disk[n].finalized.value)))
    else if Valid(disk[n].partial) then Some(Segment(n, Read(disk[n].partial.value)))
    else None
  }

  function OptionSeq(segment: Option<Segment>): seq<Segment> {
    if segment.Some? then [segment.value] else []
  }

  /** Accepted files with sequence numbers below `n`, in increasing order. */
  function RecoverBelow(disk: Disk, n: nat): seq<Segment> {
    if n == 0 then [] else RecoverBelow(disk, n - 1) + OptionSeq(Accepted(disk, n - 1))
  }

  function Frames(segments: seq<Segment>): seq<Frame> {
    if segments == [] then [] else Frames(segments[..|segments| - 1]) + segments[|segments| - 1].frames
  }

  lemma FramesOneMore(segments: seq<Segment>, last: Option<Segment>)
    ensures Frames(segments + OptionSeq(last)) == Frames(segments) + if last.Some? then last.value.frames else []
  {
    if last.Some? {
      assert (segments + [last.value])[..|segments|] == segments;
    } else {
      assert segments + [] == segments;
    }
  }

  ghost predicate InOrder(segments: seq<Segment>) {
    forall i, j :: 0 <= i < j < |segments| ==> segments[i].sequence < segments[j].sequence
  }

  /** One file per sequence number, in increasing order, and every acceptable number is there. */
  lemma {:induction false} RecoveredInOrder(disk: Disk, n: nat)
    ensures var segments := RecoverBelow(disk, n);
            && InOrder(segments)
            && (forall segment :: segment in segments <==>
                  segment.sequence < n && Accepted(disk, segment.sequence) == Some(segment))
  {
    if n > 0 {
      RecoveredInOrder(disk, n - 1);
      var before, last := RecoverBelow(disk, n - 1), Accepted(disk, n - 1);
      forall segment ensures segment in RecoverBelow(disk, n) <==> segment in before || last == Some(segment) {
      }
      forall i | 0 <= i < |before| ensures before[i].sequence < n - 1 {
        assert before[i] in before;
      }
    }
  }

  function AcceptedFrames(disk: Disk, n: nat): seq<Frame> {
    var accepted := Accepted(disk, n);
    if accepted.Some? then accepted.value.frames else []
  }

  lemma RecoverOneMore(disk: Disk, n: nat)
    ensures Frames(RecoverBelow(disk, n + 1)) == Frames(RecoverBelow(disk, n)) + AcceptedFrames(disk, n)
  {
    FramesOneMore(RecoverBelow(disk, n), Accepted(disk, n));
  }

  ghost predicate ComesBack(finals: seq<seq<Frame>>, disk: Disk, n: nat)
    requires 1 <= n <= |finals|
  {
    AcceptedFrames(disk, n) == finals[n - 1]
  }

  /** The finished segments come back whole. */
  lemma {:induction false} FinalsComeBack(finals: seq<seq<Frame>>, disk: Disk, n: nat)
    requires n <= |finals| && 0 !in disk
    requires forall k :: 1 <= k <= |finals| ==> ComesBack(finals, disk, k)
    ensures Frames(RecoverBelow(disk, n + 1)) == ConcatFirst(finals, n)
  {
    RecoverOneMore(disk, n);
    if n > 0 {
      FinalsComeBack(finals, disk, n - 1);
      assert ComesBack(finals, disk, n);
    }
  }

  /** A file whose header has been repaired: it declares every frame it holds. */
  ghost predicate Whole(current: Current, file: File) {
    && file.Wav?
    && current.flushed <= |file.frames| <= |current.frames|
    && file.frames == current.frames[..|file.frames|]
    && file.declared == |file.frames|
  }

  /** What a crash and any number of repairs, each as far as it gets, leave of the open segment. */
  ghost predicate Leftover(current: Current, c: Candidates) {
    if c.finalized.Some? then c.partial.None? && Whole(current, c.finalized.value)
    else c.partial.Some? && (ImageOf(current, c.partial.value) || Whole(current, c.partial.value))
  }

  ghost predicate Recoverable(w: Writer, disk: Disk) {
    && (forall n :: n in disk ==> 1 <= n <= |w.finals| || (w.current.Some? && n == |w.finals| + 1))
    && (forall n :: 1 <= n <= |w.finals| ==> FinalOnDisk(w.finals, disk, n))
    && (w.current.Some? ==> |w.finals| + 1 in disk && Leftover(w.current.value, disk[|w.finals| + 1]))
  }

  lemma CrashLeavesItRecoverable(w: Writer, disk: Disk)
    requires CrashImage(w, disk)
    ensures Recoverable(w, disk)
  {
  }

  /** A repair never undoes what the last one did. */
  lemma RepairKeepsLeftover(current: Current, c: Candidates, repair: Repair)
    requires Leftover(current, c)
    ensures Leftover(current, RepairOne(c, repair))
  {
  }

  lemma RepairKeepsRecoverable(w: Writer, disk: Disk, repairs: Repairs)
    requires Recoverable(w, disk)
    ensures Recoverable(w, Repaired(disk, repairs))
  {
    forall n | 1 <= n <= |w.finals| ensures FinalOnDisk(w.finals, Repaired(disk, repairs), n) {
      assert FinalOnDisk(w.finals, disk, n);
    }
    if w.current.Some? {
      RepairKeepsLeftover(w.current.value, disk[|w.finals| + 1], RepairOf(repairs, |w.finals| + 1));
    }
  }

  /** The disk after some start-ups, each of which may stop or fail anywhere in its repairs. */
  function AfterStartUps(disk: Disk, startUps: seq<Repairs>): Disk {
    if startUps == [] then disk else Repaired(AfterStartUps(disk, startUps[..|startUps| - 1]), startUps[|startUps| - 1])
  }

  lemma {:induction false} StartUpsKeepRecoverable(w: Writer, disk: Disk, startUps: seq<Repairs>)
    requires Recoverable(w, disk)
    ensures Recoverable(w, AfterStartUps(disk, startUps)) && AfterStartUps(disk, startUps).Keys == disk.Keys
  {
    if startUps != [] {
      var before := AfterStartUps(disk, startUps[..|startUps| - 1]);
      StartUpsKeepRecoverable(w, disk, startUps[..|startUps| - 1]);
      RepairKeepsRecoverable(w, before, startUps[|startUps| - 1]);
    }
  }

  /** Of the open segment comes back a prefix that holds everything flushed. */
  lemma OpenSegmentIsRecovered(w: Writer, disk: Disk)
    requires Recoverable(w, disk) && WriterSane(w) && w.current.Some?
    ensures var frames := AcceptedFrames(disk, |w.finals| + 1);
            w.current.value.flushed <= |frames| && frames <= w.current.value.frames
  {
  }

  lemma RepairOnlyAddsFrames(w: Writer, disk: Disk, repairs: Repairs)
    requires Recoverable(w, disk) && w.current.Some?
    ensures AcceptedFrames(disk, |w.finals| + 1) <= AcceptedFrames(Repaired(disk, repairs), |w.finals| + 1)
  {
  }

  /** Everything on disk has a sequence number below this. */
  ghost predicate Bounds(disk: Disk, n: nat) {
    forall k :: k in disk ==> k < n
  }

  lemma {:induction false} NothingBeyondTheBound(disk: Disk, n: nat, m: nat)
    requires n <= m && forall k :: n <= k < m ==> k !in disk
    ensures RecoverBelow(disk, m) == RecoverBelow(disk, n)
    decreases m
  {
    if n < m {
      NothingBeyondTheBound(disk, n, m - 1);
    }
  }

  lemma FinishedSegmentsAreRead(w: Writer, disk: Disk)
    requires Recoverable(w, disk)
    ensures Frames(RecoverBelow(disk, |w.finals| + 1)) == Concat(w.finals)
  {
    forall k | 1 <= k <= |w.finals| ensures ComesBack(w.finals, disk, k) {
      assert FinalOnDisk(w.finals, disk, k);
    }
    FinalsComeBack(w.finals, disk, |w.finals|);
  }

  lemma BoundDoesNotMatter(disk: Disk, bound: nat, other: nat)
    requires Bounds(disk, bound) && Bounds(disk, other)
    ensures RecoverBelow(disk, bound) == RecoverBelow(disk, other)
  {
    if bound <= other {
      NothingBeyondTheBound(disk, bound, other);
    } else {
      NothingBeyondTheBound(disk, other, bound);
    }
  }

  /** What recovery reads of a crashed writer: its finished segments, then what the open one left. */
  lemma RecoveryReads(w: Writer, disk: Disk, bound: nat)
    requires Recoverable(w, disk) && Bounds(disk, bound)
    ensures Frames(RecoverBelow(disk, bound))
         == Concat(w.finals) + if w.current.Some? then AcceptedFrames(disk, |w.finals| + 1) else []
  {
    var count := |w.finals|;
    FinishedSegmentsAreRead(w, disk);
    if w.current.Some? {
      RecoverOneMore(disk, count + 1);
      BoundDoesNotMatter(disk, bound, count + 2);
    } else {
      BoundDoesNotMatter(disk, bound, count + 1);
    }
  }

  /**
   Whatever the stream and wherever the crash falls, and however many start-ups repair what they can
   of it, what recovery reads is a prefix of the stream that contains everything flushed.
   */
  lemma RecoveryReadsAFlushedPrefix(steps: seq<Step>, disk: Disk, startUps: seq<Repairs>, bound: nat)
    requires CrashImage(Reached(steps), disk) && Bounds(disk, bound)
    ensures var frames := Frames(RecoverBelow(AfterStartUps(disk, startUps), bound));
            && FlushedCount(Reached(steps)) <= |frames|
            && frames <= Stream(steps)
  {
    var w, after := Reached(steps), AfterStartUps(disk, startUps);
    WriterHoldsTheStream(steps);
    CrashLeavesItRecoverable(w, disk);
    StartUpsKeepRecoverable(w, disk, startUps);
    RecoveryReads(w, after, bound);
    if w.current.Some? {
      OpenSegmentIsRecovered(w, after);
    }
  }

  /** And a further start-up reads at least as much as the one before. */
  lemma StartUpsReadNoLess(steps: seq<Step>, disk: Disk, startUps: seq<Repairs>, repairs: Repairs, bound: nat)
    requires CrashImage(Reached(steps), disk) && Bounds(disk, bound)
    ensures Frames(RecoverBelow(AfterStartUps(disk, startUps), bound))
         <= Frames(RecoverBelow(AfterStartUps(disk, startUps + [repairs]), bound))
  {
    var w, after := Reached(steps), AfterStartUps(disk, startUps);
    assert (startUps + [repairs])[..|startUps|] == startUps;
    CrashLeavesItRecoverable(w, disk);
    StartUpsKeepRecoverable(w, disk, startUps);
    RepairKeepsRecoverable(w, after, repairs);
    RecoveryReads(w, after, bound);
    RecoveryReads(w, Repaired(after, repairs), bound);
    if w.current.Some? {
      RepairOnlyAddsFrames(w, after, repairs);
    }
  }

  lemma OneFrameFlushed(first: Frame, second: Frame)
    ensures Reached([Create, Put(first), Flush, Put(second)]) == Writer([], Some(Current([first, second], 1, false)))
  {
    assert Reached([]) == FRESH;
    ReachedOneMore([], Create);
    assert [] + [Create] == [Create];
    assert Reached([Create]) == Writer([], Some(Current([], 0, false)));
    ReachedOneMore([Create], Put(first));
    assert [Create] + [Put(first)] == [Create, Put(first)];
    assert [] + [first] == [first];
    ReachedOneMore([Create, Put(first)], Flush);
    assert [Create, Put(first)] + [Flush] == [Create, Put(first), Flush];
    ReachedOneMore([Create, Put(first), Flush], Put(second));
    assert [Create, Put(first), Flush] + [Put(second)] == [Create, Put(first), Flush, Put(second)];
    assert [first] + [second] == [first, second];
  }

  /** A crash that leaves a frame nobody flushed: read only once the header is repaired. */
  lemma ACrashLeavesAnUnflushedFrame(first: Frame, second: Frame)
    ensures var disk: Disk := map[1 := Candidates(None, Some(Wav([first, second], 1)))];
            && CrashImage(Reached([Create, Put(first), Flush, Put(second)]), disk)
            && AcceptedFrames(AfterStartUps(disk, []), 1) == [first]
            && AcceptedFrames(AfterStartUps(disk, [map[1 := RenameFails]]), 1) == [first, second]
  {
    OneFrameFlushed(first, second);
    assert [map[1 := RenameFails]][..0] == [];
  }

  // ---------------------------------------------------------------------------------------
  // The writer loop
  // ---------------------------------------------------------------------------------------

  lemma ReachedOneMore(steps: seq<Step>, step: Step)
    ensures Reached(steps + [step]) == Do(Reached(steps), step)
    ensures Stream(steps + [step])
         == Stream(steps) + if step.Put? && Enabled(Reached(steps), step) then [step.frame] else []
  {
    assert (steps + [step])[..|steps|] == steps;
  }

  /** Every assignment to `current` or `segments` is one step, so a crash can fall between any two. */
  class SegmentWriter {
    var segmentIndex: nat
    var segmentFrames: nat
    var totalFrames: nat
    var current: Option<Current>
    var segments: seq<seq<Frame>>
    ghost var steps: seq<Step>

    ghost predicate Valid()
      reads this
    {
      && Reached(steps) == Writer(segments, current)
      && segmentIndex == |segments| + (if current.Some? then 1 else 0)
      && totalFrames == |Stream(steps)|
      && (current.Some? ==> !current.value.sealed && segmentFrames == |current.value.frames| < SEGMENT_LIMIT)
      && (forall i :: 0 <= i < |segments| ==> |segments[i]| >= SEGMENT_LIMIT)
    }

    constructor ()
      ensures Valid() && steps == []
    {
      segmentIndex, segmentFrames, totalFrames := 0, 0, 0;
      current, segments, steps := None, [], [];
    }

    method FinalizeSegment()
      requires Reached(steps) == Writer(segments, current)
      modifies `current, `segments, `steps
      ensures Reached(steps) == Writer(segments, current) && Stream(steps) == old(Stream(steps))
      ensures current.None?
      ensures segments == old(segments) + if old(current).Some? then [old(current).value.frames] else []
    {
      if current.Some? {
        ReachedOneMore(steps, Seal);
        steps := steps + [Seal];
        current := Some(current.value.(flushed := |current.value.frames|, sealed := true));
        ReachedOneMore(steps, Rename);
        steps := steps + [Rename];
        segments := segments + [current.value.frames];
        current := None;
      }
    }

    method WriteFrames(packet: seq<Frame>)
      requires Reached(steps) == Writer(segments, current) && current.Some? && !current.value.sealed
      modifies `current, `steps, `segmentFrames, `totalFrames
      ensures Reached(steps) == Writer(segments, current) && current.Some? && !current.value.sealed
      ensures current.value.frames == old(current).value.frames + packet
      ensures Stream(steps) == old(Stream(steps)) + packet
      ensures segmentFrames == old(segmentFrames) + |packet| && totalFrames == old(totalFrames) + |packet|
    {
      for i := 0 to |packet|
        invariant Reached(steps) == Writer(segments, current) && current.Some? && !current.value.sealed
        invariant current.value.frames == old(current).value.frames + packet[..i]
        invariant Stream(steps) == old(Stream(steps)) + packet[..i]
        invariant segmentFrames == old(segmentFrames) + i && totalFrames == old(totalFrames) + i
      {
        assert packet[..i + 1] == packet[..i] + [packet[i]];
        ReachedOneMore(steps, Put(packet[i]));
        steps := steps + [Put(packet[i])];
        current := Some(current.value.(frames := current.value.frames + [packet[i]]));
        segmentFrames, totalFrames := segmentFrames + 1, totalFrames + 1;
      }
      assert packet[..|packet|] == packet;
    }

    /** A segment is open afterwards, and its number counted. */
    method StartSegment()
      requires Valid()
      modifies `segmentIndex, `segmentFrames, `current, `steps
      ensures Valid() && current.Some? && Stream(steps) == old(Stream(steps))
    {
      if current.None? {
        ReachedOneMore(steps, Create);
        steps := steps + [Create];
        segmentIndex := segmentIndex + 1;
        current := Some(Current([], 0, false));
        segmentFrames := 0;
      }
    }

    method FlushFrames()
      requires Reached(steps) == Writer(segments, current) && current.Some? && !current.value.sealed
      modifies `current, `steps
      ensures Reached(steps) == Writer(segments, current) && Stream(steps) == old(Stream(steps))
      ensures current == Some(old(current).value.(flushed := |old(current).value.frames|))
    {
      ReachedOneMore(steps, Step.Flush);
      steps := steps + [Step.Flush];
      current := Some(current.value.(flushed := |current.value.frames|));
    }

    /** `elapsed`: a second has passed since the last flush. */
    method WritePacket(packet: seq<Frame>, elapsed: bool)
      requires Valid()
      modifies this
      ensures Valid()
      ensures Stream(steps) == old(Stream(steps)) + packet
      ensures elapsed ==> FlushedCount(Reached(steps)) == |Stream(steps)|
    {
      StartSegment();
      WriteFrames(packet);
      if elapsed {
        FlushFrames();
      }
      if segmentFrames >= SEGMENT_LIMIT {
        FinalizeSegment();
      }
      AllFlushed(elapsed);
    }

    lemma AllFlushed(elapsed: bool)
      requires Reached(steps) == Writer(segments, current)
      requires elapsed && current.Some? ==> current.value.flushed == |current.value.frames|
      ensures elapsed ==> FlushedCount(Reached(steps)) == |Stream(steps)|
    {
      WriterHoldsTheStream(steps);
    }

    /** The last segment may be short; together the segments are the stream. */
    method Stop()
      requires Valid()
      modifies this
      ensures current.None? && Concat(segments) == old(Stream(steps)) && totalFrames == |Concat(segments)|
      ensures forall i :: 0 <= i < |segments| - 1 ==> |segments[i]| >= SEGMENT_LIMIT
    {
      FinalizeSegment();
      WriterHoldsTheStream(steps);
      assert Received(Reached(steps)) == Concat(segments) + [];
    }
  }

  // ---------------------------------------------------------------------------------------
  // Start-up repair, recovery and the fallback
  // ---------------------------------------------------------------------------------------

  method RepairRecordingPartials(disk: Disk, repairs: Repairs) returns (after: Disk)
    ensures after == Repaired(disk, repairs)
  {
    after := disk;
    var rest := disk.Keys;
    while rest != {}
      invariant rest <= disk.Keys == after.Keys
      invariant forall n :: n in disk ==>
                  after[n] == if n in rest then disk[n] else RepairOne(disk[n], RepairOf(repairs, n))
      decreases |rest|
    {
      var n :| n in rest;
      rest := rest - {n};
      if after[n].partial.Some? && after[n].finalized.None? && after[n].partial.value.Wav? && !RepairOf(repairs, n).HeaderFails? {
        var file := after[n].partial.value;
        file := file.(declared := |file.frames|);
        if RepairOf(repairs, n).RenameFails? {
          after := after[n := after[n].(partial := Some(file))];
        } else {
          after := after[n := Candidates(Some(file), None)];
        }
      }
    }
  }

  method Smallest(numbers: set<nat>) returns (n: nat)
    requires numbers != {}
    ensures n in numbers && forall k :: k in numbers ==> n <= k
  {
    n :| n in numbers;
    var rest := numbers - {n};
    while rest != {}
      invariant n in numbers && rest <= numbers
      invariant forall k :: k in numbers && k !in rest ==> n <= k
      decreases |rest|
    {
      var k :| k in rest;
      rest := rest - {k};
      if k < n {
        n := k;
      }
    }
  }

  /** The finished file if it is valid, else the partial one. */
  method AcceptCandidate(disk: Disk, n: nat) returns (accepted: Option<Segment>)
    requires n in disk
    ensures accepted == Accepted(disk, n)
  {
    accepted := None;
    if Valid(disk[n].finalized) {
      accepted := Some(Segment(n, Read(disk[n].finalized.value)));
    } else if Valid(disk[n].partial) {
      accepted := Some(Segment(n, Read(disk[n].partial.value)));
    }
  }

  /** Passing over numbers without files, then taking the file of the next. */
  lemma RecoverNext(disk: Disk, bound: nat, n: nat)
    requires bound <= n && forall k :: bound <= k < n ==> k !in disk
    ensures RecoverBelow(disk, n + 1) == RecoverBelow(disk, bound) + OptionSeq(Accepted(disk, n))
  {
    NothingBeyondTheBound(disk, bound, n);
  }

  method AddSegment(paths: seq<Segment>, frames: nat, accepted: Option<Segment>) returns (more: seq<Segment>, count: nat)
    requires frames <= U64_MAX && (|Frames(paths)| <= U64_MAX ==> frames == |Frames(paths)|)
    ensures more == paths + OptionSeq(accepted)
    ensures count <= U64_MAX && (|Frames(more)| <= U64_MAX ==> count == |Frames(more)|)
  {
    FramesOneMore(paths, accepted);
    more, count := paths, frames;
    if accepted.Some? {
      more := more + [accepted.value];
      count := SaturatingAdd(count, |accepted.value.frames|);
    }
  }

  /** Sequence numbers in increasing order, and of each the first valid candidate. */
  method RecoverableWavSegments(disk: Disk) returns (paths: seq<Segment>, frames: nat, ghost bound: nat)
    ensures Bounds(disk, bound) && paths == RecoverBelow(disk, bound)
    ensures |Frames(paths)| <= U64_MAX ==> frames == |Frames(paths)|
  {
    paths, frames := [], 0;
    bound := 0;
    var rest := disk.Keys;
    while rest != {}
      invariant rest <= disk.Keys
      invariant forall k :: k in disk ==> (k in rest <==> bound <= k)
      invariant paths == RecoverBelow(disk, bound)
      invariant frames <= U64_MAX && (|Frames(paths)| <= U64_MAX ==> frames == |Frames(paths)|)
      decreases |rest|
    {
      var n := Smallest(rest);
      RecoverNext(disk, bound, n);
      var accepted := AcceptCandidate(disk, n);
      paths, frames := AddSegment(paths, frames, accepted);
      rest := rest - {n};
      bound := n + 1;
    }
  }

  method WriteSilence(channels: nat, count: nat) returns (output: seq<Frame>)
    ensures output == Silence(channels, count)
  {
    output := [];
    for i := 0 to count
      invariant output == Silence(channels, i)
    {
      output := output + [Quiet(channels)];
    }
  }

  method CopySegments(start: seq<Frame>, segments: seq<Segment>) returns (output: seq<Frame>)
    ensures output == start + Frames(segments)
  {
    output := start;
    for i := 0 to |segments|
      invariant output == start + Frames(segments[..i])
    {
      assert segments[..i + 1][..i] == segments[..i];
      output := output + segments[i].frames;
    }
    assert segments[..|segments|] == segments;
  }

  method ConsolidateRecoveryWav(segments: seq<Segment>, frames: nat, offsetMs: nat, channels: nat)
    returns (output: seq<Frame>, durationMs: nat)
    requires channels > 0
    ensures output == Silence(channels, LeadingFrames(offsetMs, channels)) + Frames(segments)
    ensures durationMs == FallbackDurationMs(frames, offsetMs, channels)
  {
    var leading := LeadingFrames(offsetMs, channels);
    output := WriteSilence(channels, leading);
    output := CopySegments(output, segments);
    durationMs := FallbackDurationMs(frames, offsetMs, channels);
  }

  /**
   Start-up after a crash, end to end: after its leading silence the fallback holds a prefix of the
   captured stream that includes everything flushed. Earlier start-ups may have repaired some of it.
   FallbackAddsTheOffset gives the numbers.
   */
  method RecoverAfterCrash(ghost steps: seq<Step>, ghost crashed: Disk, ghost earlier: seq<Repairs>, disk: Disk,
                           repairs: Repairs, offsetMs: nat, channels: nat)
    returns (output: seq<Frame>, durationMs: nat, recovered: nat)
    requires CrashImage(Reached(steps), crashed) && disk == AfterStartUps(crashed, earlier)
    requires channels > 0 && |Stream(steps)| <= U64_MAX
    ensures FlushedCount(Reached(steps)) <= recovered <= |Stream(steps)|
    ensures output == Silence(channels, LeadingFrames(offsetMs, channels)) + Stream(steps)[..recovered]
    ensures durationMs == FallbackDurationMs(recovered, offsetMs, channels)
  {
    var repaired := RepairRecordingPartials(disk, repairs);
    ghost var bound;
    var paths, frames;
    paths, frames, bound := RecoverableWavSegments(repaired);
    assert AfterStartUps(crashed, earlier + [repairs]) == repaired by {
      assert (earlier + [repairs])[..|earlier|] == earlier;
    }
    CrashLeavesItRecoverable(Reached(steps), crashed);
    StartUpsKeepRecoverable(Reached(steps), crashed, earlier + [repairs]);
    assert Bounds(crashed, bound);
    RecoveryReadsAFlushedPrefix(steps, crashed, earlier + [repairs], bound);
    recovered := frames;
    output, durationMs := ConsolidateRecoveryWav(paths, frames, offsetMs, channels);
  }
}
