/**
 The recording manifest (recording.rs): the monitor appends a checkpoint of every track with the
 clock anchors new since the last one (spawn_monitor), and recovery reads the lines back
 (read_recovery_checkpoints). Lines may be lost, torn, too long or not text.
 */
module CheckpointLog {
  import opened Wrappers
  import opened Pcm

  type Source = string

  datatype Counters = Counters(samples: nat, dropped: nat, discontinuities: nat, qpcFirst: nat, qpcLast: nat)

  /** One track in a checkpoint line. A field that is missing or has another type reads None. */
  datatype Entry = Entry(
    source: Option<Source>,
    samples: Option<nat>,
    dropped: Option<nat>,
    discontinuities: Option<nat>,
    qpcFirst: Option<nat>,
    qpcLast: Option<nat>,
    anchors: seq<Option<ClockAnchor>>)

  /** Skipped: unreadable or of another kind. Fatal: over 8 MiB, or not text. */
  datatype Line = Checkpoint(entries: seq<Entry>) | Skipped | Fatal

  datatype Recovered = Recovered(
    samples: nat,
    dropped: nat,
    discontinuities: nat,
    qpcFirst: Option<nat>,
    qpcLast: Option<nat>,
    anchors: seq<ClockAnchor>)

  const NOTHING := Recovered(0, 0, 0, None, None, [])

  // ---------------------------------------------------------------------------------------
  // Reading
  // ---------------------------------------------------------------------------------------

  function NonZero(value: Option<nat>): Option<nat> {
    if value.Some? && value.value > 0 then value else None
  }

  function Or(first: Option<nat>, second: Option<nat>): Option<nat> {
    if first.Some? then first else second
  }

  function Readable(anchors: seq<Option<ClockAnchor>>): seq<ClockAnchor> {
    if anchors == [] then []
    else
      var last := anchors[|anchors| - 1];
      Readable(anchors[..|anchors| - 1]) + if last.Some? then [last.value] else []
  }

  function ReadEntry(r: Recovered, e: Entry): Recovered {
    Recovered(
      e.samples.GetOr(r.samples),
      e.dropped.GetOr(r.dropped),
      e.discontinuities.GetOr(r.discontinuities),
      Or(NonZero(e.qpcFirst), r.qpcFirst),
      Or(NonZero(e.qpcLast), r.qpcLast),
      r.anchors + Readable(e.anchors))
  }

  function SoFar(table: map<Source, Recovered>, source: Source): Recovered {
    if source in table then table[source] else NOTHING
  }

  function ReadEntries(table: map<Source, Recovered>, entries: seq<Entry>, count: nat): map<Source, Recovered>
    requires count <= |entries|
  {
    if count == 0 then table
    else
      var before, e := ReadEntries(table, entries, count - 1), entries[count - 1];
      if e.source.None? then before
      else before[e.source.value := ReadEntry(SoFar(before, e.source.value), e)]
  }

  datatype ReadError = Unreadable

  function ReadLines(lines: seq<Line>, count: nat): Result<map<Source, Recovered>, ReadError>
    requires count <= |lines|
  {
    if count == 0 then Ok(map[])
    else
      var before := ReadLines(lines, count - 1);
      if before.Err? then before
      else
        match lines[count - 1]
        case Checkpoint(entries) => Ok(ReadEntries(before.value, entries, |entries|))
        case Skipped => before
        case Fatal => Err(Unreadable)
  }

  function ReadAll(lines: seq<Line>): Result<map<Source, Recovered>, ReadError> {
    ReadLines(lines, |lines|)
  }

  /** Recovery goes on without any checkpoint if the manifest cannot be read. */
  function Recovery(lines: seq<Line>): map<Source, Recovered> {
    if ReadAll(lines).Ok? then ReadAll(lines).value else map[]
  }

  /** A number that a line states replaces the one known; one that it does not state stays. */
  ghost predicate Replaces(after: nat, stated: Option<nat>, known: nat) {
    if stated.Some? then after == stated.value else after == known
  }

  /** A tick replaces the one known unless it is zero or missing. */
  ghost predicate ReplacesTick(after: Option<nat>, stated: Option<nat>, known: Option<nat>) {
    if stated.Some? && stated.value != 0 then after == stated else after == known
  }

  /** Whatever a line states or leaves out of a track: its anchors are added, its counters replaced one by one. */
  lemma EntriesAddAndReplace(r: Recovered, e: Entry)
    ensures var after := ReadEntry(r, e);
            && Replaces(after.samples, e.samples, r.samples) && Replaces(after.dropped, e.dropped, r.dropped)
            && Replaces(after.discontinuities, e.discontinuities, r.discontinuities)
            && ReplacesTick(after.qpcFirst, e.qpcFirst, r.qpcFirst) && ReplacesTick(after.qpcLast, e.qpcLast, r.qpcLast)
            && after.anchors == r.anchors + Readable(e.anchors)
  {
  }

  // ---------------------------------------------------------------------------------------
  // Writing
  // ---------------------------------------------------------------------------------------

  /** What becomes of a line: as written; torn or lost; or so that reading fails, by its size or its bytes. */
  datatype Fate = Intact | Torn | Spoilt

  function LineOf(line: Line, fate: Fate): Line {
    match fate
    case Intact => line
    case Torn => Skipped
    case Spoilt => Fatal
  }

  /** What the intact checkpoints have said of a track: its counters, and which anchors. */
  datatype Saved = Saved(counters: Counters, kept: seq<nat>)

  /** A live track, the monitor's cursor into its anchors, and what is on record of it. */
  datatype Track = Track(source: Source, counters: Counters, anchors: seq<ClockAnchor>, cursor: nat, saved: Option<Saved>)

  datatype Recording = Recording(tracks: seq<Track>, manifest: seq<Line>)

  function From(anchors: seq<ClockAnchor>, cursor: nat): seq<ClockAnchor> {
    if cursor <= |anchors| then anchors[cursor..] else []
  }

  function Wrapped(anchors: seq<ClockAnchor>): seq<Option<ClockAnchor>> {
    seq(|anchors|, i requires 0 <= i < |anchors| => Some(anchors[i]))
  }

  function EntryOf(t: Track): Entry {
    Entry(Some(t.source), Some(t.counters.samples), Some(t.counters.dropped), Some(t.counters.discontinuities),
          Some(t.counters.qpcFirst), Some(t.counters.qpcLast), Wrapped(From(t.anchors, t.cursor)))
  }

  function Entries(tracks: seq<Track>): seq<Entry> {
    seq(|tracks|, i requires 0 <= i < |tracks| => EntryOf(tracks[i]))
  }

  function Range(low: nat, high: nat): seq<nat> {
    if low < high then seq(high - low, i requires 0 <= i => low + i) else []
  }

  function KeptBefore(t: Track): seq<nat> {
    if t.saved.Some? then t.saved.value.kept else []
  }

  /** The cursor advances whether or not the line could be written. */
  function Checkpointed(t: Track, written: bool): Track {
    t.(cursor := |t.anchors|,
       saved := if written then Some(Saved(t.counters, KeptBefore(t) + Range(t.cursor, |t.anchors|))) else t.saved)
  }

  function AllCheckpointed(tracks: seq<Track>, written: bool): seq<Track> {
    seq(|tracks|, i requires 0 <= i < |tracks| => Checkpointed(tracks[i], written))
  }

  datatype Step =
    | Grow(i: nat, anchors: seq<ClockAnchor>, counters: Counters)
    | WriteCheckpoint(fate: Fate)
    | WriteOther(fate: Fate)

  /** A tick that has been read once is not forgotten. */
  predicate KeepsTicks(before: Counters, after: Counters) {
    (before.qpcFirst > 0 ==> after.qpcFirst > 0) && (before.qpcLast > 0 ==> after.qpcLast > 0)
  }

  function Next(r: Recording, step: Step): Recording {
    match step
    case Grow(i, anchors, counters) =>
      if i < |r.tracks| && KeepsTicks(r.tracks[i].counters, counters) then
        r.(tracks := r.tracks[i := r.tracks[i].(anchors := r.tracks[i].anchors + anchors, counters := counters)])
      else r
    case WriteCheckpoint(fate) =>
      Recording(AllCheckpointed(r.tracks, fate == Intact), r.manifest + [LineOf(Checkpoint(Entries(r.tracks)), fate)])
    case WriteOther(fate) => r.(manifest := r.manifest + [LineOf(Skipped, fate)])
  }

  function Run(r: Recording, steps: seq<Step>): Recording
    decreases |steps|
  {
    if steps == [] then r else Run(Next(r, steps[0]), steps[1..])
  }

  // ---------------------------------------------------------------------------------------
  // What is read back
  // ---------------------------------------------------------------------------------------

  ghost predicate IncreasingBelow(kept: seq<nat>, bound: nat) {
    && (forall i :: 0 <= i < |kept| ==> kept[i] < bound)
    && (forall i, j :: 0 <= i < j < |kept| ==> kept[i] < kept[j])
  }

  ghost predicate TrackSane(t: Track) {
    && t.cursor <= |t.anchors|
    && IncreasingBelow(KeptBefore(t), t.cursor)
    && (t.saved.Some? ==> KeepsTicks(t.saved.value.counters, t.counters))
  }

  function Picked(anchors: seq<ClockAnchor>, kept: seq<nat>): seq<ClockAnchor>
    requires forall i :: 0 <= i < |kept| ==> kept[i] < |anchors|
  {
    seq(|kept|, i requires 0 <= i < |kept| => anchors[kept[i]])
  }

  /** What a reader should make of a track. */
  ghost function OnRecord(t: Track): Recovered
    requires TrackSane(t)
  {
    if t.saved.None? then NOTHING
    else
      var c := t.saved.value.counters;
      Recovered(c.samples, c.dropped, c.discontinuities, NonZero(Some(c.qpcFirst)), NonZero(Some(c.qpcLast)),
                Picked(t.anchors, t.saved.value.kept))
  }

  ghost predicate TracksSane(tracks: seq<Track>) {
    && (forall i :: 0 <= i < |tracks| ==> TrackSane(tracks[i]))
    && (forall i, j :: 0 <= i < j < |tracks| ==> tracks[i].source != tracks[j].source)
  }

  ghost predicate ReadsBack(table: map<Source, Recovered>, tracks: seq<Track>)
    requires TracksSane(tracks)
  {
    forall i :: 0 <= i < |tracks| ==> SoFar(table, tracks[i].source) == OnRecord(tracks[i])
  }

  ghost predicate Inv(r: Recording) {
    && TracksSane(r.tracks)
    && (Fatal !in r.manifest ==> ReadAll(r.manifest).Ok? && ReadsBack(ReadAll(r.manifest).value, r.tracks))
  }

  lemma {:induction false} ReadsExactlyWithoutFatal(lines: seq<Line>, count: nat)
    requires count <= |lines|
    ensures ReadLines(lines, count).Ok? <==> forall k :: 0 <= k < count ==> lines[k] != Fatal
  {
    if count > 0 {
      ReadsExactlyWithoutFatal(lines, count - 1);
    }
  }

  /** A single fatal line and nothing is read. */
  lemma ReadAllExactlyWithoutFatal(lines: seq<Line>)
    ensures ReadAll(lines).Ok? <==> Fatal !in lines
  {
    ReadsExactlyWithoutFatal(lines, |lines|);
  }

  lemma {:induction false} WrappedReads(anchors: seq<ClockAnchor>)
    ensures Readable(Wrapped(anchors)) == anchors
  {
    if anchors != [] {
      var rest := anchors[..|anchors| - 1];
      WrappedReads(rest);
      assert Wrapped(anchors)[..|anchors| - 1] == Wrapped(rest);
    }
  }

  lemma RangeExtendsKept(kept: seq<nat>, cursor: nat, bound: nat)
    requires IncreasingBelow(kept, cursor) && cursor <= bound
    ensures IncreasingBelow(kept + Range(cursor, bound), bound)
  {
  }

  lemma PickedOneRangeMore(anchors: seq<ClockAnchor>, kept: seq<nat>, cursor: nat)
    requires IncreasingBelow(kept, cursor) && cursor <= |anchors|
    requires IncreasingBelow(kept + Range(cursor, |anchors|), |anchors|)
    ensures Picked(anchors, kept + Range(cursor, |anchors|)) == Picked(anchors, kept) + From(anchors, cursor)
  {
  }

  /** A checkpoint adds exactly the anchors from the cursor on, and replaces the counters. */
  lemma CheckpointExtendsRecord(t: Track)
    requires TrackSane(t)
    ensures TrackSane(Checkpointed(t, true))
    ensures ReadEntry(OnRecord(t), EntryOf(t)) == OnRecord(Checkpointed(t, true))
  {
    var kept, added := KeptBefore(t), From(t.anchors, t.cursor);
    RangeExtendsKept(kept, t.cursor, |t.anchors|);
    assert Picked(t.anchors, kept + Range(t.cursor, |t.anchors|)) == Picked(t.anchors, kept) + added by {
      PickedOneRangeMore(t.anchors, kept, t.cursor);
    }
    assert Readable(EntryOf(t).anchors) == added by {
      WrappedReads(added);
    }
    assert OnRecord(t).anchors == Picked(t.anchors, kept);
  }

  /** What the table says of a source: the record with this entry, or still without it. */
  ghost predicate ReadAs(table: map<Source, Recovered>, e: Entry, record: Recovered, done: bool)
    requires e.source.Some?
  {
    SoFar(table, e.source.value) == if done then ReadEntry(record, e) else record
  }

  ghost predicate Distinct(entries: seq<Entry>) {
    && (forall i :: 0 <= i < |entries| ==> entries[i].source.Some?)
    && (forall i, j :: 0 <= i < j < |entries| ==> entries[i].source != entries[j].source)
  }

  ghost predicate ReadUpTo(table: map<Source, Recovered>, entries: seq<Entry>, records: seq<Recovered>, count: nat)
    requires Distinct(entries) && |records| == |entries|
  {
    forall i :: 0 <= i < |entries| ==> ReadAs(table, entries[i], records[i], i < count)
  }

  lemma OtherSourceUntouched(table: map<Source, Recovered>, source: Source, value: Recovered, e: Entry,
                             record: Recovered, done: bool)
    requires e.source.Some? && e.source.value != source && ReadAs(table, e, record, done)
    ensures ReadAs(table[source := value], e, record, done)
  {
  }

  lemma EntryReads(table: map<Source, Recovered>, entries: seq<Entry>, records: seq<Recovered>, k: nat)
    requires Distinct(entries) && |records| == |entries| && k < |entries| && ReadUpTo(table, entries, records, k)
    ensures var source := entries[k].source.value;
            ReadUpTo(table[source := ReadEntry(SoFar(table, source), entries[k])], entries, records, k + 1)
  {
    var source := entries[k].source.value;
    var value := ReadEntry(SoFar(table, source), entries[k]);
    assert ReadAs(table, entries[k], records[k], k < k);
    forall i | 0 <= i < |entries| ensures ReadAs(table[source := value], entries[i], records[i], i < k + 1) {
      assert ReadAs(table, entries[i], records[i], i < k);
      if i != k {
        OtherSourceUntouched(table, source, value, entries[i], records[i], i < k);
      }
    }
  }

  lemma {:induction false} EntriesRead(table: map<Source, Recovered>, entries: seq<Entry>, records: seq<Recovered>, count: nat)
    requires Distinct(entries) && |records| == |entries| && ReadUpTo(table, entries, records, 0) && count <= |entries|
    ensures ReadUpTo(ReadEntries(table, entries, count), entries, records, count)
  {
    if count > 0 {
      EntriesRead(table, entries, records, count - 1);
      EntryReads(ReadEntries(table, entries, count - 1), entries, records, count - 1);
    }
  }

  ghost function Records(tracks: seq<Track>): seq<Recovered>
    requires TracksSane(tracks)
  {
    seq(|tracks|, i requires 0 <= i < |tracks| => OnRecord(tracks[i]))
  }

  lemma RecordsAreRead(table: map<Source, Recovered>, tracks: seq<Track>)
    requires TracksSane(tracks) && ReadsBack(table, tracks)
    ensures Distinct(Entries(tracks)) && ReadUpTo(table, Entries(tracks), Records(tracks), 0)
  {
    forall i | 0 <= i < |tracks| ensures ReadAs(table, Entries(tracks)[i], Records(tracks)[i], i < 0) {
      assert SoFar(table, tracks[i].source) == OnRecord(tracks[i]);
    }
  }

  lemma ReadTracksReadBack(table: map<Source, Recovered>, tracks: seq<Track>)
    requires TracksSane(tracks) && Distinct(Entries(tracks))
    requires ReadUpTo(table, Entries(tracks), Records(tracks), |tracks|)
    ensures TracksSane(AllCheckpointed(tracks, true)) && ReadsBack(table, AllCheckpointed(tracks, true))
  {
    var after := AllCheckpointed(tracks, true);
    forall i | 0 <= i < |tracks|
      ensures TrackSane(after[i]) && SoFar(table, after[i].source) == OnRecord(after[i])
    {
      CheckpointExtendsRecord(tracks[i]);
      assert ReadAs(table, Entries(tracks)[i], Records(tracks)[i], i < |tracks|);
    }
  }

  lemma ReadOneMore(lines: seq<Line>, last: Line)
    requires ReadAll(lines).Ok? && last.Checkpoint?
    ensures ReadAll(lines + [last]) == Ok(ReadEntries(ReadAll(lines).value, last.entries, |last.entries|))
  {
    EarlierLinesRead(lines, last, |lines|);
  }

  lemma {:induction false} EarlierLinesRead(lines: seq<Line>, last: Line, count: nat)
    requires count <= |lines|
    ensures ReadLines(lines + [last], count) == ReadLines(lines, count)
  {
    if count > 0 {
      EarlierLinesRead(lines, last, count - 1);
    }
  }

  lemma GrowingKeepsRecord(t: Track, anchors: seq<ClockAnchor>, counters: Counters)
    requires TrackSane(t) && KeepsTicks(t.counters, counters)
    ensures var after := t.(anchors := t.anchors + anchors, counters := counters);
            TrackSane(after) && OnRecord(after) == OnRecord(t)
  {
  }

  lemma LosingKeepsRecord(t: Track)
    requires TrackSane(t)
    ensures TrackSane(Checkpointed(t, false)) && OnRecord(Checkpointed(t, false)) == OnRecord(t)
  {
  }

  lemma SkippedLineReadsNothing(lines: seq<Line>)
    ensures ReadAll(lines + [Skipped]) == ReadAll(lines)
  {
    EarlierLinesRead(lines, Skipped, |lines|);
  }

  /** A line that is lost or spoilt takes no track's record, though the cursors move past it. */
  lemma LostCheckpointKeepsInv(r: Recording, fate: Fate)
    requires Inv(r) && fate != Intact
    ensures Inv(Next(r, WriteCheckpoint(fate)))
  {
    var after := Next(r, WriteCheckpoint(fate));
    forall i | 0 <= i < |r.tracks|
      ensures TrackSane(after.tracks[i]) && OnRecord(after.tracks[i]) == OnRecord(r.tracks[i])
    {
      LosingKeepsRecord(r.tracks[i]);
    }
    if fate == Torn {
      SkippedLineReadsNothing(r.manifest);
    } else {
      assert Fatal in after.manifest;
    }
  }

  lemma WrittenCheckpointReads(r: Recording)
    requires Inv(r) && Fatal !in r.manifest
    ensures var after := Next(r, WriteCheckpoint(Intact));
            TracksSane(after.tracks) && ReadAll(after.manifest).Ok? && ReadsBack(ReadAll(after.manifest).value, after.tracks)
  {
    var entries, table := Entries(r.tracks), ReadAll(r.manifest).value;
    ReadOneMore(r.manifest, Checkpoint(entries));
    RecordsAreRead(table, r.tracks);
    EntriesRead(table, entries, Records(r.tracks), |entries|);
    ReadTracksReadBack(ReadEntries(table, entries, |entries|), r.tracks);
  }

  lemma CheckpointKeepsTracksSane(tracks: seq<Track>)
    requires TracksSane(tracks)
    ensures TracksSane(AllCheckpointed(tracks, true))
  {
    forall i | 0 <= i < |tracks| ensures TrackSane(Checkpointed(tracks[i], true)) {
      CheckpointExtendsRecord(tracks[i]);
    }
  }

  lemma WrittenCheckpointKeepsInv(r: Recording)
    requires Inv(r)
    ensures Inv(Next(r, WriteCheckpoint(Intact)))
  {
    if Fatal in r.manifest {
      CheckpointKeepsTracksSane(r.tracks);
      assert Fatal in Next(r, WriteCheckpoint(Intact)).manifest;
    } else {
      WrittenCheckpointReads(r);
    }
  }

  lemma OtherLineKeepsInv(r: Recording, fate: Fate)
    requires Inv(r)
    ensures Inv(Next(r, WriteOther(fate)))
  {
    if fate == Spoilt {
      assert Fatal in Next(r, WriteOther(fate)).manifest;
    } else {
      SkippedLineReadsNothing(r.manifest);
    }
  }

  lemma NextKeepsInv(r: Recording, step: Step)
    requires Inv(r)
    ensures Inv(Next(r, step))
  {
    match step {
      case Grow(i, anchors, counters) =>
        if i < |r.tracks| && KeepsTicks(r.tracks[i].counters, counters) {
          GrowingKeepsRecord(r.tracks[i], anchors, counters);
        }
      case WriteCheckpoint(fate) =>
        if fate == Intact {
          WrittenCheckpointKeepsInv(r);
        } else {
          LostCheckpointKeepsInv(r, fate);
        }
      case WriteOther(fate) => OtherLineKeepsInv(r, fate);
    }
  }

  lemma {:induction false} RunKeepsInv(r: Recording, steps: seq<Step>)
    requires Inv(r)
    ensures Inv(Run(r, steps))
    decreases |steps|
  {
    if steps != [] {
      NextKeepsInv(r, steps[0]);
      RunKeepsInv(Next(r, steps[0]), steps[1..]);
    }
  }

  // ---------------------------------------------------------------------------------------
  // Main results
  // ---------------------------------------------------------------------------------------

  /** A recording before its first step: nothing on record, cursors at zero. */
  ghost predicate Starts(r: Recording) {
    && r.manifest == []
    && (forall i :: 0 <= i < |r.tracks| ==> r.tracks[i].cursor == 0 && r.tracks[i].saved.None?)
    && (forall i, j :: 0 <= i < j < |r.tracks| ==> r.tracks[i].source != r.tracks[j].source)
  }

  /** A step that leaves a line no reader gets past: too long, or torn within a character. */
  predicate Spoils(step: Step) {
    step == WriteCheckpoint(Spoilt) || step == WriteOther(Spoilt)
  }

  ghost predicate NothingSpoilt(steps: seq<Step>) {
    forall i :: 0 <= i < |steps| ==> !Spoils(steps[i])
  }

  lemma {:induction false} FatalLinesAreTheSpoilt(r: Recording, steps: seq<Step>)
    ensures Fatal !in Run(r, steps).manifest <==> Fatal !in r.manifest && NothingSpoilt(steps)
    decreases |steps|
  {
    if steps != [] {
      var after := Next(r, steps[0]);
      assert Fatal !in after.manifest <==> Fatal !in r.manifest && !Spoils(steps[0]);
      FatalLinesAreTheSpoilt(after, steps[1..]);
      assert NothingSpoilt(steps) <==> !Spoils(steps[0]) && NothingSpoilt(steps[1..]) by {
        assert forall i :: 1 <= i < |steps| ==> steps[i] == steps[1..][i - 1];
      }
    }
  }

  /**
   The manifest reads precisely if no line was spoilt; one spoilt line loses every checkpoint. Then,
   whatever was torn or lost, the anchors read back for a track are some of its live anchors, in order,
   none twice; and the counters are those of its last intact checkpoint.
   */
  lemma RecordIsASubsequence(r: Recording, steps: seq<Step>, i: nat)
    requires Starts(r) && i < |r.tracks|
    ensures var after := Run(r, steps);
            && |after.tracks| == |r.tracks|
            && (ReadAll(after.manifest).Ok? <==> NothingSpoilt(steps))
            && var t, read := after.tracks[i], SoFar(Recovery(after.manifest), after.tracks[i].source);
               && TrackSane(t)
               && read == (if NothingSpoilt(steps) then OnRecord(t) else NOTHING)
               && (NothingSpoilt(steps) ==>
                     && |read.anchors| == |KeptBefore(t)|
                     && (forall k :: 0 <= k < |read.anchors| ==> read.anchors[k] == t.anchors[KeptBefore(t)[k]]))
  {
    RunKeepsInv(r, steps);
    RunKeepsTrackCount(r, steps);
    FatalLinesAreTheSpoilt(r, steps);
    ReadAllExactlyWithoutFatal(Run(r, steps).manifest);
  }

  /** The counters read back are those saved; a tick that was never read is none. */
  ghost predicate CountersRead(read: Recovered, c: Counters) {
    && read.samples == c.samples && read.dropped == c.dropped && read.discontinuities == c.discontinuities
    && read.qpcFirst == (if c.qpcFirst > 0 then Some(c.qpcFirst) else None)
    && read.qpcLast == (if c.qpcLast > 0 then Some(c.qpcLast) else None)
  }

  lemma RecordHasTheSavedCounters(t: Track)
    requires TrackSane(t) && t.saved.Some?
    ensures CountersRead(OnRecord(t), t.saved.value.counters)
  {
  }

  lemma {:induction false} RunOneMore(r: Recording, steps: seq<Step>, step: Step)
    ensures Run(r, steps + [step]) == Next(Run(r, steps), step)
    decreases |steps|
  {
    if steps == [] {
      assert [step][1..] == [];
    } else {
      RunOneMore(Next(r, steps[0]), steps[1..], step);
      assert (steps + [step])[1..] == steps[1..] + [step];
    }
  }

  /**
   Right after an intact checkpoint, and as long as nothing was spoilt, a reader has the live counters of every track and,
   last of its anchors, all that are new since the checkpoint before.
   */
  lemma AnIntactCheckpointIsReadBack(r: Recording, steps: seq<Step>, i: nat)
    requires Starts(r) && i < |r.tracks| && NothingSpoilt(steps)
    ensures |Run(r, steps).tracks| == |r.tracks|
    ensures var before, t := Recovery(Run(r, steps).manifest), Run(r, steps).tracks[i];
            var read := SoFar(Recovery(Run(r, steps + [WriteCheckpoint(Intact)]).manifest), t.source);
            && CountersRead(read, t.counters)
            && t.cursor <= |t.anchors|
            && read.anchors == SoFar(before, t.source).anchors + t.anchors[t.cursor..]
  {
    var before := Run(r, steps);
    RecordIsASubsequence(r, steps, i);
    RunOneMore(r, steps, WriteCheckpoint(Intact));
    assert NothingSpoilt(steps + [WriteCheckpoint(Intact)]);
    RecordIsASubsequence(r, steps + [WriteCheckpoint(Intact)], i);
    CheckpointExtendsRecord(before.tracks[i]);
    RecordHasTheSavedCounters(Checkpointed(before.tracks[i], true));
    WrittenAnchorsAreTheNew(before.tracks[i]);
  }

  lemma WrittenAnchorsAreTheNew(t: Track)
    requires TrackSane(t)
    ensures TrackSane(Checkpointed(t, true))
    ensures OnRecord(Checkpointed(t, true)).anchors == OnRecord(t).anchors + t.anchors[t.cursor..]
  {
    CheckpointExtendsRecord(t);
    WrappedReads(From(t.anchors, t.cursor));
  }

  lemma {:induction false} RunKeepsTrackCount(r: Recording, steps: seq<Step>)
    ensures |Run(r, steps).tracks| == |r.tracks|
    decreases |steps|
  {
    if steps != [] {
      RunKeepsTrackCount(Next(r, steps[0]), steps[1..]);
    }
  }

  /** No checkpoint lost so far: what is on record of a track is everything up to its cursor. */
  ghost predicate Complete(t: Track) {
    KeptBefore(t) == Range(0, t.cursor) && t.cursor <= |t.anchors|
  }

  ghost predicate NothingLost(steps: seq<Step>) {
    forall i :: 0 <= i < |steps| ==> steps[i].WriteCheckpoint? ==> steps[i].fate == Intact
  }

  lemma RangeSplits(low: nat, middle: nat, high: nat)
    requires low <= middle <= high
    ensures Range(low, middle) + Range(middle, high) == Range(low, high)
  {
  }

  lemma NextKeepsComplete(r: Recording, step: Step, i: nat)
    requires i < |r.tracks| && Complete(r.tracks[i]) && (step.WriteCheckpoint? ==> step.fate == Intact)
    ensures Complete(Next(r, step).tracks[i])
  {
    if step.WriteCheckpoint? {
      RangeSplits(0, r.tracks[i].cursor, |r.tracks[i].anchors|);
    }
  }

  lemma {:induction false} RunKeepsComplete(r: Recording, steps: seq<Step>, i: nat)
    requires i < |r.tracks| && Complete(r.tracks[i]) && NothingLost(steps)
    ensures i < |Run(r, steps).tracks| && Complete(Run(r, steps).tracks[i])
    decreases |steps|
  {
    if steps != [] {
      NextKeepsComplete(r, steps[0], i);
      RunKeepsComplete(Next(r, steps[0]), steps[1..], i);
    }
  }

  /**
   With every checkpoint intact the anchors read back are exactly the live ones up to the cursor,
   unless another line was spoilt.
   */
  lemma IntactLogReadsTheLivePrefix(r: Recording, steps: seq<Step>, i: nat)
    requires Starts(r) && i < |r.tracks| && NothingLost(steps)
    ensures var after := Run(r, steps);
            && i < |after.tracks|
            && (ReadAll(after.manifest).Ok? <==> NothingSpoilt(steps))
            && var t := after.tracks[i];
               && t.cursor <= |t.anchors|
               && SoFar(Recovery(after.manifest), t.source).anchors
                  == if NothingSpoilt(steps) then t.anchors[..t.cursor] else []
  {
    RecordIsASubsequence(r, steps, i);
    RunKeepsComplete(r, steps, i);
  }

  /** One checkpoint, then another line. */
  function OneCheckpoint(anchor: ClockAnchor, counters: Counters, fate: Fate): seq<Step> {
    [Grow(0, [anchor], counters), WriteCheckpoint(Intact), WriteOther(fate)]
  }

  lemma OneCheckpointTakesTheAnchor(r: Recording, anchor: ClockAnchor, counters: Counters, fate: Fate)
    requires |r.tracks| == 1 && r.tracks[0] == Track(r.tracks[0].source, Counters(0, 0, 0, 0, 0), [], 0, None)
    ensures var after := Run(r, OneCheckpoint(anchor, counters, fate)).tracks;
            && |after| == 1
            && after[0].source == r.tracks[0].source
            && after[0].anchors == [anchor]
            && after[0].cursor == 1
  {
    var steps := OneCheckpoint(anchor, counters, fate);
    var grown := Next(r, steps[0]);
    assert grown.tracks[0].anchors == [anchor];
    var checkpointed := Next(grown, steps[1]);
    assert steps[1..][1..] == [steps[2]] && [steps[2]][1..] == [];
    assert Run(r, steps) == Run(grown, steps[1..]) == Run(checkpointed, [steps[2]]) == Next(checkpointed, steps[2]);
  }

  /** A marker that is only torn costs nothing; one torn within a character loses a checkpoint that was on disk intact. */
  lemma ASpoiltMarkerLosesTheRecord(source: Source, anchor: ClockAnchor, counters: Counters)
    ensures var r := Recording([Track(source, Counters(0, 0, 0, 0, 0), [], 0, None)], []);
            && Starts(r)
            && SoFar(Recovery(Run(r, OneCheckpoint(anchor, counters, Torn)).manifest), source).anchors == [anchor]
            && SoFar(Recovery(Run(r, OneCheckpoint(anchor, counters, Spoilt)).manifest), source).anchors == []
  {
    var r := Recording([Track(source, Counters(0, 0, 0, 0, 0), [], 0, None)], []);
    OneCheckpointTakesTheAnchor(r, anchor, counters, Torn);
    IntactLogReadsTheLivePrefix(r, OneCheckpoint(anchor, counters, Torn), 0);
    OneCheckpointTakesTheAnchor(r, anchor, counters, Spoilt);
    assert Spoils(OneCheckpoint(anchor, counters, Spoilt)[2]);
    IntactLogReadsTheLivePrefix(r, OneCheckpoint(anchor, counters, Spoilt), 0);
  }

  // ---------------------------------------------------------------------------------------
  // The monitor and the reader
  // ---------------------------------------------------------------------------------------

  class Monitor {
    var tracks: seq<Track>
    var manifest: seq<Line>

    ghost predicate Valid()
      reads this
    {
      Inv(Recording(tracks, manifest))
    }

    constructor (tracks: seq<Track>)
      requires Starts(Recording(tracks, []))
      ensures Valid() && this.tracks == tracks && manifest == []
    {
      this.tracks, manifest := tracks, [];
    }

    /** Entries are built track by track, and each cursor moves as its entry is built. */
    method BuildEntries(written: bool) returns (entries: seq<Entry>)
      modifies `tracks
      ensures entries == Entries(old(tracks)) && tracks == AllCheckpointed(old(tracks), written)
    {
      entries := [];
      for index := 0 to |tracks|
        invariant |tracks| == |old(tracks)| && |entries| == index
        invariant forall i :: 0 <= i < index ==> entries[i] == EntryOf(old(tracks)[i])
        invariant forall i :: 0 <= i < |tracks| ==>
                    tracks[i] == if i < index then Checkpointed(old(tracks)[i], written) else old(tracks)[i]
      {
        var track := tracks[index];
        var newAnchors := From(track.anchors, track.cursor);
        entries := entries + [Entry(Some(track.source), Some(track.counters.samples), Some(track.counters.dropped),
                                    Some(track.counters.discontinuities), Some(track.counters.qpcFirst),
                                    Some(track.counters.qpcLast), Wrapped(newAnchors))];
        tracks := tracks[index := Checkpointed(track, written)];
      }
    }

    method TakeCheckpoint(fate: Fate)
      requires Valid()
      modifies this
      ensures Valid()
      ensures Recording(tracks, manifest) == Next(old(Recording(tracks, manifest)), WriteCheckpoint(fate))
    {
      NextKeepsInv(Recording(tracks, manifest), WriteCheckpoint(fate));
      var entries := BuildEntries(fate == Intact);
      manifest := manifest + [LineOf(Checkpoint(entries), fate)];
    }
  }

  method ReadAnchors(known: seq<ClockAnchor>, anchors: seq<Option<ClockAnchor>>) returns (read: seq<ClockAnchor>)
    ensures read == known + Readable(anchors)
  {
    read := known;
    for k := 0 to |anchors|
      invariant read == known + Readable(anchors[..k])
    {
      assert anchors[..k + 1][..k] == anchors[..k];
      if anchors[k].Some? {
        read := read + [anchors[k].value];
      }
    }
    assert anchors[..|anchors|] == anchors;
  }

  method ReadTrack(known: Recovered, track: Entry) returns (checkpoint: Recovered)
    ensures checkpoint == ReadEntry(known, track)
  {
    checkpoint := known;
    if track.samples.Some? { checkpoint := checkpoint.(samples := track.samples.value); }
    if track.dropped.Some? { checkpoint := checkpoint.(dropped := track.dropped.value); }
    if track.discontinuities.Some? { checkpoint := checkpoint.(discontinuities := track.discontinuities.value); }
    if track.qpcFirst.Some? && track.qpcFirst.value > 0 { checkpoint := checkpoint.(qpcFirst := track.qpcFirst); }
    if track.qpcLast.Some? && track.qpcLast.value > 0 { checkpoint := checkpoint.(qpcLast := track.qpcLast); }
    var anchors := ReadAnchors(known.anchors, track.anchors);
    checkpoint := checkpoint.(anchors := anchors);
  }

  method ReadTracks(table: map<Source, Recovered>, entries: seq<Entry>) returns (checkpoints: map<Source, Recovered>)
    ensures checkpoints == ReadEntries(table, entries, |entries|)
  {
    checkpoints := table;
    for i := 0 to |entries|
      invariant checkpoints == ReadEntries(table, entries, i)
    {
      var source := entries[i].source;
      if source.Some? {
        var checkpoint := ReadTrack(SoFar(checkpoints, source.value), entries[i]);
        checkpoints := checkpoints[source.value := checkpoint];
      }
    }
  }

  lemma {:induction false} FatalLineEndsReading(lines: seq<Line>, k: nat, count: nat)
    requires k <= count <= |lines| && ReadLines(lines, k).Err?
    ensures ReadLines(lines, count) == ReadLines(lines, k)
    decreases count
  {
    if k < count {
      FatalLineEndsReading(lines, k, count - 1);
    }
  }

  method ReadRecoveryCheckpoints(lines: seq<Line>) returns (r: Result<map<Source, Recovered>, ReadError>)
    ensures r == ReadAll(lines)
    ensures r.Ok? <==> Fatal !in lines
  {
    var checkpoints := map[];
    for i := 0 to |lines|
      invariant ReadLines(lines, i) == Ok(checkpoints)
      invariant forall k :: 0 <= k < i ==> lines[k] != Fatal
    {
      match lines[i] {
        case Checkpoint(entries) => checkpoints := ReadTracks(checkpoints, entries);
        case Skipped =>
        case Fatal =>
          FatalLineEndsReading(lines, i + 1, |lines|);
          return Err(Unreadable);
      }
    }
    return Ok(checkpoints);
  }
}
