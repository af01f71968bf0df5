/**
 A batch of visual frames and the model's answer (src-tauri/src/local_agent.rs:
 validate_visual_frames and parse_visual_speaker_response): every answer is checked, cleaned and
 put back in the order of the frames. The model may answer in any order, but for each frame exactly
 once; an answer for a frame that was not sent, or a second one for the same frame, rejects the
 whole response.
 */
module VisualObservations {
  import opened Wrappers
  import opened SpeakerNames
  import opened Ordering

  const MAX_FRAMES := 12
  const MAX_JPEG_BYTES := 2 * 1024 * 1024
  const MAX_BATCH_BYTES := 12 * 1024 * 1024
  const MAX_IDENTIFIER_CHARS := 256

  datatype Frame = Frame(index: nat, turn: string, speaker: string, atMs: int, jpegBytes: nat, looksLikeJpeg: bool)

  datatype Observation = Observation(frame: nat, name: Option<string>, system: Option<string>, confidence: string, evidence: string)

  datatype Rejection = InvalidResponse

  // ---------------------------------------------------------------------------------------
  // Frames
  // ---------------------------------------------------------------------------------------

  predicate ValidFrame(f: Frame) {
    && Trim(f.turn) != "" && |f.turn| <= MAX_IDENTIFIER_CHARS
    && Trim(f.speaker) != "" && |f.speaker| <= MAX_IDENTIFIER_CHARS
    && f.atMs >= 0
    && f.jpegBytes <= MAX_JPEG_BYTES && f.looksLikeJpeg
  }

  function TotalBytes(frames: seq<Frame>): nat {
    if frames == [] then 0 else TotalBytes(frames[..|frames| - 1]) + frames[|frames| - 1].jpegBytes
  }

  ghost predicate UniqueFrames(frames: seq<Frame>) {
    forall i, j :: 0 <= i < j < |frames| ==> frames[i].index != frames[j].index
  }

  ghost predicate ValidFrames(frames: seq<Frame>) {
    && |frames| <= MAX_FRAMES
    && UniqueFrames(frames)
    && (forall i :: 0 <= i < |frames| ==> ValidFrame(frames[i]))
    && TotalBytes(frames) <= MAX_BATCH_BYTES
  }

  lemma {:induction false} TotalGrows(frames: seq<Frame>, count: nat)
    requires count <= |frames|
    ensures TotalBytes(frames[..count]) <= TotalBytes(frames)
    decreases |frames|
  {
    if count < |frames| {
      TotalGrows(frames[..|frames| - 1], count);
      assert frames[..|frames| - 1][..count] == frames[..count];
    } else {
      assert frames[..count] == frames;
    }
  }

  function Indices(frames: seq<Frame>): set<nat> {
    set i | 0 <= i < |frames| :: frames[i].index
  }

  lemma IndicesOneMore(frames: seq<Frame>, k: nat)
    requires k < |frames|
    ensures Indices(frames[..k + 1]) == Indices(frames[..k]) + {frames[k].index}
    ensures UniqueFrames(frames[..k]) ==>
              (UniqueFrames(frames[..k + 1]) <==> frames[k].index !in Indices(frames[..k]))
    ensures UniqueFrames(frames) ==> UniqueFrames(frames[..k + 1])
  {
    var shorter, longer := frames[..k], frames[..k + 1];
    assert longer == shorter + [frames[k]];
    if frames[k].index in Indices(shorter) {
      var i :| 0 <= i < k && shorter[i].index == frames[k].index;
      assert longer[i].index == longer[k].index;
    }
  }

  lemma TotalOneMore(frames: seq<Frame>, k: nat)
    requires k < |frames|
    ensures TotalBytes(frames[..k + 1]) == TotalBytes(frames[..k]) + frames[k].jpegBytes
  {
    assert frames[..k + 1][..k] == frames[..k];
  }

  ghost predicate ValidSoFar(frames: seq<Frame>, count: nat)
    requires count <= |frames|
  {
    && UniqueFrames(frames[..count])
    && (forall k :: 0 <= k < count ==> ValidFrame(frames[k]))
    && TotalBytes(frames[..count]) <= MAX_BATCH_BYTES
  }

  lemma ValidOneMore(frames: seq<Frame>, k: nat)
    requires k < |frames| && ValidSoFar(frames, k)
    ensures ValidSoFar(frames, k + 1)
       <==> && frames[k].index !in Indices(frames[..k]) && ValidFrame(frames[k])
            && TotalBytes(frames[..k]) + frames[k].jpegBytes <= MAX_BATCH_BYTES
  {
    IndicesOneMore(frames, k);
    TotalOneMore(frames, k);
  }

  /** A valid batch is valid as far as one looks. */
  lemma ValidAllAlong(frames: seq<Frame>, count: nat)
    requires count <= |frames| && ValidFrames(frames)
    ensures ValidSoFar(frames, count)
  {
    TotalGrows(frames, count);
    if count > 0 {
      IndicesOneMore(frames, count - 1);
    }
  }

  method ValidateVisualFrames(frames: seq<Frame>) returns (valid: bool)
    ensures valid <==> ValidFrames(frames)
  {
    if |frames| > MAX_FRAMES {
      return false;
    }
    var seen: set<nat> := {};
    var total := 0;
    for i := 0 to |frames|
      invariant seen == Indices(frames[..i]) && total == TotalBytes(frames[..i])
      invariant ValidSoFar(frames, i)
    {
      ValidOneMore(frames, i);
      if ValidFrames(frames) {
        ValidAllAlong(frames, i + 1);
      }
      if frames[i].index in seen || !ValidFrame(frames[i]) {
        return false;
      }
      IndicesOneMore(frames, i);
      TotalOneMore(frames, i);
      total := total + frames[i].jpegBytes;
      seen := seen + {frames[i].index};
      if total > MAX_BATCH_BYTES {
        return false;
      }
    }
    assert frames[..|frames|] == frames;
    return true;
  }

  // ---------------------------------------------------------------------------------------
  // One observation
  // ---------------------------------------------------------------------------------------

  function Spaced(text: string, word: string): string {
    text + " " + word
  }

  /** One character more: after a space, if a word ended before it. */
  function Extended(text: string, gap: bool, last: char): string {
    if gap && text != "" then Spaced(text, [last]) else text + [last]
  }

  /** Words separated by single spaces. */
  function Collapse(s: string): string {
    if s == "" then ""
    else
      var init, last := s[..|s| - 1], s[|s| - 1];
      if IsSpace(last) then Collapse(init)
      else Extended(Collapse(init), init != "" && IsSpace(init[|init| - 1]), last)
  }

  function Bounded(value: string, maximum: nat): Result<string, Rejection> {
    if |value| > maximum || Collapse(value) == "" then Err(InvalidResponse) else Ok(Collapse(value))
  }

  function BoundedOptional(value: Option<string>, maximum: nat): Result<Option<string>, Rejection> {
    if value.None? then Ok(None)
    else
      var bounded := Bounded(value.value, maximum);
      if bounded.Err? then Err(bounded.error) else Ok(Some(bounded.value))
  }

  function LowerAscii(c: char): char {
    if 'A' <= c <= 'Z' then (c as int + 32) as char else c
  }

  function ToLowerAscii(s: string): string {
    seq(|s|, i requires 0 <= i < |s| => LowerAscii(s[i]))
  }

  function Clean(o: Observation): Result<Observation, Rejection> {
    var name, system, evidence := BoundedOptional(o.name, 120), BoundedOptional(o.system, 80), Bounded(o.evidence, 240);
    if name.Err? || system.Err? || evidence.Err? then Err(InvalidResponse)
    else if name.value.Some? && ToLowerAscii(name.value.value) == "unknown" then Err(InvalidResponse)
    else if !(|| (o.confidence == "Unknown" && name.value.None?)
              || ((o.confidence == "Review" || o.confidence == "high") && name.value.Some?)) then Err(InvalidResponse)
    else Ok(Observation(o.frame, name.value, system.value, o.confidence, evidence.value))
  }

  // ---------------------------------------------------------------------------------------
  // The whole response
  // ---------------------------------------------------------------------------------------

  type Cleaner = Observation -> Result<Observation, Rejection>

  const CLEAN: Cleaner := (o: Observation) => Clean(o)

  ghost predicate KeepsFrame(clean: Cleaner) {
    forall o :: clean(o).Ok? ==> clean(o).value.frame == o.frame
  }

  lemma CleaningKeepsFrame()
    ensures KeepsFrame(CLEAN)
  {
  }

  datatype Checked = Checked(cleaned: seq<Observation>, seen: set<nat>)

  function CheckOne(clean: Cleaner, c: Checked, o: Observation, expected: set<nat>): Result<Checked, Rejection> {
    if o.frame !in expected || o.frame in c.seen || clean(o).Err? then Err(InvalidResponse)
    else Ok(Checked(c.cleaned + [clean(o).value], c.seen + {o.frame}))
  }

  function Check(clean: Cleaner, observations: seq<Observation>, expected: set<nat>, count: nat): Result<Checked, Rejection>
    requires count <= |observations|
  {
    if count == 0 then Ok(Checked([], {}))
    else
      var before := Check(clean, observations, expected, count - 1);
      if before.Err? then before else CheckOne(clean, before.value, observations[count - 1], expected)
  }

  /** Where a frame index stands among the frames; past them if it is not there. */
  function Position(frames: seq<Frame>, index: nat): (k: nat)
    ensures k <= |frames|
    ensures k < |frames| ==> frames[k].index == index
    ensures forall j :: 0 <= j < k ==> frames[j].index != index
  {
    if frames == [] then 0 else if frames[0].index == index then 0 else 1 + Position(frames[1..], index)
  }

  function ByFrame(frames: seq<Frame>): (Observation, Observation) -> bool {
    (a: Observation, b: Observation) => Position(frames, a.frame) <= Position(frames, b.frame)
  }

  function ParseWith(clean: Cleaner, observations: seq<Observation>, frames: seq<Frame>): Result<seq<Observation>, Rejection> {
    if |observations| != |frames| then Err(InvalidResponse)
    else
      var checked := Check(clean, observations, Indices(frames), |observations|);
      if checked.Err? then Err(checked.error)
      else if checked.value.seen != Indices(frames) then Err(InvalidResponse)
      else Ok(Sort(checked.value.cleaned, ByFrame(frames)))
  }

  method ParseVisualSpeakerResponse(observations: seq<Observation>, frames: seq<Frame>)
    returns (r: Result<seq<Observation>, Rejection>)
    ensures r == ParseWith(CLEAN, observations, frames)
  {
    if |observations| != |frames| {
      return Err(InvalidResponse);
    }
    var expected := Indices(frames);
    var cleaned, seen := [], {};
    for i := 0 to |observations|
      invariant Check(CLEAN, observations, expected, i) == Ok(Checked(cleaned, seen))
    {
      var o := observations[i];
      if o.frame !in expected || o.frame in seen || CLEAN(o).Err? {
        assert Check(CLEAN, observations, expected, i + 1) == Err(InvalidResponse);
        FailedCheckStaysFailed(CLEAN, observations, expected, i + 1, |observations|);
        return Err(InvalidResponse);
      }
      cleaned, seen := cleaned + [CLEAN(o).value], seen + {o.frame};
    }
    if seen != expected {
      return Err(InvalidResponse);
    }
    return Ok(Sort(cleaned, ByFrame(frames)));
  }

  lemma {:induction false} FailedCheckStaysFailed(clean: Cleaner, observations: seq<Observation>, expected: set<nat>, k: nat, count: nat)
    requires k <= count <= |observations| && Check(clean, observations, expected, k).Err?
    ensures Check(clean, observations, expected, count) == Check(clean, observations, expected, k)
    decreases count
  {
    if k < count {
      FailedCheckStaysFailed(clean, observations, expected, k, count - 1);
    }
  }

  // ---------------------------------------------------------------------------------------
  // Which responses are accepted
  // ---------------------------------------------------------------------------------------

  ghost predicate SameFrame(a: Observation, b: Observation) {
    a.frame == b.frame
  }

  /** One acceptable observation for each frame, in any order. */
  ghost predicate Acceptable(clean: Cleaner, observations: seq<Observation>, frames: seq<Frame>) {
    && |observations| == |frames|
    && (forall o :: o in observations ==> o.frame in Indices(frames) && clean(o).Ok?)
    && (forall i, j :: 0 <= i < j < |observations| ==> !SameFrame(observations[i], observations[j]))
  }

  ghost function FramesOf(observations: seq<Observation>, count: nat): set<nat>
    requires count <= |observations|
  {
    set i | 0 <= i < count :: observations[i].frame
  }

  ghost predicate CheckedWell(clean: Cleaner, observations: seq<Observation>, expected: set<nat>, count: nat, c: Checked)
    requires count <= |observations|
  {
    && |c.cleaned| == |c.seen| == count
    && c.seen == FramesOf(observations, count) <= expected
    && (forall i :: 0 <= i < count ==> clean(observations[i]) == Ok(c.cleaned[i]))
    && (forall i, j :: 0 <= i < j < count ==> !SameFrame(observations[i], observations[j]))
  }

  lemma FramesOneMore(observations: seq<Observation>, count: nat)
    requires count < |observations|
    ensures FramesOf(observations, count + 1) == FramesOf(observations, count) + {observations[count].frame}
    ensures forall i :: 0 <= i < count ==> observations[i].frame in FramesOf(observations, count)
  {
  }

  lemma NewFrameDiffers(observations: seq<Observation>, count: nat)
    requires count < |observations| && observations[count].frame !in FramesOf(observations, count)
    requires forall i, j :: 0 <= i < j < count ==> !SameFrame(observations[i], observations[j])
    ensures forall i, j :: 0 <= i < j < count + 1 ==> !SameFrame(observations[i], observations[j])
  {
    FramesOneMore(observations, count);
  }

  lemma CleanedOneMore(clean: Cleaner, observations: seq<Observation>, count: nat, cleaned: seq<Observation>, last: Observation)
    requires count < |observations| && |cleaned| == count && clean(observations[count]) == Ok(last)
    requires forall i :: 0 <= i < count ==> clean(observations[i]) == Ok(cleaned[i])
    ensures forall i :: 0 <= i < count + 1 ==> clean(observations[i]) == Ok((cleaned + [last])[i])
  {
  }

  lemma CheckOneChecks(clean: Cleaner, observations: seq<Observation>, expected: set<nat>, count: nat, c: Checked)
    requires count < |observations| && CheckedWell(clean, observations, expected, count, c)
    requires CheckOne(clean, c, observations[count], expected).Ok?
    ensures CheckedWell(clean, observations, expected, count + 1, CheckOne(clean, c, observations[count], expected).value)
  {
    var o := observations[count];
    FramesOneMore(observations, count);
    NewFrameDiffers(observations, count);
    CleanedOneMore(clean, observations, count, c.cleaned, clean(o).value);
    assert o.frame !in c.seen;
    assert |c.seen + {o.frame}| == count + 1;
  }

  lemma {:induction false} CheckChecks(clean: Cleaner, observations: seq<Observation>, expected: set<nat>, count: nat)
    requires count <= |observations| && Check(clean, observations, expected, count).Ok?
    ensures CheckedWell(clean, observations, expected, count, Check(clean, observations, expected, count).value)
  {
    if count > 0 {
      CheckChecks(clean, observations, expected, count - 1);
      CheckOneChecks(clean, observations, expected, count - 1, Check(clean, observations, expected, count - 1).value);
    }
  }

  lemma NotSeenYet(clean: Cleaner, observations: seq<Observation>, expected: set<nat>, k: nat)
    requires k < |observations| && Check(clean, observations, expected, k).Ok?
    requires forall i :: 0 <= i < k ==> !SameFrame(observations[i], observations[k])
    ensures observations[k].frame !in Check(clean, observations, expected, k).value.seen
  {
    CheckChecks(clean, observations, expected, k);
  }

  lemma {:induction false} AcceptableIsChecked(clean: Cleaner, observations: seq<Observation>, frames: seq<Frame>, count: nat)
    requires Acceptable(clean, observations, frames) && count <= |observations|
    ensures Check(clean, observations, Indices(frames), count).Ok?
  {
    if count > 0 {
      AcceptableIsChecked(clean, observations, frames, count - 1);
      NotSeenYet(clean, observations, Indices(frames), count - 1);
      assert observations[count - 1] in observations;
    }
  }

  lemma {:induction false} IndicesCount(frames: seq<Frame>)
    requires UniqueFrames(frames)
    ensures |Indices(frames)| == |frames|
  {
    if frames == [] {
      assert Indices(frames) == {};
    } else {
      var rest, last := frames[..|frames| - 1], frames[|frames| - 1];
      IndicesCount(rest);
      assert Indices(frames) == Indices(rest) + {last.index} by {
        assert frames == rest + [last];
      }
    }
  }

  lemma SubsetOfSameSizeIsWhole(small: set<nat>, whole: set<nat>)
    requires small <= whole && |small| == |whole|
    ensures small == whole
  {
    assert whole == small + (whole - small);
  }

  /** A response is accepted exactly if it has one acceptable observation for each frame. */
  lemma ParseAcceptsExactly(clean: Cleaner, observations: seq<Observation>, frames: seq<Frame>)
    requires UniqueFrames(frames)
    ensures ParseWith(clean, observations, frames).Ok? <==> Acceptable(clean, observations, frames)
  {
    var expected := Indices(frames);
    if ParseWith(clean, observations, frames).Ok? {
      CheckChecks(clean, observations, expected, |observations|);
    }
    if Acceptable(clean, observations, frames) {
      AcceptableIsChecked(clean, observations, frames, |observations|);
      CheckChecks(clean, observations, expected, |observations|);
      IndicesCount(frames);
      SubsetOfSameSizeIsWhole(Check(clean, observations, expected, |observations|).value.seen, expected);
    }
  }

  // ---------------------------------------------------------------------------------------
  // Alignment and order
  // ---------------------------------------------------------------------------------------

  /** Increasing numbers below a bound that are as many as the bound are 0, 1, 2, ... */
  lemma {:induction false} IncreasingFillsUp(s: seq<nat>, bound: nat, k: nat)
    requires k < |s| <= bound && |s| == bound
    requires forall i :: 0 <= i < |s| ==> s[i] < bound
    requires forall i, j :: 0 <= i < j < |s| ==> s[i] < s[j]
    ensures s[k] == k
  {
    AtLeast(s, k);
    AtMost(s, bound, k);
  }

  lemma {:induction false} AtLeast(s: seq<nat>, k: nat)
    requires k < |s| && forall i, j :: 0 <= i < j < |s| ==> s[i] < s[j]
    ensures s[k] >= k
  {
    if k > 0 {
      AtLeast(s, k - 1);
    }
  }

  lemma {:induction false} AtMost(s: seq<nat>, bound: nat, k: nat)
    requires k < |s| && (forall i :: 0 <= i < |s| ==> s[i] < bound)
    requires forall i, j :: 0 <= i < j < |s| ==> s[i] < s[j]
    ensures s[k] + (|s| - k) <= bound
    decreases |s| - k
  {
    if k + 1 < |s| {
      AtMost(s, bound, k + 1);
    }
  }

  ghost predicate Aligned(batch: seq<Observation>, frames: seq<Frame>) {
    |batch| == |frames| && forall k :: 0 <= k < |frames| ==> batch[k].frame == frames[k].index
  }

  const CLASH := (a: Observation, b: Observation) => a.frame == b.frame

  lemma ByFrameIsTotal(frames: seq<Frame>)
    ensures TotalOrder(ByFrame(frames))
  {
  }

  lemma IndexHasPosition(frames: seq<Frame>, index: nat)
    requires index in Indices(frames)
    ensures Position(frames, index) < |frames|
  {
  }

  ghost function Positions(batch: seq<Observation>, frames: seq<Frame>): (positions: seq<nat>)
    ensures |positions| == |batch| && forall i :: 0 <= i < |batch| ==> positions[i] == Position(frames, batch[i].frame)
  {
    seq(|batch|, i requires 0 <= i < |batch| => Position(frames, batch[i].frame))
  }

  lemma SortedPositionsIncrease(batch: seq<Observation>, frames: seq<Frame>)
    requires Sorted(batch, ByFrame(frames)) && Apart(batch, CLASH)
    requires forall k :: 0 <= k < |batch| ==> Position(frames, batch[k].frame) < |frames|
    ensures var positions := Positions(batch, frames);
            forall i, j :: 0 <= i < j < |positions| ==> positions[i] < positions[j]
  {
    var positions := Positions(batch, frames);
    forall i, j | 0 <= i < j < |positions| ensures positions[i] < positions[j] {
      assert ByFrame(frames)(batch[i], batch[j]) && !CLASH(batch[i], batch[j]);
    }
  }

  lemma SortedBatchAligns(batch: seq<Observation>, frames: seq<Frame>)
    requires |batch| == |frames| && Sorted(batch, ByFrame(frames)) && Apart(batch, CLASH)
    requires forall k :: 0 <= k < |batch| ==> Position(frames, batch[k].frame) < |frames|
    ensures Aligned(batch, frames)
  {
    SortedPositionsIncrease(batch, frames);
    forall k | 0 <= k < |frames| ensures batch[k].frame == frames[k].index {
      IncreasingFillsUp(Positions(batch, frames), |frames|, k);
    }
  }

  /** Sorted by distinct positions, the observations stand where their frames stand. */
  lemma SortingAligns(cleaned: seq<Observation>, frames: seq<Frame>)
    requires |cleaned| == |frames| && Apart(cleaned, CLASH)
    requires forall o :: o in cleaned ==> o.frame in Indices(frames)
    ensures Aligned(Sort(cleaned, ByFrame(frames)), frames)
  {
    var batch := Sort(cleaned, ByFrame(frames));
    ByFrameIsTotal(frames);
    SortSorts(cleaned, ByFrame(frames));
    SortPermutes(cleaned, ByFrame(frames));
    SameElements(cleaned, batch);
    RearrangedStaysApart(cleaned, batch, CLASH);
    forall k | 0 <= k < |batch| ensures Position(frames, batch[k].frame) < |frames| {
      assert batch[k] in batch;
      IndexHasPosition(frames, batch[k].frame);
    }
    SortedBatchAligns(batch, frames);
  }

  lemma CleanedObservations(clean: Cleaner, observations: seq<Observation>, frames: seq<Frame>)
    requires KeepsFrame(clean)
    requires ParseWith(clean, observations, frames).Ok?
    ensures var cleaned := Check(clean, observations, Indices(frames), |observations|).value.cleaned;
            && |cleaned| == |frames| && Apart(cleaned, CLASH)
            && (forall o :: o in cleaned ==> o.frame in Indices(frames))
            && (forall o :: o in cleaned ==> exists raw :: raw in observations && clean(raw) == Ok(o))
  {
    CheckChecks(clean, observations, Indices(frames), |observations|);
    var cleaned := Check(clean, observations, Indices(frames), |observations|).value.cleaned;
    forall i, j | 0 <= i < j < |cleaned| ensures !CLASH(cleaned[i], cleaned[j]) {
      assert !SameFrame(observations[i], observations[j]);
    }
    forall o | o in cleaned
      ensures o.frame in Indices(frames) && exists raw :: raw in observations && clean(raw) == Ok(o)
    {
      var i :| 0 <= i < |cleaned| && cleaned[i] == o;
      assert observations[i] in observations && clean(observations[i]) == Ok(o);
    }
  }

  ghost predicate CleanOf(clean: Cleaner, observations: seq<Observation>, o: Observation) {
    exists raw :: raw in observations && clean(raw) == Ok(o)
  }

  /** The batch has one observation per frame, in the order of the frames, each a cleaned answer. */
  lemma BatchIsAligned(clean: Cleaner, observations: seq<Observation>, frames: seq<Frame>)
    requires KeepsFrame(clean)
    requires ParseWith(clean, observations, frames).Ok?
    ensures var batch := ParseWith(clean, observations, frames).value;
            Aligned(batch, frames) && forall k :: 0 <= k < |batch| ==> CleanOf(clean, observations, batch[k])
  {
    var cleaned := Check(clean, observations, Indices(frames), |observations|).value.cleaned;
    var batch := ParseWith(clean, observations, frames).value;
    CleanedObservations(clean, observations, frames);
    SortingAligns(cleaned, frames);
    SortPermutes(cleaned, ByFrame(frames));
    SameElements(cleaned, batch);
    forall k | 0 <= k < |batch| ensures CleanOf(clean, observations, batch[k]) {
      assert batch[k] in batch;
    }
  }

  lemma AcceptableInAnyOrder(clean: Cleaner, observations: seq<Observation>, reordered: seq<Observation>, frames: seq<Frame>)
    requires multiset(reordered) == multiset(observations) && Acceptable(clean, observations, frames)
    ensures Acceptable(clean, reordered, frames)
  {
    SameElements(observations, reordered);
    assert |multiset(observations)| == |observations| && |multiset(reordered)| == |reordered|;
    assert Apart(observations, CLASH);
    RearrangedStaysApart(observations, reordered, CLASH);
    forall i, j | 0 <= i < j < |reordered| ensures !SameFrame(reordered[i], reordered[j]) {
      assert !CLASH(reordered[i], reordered[j]);
    }
  }

  lemma AcceptablePlacesDiffer(clean: Cleaner, observations: seq<Observation>, frames: seq<Frame>, i: nat, j: nat)
    requires Acceptable(clean, observations, frames) && i < |observations| && j < |observations| && i != j
    ensures !SameFrame(observations[i], observations[j])
  {
    assert !SameFrame(observations[if i < j then i else j], observations[if i < j then j else i]);
  }

  /** In an acceptable response, the answer for a frame is determined by the frame. */
  lemma OneAnswerPerFrame(clean: Cleaner, observations: seq<Observation>, frames: seq<Frame>, a: Observation, b: Observation)
    requires KeepsFrame(clean)
    requires Acceptable(clean, observations, frames)
    requires CleanOf(clean, observations, a) && CleanOf(clean, observations, b) && a.frame == b.frame
    ensures a == b
  {
    var rawA :| rawA in observations && clean(rawA) == Ok(a);
    var rawB :| rawB in observations && clean(rawB) == Ok(b);
    assert rawA.frame == rawB.frame;
    var i :| 0 <= i < |observations| && observations[i] == rawA;
    var j :| 0 <= j < |observations| && observations[j] == rawB;
    if i != j {
      AcceptablePlacesDiffer(clean, observations, frames, i, j);
    }
  }

  lemma AcceptedAlike(clean: Cleaner, observations: seq<Observation>, reordered: seq<Observation>, frames: seq<Frame>)
    requires UniqueFrames(frames) && multiset(reordered) == multiset(observations)
    ensures ParseWith(clean, reordered, frames).Ok? <==> ParseWith(clean, observations, frames).Ok?
  {
    ParseAcceptsExactly(clean, observations, frames);
    ParseAcceptsExactly(clean, reordered, frames);
    if Acceptable(clean, reordered, frames) {
      AcceptableInAnyOrder(clean, reordered, observations, frames);
    }
    if Acceptable(clean, observations, frames) {
      AcceptableInAnyOrder(clean, observations, reordered, frames);
    }
  }

  lemma CleanOfReordered(clean: Cleaner, observations: seq<Observation>, reordered: seq<Observation>, o: Observation)
    requires multiset(reordered) == multiset(observations) && CleanOf(clean, reordered, o)
    ensures CleanOf(clean, observations, o)
  {
    SameElements(observations, reordered);
  }

  /** Any reordering of the model's answers gives the same batch, or the same refusal. */
  lemma ReorderingGivesTheSameBatch(clean: Cleaner, observations: seq<Observation>, reordered: seq<Observation>,
                                    frames: seq<Frame>)
    requires KeepsFrame(clean) && UniqueFrames(frames) && multiset(reordered) == multiset(observations)
    requires ParseWith(clean, observations, frames).Ok?
    ensures ParseWith(clean, reordered, frames) == ParseWith(clean, observations, frames)
  {
    AcceptedAlike(clean, observations, reordered, frames);
    ParseAcceptsExactly(clean, observations, frames);
    BatchIsAligned(clean, observations, frames);
    BatchIsAligned(clean, reordered, frames);
    var batch, other := ParseWith(clean, observations, frames).value, ParseWith(clean, reordered, frames).value;
    forall k | 0 <= k < |frames| ensures batch[k] == other[k] {
      CleanOfReordered(clean, observations, reordered, other[k]);
      OneAnswerPerFrame(clean, observations, frames, batch[k], other[k]);
    }
    assert batch == other;
  }

  /** The same for the cleaning that the host does. */
  lemma AnswersMayComeInAnyOrder(observations: seq<Observation>, reordered: seq<Observation>, frames: seq<Frame>)
    requires UniqueFrames(frames) && multiset(reordered) == multiset(observations)
    ensures ParseWith(CLEAN, reordered, frames).Ok? <==> ParseWith(CLEAN, observations, frames).Ok?
    ensures ParseWith(CLEAN, observations, frames).Ok? ==>
              && ParseWith(CLEAN, reordered, frames) == ParseWith(CLEAN, observations, frames)
              && Aligned(ParseWith(CLEAN, observations, frames).value, frames)
  {
    CleaningKeepsFrame();
    AcceptedAlike(CLEAN, observations, reordered, frames);
    if ParseWith(CLEAN, observations, frames).Ok? {
      ReorderingGivesTheSameBatch(CLEAN, observations, reordered, frames);
      BatchIsAligned(CLEAN, observations, frames);
    }
  }
}
