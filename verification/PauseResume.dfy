/**
 Pausing and resuming a recording (recording.rs: pause, resume, send_capture_control,
 rollback_capture_control, ensure_capture_healthy, elapsed_ms). Each capture thread drains its
 bounded command queue at its own pace, and may fail or end at any moment, also between two sends
 of the same control. A control that cannot reach every track is rolled back as far as the queues
 allow; a track that cannot be rolled back is marked failed.
 */
module PauseResume {
  import opened Wrappers

  const QUEUE_CAPACITY := 8

  datatype Command = Pause | Resume

  /** A track: commands sent and not yet taken, whether its loop is paused, and how it fares. */
  datatype Track = Track(queue: seq<Command>, paused: bool, failed: bool, live: bool)

  datatype State = Recording | Paused

  /** Whether the loop will be paused once it has taken every command in its queue. */
  predicate SettlesPaused(t: Track) {
    if t.queue == [] then t.paused else t.queue[|t.queue| - 1].Pause?
  }

  /** What a capture thread does on its own: take commands, fail, or end. */
  ghost predicate Drifts(before: Track, after: Track) {
    && |after.queue| <= |before.queue|
    && (forall i :: 0 <= i < |after.queue| ==> after.queue[i] == before.queue[|before.queue| - |after.queue| + i])
    && (after.queue == before.queue ==> after.paused == before.paused)
    && (|after.queue| < |before.queue| ==>
          after.paused == before.queue[|before.queue| - |after.queue| - 1].Pause?)
    && (before.failed ==> after.failed)
    && (after.live ==> before.live)
  }

  ghost predicate AllDrift(before: seq<Track>, after: seq<Track>) {
    |after| == |before| && forall i {:trigger Drifts(before[i], after[i])} :: 0 <= i < |before| ==> Drifts(before[i], after[i])
  }

  /** Draining a queue does not change where the loop will settle. */
  lemma DriftingSettlesAlike(before: Track, after: Track)
    requires Drifts(before, after)
    ensures SettlesPaused(after) == SettlesPaused(before)
  {
  }

  /** And so is running on, and running on again. */
  lemma DriftingTwice(before: Track, between: Track, after: Track)
    requires Drifts(before, between) && Drifts(between, after)
    ensures Drifts(before, after)
  {
  }

  predicate Accepts(t: Track) {
    t.live && |t.queue| < QUEUE_CAPACITY
  }

  /** What sending a command does to a track: it is queued, or the track is marked failed. */
  function Commanded(t: Track, command: Command): Track {
    if Accepts(t) then t.(queue := t.queue + [command]) else t.(failed := true)
  }

  /**
   A track ran on its own until its turn came, was sent the command if it was to be, and ran on. It is marked failed only if
   it was before, or if its own thread reported a fault, or if it could not take the command.
   */
  ghost predicate Controlled(before: Track, seen: Track, after: Track, asked: bool, command: Command, fault: bool) {
    && Drifts(before, seen)
    && Drifts(if asked then Commanded(seen, command) else seen, after)
    && (after.failed ==> before.failed || fault || (asked && !Accepts(seen)))
  }

  /** So far: the first `count` tracks have had their turn, the others have only run on. */
  ghost predicate ControlledUpTo(before: seq<Track>, seen: seq<Track>, tracks: seq<Track>, count: nat, asked: set<nat>,
                                 command: Command, faulted: set<nat>)
  {
    && |tracks| == |before| && |seen| == count <= |tracks|
    && (forall i :: 0 <= i < count ==> Controlled(before[i], seen[i], tracks[i], i in asked, command, i in faulted))
    && (forall i :: count <= i < |tracks| ==> RanOn(before[i], tracks[i], i in faulted))
  }

  ghost predicate RanOn(before: Track, after: Track, fault: bool) {
    Drifts(before, after) && (after.failed ==> before.failed || fault)
  }

  ghost predicate AllRanOn(before: seq<Track>, after: seq<Track>, faulted: set<nat>) {
    |after| == |before| && forall i :: 0 <= i < |before| ==> RanOn(before[i], after[i], i in faulted)
  }

  ghost function Everyone(count: nat): (all: set<nat>)
    ensures forall i :: i in all <==> 0 <= i < count
  {
    if count == 0 then {} else Everyone(count - 1) + {count - 1}
  }

  ghost predicate Refused(seen: seq<Track>) {
    exists i :: 0 <= i < |seen| && !Accepts(seen[i])
  }

  /** The tracks sent to are exactly those that could take the command when their turn came. */
  ghost predicate TookExactly(seen: seq<Track>, sent: set<nat>) {
    (forall i :: i in sent ==> i < |seen|) && forall i :: 0 <= i < |seen| ==> (i in sent <==> Accepts(seen[i]))
  }

  lemma OneMoreSeen(seen: seq<Track>, sent: set<nat>, track: Track)
    requires TookExactly(seen, sent)
    ensures TookExactly(seen + [track], if Accepts(track) then sent + {|seen|} else sent)
    ensures Refused(seen + [track]) <==> Refused(seen) || !Accepts(track)
  {
    var more := seen + [track];
    assert more[|seen|] == track;
    if Refused(seen) {
      var i :| 0 <= i < |seen| && !Accepts(seen[i]);
      assert more[i] == seen[i];
    }
  }

  lemma RunningOnKeepsControlled(before: seq<Track>, seen: seq<Track>, tracks: seq<Track>, after: seq<Track>, count: nat,
                                 asked: set<nat>, command: Command, faulted: set<nat>, more: set<nat>)
    requires ControlledUpTo(before, seen, tracks, count, asked, command, faulted)
    requires faulted <= more && AllRanOn(tracks, after, more)
    ensures ControlledUpTo(before, seen, after, count, asked, command, more)
  {
    forall i | 0 <= i < |after|
      ensures if i < count then Controlled(before[i], seen[i], after[i], i in asked, command, i in more)
              else RanOn(before[i], after[i], i in more)
    {
      assert RanOn(tracks[i], after[i], i in more);
      if i < count {
        assert Controlled(before[i], seen[i], tracks[i], i in asked, command, i in faulted);
        DriftingTwice(if i in asked then Commanded(seen[i], command) else seen[i], tracks[i], after[i]);
      } else {
        assert RanOn(before[i], tracks[i], i in faulted);
        DriftingTwice(before[i], tracks[i], after[i]);
      }
    }
  }

  lemma StandingStillDrifts(t: Track)
    ensures Drifts(t, t)
  {
  }

  lemma ControllingOneMore(before: seq<Track>, seen: seq<Track>, tracks: seq<Track>, count: nat, asked: set<nat>,
                           more: set<nat>, command: Command, faulted: set<nat>)
    requires ControlledUpTo(before, seen, tracks, count, asked, command, faulted) && count < |tracks|
    requires forall i :: i < count ==> (i in more <==> i in asked)
    ensures var after := if count in more then Commanded(tracks[count], command) else tracks[count];
            ControlledUpTo(before, seen + [tracks[count]], tracks[count := after], count + 1, more, command, faulted)
  {
    var after := if count in more then Commanded(tracks[count], command) else tracks[count];
    assert RanOn(before[count], tracks[count], count in faulted);
    StandingStillDrifts(after);
    forall i | 0 <= i < count
      ensures Controlled(before[i], (seen + [tracks[count]])[i], tracks[count := after][i], i in more, command, i in faulted)
    {
      assert Controlled(before[i], seen[i], tracks[i], i in asked, command, i in faulted);
    }
    forall i | count < i < |tracks| ensures RanOn(before[i], tracks[count := after][i], i in faulted) {
      assert RanOn(before[i], tracks[i], i in faulted);
    }
  }

  /** A refusal has a reason that can be seen from outside. */
  lemma RefusalsHaveAReason(before: Track, seen: Track, after: Track, asked: bool, command: Command, fault: bool)
    requires Controlled(before, seen, after, asked, command, fault)
    ensures !Accepts(seen) ==> !after.live || |before.queue| >= QUEUE_CAPACITY
    ensures after.live ==> before.live
    ensures |after.queue| <= |before.queue| + 1
  {
  }

  /** Why a control marks a track failed: it was, its thread reported a fault, it has ended, or its queue is all but full. */
  ghost predicate MarkedForAReason(before: Track, after: Track, fault: bool) {
    after.failed ==> before.failed || fault || !after.live || |before.queue| >= QUEUE_CAPACITY - 1
  }

  ghost predicate AllMarkedForAReason(before: seq<Track>, after: seq<Track>, faulted: set<nat>) {
    |after| == |before| && forall i :: 0 <= i < |after| ==> MarkedForAReason(before[i], after[i], i in faulted)
  }

  /** Some track had failed, has ended, or had a full queue. */
  ghost predicate HeldBack(before: seq<Track>, after: seq<Track>)
    requires |after| == |before|
  {
    exists i :: 0 <= i < |before| && (before[i].failed || !after[i].live || |before[i].queue| >= QUEUE_CAPACITY)
  }

  lemma EndedTracksAreMarkedForAReason(before: seq<Track>, after: seq<Track>, faulted: set<nat>)
    requires |after| == |before|
    requires forall i :: 0 <= i < |before| ==> after[i] == before[i].(failed := before[i].failed || !before[i].live)
    ensures AllMarkedForAReason(before, after, faulted)
    ensures (exists i :: 0 <= i < |before| && (before[i].failed || !before[i].live)) ==> HeldBack(before, after)
  {
    if i :| 0 <= i < |before| && (before[i].failed || !before[i].live) {
      assert before[i].failed || !after[i].live;
    }
  }

  lemma SendingMarksForAReason(before: seq<Track>, seen: seq<Track>, after: seq<Track>, asked: set<nat>, command: Command,
                               faulted: set<nat>)
    requires ControlledUpTo(before, seen, after, |after|, asked, command, faulted)
    ensures AllMarkedForAReason(before, after, faulted)
    ensures Refused(seen) ==> HeldBack(before, after)
  {
    forall i | 0 <= i < |after|
      ensures MarkedForAReason(before[i], after[i], i in faulted)
      ensures !Accepts(seen[i]) ==> !after[i].live || |before[i].queue| >= QUEUE_CAPACITY
    {
      assert Controlled(before[i], seen[i], after[i], i in asked, command, i in faulted);
      RefusalsHaveAReason(before[i], seen[i], after[i], i in asked, command, i in faulted);
    }
    if Refused(seen) {
      var i :| 0 <= i < |seen| && !Accepts(seen[i]);
      assert !after[i].live || |before[i].queue| >= QUEUE_CAPACITY;
    }
  }

  /** A control that is rolled back. */
  lemma RollingBackMarksForAReason(before: seq<Track>, seen: seq<Track>, between: seq<Track>, asked: set<nat>, command: Command,
                                   faults: set<nat>, again: seq<Track>, after: seq<Track>, sent: set<nat>, back: Command,
                                   faulted: set<nat>)
    requires ControlledUpTo(before, seen, between, |between|, asked, command, faults) && faults <= faulted
    requires ControlledUpTo(between, again, after, |after|, sent, back, faulted)
    ensures AllMarkedForAReason(before, after, faulted)
    ensures Refused(seen) ==> HeldBack(before, after)
  {
    forall i | 0 <= i < |after|
      ensures MarkedForAReason(before[i], after[i], i in faulted)
      ensures !Accepts(seen[i]) ==> !after[i].live || |before[i].queue| >= QUEUE_CAPACITY
    {
      assert Controlled(before[i], seen[i], between[i], i in asked, command, i in faults);
      assert Controlled(between[i], again[i], after[i], i in sent, back, i in faulted);
      RefusalsHaveAReason(before[i], seen[i], between[i], i in asked, command, i in faults);
      RefusalsHaveAReason(between[i], again[i], after[i], i in sent, back, i in faulted);
    }
    if Refused(seen) {
      var i :| 0 <= i < |seen| && !Accepts(seen[i]);
      assert !after[i].live || |before[i].queue| >= QUEUE_CAPACITY;
    }
  }

  lemma NothingControlledYet(tracks: seq<Track>, command: Command, asked: set<nat>, faulted: set<nat>)
    ensures ControlledUpTo(tracks, [], tracks, 0, asked, command, faulted)
  {
    forall i | 0 <= i < |tracks| ensures RanOn(tracks[i], tracks[i], i in faulted) {
      StandingStillDrifts(tracks[i]);
    }
  }

  /** Every track not marked failed will settle as the recording's state says. */
  ghost predicate Agrees(t: Track, paused: bool) {
    !t.failed ==> SettlesPaused(t) == paused
  }

  ghost predicate AllAgree(tracks: seq<Track>, paused: bool) {
    forall i :: 0 <= i < |tracks| ==> Agrees(tracks[i], paused)
  }

  lemma DriftingKeepsAgreement(before: seq<Track>, after: seq<Track>, paused: bool)
    requires AllDrift(before, after) && AllAgree(before, paused)
    ensures AllAgree(after, paused)
  {
    forall i | 0 <= i < |after| ensures Agrees(after[i], paused) {
      assert Agrees(before[i], paused) && Drifts(before[i], after[i]);
      DriftingSettlesAlike(before[i], after[i]);
    }
  }

  /** The outcome of sending to every track: it has the command queued last, or is marked failed. */
  ghost predicate Reached(t: Track, sent: bool, command: Command) {
    if sent then t.failed || SettlesPaused(t) == command.Pause? else t.failed
  }

  ghost function FailedTrack(tracks: seq<Track>): (i: nat)
    requires SomeFailed(tracks)
    ensures i < |tracks| && tracks[i].failed
  {
    var i :| 0 <= i < |tracks| && tracks[i].failed;
    i
  }

  ghost predicate SomeFailed(tracks: seq<Track>) {
    exists i :: 0 <= i < |tracks| && tracks[i].failed
  }

  lemma DriftingKeepsFailure(before: seq<Track>, after: seq<Track>)
    requires AllDrift(before, after) && SomeFailed(before)
    ensures SomeFailed(after)
  {
    var i :| 0 <= i < |before| && before[i].failed;
    assert Drifts(before[i], after[i]);
  }

  /** The first `count` tracks have been sent to: each has the command last, or is marked failed. */
  ghost predicate SentTo(tracks: seq<Track>, count: nat, sent: set<nat>, command: Command)
    requires count <= |tracks|
  {
    && (forall i :: 0 <= i < count ==> Reached(tracks[i], i in sent, command))
    && (forall i :: i in sent ==> i < count)
  }

  lemma DriftingKeepsSent(before: seq<Track>, after: seq<Track>, sent: set<nat>, command: Command, count: nat)
    requires AllDrift(before, after) && count <= |before| && SentTo(before, count, sent, command)
    ensures SentTo(after, count, sent, command)
    ensures SomeFailed(before) ==> SomeFailed(after)
  {
    forall i | 0 <= i < count ensures Reached(after[i], i in sent, command) {
      assert Drifts(before[i], after[i]) && Reached(before[i], i in sent, command);
      DriftingSettlesAlike(before[i], after[i]);
    }
    if SomeFailed(before) {
      DriftingKeepsFailure(before, after);
    }
  }

  lemma ReplacingKeepsFailure(tracks: seq<Track>, index: nat, track: Track)
    requires index < |tracks| && (tracks[index].failed ==> track.failed)
    ensures SomeFailed(tracks) || track.failed ==> SomeFailed(tracks[index := track])
  {
    if SomeFailed(tracks) {
      var i := FailedTrack(tracks);
      assert tracks[index := track][i].failed;
    } else if track.failed {
      assert tracks[index := track][index].failed;
    }
  }

  lemma SentToOneMore(tracks: seq<Track>, index: nat, track: Track, sent: set<nat>, took: bool, command: Command)
    requires index < |tracks| && SentTo(tracks, index, sent, command)
    requires Reached(track, took, command) && (tracks[index].failed ==> track.failed)
    ensures SentTo(tracks[index := track], index + 1, if took then sent + {index} else sent, command)
    ensures SomeFailed(tracks) || track.failed ==> SomeFailed(tracks[index := track])
  {
    var after, all := tracks[index := track], if took then sent + {index} else sent;
    forall i | 0 <= i < index + 1 ensures Reached(after[i], i in all, command) {
      assert i < index ==> Reached(tracks[i], i in sent, command);
    }
    ReplacingKeepsFailure(tracks, index, track);
  }

  /** Tracks never sent to are failed; the first `count` agree again. */
  ghost predicate RolledBack(tracks: seq<Track>, count: nat, sent: set<nat>, paused: bool)
    requires count <= |tracks|
  {
    && SomeFailed(tracks)
    && (forall i :: 0 <= i < |tracks| ==> i in sent || tracks[i].failed)
    && (forall i :: 0 <= i < count ==> Agrees(tracks[i], paused))
  }

  lemma DriftingKeepsRolledBack(before: seq<Track>, after: seq<Track>, count: nat, sent: set<nat>, paused: bool)
    requires AllDrift(before, after) && count <= |before| && RolledBack(before, count, sent, paused)
    ensures RolledBack(after, count, sent, paused)
  {
    DriftingKeepsFailure(before, after);
    forall i | 0 <= i < |after|
      ensures (i in sent || after[i].failed) && (i < count ==> Agrees(after[i], paused))
    {
      assert Drifts(before[i], after[i]);
      if i < count {
        assert Agrees(before[i], paused);
        DriftingSettlesAlike(before[i], after[i]);
      }
    }
  }

  lemma RolledBackOneMore(tracks: seq<Track>, index: nat, track: Track, sent: set<nat>, paused: bool)
    requires index < |tracks| && RolledBack(tracks, index, sent, paused)
    requires (tracks[index].failed ==> track.failed) && (index in sent || track.failed) && Agrees(track, paused)
    ensures RolledBack(tracks[index := track], index + 1, sent, paused)
  {
    var after := tracks[index := track];
    ReplacingKeepsFailure(tracks, index, track);
    forall i | 0 <= i < index + 1 ensures Agrees(after[i], paused) {
      assert i < index ==> Agrees(tracks[i], paused);
    }
  }

  // ---------------------------------------------------------------------------------------
  // Sending and rolling back, track by track
  // ---------------------------------------------------------------------------------------

  /** Sending has come to a track: what it has achieved, and what it has done. */
  ghost predicate Sending(before: seq<Track>, seen: seq<Track>, tracks: seq<Track>, count: nat, sent: set<nat>, failures: bool,
                          command: Command, faulted: set<nat>)
  {
    && count <= |tracks| && SentTo(tracks, count, sent, command)
    && (if failures then SomeFailed(tracks) else forall i :: 0 <= i < count ==> i in sent)
    && ControlledUpTo(before, seen, tracks, count, Everyone(|tracks|), command, faulted)
    && TookExactly(seen, sent) && (failures <==> Refused(seen))
  }

  lemma SendingGoesOn(before: seq<Track>, seen: seq<Track>, tracks: seq<Track>, after: seq<Track>, count: nat, sent: set<nat>,
                      failures: bool, command: Command, faulted: set<nat>, more: set<nat>)
    requires Sending(before, seen, tracks, count, sent, failures, command, faulted)
    requires AllDrift(tracks, after) && faulted <= more && AllRanOn(tracks, after, more)
    ensures Sending(before, seen, after, count, sent, failures, command, more)
  {
    DriftingKeepsSent(tracks, after, sent, command, count);
    RunningOnKeepsControlled(before, seen, tracks, after, count, Everyone(|tracks|), command, faulted, more);
  }

  lemma SendingOneMore(before: seq<Track>, seen: seq<Track>, tracks: seq<Track>, count: nat, sent: set<nat>, failures: bool,
                       command: Command, faulted: set<nat>)
    requires Sending(before, seen, tracks, count, sent, failures, command, faulted) && count < |tracks|
    ensures var track := tracks[count];
            Sending(before, seen + [track], tracks[count := Commanded(track, command)], count + 1,
                    if Accepts(track) then sent + {count} else sent, failures || !Accepts(track), command, faulted)
  {
    var track := tracks[count];
    SentToOneMore(tracks, count, Commanded(track, command), sent, Accepts(track), command);
    ControllingOneMore(before, seen, tracks, count, Everyone(|tracks|), Everyone(|tracks|), command, faulted);
    OneMoreSeen(seen, sent, track);
  }

  const NANOS_PER_MS := 1_000_000

  class ActiveRecording {
    var tracks: seq<Track>
    var state: State
    var now: nat
    var startedAt: nat
    var pausedAt: Option<nat>
    var pausedTotal: nat

    /** Time spent in the Recording state. */
    ghost var recorded: nat

    /** Tracks whose own threads have reported a fault. */
    ghost var faulted: set<nat>

    ghost predicate Valid()
      reads this
    {
      && AllAgree(tracks, state.Paused?)
      && (pausedAt.Some? <==> state.Paused?)
      && (pausedAt.Some? ==> pausedAt.value <= now)
      && now == startedAt + recorded + pausedTotal + (if pausedAt.Some? then now - pausedAt.value else 0)
    }

    constructor (trackCount: nat, at: nat)
      ensures Valid() && state.Recording? && |tracks| == trackCount && recorded == 0
    {
      tracks := seq(trackCount, _ => Track([], false, false, true));
      state, now, startedAt, pausedAt, pausedTotal := Recording, at, at, None, 0;
      recorded, faulted := 0, {};
    }

    // ---------------------------------------------------------------------------------------
    // What happens on its own
    // ---------------------------------------------------------------------------------------

    /** Any capture threads take any number of commands, fail or end. */
    method LetTracksRun()
      modifies `tracks, `faulted
      ensures AllDrift(old(tracks), tracks)
      ensures old(faulted) <= faulted && AllRanOn(old(tracks), tracks, faulted)
    {
      for i := 0 to |tracks|
        invariant |tracks| == |old(tracks)| && old(faulted) <= faulted
        invariant forall k :: 0 <= k < i && tracks[k].failed ==> old(tracks)[k].failed || k in faulted
        invariant forall k :: 0 <= k < |tracks| ==> if k < i then Drifts(old(tracks)[k], tracks[k]) else tracks[k] == old(tracks)[k]
      {
        var t := tracks[i];
        var taken: nat :| taken <= |t.queue|;
        var fails: bool :| true;
        var ends: bool :| true;
        tracks := tracks[i := Track(t.queue[taken..], if taken > 0 then t.queue[taken - 1].Pause? else t.paused,
                                    t.failed || fails, t.live && !ends)];
        if fails {
          faulted := faulted + {i};
        }
      }
    }

    method Wait(nanos: nat)
      requires Valid()
      modifies this
      ensures Valid() && now == old(now) + nanos && state == old(state)
      ensures recorded == old(recorded) + if state.Recording? then nanos else 0
      ensures state.Paused? ==> ElapsedNanos() == old(ElapsedNanos())
    {
      now := now + nanos;
      if state.Recording? {
        recorded := recorded + nanos;
      }
      ghost var before := tracks;
      LetTracksRun();
      DriftingKeepsAgreement(before, tracks, state.Paused?);
    }

    // ---------------------------------------------------------------------------------------
    // Control
    // ---------------------------------------------------------------------------------------

    /** Tracks that ended without an error are marked failed; control needs all of them healthy. */
    method EnsureCaptureHealthy() returns (healthy: bool)
      requires Valid()
      modifies `tracks
      ensures Valid() && |tracks| == |old(tracks)|
      ensures healthy <==> forall i :: 0 <= i < |tracks| ==> !old(tracks)[i].failed && old(tracks)[i].live
      ensures healthy ==> tracks == old(tracks)
      ensures !healthy ==> SomeFailed(tracks)
      ensures forall i :: 0 <= i < |tracks| ==>
                tracks[i] == old(tracks)[i].(failed := old(tracks)[i].failed || !old(tracks)[i].live)
      ensures AllMarkedForAReason(old(tracks), tracks, faulted) && (!healthy ==> HeldBack(old(tracks), tracks))
    {
      healthy := true;
      for i := 0 to |tracks|
        invariant |tracks| == |old(tracks)| && AllAgree(tracks, state.Paused?)
        invariant healthy <==> forall k :: 0 <= k < i ==> !old(tracks)[k].failed && old(tracks)[k].live
        invariant forall k :: 0 <= k < |tracks| ==>
                    tracks[k] == if k < i then old(tracks)[k].(failed := old(tracks)[k].failed || !old(tracks)[k].live)
                                 else old(tracks)[k]
        invariant !healthy ==> SomeFailed(tracks)
      {
        if tracks[i].failed {
          healthy := false;
        } else if !tracks[i].live {
          healthy := false;
          tracks := tracks[i := tracks[i].(failed := true)];
          assert tracks[i].failed;
        }
      }
      EndedTracksAreMarkedForAReason(old(tracks), tracks, faulted);
    }

    /**
     Threads run between any two sends. `sent` holds the tracks whose queue took the command; `seen` is each track as its
     turn came.
     */
    method SendCaptureControl(command: Command) returns (sent: set<nat>, failures: bool, ghost seen: seq<Track>)
      modifies `tracks, `faulted
      ensures |tracks| == |old(tracks)| && SentTo(tracks, |tracks|, sent, command)
      ensures if failures then SomeFailed(tracks) else forall i :: 0 <= i < |tracks| ==> i in sent
      ensures ControlledUpTo(old(tracks), seen, tracks, |tracks|, Everyone(|tracks|), command, faulted)
      ensures TookExactly(seen, sent) && (failures <==> Refused(seen))
      ensures old(faulted) <= faulted
    {
      sent, failures, seen := {}, false, [];
      NothingControlledYet(tracks, command, Everyone(|tracks|), faulted);
      for index := 0 to |tracks|
        invariant |tracks| == |old(tracks)| && old(faulted) <= faulted
        invariant Sending(old(tracks), seen, tracks, index, sent, failures, command, faulted)
      {
        ghost var before, faults := tracks, faulted;
        LetTracksRun();
        SendingGoesOn(old(tracks), seen, before, tracks, index, sent, failures, command, faults, faulted);
        SendingOneMore(old(tracks), seen, tracks, index, sent, failures, command, faulted);
        var track := tracks[index];
        seen := seen + [track];
        if Accepts(track) {
          track := track.(queue := track.queue + [command]);
          sent := sent + {index};
        } else {
          track := track.(failed := true);
          failures := true;
        }
        tracks := tracks[index := track];
      }
    }

    /** The opposite command to every track that took the first; one that cannot take it is marked failed. */
    method RollbackCaptureControl(sent: set<nat>, command: Command) returns (ghost seen: seq<Track>)
      requires RolledBack(tracks, 0, sent, command.Pause?)
      modifies `tracks, `faulted
      ensures |tracks| == |old(tracks)| && AllAgree(tracks, command.Pause?) && SomeFailed(tracks)
      ensures ControlledUpTo(old(tracks), seen, tracks, |tracks|, sent, command, faulted)
      ensures old(faulted) <= faulted
    {
      seen := [];
      NothingControlledYet(tracks, command, sent, faulted);
      for index := 0 to |tracks|
        invariant |tracks| == |old(tracks)| && RolledBack(tracks, index, sent, command.Pause?)
        invariant ControlledUpTo(old(tracks), seen, tracks, index, sent, command, faulted)
        invariant old(faulted) <= faulted
      {
        ghost var before, faults := tracks, faulted;
        LetTracksRun();
        DriftingKeepsRolledBack(before, tracks, index, sent, command.Pause?);
        RunningOnKeepsControlled(old(tracks), seen, before, tracks, index, sent, command, faults, faulted);
        ControllingOneMore(old(tracks), seen, tracks, index, sent, sent, command, faulted);
        var track := tracks[index];
        seen := seen + [track];
        if index in sent {
          if Accepts(track) {
            track := track.(queue := track.queue + [command]);
          } else {
            track := track.(failed := true);
          }
        }
        RolledBackOneMore(tracks, index, track, sent, command.Pause?);
        tracks := tracks[index := track];
      }
    }

    /** A control sent to every track, and taken back if some track refused it. */
    method ControlTracks(command: Command, back: Command) returns (reached: bool)
      requires command.Pause? != back.Pause?
      modifies `tracks, `faulted
      ensures |tracks| == |old(tracks)| && old(faulted) <= faulted
      ensures AllAgree(tracks, if reached then command.Pause? else back.Pause?)
      ensures AllMarkedForAReason(old(tracks), tracks, faulted)
      ensures !reached ==> SomeFailed(tracks) && HeldBack(old(tracks), tracks)
    {
      var sent, failures, seen := SendCaptureControl(command);
      if !failures {
        SendingMarksForAReason(old(tracks), seen, tracks, Everyone(|tracks|), command, faulted);
        return true;
      }
      ghost var between, faults := tracks, faulted;
      ghost var again := RollbackCaptureControl(sent, back);
      RollingBackMarksForAReason(old(tracks), seen, between, Everyone(|between|), command, faults, again, tracks, sent, back,
                                 faulted);
      return false;
    }

    /** `stored`: the statements that follow the change of state succeed. */
    method PauseRecording(stored: bool) returns (ok: bool)
      requires Valid()
      modifies this
      ensures Valid()
      ensures ok ==> old(state).Recording? && state.Paused?
      ensures old(state).Paused? ==> !ok && state.Paused?
      ensures old(state).Recording? && state.Recording? ==> SomeFailed(tracks)
      ensures AllMarkedForAReason(old(tracks), tracks, faulted)
      ensures old(state).Recording? && state.Recording? ==> HeldBack(old(tracks), tracks)
      ensures old(state).Recording? && state.Paused? && !ok ==> !stored
      ensures now == old(now) && recorded == old(recorded)
    {
      if state.Paused? {
        return false;
      }
      var healthy := EnsureCaptureHealthy();
      if !healthy {
        return false;
      }
      var reached := ControlTracks(Pause, Resume);
      if !reached {
        return false;
      }
      state := Paused;
      pausedAt := Some(now);
      return stored;
    }

    method ResumeRecording(stored: bool) returns (ok: bool)
      requires Valid()
      modifies this
      ensures Valid()
      ensures ok ==> old(state).Paused? && state.Recording?
      ensures old(state).Recording? ==> !ok && state.Recording?
      ensures old(state).Paused? && state.Paused? ==> SomeFailed(tracks)
      ensures AllMarkedForAReason(old(tracks), tracks, faulted)
      ensures old(state).Paused? && state.Paused? ==> HeldBack(old(tracks), tracks)
      ensures old(state).Paused? && state.Recording? && !ok ==> !stored
      ensures now == old(now) && recorded == old(recorded)
    {
      if state.Recording? {
        return false;
      }
      var healthy := EnsureCaptureHealthy();
      if !healthy {
        return false;
      }
      var reached := ControlTracks(Resume, Pause);
      if !reached {
        return false;
      }
      pausedTotal := pausedTotal + (now - pausedAt.value);
      pausedAt := None;
      state := Recording;
      return stored;
    }

    // ---------------------------------------------------------------------------------------
    // Elapsed time
    // ---------------------------------------------------------------------------------------

    function ElapsedNanos(): nat
      reads this
    {
      var current := if pausedAt.Some? && pausedAt.value <= now then now - pausedAt.value else 0;
      var running := if now >= startedAt then now - startedAt else 0;
      if running >= pausedTotal + current then running - (pausedTotal + current) else 0
    }

    /** The elapsed time shown is the time spent recording. */
    method ElapsedMs() returns (ms: nat)
      requires Valid()
      ensures ElapsedNanos() == recorded && ms == recorded / NANOS_PER_MS
    {
      ms := ElapsedNanos() / NANOS_PER_MS;
    }
  }
}
