/**
 Recorded audio as whole frames of `channels` samples, at the capture rate of audio.rs, and the
 anchors that tie frames to clock ticks.
 */
module Pcm {
  type Frame = seq<int>

  const SAMPLE_RATE := 48000

  datatype ClockAnchor = ClockAnchor(
    qpc: nat,
    frameIndex: nat,
    discontinuity: bool,
    pauseBoundary: bool,
    insertedGapFrames: nat)

  function Quiet(channels: nat): Frame {
    seq(channels, _ => 0)
  }

  function Silence(channels: nat, count: nat): seq<Frame> {
    seq(count, _ => Quiet(channels))
  }

  lemma SilenceAdds(channels: nat, some: nat, more: nat)
    ensures Silence(channels, some) + Silence(channels, more) == Silence(channels, some + more)
  {
  }
}
