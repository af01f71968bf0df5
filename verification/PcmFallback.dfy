/**
 The arithmetic of the PCM fallback (recording.rs, consolidate_recovery_wav): the silence before the
 first recovered segment and the duration reported, both with 64-bit saturating products. Within 64
 bits both are exact, 48 frames for a millisecond of offset and whole milliseconds of audio; past
 them each is cut where its product saturates, and never wraps around.
 */
module PcmFallback {
  import opened Pcm

  const U64_MAX: nat := 0xFFFF_FFFF_FFFF_FFFF

  function SaturatingMul(a: nat, b: nat): nat {
    if a * b <= U64_MAX then a * b else U64_MAX
  }

  function SaturatingAdd(a: nat, b: nat): nat {
    if a + b <= U64_MAX then a + b else U64_MAX
  }

  /** Zero samples written before the first segment. */
  function LeadingSamples(offsetMs: nat, channels: nat): nat {
    SaturatingMul(SaturatingMul(offsetMs, SAMPLE_RATE), channels) / 1000
  }

  function DurationMs(frames: nat): nat {
    SaturatingMul(frames, 1000) / SAMPLE_RATE
  }

  lemma AtLeastOneTimes(times: nat, channels: nat)
    requires times >= 1
    ensures times * channels >= channels
  {
    assert times * channels == channels + (times - 1) * channels;
  }

  lemma WholeFrames(count: nat, channels: nat)
    requires channels > 0
    ensures (count * channels) / channels == count
  {
    var samples := count * channels;
    var frames, rest := samples / channels, samples % channels;
    assert samples == frames * channels + rest;
    assert (count - frames) * channels == rest;
    if frames < count {
      AtLeastOneTimes(count - frames, channels);
    }
  }

  lemma SaturatingTwice(ticks: nat, channels: nat)
    requires channels > 0
    ensures SaturatingMul(if ticks <= U64_MAX then ticks else U64_MAX, channels)
         == if ticks * channels <= U64_MAX then ticks * channels else U64_MAX
  {
    if ticks > U64_MAX {
      AtLeastOneTimes(channels, ticks);
      AtLeastOneTimes(channels, U64_MAX);
    }
  }

  lemma SaturatedQuotient(samples: nat)
    ensures (if 1000 * samples <= U64_MAX then 1000 * samples else U64_MAX) / 1000 == samples <==> 1000 * samples <= U64_MAX
  {
  }

  lemma SamplesInOffset(offsetMs: nat, channels: nat)
    ensures offsetMs * SAMPLE_RATE * channels == 1000 * (48 * offsetMs * channels)
  {
    var product := offsetMs * channels;
    assert offsetMs * SAMPLE_RATE * channels == SAMPLE_RATE * product;
    assert 48 * offsetMs * channels == 48 * product;
  }

  /** The leading silence is exact precisely when its sample count, times 1000, fits 64 bits. */
  lemma LeadingSamplesExactWhen(offsetMs: nat, channels: nat)
    requires channels > 0
    ensures LeadingSamples(offsetMs, channels) == 48 * offsetMs * channels <==> offsetMs * SAMPLE_RATE * channels <= U64_MAX
  {
    SamplesInOffset(offsetMs, channels);
    SaturatingTwice(offsetMs * SAMPLE_RATE, channels);
    SaturatedQuotient(48 * offsetMs * channels);
  }

  /** Silent frames before the first segment. */
  function LeadingFrames(offsetMs: nat, channels: nat): nat
    requires channels > 0
  {
    LeadingSamples(offsetMs, channels) / channels
  }

  /** The duration reported for recovered frames, counted by way of samples. */
  function FallbackDurationMs(frames: nat, offsetMs: nat, channels: nat): nat
    requires channels > 0
  {
    DurationMs(SaturatingMul(frames, channels) / channels + LeadingFrames(offsetMs, channels))
  }

  lemma LeadingFramesExactly(offsetMs: nat, channels: nat)
    requires offsetMs * SAMPLE_RATE * channels <= U64_MAX && channels > 0
    ensures LeadingFrames(offsetMs, channels) == 48 * offsetMs
  {
    LeadingSamplesExactWhen(offsetMs, channels);
    WholeFrames(48 * offsetMs, channels);
  }

  lemma DurationIsOffsetPlusAudio(offsetMs: nat, frames: nat)
    requires (48 * offsetMs + frames) * 1000 <= U64_MAX
    ensures DurationMs(48 * offsetMs + frames) == offsetMs + frames / 48
  {
  }

  /** Within 64 bits: 48 silent frames for each millisecond, and whole milliseconds of audio after them. */
  lemma FallbackAddsTheOffset(frames: nat, offsetMs: nat, channels: nat)
    requires channels > 0 && frames * channels <= U64_MAX
    requires offsetMs * SAMPLE_RATE * channels <= U64_MAX && (48 * offsetMs + frames) * 1000 <= U64_MAX
    ensures LeadingFrames(offsetMs, channels) == 48 * offsetMs
    ensures FallbackDurationMs(frames, offsetMs, channels) == offsetMs + frames / 48
  {
    LeadingFramesExactly(offsetMs, channels);
    WholeFrames(frames, channels);
    DurationIsOffsetPlusAudio(offsetMs, frames);
  }

  // ---------------------------------------------------------------------------------------
  // Past 64 bits
  // ---------------------------------------------------------------------------------------

  function Min(a: nat, b: nat): nat {
    if a <= b then a else b
  }

  lemma QuotientsGrow(low: nat, high: nat, d: nat)
    requires low <= high && d > 0
    ensures low / d <= high / d
  {
    var q, p := low / d, high / d;
    assert low == q * d + low % d && high == p * d + high % d;
    if p < q {
      assert q * d == p * d + (q - p) * d;
      AtLeastOneTimes(q - p, d);
    }
  }

  lemma MinDivides(a: nat, b: nat, d: nat)
    requires d > 0
    ensures Min(a, b) / d == Min(a / d, b / d)
  {
    if a <= b {
      QuotientsGrow(a, b, d);
    } else {
      QuotientsGrow(b, a, d);
    }
  }

  /** As many of these frames as 64 bits can count in samples, or in samples times 1000. */
  function Countable(frames: nat, samples: nat, channels: nat): nat
    requires channels > 0
  {
    Min(frames, samples / channels)
  }

  /** Whatever saturates, the leading silence is cut at what 64 bits of samples times 1000 can say. */
  lemma LeadingFramesAre(offsetMs: nat, channels: nat)
    requires channels > 0
    ensures LeadingFrames(offsetMs, channels) == Countable(48 * offsetMs, U64_MAX / 1000, channels)
  {
    var samples := 48 * offsetMs * channels;
    SamplesInOffset(offsetMs, channels);
    SaturatingTwice(offsetMs * SAMPLE_RATE, channels);
    MinDivides(1000 * samples, U64_MAX, 1000);
    assert LeadingSamples(offsetMs, channels) == Min(samples, U64_MAX / 1000);
    MinDivides(samples, U64_MAX / 1000, channels);
    WholeFrames(48 * offsetMs, channels);
  }

  lemma DurationIs(frames: nat)
    ensures DurationMs(frames) == Min(frames / 48, U64_MAX / SAMPLE_RATE)
  {
    MinDivides(frames * 1000, U64_MAX, SAMPLE_RATE);
  }

  /** The duration for any input: the offset plus the audio, each cut where its product saturates. */
  lemma FallbackDurationIs(frames: nat, offsetMs: nat, channels: nat)
    requires channels > 0
    ensures var counted := Countable(frames, U64_MAX, channels) + Countable(48 * offsetMs, U64_MAX / 1000, channels);
            FallbackDurationMs(frames, offsetMs, channels) == Min(counted / 48, U64_MAX / SAMPLE_RATE)
  {
    MinDivides(frames * channels, U64_MAX, channels);
    WholeFrames(frames, channels);
    LeadingFramesAre(offsetMs, channels);
    DurationIs(SaturatingMul(frames, channels) / channels + LeadingFrames(offsetMs, channels));
  }
}
