/** The frame counter of the canvas `Sprite` class
    (web/src/pages/Space/entities/Sprite.ts): a sprite sheet of `max`
    frames, the frame shown (`val`) and a count of moving draws
    (`elapsed`). Drawing the image itself is left out. */
module SpriteFrames {
  import opened Wrappers

  /** `SPRITE_ANIMATION_FRAME_RATE`: draws per frame step. */
  const FrameRate := 5

  datatype Frames = Frames(max: int, val: int, elapsed: nat)

  /** The frame part of `draw` for a sprite with an image: nothing happens
      unless it is moving; a multi-frame sprite counts the draw; whenever
      the count is a multiple of `period` the frame steps forward, wrapping
      to 0 after the last. */
  function Advance(f: Frames, moving: bool, period: nat): (r: Frames)
    requires period > 0
    ensures !moving ==> r == f
    ensures r.max == f.max
    ensures moving ==> r.elapsed == if f.max > 1 then f.elapsed + 1 else f.elapsed
    ensures r.val != f.val ==> moving && r.elapsed % period == 0
  {
    if !moving then f
    else
      var elapsed := if f.max > 1 then f.elapsed + 1 else f.elapsed;
      var val := if elapsed % period == 0 then (if f.val < f.max - 1 then f.val + 1 else 0) else f.val;
      Frames(f.max, val, elapsed)
  }

  /** A frame in range stays in range. */
  lemma AdvanceInRange(f: Frames, moving: bool, period: nat)
    requires period > 0 && 0 <= f.val < f.max
    ensures 0 <= Advance(f, moving, period).val < f.max
  {
  }

  /** On a moving draw the frame is a counter modulo `max`: it steps to the
      next frame, cyclically, exactly when the draw count reaches a multiple
      of the period. */
  lemma AdvanceIsCyclicStep(f: Frames, period: nat)
    requires period > 0 && 0 <= f.val < f.max
    ensures var r := Advance(f, true, period);
      r.val == if r.elapsed % period == 0 then (f.val + 1) % f.max else f.val
  {
    var r := Advance(f, true, period);
    if r.elapsed % period == 0 {
      if f.val < f.max - 1 {
        assert (f.val + 1) % f.max == f.val + 1;
      } else {
        assert f.val + 1 == f.max;
      }
    }
  }

  /** A single-frame sprite always shows frame 0. */
  lemma SingleFrameStays(f: Frames, moving: bool, period: nat)
    requires period > 0 && f.max == 1 && f.val == 0
    ensures Advance(f, moving, period).val == 0
  {
  }

  /** `draw` repeated `n` times on a moving sprite. */
  function AdvanceN(f: Frames, period: nat, n: nat): Frames
    requires period > 0
    decreases n
  {
    if n == 0 then f else AdvanceN(Advance(f, true, period), period, n - 1)
  }

  /** A multi-frame sprite moved for `period` draws from a count that is a
      multiple of the period shows the next frame, and only then. */
  lemma {:induction false} PeriodStepsOnce(f: Frames, period: nat, n: nat)
    requires period > 0 && f.max > 1 && 0 <= f.val < f.max && f.elapsed % period == 0
    requires n <= period
    ensures AdvanceN(f, period, n).elapsed == f.elapsed + n
    ensures AdvanceN(f, period, n).val == if n == period then (f.val + 1) % f.max else f.val
    ensures AdvanceN(f, period, n).max == f.max
    decreases n
  {
    if n > 0 {
      PeriodStepsOnce(f, period, n - 1);
      AdvanceNSnoc(f, period, n - 1);
      var before := AdvanceN(f, period, n - 1);
      StepAfterMultiple(f.elapsed, n, period);
      if n == period {
        AdvanceIsCyclicStep(before, period);
      }
    }
  }

  /** Counting up from a multiple of `period`, the next multiple is reached
      after exactly `period` steps. */
  lemma StepAfterMultiple(e: nat, m: nat, period: nat)
    requires period > 0 && e % period == 0 && 0 < m <= period
    ensures (e + m) % period == 0 <==> m == period
  {
    var k := e / period;
    assert e == k * period;
    var q, r := (e + m) / period, (e + m) % period;
    assert q * period + r == k * period + m;
    assert (q - k) * period == m - r;
    if m < period {
      if r == 0 {
        NoMultipleBelow(q - k, period);
      }
    } else {
      assert e + m == (k + 1) * period;
      if r != 0 {
        assert (q - k - 1) * period == -r;
        NoMultipleBelow(k + 1 - q, period);
      }
    }
  }

  /** No multiple of `period` lies strictly between 0 and `period`. */
  lemma NoMultipleBelow(a: int, period: nat)
    requires period > 0
    ensures !(0 < a * period < period)
  {
    if a >= 1 {
      assert a * period == period + (a - 1) * period;
    }
  }

  /** `n + 1` draws are `n` draws and then one more. */
  lemma {:induction false} AdvanceNSnoc(f: Frames, period: nat, n: nat)
    requires period > 0
    ensures AdvanceN(f, period, n + 1) == Advance(AdvanceN(f, period, n), true, period)
    decreases n
  {
    if n > 0 {
      AdvanceNSnoc(Advance(f, true, period), period, n - 1);
    }
  }

  /** The canvas sprite; `hasImage` says whether an image was given. */
  class Sprite {
    var frames: Frames
    var moving: bool
    const hasImage: bool

    /** A new sprite shows frame 0 of `max` frames (one when the props give
        no frame count), has counted no draws and is not moving. */
    constructor (hasImage: bool, max: Option<int>)
      ensures frames == Frames(max.GetOr(1), 0, 0) && !moving && this.hasImage == hasImage
    {
      frames := Frames(if max.Some? then max.value else 1, 0, 0);
      moving := false;
      this.hasImage := hasImage;
    }

    /** `draw`: without an image it returns before touching the frames. */
    method Draw()
      modifies this`frames
      ensures frames == if hasImage then Advance(old(frames), moving, FrameRate) else old(frames)
    {
      if !hasImage {
        return;
      }
      if !moving {
        return;
      }
      if frames.max > 1 {
        frames := frames.(elapsed := frames.elapsed + 1);
      }
      if frames.elapsed % FrameRate == 0 {
        if frames.val < frames.max - 1 {
          frames := frames.(val := frames.val + 1);
        } else {
          frames := frames.(val := 0);
        }
      }
    }
  }
}
