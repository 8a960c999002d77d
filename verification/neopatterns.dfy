/** The NeoPatterns engine: one object per LED strip that keeps the active
    pattern's parameters and, when polled and due, draws the next frame into
    the strip's pixel buffer and advances the step index.

    The strip's own operations are reduced to the buffer: `setPixelColor`
    is an array update (ignored for an index past the end),
    `getPixelColor` an array read and `show()` draws nothing in the model.
    The clock reading is the parameter `now`, and the completion callback is
    seen through the counter `Completions`.
 */
module Patterns {
  import opened Colors
  import opened Stepping
  import opened Frames

  datatype Pattern = None | RainbowCycle | TheaterChase | TheaterChaseRainbow | ColorWipe | Scanner | Fade

  /** Whether `PerformPattern` dispatches the pattern to a generator: `None`
      and `TheaterChaseRainbow` fall into the switch's empty default. */
  predicate HasGenerator(p: Pattern)
  {
    !(p.None? || p.TheaterChaseRainbow?)
  }

  /** The buffer after one frame of pattern `p` drawn from `buf` at step
      `idx` of `total`. */
  function PatternFrame(p: Pattern, buf: seq<u32>, idx: i16, total: i16, c1: u32, c2: u32): seq<u32>
    requires p.Fade? ==> total != 0
  {
    match p
    case RainbowCycle => RainbowFrame(|buf|, idx)
    case TheaterChase => TheaterChaseFrame(|buf|, idx, c1, c2)
    case ColorWipe => ColorWipeFrame(buf, idx, c1)
    case Scanner => ScannerFrame(buf, idx, total, c1)
    case Fade => Solid(|buf|, FadeColor(c1, c2, idx, total))
    case _ => buf
  }

  class NeoPatterns {
    var ActivePattern: Pattern
    var PatternDirection: Direction
    /** Milliseconds between frames. */
    var DelayTime: u32
    /** Clock reading at the last frame. */
    var lastUpdate: u32
    var Color1: u32
    var Color2: u32
    var TotalSteps: i16
    var CurStepIdx: i16
    var OnComplete: Callback
    /** How many times `OnComplete` has been called. */
    var Completions: nat
    /** The strip's pixel buffer; its length is the strip's `numPixels()`. */
    const pixels: array<u32>

    /** The strip length is a `uint16_t`. */
    predicate Valid()
    {
      pixels.Length < 0x1_0000
    }

    /** The steady state of the step machine. */
    predicate StepInRange()
      reads this
    {
      InRange(CurStepIdx, TotalSteps)
    }

    /** Between two states: the index and the callback counter moved as one
        `Increment` moves them. */
    twostate predicate Incremented()
      reads this
    {
      var r := Advance(old(PatternDirection), old(CurStepIdx), old(TotalSteps));
      CurStepIdx == r.idx && Completions == old(Completions) + CallbackCalls(old(OnComplete), r.wrapped)
    }

    /** A strip of `numPixels` dark pixels with no pattern. The callback
        defaults to an empty function, so `OnComplete` is never null unless
        the caller passes null. The C++ code leaves the pattern fields
        uninitialised; here they start at zero, `None` and `Forward`. */
    constructor (numPixels: u16, callback: Callback := NoOp)
      ensures Valid() && fresh(pixels) && pixels.Length == numPixels
      ensures pixels[..] == Solid(numPixels, 0)
      ensures OnComplete == callback && Completions == 0
      ensures ActivePattern == None && PatternDirection == Forward
      ensures DelayTime == 0 && lastUpdate == 0 && Color1 == 0 && Color2 == 0
      ensures TotalSteps == 0 && CurStepIdx == 0
    {
      pixels := new u32[numPixels](_ => 0);
      OnComplete := callback;
      Completions := 0;
      ActivePattern := None;
      PatternDirection := Forward;
      DelayTime, lastUpdate := 0, 0;
      Color1, Color2 := 0, 0;
      TotalSteps, CurStepIdx := 0, 0;
    }

    /** One poll: when more than `DelayTime` ms have passed since
        `lastUpdate` (strictly, on 32-bit wrapping time), record `now` and
        draw one frame of the active pattern; otherwise change nothing.
        Patterns without a generator only record the time. */
    method PerformPattern(now: u32)
      requires ActivePattern == Fade ==> TotalSteps != 0
      modifies this`lastUpdate, this`CurStepIdx, this`Completions, pixels
      ensures Due(now, old(lastUpdate), DelayTime) ==> lastUpdate == now
      ensures !Due(now, old(lastUpdate), DelayTime) ==>
        lastUpdate == old(lastUpdate) && CurStepIdx == old(CurStepIdx) &&
        Completions == old(Completions) && pixels[..] == old(pixels[..])
      ensures Due(now, old(lastUpdate), DelayTime) && HasGenerator(ActivePattern) ==>
        Incremented() &&
        pixels[..] == PatternFrame(ActivePattern, old(pixels[..]), old(CurStepIdx), TotalSteps, Color1, Color2)
      ensures Due(now, old(lastUpdate), DelayTime) && !HasGenerator(ActivePattern) ==>
        CurStepIdx == old(CurStepIdx) && Completions == old(Completions) && pixels[..] == old(pixels[..])
      ensures old(StepInRange()) ==> StepInRange()
    {
      if Due(now, lastUpdate, DelayTime) {
        lastUpdate := now;
        match ActivePattern
        case RainbowCycle => PerformRainbowCycle();
        case TheaterChase => PerformTheaterChase();
        case ColorWipe => PerformColorWipe();
        case Scanner => PerformScanner();
        case Fade => PerformFade();
        case _ =>
      }
    }

    /** Move the index one step in the current direction, wrapping at the
        ends and calling `OnComplete` (when not null) on each wrap. */
    method Increment()
      modifies this`CurStepIdx, this`Completions
      ensures Incremented()
      ensures old(StepInRange()) ==> StepInRange()
    {
      if StepInRange() {
        AdvanceInRange(PatternDirection, CurStepIdx, TotalSteps);
      }
      if PatternDirection == Forward {
        CurStepIdx := ToInt16(CurStepIdx + 1);
        if CurStepIdx >= TotalSteps {
          CurStepIdx := 0;
          if OnComplete != Null {
            Completions := Completions + 1;
          }
        }
      } else {
        CurStepIdx := ToInt16(CurStepIdx - 1);
        if CurStepIdx <= 0 {
          CurStepIdx := ToInt16(TotalSteps - 1);
          if OnComplete != Null {
            Completions := Completions + 1;
          }
        }
      }
    }

    /** Flip the direction and restart from the end the new direction starts
        at: the last step for reverse, step 0 for forward. */
    method Reverse()
      modifies this`PatternDirection, this`CurStepIdx
      ensures PatternDirection == if old(PatternDirection) == Forward then Direction.Reverse else Forward
      ensures CurStepIdx == if PatternDirection == Forward then 0 else ToInt16(TotalSteps - 1)
      ensures TotalSteps >= 1 ==> StepInRange()
    {
      if PatternDirection == Forward {
        PatternDirection := Direction.Reverse;
        CurStepIdx := ToInt16(TotalSteps - 1);
      } else {
        PatternDirection := Forward;
        CurStepIdx := 0;
      }
    }

    /** Select RainbowCycle: 255 steps from step 0. Draws nothing. */
    method ConfigureRainbowCycle(interval: u32, dir: Direction := Forward)
      modifies this`ActivePattern, this`DelayTime, this`TotalSteps, this`CurStepIdx, this`PatternDirection
      ensures ActivePattern == RainbowCycle && DelayTime == interval && PatternDirection == dir
      ensures TotalSteps == 255 && CurStepIdx == 0 && StepInRange()
      ensures unchanged(pixels)
    {
      ActivePattern := RainbowCycle;
      DelayTime := interval;
      TotalSteps := 255;
      CurStepIdx := 0;
      PatternDirection := dir;
    }

    /** Draw one RainbowCycle frame and advance. */
    method PerformRainbowCycle()
      modifies this`CurStepIdx, this`Completions, pixels
      ensures pixels[..] == RainbowFrame(pixels.Length, old(CurStepIdx))
      ensures Incremented()
      ensures old(StepInRange()) ==> StepInRange()
    {
      var n := pixels.Length;
      for i := 0 to n
        modifies pixels
        invariant forall k :: 0 <= k < i ==> pixels[k] == RainbowFrame(n, CurStepIdx)[k]
      {
        pixels[i] := Wheel(((i * 256 / n) + CurStepIdx) % 256);
      }
      Increment();
    }

    /** Select TheaterChase: one step per pixel, from step 0. Draws nothing. */
    method ConfigureTheaterChase(color1: u32, color2: u32, interval: u32, dir: Direction := Forward)
      requires Valid()
      modifies this`ActivePattern, this`DelayTime, this`TotalSteps, this`Color1, this`Color2,
               this`CurStepIdx, this`PatternDirection
      ensures ActivePattern == TheaterChase && DelayTime == interval && PatternDirection == dir
      ensures Color1 == color1 && Color2 == color2
      ensures TotalSteps == ToInt16(pixels.Length) && CurStepIdx == 0
      ensures StepInRange() <==> 1 <= pixels.Length < 0x8000
      ensures unchanged(pixels)
    {
      ActivePattern := TheaterChase;
      DelayTime := interval;
      TotalSteps := ToInt16(pixels.Length);
      Color1 := color1;
      Color2 := color2;
      CurStepIdx := 0;
      PatternDirection := dir;
    }

    /** Draw one TheaterChase frame and advance. */
    method PerformTheaterChase()
      modifies this`CurStepIdx, this`Completions, pixels
      ensures pixels[..] == TheaterChaseFrame(pixels.Length, old(CurStepIdx), Color1, Color2)
      ensures Incremented()
      ensures old(StepInRange()) ==> StepInRange()
    {
      var n := pixels.Length;
      for i := 0 to n
        modifies pixels
        invariant forall k :: 0 <= k < i ==> pixels[k] == TheaterChaseFrame(n, CurStepIdx, Color1, Color2)[k]
      {
        if (i + CurStepIdx) % 3 == 0 {
          pixels[i] := Color1;
        } else {
          pixels[i] := Color2;
        }
      }
      Increment();
    }

    /** Select ColorWipe: one step per pixel, from step 0. Draws nothing. */
    method ConfigureColorWipe(color: u32, interval: u32, dir: Direction := Forward)
      requires Valid()
      modifies this`ActivePattern, this`DelayTime, this`TotalSteps, this`Color1, this`CurStepIdx,
               this`PatternDirection
      ensures ActivePattern == ColorWipe && DelayTime == interval && PatternDirection == dir
      ensures Color1 == color
      ensures TotalSteps == ToInt16(pixels.Length) && CurStepIdx == 0
      ensures StepInRange() <==> 1 <= pixels.Length < 0x8000
      ensures unchanged(pixels)
    {
      ActivePattern := ColorWipe;
      DelayTime := interval;
      TotalSteps := ToInt16(pixels.Length);
      Color1 := color;
      CurStepIdx := 0;
      PatternDirection := dir;
    }

    /** Colour the pixel at the step index and advance. */
    method PerformColorWipe()
      modifies this`CurStepIdx, this`Completions, pixels
      ensures pixels[..] == ColorWipeFrame(old(pixels[..]), old(CurStepIdx), Color1)
      ensures Incremented()
      ensures old(StepInRange()) ==> StepInRange()
    {
      var n := ToUint16(CurStepIdx);
      if n < pixels.Length {
        pixels[n] := Color1;
      }
      Increment();
    }

    /** Select Scanner: out to the last pixel and back, `2 * (n - 1)` steps
        from step 0. The direction is left as it is. Draws nothing. */
    method ConfigureScanner(color1: u32, interval: u32)
      modifies this`ActivePattern, this`DelayTime, this`TotalSteps, this`Color1, this`CurStepIdx
      ensures ActivePattern == Scanner && DelayTime == interval && Color1 == color1
      ensures TotalSteps == ToInt16((pixels.Length - 1) * 2) && CurStepIdx == 0
      ensures 2 <= pixels.Length <= 0x4000 ==> TotalSteps == 2 * (pixels.Length - 1) && StepInRange()
      ensures unchanged(pixels)
    {
      ActivePattern := Scanner;
      DelayTime := interval;
      TotalSteps := ToInt16((pixels.Length - 1) * 2);
      Color1 := color1;
      CurStepIdx := 0;
    }

    /** Light the scanner's eye, dim every other pixel, and advance. */
    method PerformScanner()
      modifies this`CurStepIdx, this`Completions, pixels
      ensures pixels[..] == ScannerFrame(old(pixels[..]), old(CurStepIdx), TotalSteps, Color1)
      ensures Incremented()
      ensures old(StepInRange()) ==> StepInRange()
    {
      var n := pixels.Length;
      for i := 0 to n
        modifies pixels
        invariant forall k :: 0 <= k < i ==>
          pixels[k] == ScannerFrame(old(pixels[..]), CurStepIdx, TotalSteps, Color1)[k]
        invariant forall k :: i <= k < n ==> pixels[k] == old(pixels[k])
      {
        if i == CurStepIdx {
          pixels[i] := Color1;
        } else if i == TotalSteps - CurStepIdx {
          pixels[i] := Color1;
        } else {
          pixels[i] := DimColor(pixels[i]);
        }
      }
      Increment();
    }

    /** Select Fade over `steps` steps from step 0. `steps` is a `uint16_t`
        stored into the `int16_t` field, so the fade is well formed (its
        index can stay in range) exactly for 1..32767 steps. Draws
        nothing. */
    method ConfigureFade(color1: u32, color2: u32, steps: u16, interval: u32, dir: Direction := Forward)
      modifies this`ActivePattern, this`DelayTime, this`TotalSteps, this`Color1, this`Color2,
               this`CurStepIdx, this`PatternDirection
      ensures ActivePattern == Fade && DelayTime == interval && PatternDirection == dir
      ensures Color1 == color1 && Color2 == color2
      ensures TotalSteps == ToInt16(steps) && CurStepIdx == 0
      ensures StepInRange() <==> 1 <= steps < 0x8000
      ensures unchanged(pixels)
    {
      ActivePattern := Fade;
      DelayTime := interval;
      TotalSteps := ToInt16(steps);
      Color1 := color1;
      Color2 := color2;
      CurStepIdx := 0;
      PatternDirection := dir;
    }

    /** Fill the strip with the interpolated colour for this step and
        advance. A zero step count would divide by zero. */
    method PerformFade()
      requires TotalSteps != 0
      modifies this`CurStepIdx, this`Completions, pixels
      ensures pixels[..] == Solid(pixels.Length, FadeColor(Color1, Color2, old(CurStepIdx), TotalSteps))
      ensures Incremented()
      ensures old(StepInRange()) ==> StepInRange()
    {
      var total: int, idx: int := TotalSteps, CurStepIdx;
      var red := TruncDiv(RedComponent(Color1) * (total - idx) + RedComponent(Color2) * idx, total) % 256;
      var green := TruncDiv(GreenComponent(Color1) * (total - idx) + GreenComponent(Color2) * idx, total) % 256;
      var blue := TruncDiv(BlueComponent(Color1) * (total - idx) + BlueComponent(Color2) * idx, total) % 256;
      assert red == FadeChannel(RedComponent(Color1), RedComponent(Color2), idx, total);
      assert green == FadeChannel(GreenComponent(Color1), GreenComponent(Color2), idx, total);
      assert blue == FadeChannel(BlueComponent(Color1), BlueComponent(Color2), idx, total);
      ColorSet(Pack(red, green, blue));
      Increment();
    }

    /** Set every pixel to `color` at once, outside the step machine. */
    method ColorSet(color: u32)
      modifies pixels
      ensures pixels[..] == Solid(pixels.Length, color)
    {
      for i := 0 to pixels.Length
        invariant forall k :: 0 <= k < i ==> pixels[k] == color
      {
        pixels[i] := color;
      }
    }
  }
}
