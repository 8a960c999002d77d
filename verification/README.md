# NeoPatterns in Dafny

A model of the NeoPatterns library. The library drives an addressable LED
strip through timer-gated, non-blocking animations: rainbow cycle, theater
chase, colour wipe, scanner and fade. One `NeoPatterns` object serves one
strip. The caller polls it with `PerformPattern`. When more than
`DelayTime` ms have passed since the last frame, the object draws one frame
into the pixel buffer and moves its step index with `Increment`.
`Increment` calls the completion callback every time the index wraps.

The project has four modules:

- `Colors` (colors.dfy) holds the pure integer colour utilities. A colour
  is a packed `r << 16 | g << 8 | b`. The module covers channel extraction,
  `DimColor`, the colour `Wheel` and the `GetKnownColorValue` table.
- `Stepping` (stepping.dfy) covers the step-index machine and the frame
  timer. `Advance` is `Increment` as a function of direction, index and
  step count. `AdvanceN` iterates it. `Due` is the 32-bit time gate.
  `ToInt16` models the `int16_t` conversions: `CurStepIdx` and
  `TotalSteps` are `int16_t`, and every value stored into them goes
  through this conversion.
- `Frames` (frames.dfy) gives the pixel rule of each generator as a
  function from the old buffer and the step index to the new buffer.
- `Patterns` (neopatterns.dfy) holds the `NeoPatterns` class. Its fields
  are the library's fields. The pixel buffer is an `array<u32>` of length
  `numPixels()`. `Completions` counts calls of the completion callback.
  Every method is proved against the functions above. Field-level
  `modifies` clauses state which fields a method may change, and every
  other field stays as it was. The `Configure*` methods do not list the
  pixel buffer, so they never draw.

The model follows the code in these places. Some descriptions of the
library say otherwise.

- The timer is strict. A frame is due only when
  `(now - lastUpdate) mod 2^32 > DelayTime`, so a poll exactly `DelayTime`
  ms after a frame draws nothing (`DueIffDelayExceeded`).
- Every `Configure*` sets the index to 0, also for `REVERSE`. The first
  reverse `Increment` therefore wraps at once to `TotalSteps - 1` and calls
  the callback (`ReverseFromZeroWrapsAtOnce`).
- A reverse step wraps as soon as the index reaches 0 or below. So in
  reverse the index never rests on 0 once `TotalSteps >= 2`, and a reverse
  cycle is `TotalSteps - 1` steps long (`ReverseNeverRestsOnZero`,
  `ReverseCycle`).
- `Wheel(255)` is red, the same as `Wheel(0)`. The header comment calls
  255 blue (`WheelPrimaries`).
- `PerformFade` is only ever called with an index below `TotalSteps`,
  because `Increment` wraps first. So the fade's last frame is one step
  short of `Color2` (`FadeColorBetween`).

## Model

| member | source | states |
|---|---|---|
| `Colors.Pack` | Neopatterns/Neopatterns.cpp:286 | Packing three 8-bit channels gives a colour that fits in 24 bits. |
| `Colors.ComponentsOfPack` | Neopatterns/Neopatterns.cpp:214-227 | Extracting red, green and blue from `Pack(r, g, b)` gives back `r`, `g` and `b`. |
| `Colors.PackOfComponents` | Neopatterns/Neopatterns.cpp:214-227 | Repacking the three extracted channels of any 24-bit colour gives back the colour. |
| `Colors.DimColor` | Neopatterns/Neopatterns.cpp:198-203 | A dimmed colour is again a 24-bit colour. |
| `Colors.DimColorHalvesChannels` | Neopatterns/Neopatterns.cpp:198-203 | Each channel of `DimColor(c)` is exactly the floor of half the same channel of `c`. |
| `Colors.DimWhiteTwice` | Neopatterns/Neopatterns.cpp:198-203 | Dimming (255,255,255) twice gives (63,63,63). |
| `Colors.Wheel` | Neopatterns/Neopatterns.cpp:229-246 | Every wheel colour is a 24-bit colour. |
| `Colors.WheelChannelsSum` | Neopatterns/Neopatterns.cpp:229-246 | The packed wheel colour carries the wheel's three channels, and they sum to 255 at every position. |
| `Colors.WheelPrimaries` | Neopatterns/Neopatterns.cpp:229-246 | `Wheel(0)` and `Wheel(255)` are pure red, `Wheel(85)` is pure green, `Wheel(170)` is pure blue. |
| `Colors.WheelIsContinuous` | Neopatterns/Neopatterns.h:331-340 | Moving one position on the wheel, including from 255 to 0, changes no channel by more than 3. |
| `Colors.Ordinal` | Neopatterns/Neopatterns.h:28-35 | The six named colours have the enumeration values 0 to 5. |
| `Colors.GetKnownColorValue` | Neopatterns/Neopatterns.cpp:248-287 | The value is a 24-bit colour, and it is black exactly when the argument is not one of the six enumeration values. |
| `Colors.KnownColorsAreDistinct` | Neopatterns/Neopatterns.cpp:248-287 | Two named colours have the same value only if they are the same name. |
| `Stepping.ToInt16` | Neopatterns/Neopatterns.h:51-52 | Storing into an `int16_t` keeps any value in range and otherwise keeps the value modulo 2^16. |
| `Stepping.ToUint16` | Neopatterns/Neopatterns.cpp:138 | Passing the index as a `uint16_t` pixel number keeps any value in range and otherwise keeps the value modulo 2^16. |
| `Stepping.AdvanceInRange` | Neopatterns/Neopatterns.cpp:36-62 | From an index in `[0, TotalSteps)` one step stays in range. It wraps exactly at the end it walks towards: forward at `TotalSteps - 1`, reverse at 1 or below. A wrap lands on 0 or on `TotalSteps - 1`. Without a wrap the index moves by exactly one. |
| `Stepping.CallbackOnlyOnWrap` | Neopatterns/Neopatterns.cpp:44-58 | One step calls the callback at most once, and exactly when it wraps with a non-null callback. |
| `Stepping.ReverseNeverRestsOnZero` | Neopatterns/Neopatterns.cpp:50-61 | With `TotalSteps >= 2`, a reverse step never leaves the index at 0, whatever it was before. |
| `Stepping.ReverseFromZeroWrapsAtOnce` | Neopatterns/Neopatterns.cpp:52-60 | A reverse step from index 0, where every `Configure*` leaves it, wraps at once to `TotalSteps - 1`. |
| `Stepping.ForwardRun` | Neopatterns/Neopatterns.cpp:38-49 | From an index in range, `k <= TotalSteps` forward steps give `idx + k` with no wrap, or `idx + k - TotalSteps` with exactly one wrap. |
| `Stepping.ForwardCycle` | Neopatterns/Neopatterns.cpp:38-49 | `TotalSteps` forward steps from any index in range come back to it with exactly one wrap. For a rainbow from 0, 255 steps come back to 0 with one wrap, so with one callback unless `OnComplete` is null. |
| `Stepping.ReverseRun` | Neopatterns/Neopatterns.cpp:50-61 | From `TotalSteps - 1`, reverse steps count down to 1 without wrapping, then the next step wraps back to `TotalSteps - 1`. |
| `Stepping.ReverseCycle` | Neopatterns/Neopatterns.cpp:50-61 | `TotalSteps - 1` reverse steps from the far end come back to it with exactly one wrap. |
| `Stepping.DueIffDelayExceeded` | Neopatterns/Neopatterns.cpp:10 | A clock reading `k` ms after `lastUpdate` (the clock wrapping at 2^32) is due iff `k > DelayTime`, strictly. |
| `Frames.RainbowFrameIsWheel` | Neopatterns/Neopatterns.cpp:88-96 | Every pixel of a rainbow frame is a wheel colour whose channels sum to 255. |
| `Frames.RainbowTurnsByOne` | Neopatterns/Neopatterns.cpp:92 | From index `idx` to index `idx + 1`, each pixel's wheel position moves on by one, modulo 256. |
| `Frames.RainbowStepForward` | Neopatterns/Neopatterns.cpp:88-96 | One forward step of a rainbow cycle (255 steps) turns every pixel one wheel position on. The exception is the wrap from 254 to 0, which turns it two positions and skips one colour. |
| `Frames.RainbowStepReverse` | Neopatterns/Neopatterns.cpp:88-96 | One reverse step turns every pixel one wheel position back. The exception is the wrap to 254, which turns it three positions back from 1 and two from 0. |
| `Frames.TheaterChaseMoves` | Neopatterns/Neopatterns.cpp:109-124 | At index `idx + 1`, pixel `i` shows what pixel `i + 1` showed at index `idx`. Three indices on, the frame is the same again. |
| `Frames.TheaterChaseStep` | Neopatterns/Neopatterns.cpp:109-124 | One forward step of a chase over `N` pixels moves it one pixel, except on the wrap from `N - 1` to 0. That wrap moves it one pixel when `N` is a multiple of 3. Otherwise, with two different colours, pixel 0 differs from what pixel 1 showed. |
| `Frames.TheaterChaseEveryThird` | Neopatterns/Neopatterns.cpp:113-120 | Any three neighbouring pixels of a chase frame include one set to `Color1`. |
| `Frames.ColorWipeWritesOnePixel` | Neopatterns/Neopatterns.cpp:136-141 | A wipe frame at an index in range sets that pixel to `Color1` and leaves every other pixel unchanged. |
| `Frames.WipeRunFillsPrefix` | Neopatterns/Neopatterns.cpp:126-141 | On a strip with one step per pixel, `k` forward wipe frames from step 0 leave exactly the first `k` pixels wiped and the rest unchanged. |
| `Frames.ScannerLightsOnePixel` | Neopatterns/Neopatterns.cpp:152-171 | With `N >= 2`, `TotalSteps = 2(N-1)` and the index in range, exactly one in-range pixel is lit (the eye). It gets `Color1`, and every other pixel becomes `DimColor` of its previous value. |
| `Frames.FadeChannelInterpolates` | Neopatterns/Neopatterns.cpp:189-191 | For `0 <= idx <= T`, the channel is `(c1*(T-idx) + c2*idx)/T` with no `uint8_t` truncation. It lies between `c1` and `c2`, equals `c1` at 0 and equals `c2` at `T`. |
| `Frames.FadeColorBetween` | Neopatterns/Neopatterns.cpp:185-196 | The fade colour is `Color1` at step 0 and `Color2` at step `T`. Every channel stays between the two colours' channels. |
| `Patterns.NeoPatterns.constructor` | Neopatterns/Neopatterns.cpp:3-6 | Sets `OnComplete` to the given callback, which defaults to the non-null no-op. The strip starts dark. |
| `Patterns.NeoPatterns.PerformPattern` | Neopatterns/Neopatterns.cpp:8-34 | When not due, nothing changes. When due, sets `lastUpdate = now`. For a pattern with a generator it then draws exactly that pattern's frame and takes one `Increment`. For `None` and `TheaterChaseRainbow` it changes nothing else. Keeps the index in range. |
| `Patterns.NeoPatterns.Increment` | Neopatterns/Neopatterns.cpp:36-62 | The index becomes `Advance(...).idx`, and the callback counter grows by one exactly on a wrap with a non-null callback. No other field changes, and an index in range stays in range. |
| `Patterns.NeoPatterns.Reverse` | Neopatterns/Neopatterns.cpp:64-76 | Toggles the direction. Sets the index to `TotalSteps - 1` when now reverse, or to 0 when now forward. Changes nothing else. |
| `Patterns.NeoPatterns.ConfigureRainbowCycle` | Neopatterns/Neopatterns.cpp:79-86 | Sets the pattern, delay and direction, 255 steps and index 0. Leaves the pixels unchanged. |
| `Patterns.NeoPatterns.PerformRainbowCycle` | Neopatterns/Neopatterns.cpp:88-96 | Pixel `i` becomes `Wheel(((i*256/N) + idx) & 255)`, then one `Increment`. |
| `Patterns.NeoPatterns.ConfigureTheaterChase` | Neopatterns/Neopatterns.cpp:98-107 | Sets the pattern, both colours, delay and direction, `numPixels` steps and index 0. The index is in range iff `1 <= N <= 32767`. Leaves the pixels unchanged. |
| `Patterns.NeoPatterns.PerformTheaterChase` | Neopatterns/Neopatterns.cpp:109-124 | Pixel `i` becomes `Color1` iff `(i + idx) % 3 == 0` and `Color2` otherwise, then one `Increment`. |
| `Patterns.NeoPatterns.ConfigureColorWipe` | Neopatterns/Neopatterns.cpp:126-134 | Sets the pattern, `Color1`, delay and direction, `numPixels` steps and index 0. Leaves `Color2` and the pixels unchanged. |
| `Patterns.NeoPatterns.PerformColorWipe` | Neopatterns/Neopatterns.cpp:136-141 | Only pixel `CurStepIdx` is written, with `Color1`, then one `Increment`. |
| `Patterns.NeoPatterns.ConfigureScanner` | Neopatterns/Neopatterns.cpp:143-150 | Sets the pattern, `Color1` and delay, `2*(N-1)` steps and index 0. Leaves the direction, `Color2` and the pixels unchanged. |
| `Patterns.NeoPatterns.PerformScanner` | Neopatterns/Neopatterns.cpp:152-171 | Pixels `idx` and `TotalSteps - idx` get `Color1`, and every other pixel gets `DimColor` of its previous value, then one `Increment`. |
| `Patterns.NeoPatterns.ConfigureFade` | Neopatterns/Neopatterns.cpp:173-182 | Sets the pattern, both colours, delay and direction, `int16_t(steps)` steps and index 0. The index is in range iff `1 <= steps <= 32767`. Leaves the pixels unchanged. |
| `Patterns.NeoPatterns.PerformFade` | Neopatterns/Neopatterns.cpp:185-196 | Every pixel becomes the per-channel interpolation of `Color1` and `Color2` at the current step, then one `Increment`. Requires a non-zero step count. |
| `Patterns.NeoPatterns.ColorSet` | Neopatterns/Neopatterns.cpp:205-212 | Every pixel becomes the given colour. |

## Left out

- `ConfigureTheaterChaseRainbow`, `PerformTheaterChaseRainbow` and the
  `RainbowTheaterIter` field are declared (Neopatterns/Neopatterns.h:53,
  172, 184) but have no definitions. The pattern value
  `TheaterChaseRainbow` is kept, and dispatch does nothing for it.
- The `Adafruit_NeoPixel` base class is not part of this model. Its pixel
  storage is a plain array that reads back the last value written. The
  model ignores brightness scaling and the 24-bit (or RGBW) storage width.
  `setPixelColor` ignores a pixel number at or past the strip's end.
  `show()` does nothing in the model.
- `millis()` becomes the parameter `now`. The C++ code reads the clock twice
  in `PerformPattern`, once for the test and once to record it. The model
  uses one reading for both.
- The completion callback's own effects are not modelled. Only the number
  of calls is counted (`Completions`). A null callback is never called.
- The constructor's `pin` and `type` arguments are hardware details and are
  left out. The C++ code leaves every field except `OnComplete` uninitialised.
  The model starts those fields at zero, `None` and `Forward`.
- Arithmetic inside expressions uses mathematical integers. On 8-bit AVR
  targets `int` is 16 bits wide, and `255 * TotalSteps` in the fade and
  `i * 256` in the rainbow can overflow there. The model does not
  reproduce that overflow. Conversions into the `int16_t`, `uint16_t` and
  `uint8_t` variables are modelled.
- Concurrency does not arise. Every operation runs to completion on the
  caller's single loop.
