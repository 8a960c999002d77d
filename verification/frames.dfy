/** The pixel rules of the five frame generators of NeoPatterns, as
    functions from the buffer and the step index to the next buffer.

    A buffer is the strip's pixel colours in index order; reading a pixel
    gives back the last colour written to it.
 */
module Frames {
  import opened Colors
  import opened Stepping

  /** Every pixel the same colour (`ColorSet`). */
  function Solid(n: nat, c: u32): seq<u32>
  {
    seq(n, _ => c)
  }

  /** Where pixel `i` of `n` sits on the wheel at step `idx`:
      `((i * 256 / n) + idx) & 255`. On integers `x & 255` is `x` modulo
      256, also for negative `x`. */
  function RainbowPosition(n: nat, i: nat, idx: int): u8
    requires i < n
  {
    ((i * 256 / n) + idx) % 256
  }

  /** RainbowCycle: every pixel shows the wheel at its position, so the
      strip spans the whole wheel once and the step index turns it. */
  function RainbowFrame(n: nat, idx: int): seq<u32>
  {
    seq(n, i requires 0 <= i < n => Wheel(RainbowPosition(n, i, idx)))
  }

  /** RainbowCycle draws full-intensity hues only. */
  lemma RainbowFrameIsWheel(n: nat, idx: int, i: nat)
    requires i < n
    ensures var c := RainbowFrame(n, idx)[i];
      RedComponent(c) + GreenComponent(c) + BlueComponent(c) == 255
  {
    WheelChannelsSum(RainbowPosition(n, i, idx));
  }

  /** From index `idx` to index `idx + 1` every pixel turns one position
      on along the wheel, 255 turning to 0. */
  lemma RainbowTurnsByOne(n: nat, idx: int, i: nat)
    requires i < n
    ensures RainbowPosition(n, i, idx + 1) == (RainbowPosition(n, i, idx) + 1) % 256
  {
    NextByteValue(i * 256 / n + idx);
  }

  lemma NextByteValue(x: int)
    ensures (x + 1) % 256 == (x % 256 + 1) % 256
  {
  }

  /** One real forward step of a rainbow cycle (`TotalSteps` is 255):
      every pixel turns one position on, except on the wrap from 254 to 0,
      which turns it two positions and skips one wheel colour. */
  lemma RainbowStepForward(n: nat, idx: i16, i: nat)
    requires i < n && InRange(idx, 255)
    ensures RainbowPosition(n, i, Advance(Forward, idx, 255).idx) ==
            (RainbowPosition(n, i, idx) + if idx == 254 then 2 else 1) % 256
  {
    var d := if idx == 254 then 2 else 1;
    AdvanceInRange(Forward, idx, 255);
    WheelShift(i * 256 / n, idx, d, Advance(Forward, idx, 255).idx);
  }

  /** One real reverse step of a rainbow cycle: every pixel turns one
      position back, except on the wrap to 254, which from 1 turns it three
      positions back and from 0 two positions back. */
  lemma RainbowStepReverse(n: nat, idx: i16, i: nat)
    requires i < n && InRange(idx, 255)
    ensures RainbowPosition(n, i, Advance(Reverse, idx, 255).idx) ==
            (RainbowPosition(n, i, idx) + if idx == 1 then 253 else if idx == 0 then 254 else 255) % 256
  {
    var d := if idx == 1 then 253 else if idx == 0 then 254 else 255;
    AdvanceInRange(Reverse, idx, 255);
    WheelShift(i * 256 / n, idx, d, Advance(Reverse, idx, 255).idx);
  }

  /** Moving the index from `idx` to `next`, congruent to `idx + d`, turns
      a wheel position `x + idx` by `d`. */
  lemma WheelShift(x: int, idx: int, d: int, next: int)
    requires (next - (idx + d)) % 256 == 0
    ensures (x + next) % 256 == ((x + idx) % 256 + d) % 256
  {
    var q := (next - (idx + d)) / 256;
    assert next == idx + d + 256 * q;
    var r := (x + idx) / 256;
    assert x + next == (x + idx) % 256 + d + 256 * (q + r);
  }

  /** TheaterChase: pixel `i` is `c1` when `(i + idx) % 3 == 0` and `c2`
      otherwise. Only the test against 0 matters, and it means the same
      under C's truncating `%` as under Dafny's. */
  function TheaterChaseFrame(n: nat, idx: int, c1: u32, c2: u32): seq<u32>
  {
    seq(n, i requires 0 <= i < n => if (i + idx) % 3 == 0 then c1 else c2)
  }

  /** From index `idx` to index `idx + 1` the chase moves one pixel towards
      index 0, and three indices on the frame is the same again. */
  lemma TheaterChaseMoves(n: nat, idx: int, c1: u32, c2: u32, i: nat)
    requires i + 1 < n
    ensures TheaterChaseFrame(n, idx + 1, c1, c2)[i] == TheaterChaseFrame(n, idx, c1, c2)[i + 1]
    ensures TheaterChaseFrame(n, idx + 3, c1, c2) == TheaterChaseFrame(n, idx, c1, c2)
  {
  }

  /** One real forward step of a chase over `n` pixels (`TotalSteps` is
      `n`). Away from the wrap the chase moves one pixel. On the wrap from
      `n - 1` to 0 it moves one pixel only when `n` is a multiple of 3, and
      otherwise it jumps: pixel 0 then differs from what pixel 1 showed. */
  lemma TheaterChaseStep(n: i16, idx: i16, c1: u32, c2: u32, i: nat)
    requires InRange(idx, n) && i + 1 < n
    ensures idx < n - 1 || n % 3 == 0 ==>
            TheaterChaseFrame(n, Advance(Forward, idx, n).idx, c1, c2)[i] ==
            TheaterChaseFrame(n, idx, c1, c2)[i + 1]
    ensures idx == n - 1 && n % 3 != 0 && c1 != c2 ==>
            TheaterChaseFrame(n, Advance(Forward, idx, n).idx, c1, c2)[0] !=
            TheaterChaseFrame(n, idx, c1, c2)[1]
  {
    AdvanceInRange(Forward, idx, n);
    if idx == n - 1 {
      assert (i + 1 + idx) % 3 == (i + n) % 3;
    }
  }

  /** Any three neighbouring pixels include one lit with `c1`. */
  lemma TheaterChaseEveryThird(n: nat, idx: int, c1: u32, c2: u32, i: nat)
    requires i + 2 < n
    ensures c1 in TheaterChaseFrame(n, idx, c1, c2)[i..i + 3]
  {
    var f := TheaterChaseFrame(n, idx, c1, c2);
    var j := if (i + idx) % 3 == 0 then i else if (i + idx) % 3 == 2 then i + 1 else i + 2;
    assert (j + idx) % 3 == 0;
    assert f[i..i + 3][j - i] == c1;
  }

  /** ColorWipe: only the pixel at the step index is written; the strip
      ignores an index (taken as `uint16_t`) past its end. */
  function ColorWipeFrame(buf: seq<u32>, idx: int, c: u32): seq<u32>
  {
    var n := ToUint16(idx);
    if n < |buf| then buf[n := c] else buf
  }

  /** A wipe frame at an index in range colours that pixel and no other. */
  lemma ColorWipeWritesOnePixel(buf: seq<u32>, idx: int, c: u32)
    requires InRange(idx, |buf|) && |buf| < 0x1_0000
    ensures |ColorWipeFrame(buf, idx, c)| == |buf|
    ensures ColorWipeFrame(buf, idx, c)[idx] == c
    ensures forall j :: 0 <= j < |buf| && j != idx ==> ColorWipeFrame(buf, idx, c)[j] == buf[j]
  {
  }

  /** The buffer after `k` ColorWipe frames from step 0 going forward over
      `total` steps. */
  function WipeRun(buf: seq<u32>, c: u32, total: i16, k: nat): seq<u32>
  {
    if k == 0 then buf
    else ColorWipeFrame(WipeRun(buf, c, total, k - 1), AdvanceN(Forward, 0, total, k - 1).idx, c)
  }

  /** A wipe over the whole strip (`total` is the pixel count) colours the
      pixels one by one from index 0: after `k` frames exactly the first
      `k` pixels have been wiped and the rest are as they were. */
  lemma {:induction false} WipeRunFillsPrefix(buf: seq<u32>, c: u32, total: i16, k: nat)
    requires |buf| == total && k <= total
    ensures |WipeRun(buf, c, total, k)| == |buf|
    ensures forall j :: 0 <= j < k ==> WipeRun(buf, c, total, k)[j] == c
    ensures forall j :: k <= j < |buf| ==> WipeRun(buf, c, total, k)[j] == buf[j]
  {
    if k > 0 {
      WipeRunFillsPrefix(buf, c, total, k - 1);
      ForwardRun(0, total, k - 1);
      ColorWipeWritesOnePixel(WipeRun(buf, c, total, k - 1), k - 1, c);
    }
  }

  /** Scanner: the pixel at the step index and the one at `total - idx` get
      `c`; every other pixel gets the dimmed version of its own previous
      colour, which leaves a fading tail. */
  function ScannerFrame(buf: seq<u32>, idx: int, total: int, c: u32): seq<u32>
  {
    seq(|buf|, i requires 0 <= i < |buf| =>
      if i == idx then c else if i == total - idx then c else DimColor(buf[i]))
  }

  /** Whether the scanner lights pixel `i` at step `idx`. */
  predicate Lit(i: int, idx: int, total: int)
  {
    i == idx || i == total - idx
  }

  /** Where the scanner's eye is at step `idx` on an `n`-pixel strip: it runs
      out to the last pixel and back. */
  function ScanHead(n: int, idx: int): int
  {
    if idx < n then idx else 2 * (n - 1) - idx
  }

  /** With `total = 2 * (n - 1)` and the index in range, exactly one pixel
      in range is lit each frame: the eye, which gets `c`; every other pixel
      is dimmed. */
  lemma ScannerLightsOnePixel(buf: seq<u32>, idx: int, total: int, c: u32)
    requires |buf| >= 2 && total == 2 * (|buf| - 1) && InRange(idx, total)
    ensures 0 <= ScanHead(|buf|, idx) < |buf|
    ensures forall i :: 0 <= i < |buf| ==> (Lit(i, idx, total) <==> i == ScanHead(|buf|, idx))
    ensures forall i :: 0 <= i < |buf| ==>
      ScannerFrame(buf, idx, total, c)[i] == if i == ScanHead(|buf|, idx) then c else DimColor(buf[i])
  {
  }

  function Abs(x: int): nat
  {
    if x < 0 then -x else x
  }

  /** C's integer division, which truncates toward zero. */
  function TruncDiv(x: int, d: int): int
    requires d != 0
  {
    var q := Abs(x) / Abs(d);
    if (x < 0) == (d < 0) then q else -q
  }

  function Min(a: int, b: int): int
  {
    if a < b then a else b
  }

  function Max(a: int, b: int): int
  {
    if a < b then b else a
  }

  /** One channel of a Fade frame: `(a * (total - idx) + b * idx) / total`,
      computed on `int` and stored in a `uint8_t`. */
  function FadeChannel(a: u8, b: u8, idx: int, total: int): u8
    requires total != 0
  {
    TruncDiv(a * (total - idx) + b * idx, total) % 256
  }

  lemma MulLeft(x: int, y: int, z: int)
    requires x <= y && z >= 0
    ensures x * z <= y * z
  {
  }

  /** The fade numerator weighs the two ends by non-negative weights that
      add up to `total`, so it lies between `total` times either end. */
  lemma FadeNumeratorBetween(a: u8, b: u8, idx: int, total: int)
    requires 0 <= idx <= total
    ensures Min(a, b) * total <= a * (total - idx) + b * idx <= Max(a, b) * total
  {
    var lo, hi := Min(a, b), Max(a, b);
    MulLeft(lo, a, total - idx);
    MulLeft(a, hi, total - idx);
    MulLeft(lo, b, idx);
    MulLeft(b, hi, idx);
    assert lo * total == lo * (total - idx) + lo * idx;
    assert hi * total == hi * (total - idx) + hi * idx;
  }

  /** Rounding down a quotient keeps it between bounds whose multiples
      enclose the dividend. */
  lemma DivBetween(x: int, d: int, lo: int, hi: int)
    requires d > 0 && lo * d <= x <= hi * d
    ensures lo <= x / d <= hi
  {
    var q, r := x / d, x % d;
    assert x == q * d + r && 0 <= r < d;
    if q < lo {
      MulLeft(q + 1, lo, d);
    }
    if q > hi {
      MulLeft(hi + 1, q, d);
    }
  }

  lemma DivExact(a: int, d: int)
    requires d > 0
    ensures (a * d) / d == a
  {
    DivBetween(a * d, d, a, a);
  }

  /** For an index between 0 and `total`, the channel is the rounded-down
      weighted mean of its two ends: it lies between them, so the `uint8_t`
      never truncates, and it is exactly `a` at index 0 and `b` at `total`. */
  lemma FadeChannelInterpolates(a: u8, b: u8, idx: int, total: int)
    requires 0 <= idx <= total && total > 0
    ensures FadeChannel(a, b, idx, total) == (a * (total - idx) + b * idx) / total
    ensures Min(a, b) <= FadeChannel(a, b, idx, total) <= Max(a, b)
    ensures idx == 0 ==> FadeChannel(a, b, idx, total) == a
    ensures idx == total ==> FadeChannel(a, b, idx, total) == b
  {
    var x := a * (total - idx) + b * idx;
    FadeNumeratorBetween(a, b, idx, total);
    DivBetween(x, total, Min(a, b), Max(a, b));
    assert TruncDiv(x, total) == x / total;
    if idx == 0 {
      assert x == a * total;
      DivExact(a, total);
    }
    if idx == total {
      assert x == b * total;
      DivExact(b, total);
    }
  }

  /** The colour of a Fade frame: the three channels faded separately. */
  function FadeColor(c1: u32, c2: u32, idx: int, total: int): u32
    requires total != 0
  {
    Pack(FadeChannel(RedComponent(c1), RedComponent(c2), idx, total),
         FadeChannel(GreenComponent(c1), GreenComponent(c2), idx, total),
         FadeChannel(BlueComponent(c1), BlueComponent(c2), idx, total))
  }

  /** A fade starts on `c1` and would end on `c2`; in between every channel
      of the colour stays between the same channel of the two ends. */
  lemma FadeColorBetween(c1: u32, c2: u32, idx: int, total: int)
    requires 0 <= idx <= total && total > 0
    requires c1 < 0x100_0000 && c2 < 0x100_0000
    ensures idx == 0 ==> FadeColor(c1, c2, idx, total) == c1
    ensures idx == total ==> FadeColor(c1, c2, idx, total) == c2
    ensures var c := FadeColor(c1, c2, idx, total);
      Min(RedComponent(c1), RedComponent(c2)) <= RedComponent(c) <= Max(RedComponent(c1), RedComponent(c2)) &&
      Min(GreenComponent(c1), GreenComponent(c2)) <= GreenComponent(c) <= Max(GreenComponent(c1), GreenComponent(c2)) &&
      Min(BlueComponent(c1), BlueComponent(c2)) <= BlueComponent(c) <= Max(BlueComponent(c1), BlueComponent(c2))
  {
    var r1, g1, b1 := RedComponent(c1), GreenComponent(c1), BlueComponent(c1);
    var r2, g2, b2 := RedComponent(c2), GreenComponent(c2), BlueComponent(c2);
    FadeChannelInterpolates(r1, r2, idx, total);
    FadeChannelInterpolates(g1, g2, idx, total);
    FadeChannelInterpolates(b1, b2, idx, total);
    ComponentsOfPack(FadeChannel(r1, r2, idx, total), FadeChannel(g1, g2, idx, total), FadeChannel(b1, b2, idx, total));
    PackOfComponents(c1);
    PackOfComponents(c2);
  }
}
