/** The step-index state machine and the frame timer of NeoPatterns, as
    functions of the values involved.

    `CurStepIdx` and `TotalSteps` are `int16_t` fields: every value stored
    into them passes through `ToInt16`. `millis()`, `lastUpdate` and
    `DelayTime` are 32-bit unsigned values and their difference wraps
    modulo 2^32.
 */
module Stepping {
  import opened Colors

  type i16 = x: int | -0x8000 <= x < 0x8000
  type u16 = x: int | 0 <= x < 0x1_0000

  /** Conversion to `int16_t`: keep the low 16 bits, read in two's
      complement. Values that fit are kept as they are. */
  function ToInt16(x: int): (r: i16)
    ensures -0x8000 <= x < 0x8000 ==> r == x
    ensures (x - r) % 0x1_0000 == 0
  {
    var m := x % 0x1_0000;
    if m < 0x8000 then m else m - 0x1_0000
  }

  /** Conversion to `uint16_t` (the pixel index type of the strip). */
  function ToUint16(x: int): (r: u16)
    ensures 0 <= x < 0x1_0000 ==> r == x
    ensures (x - r) % 0x1_0000 == 0
  {
    x % 0x1_0000
  }

  datatype Direction = Forward | Reverse

  /** The completion callback, as far as the step machine can tell: a null
      pointer (never called), the constructor's default empty function, or
      a function the caller passed in. */
  datatype Callback = Null | NoOp | User

  /** The new index after one `Increment`, and whether it wrapped. */
  datatype StepResult = StepResult(idx: i16, wrapped: bool)

  /** `Increment` on the index: forward, step up and wrap to 0 once the
      index reaches `total`; in reverse, step down and wrap to `total - 1`
      once the index reaches 0 or below. */
  function Advance(dir: Direction, idx: i16, total: i16): StepResult
  {
    match dir
    case Forward =>
      var next := ToInt16(idx + 1);
      if next >= total then StepResult(0, true) else StepResult(next, false)
    case Reverse =>
      var next := ToInt16(idx - 1);
      if next <= 0 then StepResult(ToInt16(total - 1), true) else StepResult(next, false)
  }

  /** How many times one `Increment` calls `OnComplete`. */
  function CallbackCalls(cb: Callback, wrapped: bool): nat
  {
    if wrapped && cb != Null then 1 else 0
  }

  /** The steady-state range of the step index. */
  predicate InRange(idx: int, total: int)
  {
    0 <= idx < total
  }

  /** From an index in range, one step keeps it in range; it wraps exactly
      at the end the direction walks towards, and otherwise moves by
      exactly one. */
  lemma AdvanceInRange(dir: Direction, idx: i16, total: i16)
    requires InRange(idx, total)
    ensures InRange(Advance(dir, idx, total).idx, total)
    ensures Advance(dir, idx, total).wrapped <==>
            if dir == Forward then idx == total - 1 else idx <= 1
    ensures Advance(dir, idx, total).wrapped ==>
            Advance(dir, idx, total).idx == if dir == Forward then 0 else total - 1
    ensures !Advance(dir, idx, total).wrapped ==>
            Advance(dir, idx, total).idx == if dir == Forward then idx + 1 else idx - 1
  {
  }

  /** The callback runs exactly on a wrap, unless it is null. */
  lemma CallbackOnlyOnWrap(cb: Callback, wrapped: bool)
    ensures CallbackCalls(cb, wrapped) <= 1
    ensures CallbackCalls(cb, wrapped) == 1 <==> wrapped && cb != Null
  {
  }

  /** In reverse the wrap already fires on reaching 0, so with at least two
      steps the index never rests on 0, whatever it was before. */
  lemma ReverseNeverRestsOnZero(idx: i16, total: i16)
    requires total >= 2
    ensures Advance(Reverse, idx, total).idx != 0
  {
  }

  /** Every `Configure*` leaves the index at 0, also in reverse: the first
      reverse step then wraps at once to the far end and fires the
      callback. */
  lemma ReverseFromZeroWrapsAtOnce(total: i16)
    requires total >= 1
    ensures Advance(Reverse, 0, total) == StepResult(total - 1, true)
  {
  }

  /** The index and the number of wraps after `k` steps. */
  datatype Run = Run(idx: i16, wraps: nat)

  function AdvanceN(dir: Direction, idx: i16, total: i16, k: nat): Run
  {
    if k == 0 then Run(idx, 0)
    else
      var prev := AdvanceN(dir, idx, total, k - 1);
      var r := Advance(dir, prev.idx, total);
      Run(r.idx, prev.wraps + if r.wrapped then 1 else 0)
  }

  /** Going forward from an index in range, `k <= total` steps count up
      and wrap at most once. */
  lemma {:induction false} ForwardRun(idx: i16, total: i16, k: nat)
    requires InRange(idx, total) && k <= total
    ensures AdvanceN(Forward, idx, total, k) ==
            if idx + k < total then Run(idx + k, 0) else Run(idx + k - total, 1)
  {
    if k > 0 {
      ForwardRun(idx, total, k - 1);
    }
  }

  /** A forward cycle is `total` steps long: that many steps from any index
      in range come back to it with exactly one wrap. In particular 255
      steps of a rainbow cycle from 0 come back to 0 with one wrap, hence
      one callback unless `OnComplete` is null. */
  lemma ForwardCycle(idx: i16, total: i16)
    requires InRange(idx, total)
    ensures AdvanceN(Forward, idx, total, total) == Run(idx, 1)
  {
    ForwardRun(idx, total, total);
  }

  /** Going in reverse from the far end counts down to 1 and then wraps
      straight back to the far end: index 0 is skipped. */
  lemma {:induction false} ReverseRun(total: i16, k: nat)
    requires total >= 2 && k <= total - 1
    ensures AdvanceN(Reverse, total - 1, total, k) ==
            if k < total - 1 then Run(total - 1 - k, 0) else Run(total - 1, 1)
  {
    if k > 0 {
      ReverseRun(total, k - 1);
    }
  }

  /** A reverse cycle is one step shorter than a forward one: `total - 1`
      steps from the far end come back to it with exactly one wrap. */
  lemma ReverseCycle(total: i16)
    requires total >= 2
    ensures AdvanceN(Reverse, total - 1, total, total - 1) == Run(total - 1, 1)
  {
    ReverseRun(total, total - 1);
  }

  const TimeModulus: int := 0x1_0000_0000

  /** The frame timer: `(millis() - lastUpdate) > DelayTime` computed on
      32-bit unsigned values. */
  predicate Due(now: u32, last: u32, delay: u32)
  {
    (now - last) % TimeModulus > delay
  }

  /** Measured from the last update `t`, a clock reading `k` ms later (the
      reading itself wrapping modulo 2^32) is due exactly when `k` exceeds
      the delay, strictly. So two updates are more than `delay` ms apart,
      and a poll exactly `delay` ms after an update draws nothing. */
  lemma DueIffDelayExceeded(t: u32, delay: u32, k: nat)
    requires k < TimeModulus
    ensures Due((t + k) % TimeModulus, t, delay) <==> k > delay
  {
    var now := (t + k) % TimeModulus;
    if t + k < TimeModulus {
      assert now == t + k;
    } else {
      assert now == t + k - TimeModulus;
    }
    assert (now - t) % TimeModulus == k;
  }
}
