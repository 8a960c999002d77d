/** Integer colour utilities of the NeoPatterns library.

    A colour is a packed 32-bit value whose low 24 bits hold red, green and
    blue, eight bits each (red in bits 16..23, green in 8..15, blue in 0..7).
    Shifts and masks on non-negative integers are written as division and
    remainder by powers of two: `c >> k` is `c / 2^k` and `x & 0xFF` is
    `x % 0x100`.
 */
module Colors {

  type u8 = x: int | 0 <= x < 0x100
  type u32 = x: int | 0 <= x < 0x1_0000_0000

  /** The strip's `Color(r, g, b)`: `r << 16 | g << 8 | b`. The three fields
      do not overlap, so the bitwise or is a sum. */
  function Pack(r: u8, g: u8, b: u8): (c: u32)
    ensures c < 0x100_0000
  {
    r * 0x1_0000 + g * 0x100 + b
  }

  /** `(color >> 16) & 0xFF` */
  function RedComponent(c: u32): u8
  {
    (c / 0x1_0000) % 0x100
  }

  /** `(color >> 8) & 0xFF` */
  function GreenComponent(c: u32): u8
  {
    (c / 0x100) % 0x100
  }

  /** `color & 0xFF` */
  function BlueComponent(c: u32): u8
  {
    c % 0x100
  }

  /** Extracting the channels of a packed colour gives back the channels
      it was packed from. */
  lemma ComponentsOfPack(r: u8, g: u8, b: u8)
    ensures RedComponent(Pack(r, g, b)) == r
    ensures GreenComponent(Pack(r, g, b)) == g
    ensures BlueComponent(Pack(r, g, b)) == b
  {
    var c := Pack(r, g, b);
    assert c / 0x1_0000 == r;
    assert c / 0x100 == r * 0x100 + g;
  }

  /** Packing the channels of a 24-bit colour gives back the colour: the
      three extractions lose nothing below bit 24. */
  lemma PackOfComponents(c: u32)
    requires c < 0x100_0000
    ensures Pack(RedComponent(c), GreenComponent(c), BlueComponent(c)) == c
  {
    var hi, lo := c / 0x100, c % 0x100;
    assert c == hi * 0x100 + lo;
    assert hi == (hi / 0x100) * 0x100 + hi % 0x100;
    assert c / 0x1_0000 == hi / 0x100;
  }

  /** The 50% dimmed version of a colour: each channel shifted right by one
      bit. */
  function DimColor(c: u32): (d: u32)
    ensures d < 0x100_0000
  {
    Pack(RedComponent(c) / 2, GreenComponent(c) / 2, BlueComponent(c) / 2)
  }

  /** Dimming halves every channel, rounding down. */
  lemma DimColorHalvesChannels(c: u32)
    ensures RedComponent(DimColor(c)) == RedComponent(c) / 2
    ensures GreenComponent(DimColor(c)) == GreenComponent(c) / 2
    ensures BlueComponent(DimColor(c)) == BlueComponent(c) / 2
  {
    ComponentsOfPack(RedComponent(c) / 2, GreenComponent(c) / 2, BlueComponent(c) / 2);
  }

  /** Dimming full white twice halves each channel twice: 255, 127, 63. */
  lemma DimWhiteTwice()
    ensures DimColor(DimColor(Pack(255, 255, 255))) == Pack(63, 63, 63)
  {
    ComponentsOfPack(255, 255, 255);
    assert DimColor(Pack(255, 255, 255)) == Pack(127, 127, 127);
    ComponentsOfPack(127, 127, 127);
  }

  /** The colour wheel's channels: position 0..255 is first mirrored to
      `255 - pos` and then mapped onto three 85-wide linear ramps (red to
      blue, blue to green, green to red). */
  function WheelChannels(pos: u8): (u8, u8, u8)
  {
    var p := 255 - pos;
    if p < 85 then (255 - p * 3, 0, p * 3)
    else if p < 170 then (0, (p - 85) * 3, 255 - (p - 85) * 3)
    else ((p - 170) * 3, 255 - (p - 170) * 3, 0)
  }

  /** The colour wheel as a packed colour. */
  function Wheel(pos: u8): (c: u32)
    ensures c < 0x100_0000
  {
    var (r, g, b) := WheelChannels(pos);
    Pack(r, g, b)
  }

  /** The packed wheel colour carries exactly the wheel's channels, and they
      sum to full intensity: the ramps trade one channel for another. */
  lemma WheelChannelsSum(pos: u8)
    ensures (RedComponent(Wheel(pos)), GreenComponent(Wheel(pos)), BlueComponent(Wheel(pos)))
            == WheelChannels(pos)
    ensures RedComponent(Wheel(pos)) + GreenComponent(Wheel(pos)) + BlueComponent(Wheel(pos)) == 255
  {
    var (r, g, b) := WheelChannels(pos);
    ComponentsOfPack(r, g, b);
  }

  /** The ends of the wheel meet at pure red, and its thirds are pure green
      and pure blue. */
  lemma WheelPrimaries()
    ensures Wheel(0) == Pack(255, 0, 0) && Wheel(255) == Pack(255, 0, 0)
    ensures Wheel(85) == Pack(0, 255, 0)
    ensures Wheel(170) == Pack(0, 0, 255)
  {
  }

  function Distance(a: int, b: int): nat
  {
    if a < b then b - a else a - b
  }

  /** The wheel is cyclic without a jump: moving one position on, including
      from 255 back to 0, changes no channel by more than 3. */
  lemma WheelIsContinuous(pos: u8)
    ensures var (r, g, b) := WheelChannels(pos);
      var (r', g', b') := WheelChannels((pos + 1) % 256);
      Distance(r, r') <= 3 && Distance(g, g') <= 3 && Distance(b, b') <= 3
  {
  }

  /** The named colours, in the order of their enumeration values 0..5. */
  datatype KnownColor = Red | Orange | Yellow | Green | Blue | Purple

  function Ordinal(k: KnownColor): (n: nat)
    ensures n < 6
  {
    match k
    case Red => 0
    case Orange => 1
    case Yellow => 2
    case Green => 3
    case Blue => 4
    case Purple => 5
  }

  /** `GetKnownColorValue` over the enumeration's integer value: the table
      below for the six named colours, black for any other value (the switch
      has no default branch and the channels start at 0). */
  function GetKnownColorValue(color: int): (c: u32)
    ensures c < 0x100_0000
    ensures c != 0 <==> 0 <= color < 6
  {
    if color == 0 then Pack(255, 0, 0)
    else if color == 1 then Pack(255, 128, 0)
    else if color == 2 then Pack(255, 255, 0)
    else if color == 3 then Pack(0, 255, 0)
    else if color == 4 then Pack(0, 0, 255)
    else if color == 5 then Pack(128, 0, 128)
    else 0
  }

  /** The six named colours are six different colours. */
  lemma KnownColorsAreDistinct(j: KnownColor, k: KnownColor)
    ensures GetKnownColorValue(Ordinal(j)) == GetKnownColorValue(Ordinal(k)) <==> j == k
  {
  }

}
