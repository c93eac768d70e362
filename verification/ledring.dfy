/** The 12-slot colour buffer behind the LED ring: markers for the hour and
    minute, a sweeping blend towards the accent colour for the second, and
    the truncation of each channel to a byte for LEDs 1..12. */
module LedRing {
  import opened Colour
  import opened Schemes
  import opened Hands

  const SlotCount := 12

  /** A buffer of slot colours, slot `k` driving LED `k + 1`. */
  type Buffer = seq<Rgb>

  predicate ValidBuffer(buf: Buffer)
  {
    |buf| == SlotCount && forall k | 0 <= k < |buf| :: Valid(buf[k])
  }

  /** `minute // 5`; Python's floor division by a positive number is Dafny's `/`. */
  function MinuteSlot(minute: int): int { minute / 5 }

  /** `hour % 12`; Python's `%` by a positive number is Dafny's `%`. */
  function HourSlot(hour: int): int { hour % 12 }

  /** `second // 5`, the slot the second hand is sweeping through. */
  function SecondSlot(second: int): int { second / 5 }

  /** Every slot index the buffer computation uses is in range for a valid time. */
  lemma SlotsInRange(hour: int, minute: int, second: int)
    requires ValidTime(hour, minute, second)
    ensures 0 <= MinuteSlot(minute) < SlotCount
    ensures 0 <= HourSlot(hour) < SlotCount
    ensures 0 <= SecondSlot(second) < SlotCount
  {
  }

  /** Python list indexing: an index in `-n .. -1` counts back from the end,
      so the slot reached is the index taken modulo the length. */
  function PyIndex(k: int, n: int): (r: nat)
    requires 0 < n && -n <= k < n
    ensures r < n
    ensures r == k % n
  {
    if k < 0 then k + n else k
  }

  /** The slot the source writes as `colours[i - 1 % 12]`. The `%` binds
      tighter than the `-`, so the index is `i - 1`, and at `i == 0` it is
      `-1`, which Python resolves to the last slot. */
  function TrailingSlot(i: int): (j: nat)
    requires 0 <= i < SlotCount
    ensures j < SlotCount
  {
    PyIndex(i - 1 % 12, SlotCount)
  }

  /** The trailing slot is the slot before `i` around the ring, never `i` itself. */
  lemma TrailingSlotIsPrevious(i: int)
    requires 0 <= i < SlotCount
    ensures TrailingSlot(i) == (i + 11) % 12
    ensures TrailingSlot(i) != i
    ensures (TrailingSlot(i) + 1) % SlotCount == i
  {
  }

  /** `max(min(1, second / 5 - i), 0)` with `i = second // 5`. */
  function SweepT(second: int): (t: real)
    ensures t == (second % 5) as real / 5.0
    ensures 0.0 <= t <= 0.8
  {
    var raw := second as real / 5.0 - (second / 5) as real;
    assert raw == (second % 5) as real / 5.0;
    if raw > 1.0 then 1.0 else if raw < 0.0 then 0.0 else raw
  }

  /** The buffer before the second hand: all slots off, `fg / 4` at the
      minute slot, then `fg` at the hour slot, which wins when both coincide. */
  function Markers(hour: int, minute: int, fg: Rgb): (buf: Buffer)
    requires 0 <= minute < 60
    ensures |buf| == SlotCount
    ensures forall k | 0 <= k < SlotCount ::
      buf[k] == (if k == HourSlot(hour) then fg
                 else if k == MinuteSlot(minute) then Quarter(fg)
                 else Black)
  {
    var blank := seq(SlotCount, _ => Black);
    var withMinute := blank[MinuteSlot(minute) := Quarter(fg)];
    withMinute[HourSlot(hour) := fg]
  }

  /** The second hand: slot `i = second // 5` moves a fraction `t` towards the
      accent, then the trailing slot moves a fraction `1 - t` towards it.
      No other slot changes. */
  function Sweep(buf: Buffer, second: int, accent: Rgb): (out: Buffer)
    requires |buf| == SlotCount && 0 <= second < 60
    ensures |out| == SlotCount
    ensures out[SecondSlot(second)] == Blend(buf[SecondSlot(second)], accent, SweepT(second))
    ensures out[TrailingSlot(SecondSlot(second))]
         == Blend(buf[TrailingSlot(SecondSlot(second))], accent, 1.0 - SweepT(second))
    ensures forall k | 0 <= k < SlotCount && k != SecondSlot(second) && k != TrailingSlot(SecondSlot(second)) ::
      out[k] == buf[k]
  {
    var i := SecondSlot(second);
    var t := SweepT(second);
    var lead := buf[i := Blend(buf[i], accent, t)];
    var j := TrailingSlot(i);
    TrailingSlotIsPrevious(i);
    lead[j := Blend(lead[j], accent, 1.0 - t)]
  }

  /** Both swept slots are convex combinations of their old colour and the
      accent, so a buffer of valid colours stays valid; on a multiple of five
      seconds the leading slot is untouched and the trailing slot is exactly
      the accent. */
  lemma SweepConvex(buf: Buffer, second: int, accent: Rgb)
    requires ValidBuffer(buf) && Valid(accent) && 0 <= second < 60
    ensures ValidBuffer(Sweep(buf, second, accent))
    ensures second % 5 == 0 ==>
      && Sweep(buf, second, accent)[SecondSlot(second)] == buf[SecondSlot(second)]
      && Sweep(buf, second, accent)[TrailingSlot(SecondSlot(second))] == accent
  {
    var i := SecondSlot(second);
    var j := TrailingSlot(i);
    var t := SweepT(second);
    BlendConvex(buf[i], accent, t);
    BlendConvex(buf[j], accent, 1.0 - t);
  }

  /** The slot colours for one frame of `draw`. */
  function Colours(hour: int, minute: int, second: int, scheme: ColourScheme): Buffer
    requires ValidTime(hour, minute, second)
  {
    Sweep(Markers(hour, minute, scheme.fg), second, scheme.accent)
  }

  /** With a valid scheme every slot of the frame is a valid colour. */
  lemma ColoursValid(hour: int, minute: int, second: int, scheme: ColourScheme)
    requires ValidTime(hour, minute, second) && ValidScheme(scheme)
    ensures ValidBuffer(Colours(hour, minute, second, scheme))
  {
    var m := Markers(hour, minute, scheme.fg);
    assert ValidBuffer(m);
    SweepConvex(m, second, scheme.accent);
  }

  // ---------------------------------------------------------------------------
  // Output to the LEDs

  /** Python's `int()` on a float: truncation towards zero. */
  function Trunc(x: real): (n: int)
    ensures 0.0 <= x ==> n as real <= x < n as real + 1.0
    ensures x <= 0.0 ==> n as real - 1.0 < x <= n as real
  {
    if x >= 0.0 then x.Floor else -((-x).Floor)
  }

  /** One LED's integer RGB triple. */
  datatype Led = Led(r: int, g: int, b: int)

  predicate IsByte(n: int) { 0 <= n < 256 }

  /** `tuple(int(255 * c[j]) for j in range(3))`. */
  function ToLed(c: Rgb): (led: Led)
    ensures Valid(c) ==> IsByte(led.r) && IsByte(led.g) && IsByte(led.b)
  {
    Led(Trunc(255.0 * c.r), Trunc(255.0 * c.g), Trunc(255.0 * c.b))
  }

  /** The writes `leds[k] = ...` for `k` in 1..12; LED `k` is element `k - 1`. */
  function LedFrame(buf: Buffer): (leds: seq<Led>)
    requires |buf| == SlotCount
    ensures |leds| == SlotCount
  {
    seq(SlotCount, k requires 0 <= k < SlotCount => ToLed(buf[k]))
  }

  /** What the frame writes to LED number `k`, counting from 1. */
  function LedNumbered(leds: seq<Led>, k: int): Led
    requires |leds| == SlotCount && 1 <= k <= SlotCount
  {
    leds[k - 1]
  }

  /** Every LED of a valid buffer gets channels in 0..255, each the floor of
      255 times the slot's channel. */
  lemma LedFrameBytes(buf: Buffer)
    requires ValidBuffer(buf)
    ensures forall k | 1 <= k <= SlotCount ::
      var led := LedNumbered(LedFrame(buf), k);
      IsByte(led.r) && IsByte(led.g) && IsByte(led.b)
      && led.r == (255.0 * buf[k - 1].r).Floor
      && led.g == (255.0 * buf[k - 1].g).Floor
      && led.b == (255.0 * buf[k - 1].b).Floor
  {
    forall k | 1 <= k <= SlotCount
      ensures var led := LedNumbered(LedFrame(buf), k);
        IsByte(led.r) && IsByte(led.g) && IsByte(led.b)
        && led.r == (255.0 * buf[k - 1].r).Floor
        && led.g == (255.0 * buf[k - 1].g).Floor
        && led.b == (255.0 * buf[k - 1].b).Floor
    {
      assert Valid(buf[k - 1]);
    }
  }

  // ---------------------------------------------------------------------------
  // Worked frames

  /** At 03:00:00 the hour slot 3 shows `fg`, slot 0 the dim minute marker,
      the trailing slot 11 the accent, and every other slot is off. At
      10:15:30 the hour slot 10 shows `fg`, the minute slot 3 `fg / 4`, the
      leading slot 6 is still off and the trailing slot 5 is the accent. */
  lemma ExampleFrames(scheme: ColourScheme)
    ensures var buf := Colours(3, 0, 0, scheme);
      && buf[3] == scheme.fg
      && buf[0] == Quarter(scheme.fg)
      && buf[11] == scheme.accent
      && forall k | 0 <= k < SlotCount && k !in {0, 3, 11} :: buf[k] == Black
    ensures var buf := Colours(10, 15, 30, scheme);
      && buf[10] == scheme.fg
      && buf[3] == Quarter(scheme.fg)
      && buf[5] == scheme.accent
      && forall k | 0 <= k < SlotCount && k !in {3, 5, 10} :: buf[k] == Black
  {
    BlendConvex(Black, scheme.accent, 0.0);
    BlendConvex(Black, scheme.accent, 1.0);
    BlendConvex(Quarter(scheme.fg), scheme.accent, 0.0);
  }
}
