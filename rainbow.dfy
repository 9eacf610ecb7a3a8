// A model of the colour-wheel animation of the Adafruit QT Py RP2040
// NeoPixel example: the three-sector integer colour wheel and the frame loop
// that feeds one wheel colour per frame to the LED driver.

/** The colour wheel: a pure function from an 8-bit phase to an RGB colour. */
module ColorWheel {

  /** Rust's `u8`. Because it is a newtype, every `+`, `-` and `*` performed
      at this type is checked to stay in 0..255, which is exactly the overflow
      check a debug build of the firmware panics on. */
  newtype U8 = x: int | 0 <= x < 256

  /** `smart_leds::RGB8`: one 8-bit intensity per channel. */
  datatype RGB8 = RGB8(r: U8, g: U8, b: U8)

  /** `n.wrapping_add(1)`: the successor modulo 256. */
  function WrappingInc(n: U8): (m: U8)
    ensures m as int == (n as int + 1) % 256
  {
    if n == 255 then 0 else n + 1
  }

  /** `wheel(wheel_pos)`. The position is complemented, a sector is chosen by
      the thresholds 85 and 170, the sector base is subtracted, and two
      complementary ramps `3p` and `255 - 3p` are emitted. All arithmetic is
      done at `U8`, so the verifier proves that no step overflows or
      underflows: after the subtraction the offset is at most 85. */
  function Wheel(wheelPos: U8): (c: RGB8)
    // Sector 1 (complemented position below 85): no green.
    ensures 255 - wheelPos < 85 ==> c.g == 0 && c.r as int + c.b as int == 255
    // Sector 2 (85 up to 170): no red.
    ensures 85 <= 255 - wheelPos < 170 ==> c.r == 0 && c.g as int + c.b as int == 255
    // Sector 3 (170 and above): no blue.
    ensures 170 <= 255 - wheelPos ==> c.b == 0 && c.r as int + c.g as int == 255
    // Every channel is one of the ramp values 3p with 0 <= p <= 85.
    ensures c.r % 3 == 0 && c.g % 3 == 0 && c.b % 3 == 0
  {
    var pos := 255 - wheelPos;
    if pos < 85 then
      RGB8(255 - pos * 3, 0, pos * 3)
    else if pos < 170 then
      var pos := pos - 85;
      RGB8(0, pos * 3, 255 - pos * 3)
    else
      var pos := pos - 170;
      RGB8(pos * 3, 255 - pos * 3, 0)
  }

  /** The documented anchor points of the red, green, blue, red cycle. */
  lemma WheelAnchors()
    ensures Wheel(0) == RGB8(255, 0, 0)
    ensures Wheel(85) == RGB8(0, 255, 0)
    ensures Wheel(170) == RGB8(0, 0, 255)
    ensures Wheel(255) == RGB8(255, 0, 0)
  {
  }

  /** At every phase some channel is off, and the three channels together
      always carry the full intensity 255. */
  lemma WheelConstantIntensity(n: U8)
    ensures Wheel(n).r == 0 || Wheel(n).g == 0 || Wheel(n).b == 0
    ensures Wheel(n).r as int + Wheel(n).g as int + Wheel(n).b as int == 255
  {
  }

  /** Distance between two intensities. */
  function Dist(a: U8, b: U8): (d: int)
    ensures 0 <= d <= 255
    ensures d == 0 <==> a == b
  {
    if a >= b then a as int - b as int else b as int - a as int
  }

  /** Consecutive phases, including the 255 to 0 wrap, give colours that
      differ by at most 3 in every channel: the wheel has no jumps. */
  lemma WheelSmooth(n: U8)
    ensures Dist(Wheel(n).r, Wheel(WrappingInc(n)).r) <= 3
    ensures Dist(Wheel(n).g, Wheel(WrappingInc(n)).g) <= 3
    ensures Dist(Wheel(n).b, Wheel(WrappingInc(n)).b) <= 3
  {
  }

  /** A reference definition of the wheel, independent of its sector logic:
      each primary is a triangular profile of slope 3 centred on its anchor
      phase, clipped at zero. */
  function Tent(n: int, peak: int): (v: int)
    ensures 0 <= v <= 255
    ensures v == 255 <==> n == peak
  {
    var d := if n >= peak then n - peak else peak - n;
    if 3 * d >= 255 then 0 else 255 - 3 * d
  }

  /** Red peaks at phases 0 and 255, green at 85, blue at 170. */
  lemma WheelIsTriangularHue(n: U8)
    ensures Wheel(n).r as int == (if n < 128 then Tent(n as int, 0) else Tent(n as int, 255))
    ensures Wheel(n).g as int == Tent(n as int, 85)
    ensures Wheel(n).b as int == Tent(n as int, 170)
  {
  }
}

/** The frame loop of `main`: a wrapping 8-bit phase starting at 128, one
    colour per frame. */
module RainbowLoop {
  import opened ColorWheel

  /** The phase `n` holds at the start of the frame with zero-based index k. */
  function Phase(k: nat): U8
  {
    if k == 0 then 128 else WrappingInc(Phase(k - 1))
  }

  /** The colour the wheel produces for frame k (before brightness scaling). */
  function FrameColor(k: nat): RGB8
  {
    Wheel(Phase(k))
  }

  /** The phase after k frames is (128 + k) mod 256. */
  lemma {:induction false} PhaseClosedForm(k: nat)
    ensures Phase(k) as int == (128 + k) % 256
  {
    if k > 0 {
      PhaseClosedForm(k - 1);
    }
  }

  /** After 128 frames the phase has wrapped to 0; after 256 it is back to 128. */
  lemma PhaseWrapsToZero()
    ensures Phase(128) == 0
  {
    PhaseClosedForm(128);
  }

  lemma PhaseReturnsToStart()
    ensures Phase(256) == 128
  {
    PhaseClosedForm(256);
  }

  /** The phase, and therefore the emitted colour, has period 256. */
  lemma FramesPeriodic(k: nat)
    ensures Phase(k + 256) == Phase(k)
    ensures FrameColor(k + 256) == FrameColor(k)
  {
    PhaseClosedForm(k);
    PhaseClosedForm(k + 256);
  }

  /** The first frame shows `wheel(128)`, a blue-green. */
  lemma FirstFrame()
    ensures FrameColor(0) == RGB8(0, 126, 129)
  {
  }

  /** Colours of consecutive frames differ by at most 3 in every channel. */
  lemma FramesSmooth(k: nat)
    ensures Dist(FrameColor(k).r, FrameColor(k + 1).r) <= 3
    ensures Dist(FrameColor(k).g, FrameColor(k + 1).g) <= 3
    ensures Dist(FrameColor(k).b, FrameColor(k + 1).b) <= 3
  {
    WheelSmooth(Phase(k));
  }

  /** Runs `frames` iterations of the animation loop. `dim` stands for the
      brightness scaling applied to each pixel before it is written, whose
      formula lives in a crate this model does not include. Returns the
      phase after the last frame and, per frame, the pixel sequence handed
      to the driver's `write`: exactly one pixel, the wheel colour of the
      phase current at that frame, taken before the phase is advanced. */
  method Animate(frames: nat, dim: RGB8 -> RGB8) returns (n: U8, written: seq<seq<RGB8>>)
    ensures n == Phase(frames) && n as int == (128 + frames) % 256
    ensures |written| == frames
    ensures forall k :: 0 <= k < frames ==> written[k] == [dim(FrameColor(k))]
  {
    n := 128;
    written := [];
    var k := 0;
    while k < frames
      invariant 0 <= k <= frames
      invariant n == Phase(k)
      invariant |written| == k
      invariant forall j :: 0 <= j < k ==> written[j] == [dim(FrameColor(j))]
    {
      written := written + [[dim(Wheel(n))]];
      n := WrappingInc(n);
      k := k + 1;
    }
    PhaseClosedForm(frames);
  }
}
