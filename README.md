# QT Py RP2040 rainbow: colour wheel and frame loop

This project models the animation logic of the QT Py RP2040 NeoPixel example
(`boards/qt_py_rp2040/examples/qt_py_rainbow.rs`). The firmware keeps an
8-bit phase `n` that starts at 128. Each frame it turns the phase into a
colour with `wheel`, writes that single pixel (dimmed) to the WS2812 driver,
and advances the phase with `wrapping_add(1)`.

- `ColorWheel` (module) models the Rust `u8` as the newtype `U8`, `RGB8` as a
  datatype, and `wheel` as the function `Wheel`. The body of `Wheel` does all
  its arithmetic at `U8`, as the Rust code does. So each `255 - x`,
  `pos * 3` and `pos - 85` is a range obligation. The verifier discharges
  every one of them, which proves that `wheel` never triggers a debug-build
  overflow panic: after the sector subtraction the offset is at most 85, and
  `3 * 85 = 255`.
- `RainbowLoop` (module) models the `loop` in `main`. `Phase(k)` is the
  phase at the start of frame `k`, and `FrameColor(k)` is that frame's wheel
  colour. The method `Animate` runs a bounded number of frames. It returns
  the final phase and the pixel sequence passed to `write` on each frame.
  The brightness scaling is a parameter `dim`.

On wrap-around: the colour wheel could be described as relying on 8-bit
multiplication wrapping modulo 256. The code does not wrap. It uses plain
`u8` `*` and `-`, which panic on overflow in a debug build. This model
follows the code and proves that no operation ever leaves 0..255, so a
wrapping reading and a checked reading give the same colours.

## Model

| member | source | states |
|---|---|---|
| ColorWheel.WrappingInc | boards/qt_py_rp2040/examples/qt_py_rainbow.rs:80 | `wrapping_add(1)` on a `u8` yields `(n + 1) mod 256` |
| ColorWheel.Wheel | boards/qt_py_rp2040/examples/qt_py_rainbow.rs:90-104 | total on 0..255 with no overflow or underflow in any `u8` step; when the complemented position is below 85, green is 0 and red + blue = 255; from 85 to 169, red is 0 and green + blue = 255; from 170, blue is 0 and red + green = 255; every channel is a multiple of 3 |
| ColorWheel.WheelAnchors | boards/qt_py_rp2040/examples/qt_py_rainbow.rs:87-103 | the documented red, green, blue, red cycle: `wheel(0) = (255,0,0)`, `wheel(85) = (0,255,0)`, `wheel(170) = (0,0,255)`, `wheel(255) = (255,0,0)` |
| ColorWheel.WheelConstantIntensity | boards/qt_py_rp2040/examples/qt_py_rainbow.rs:92-102 | at every phase at least one channel is off, and the three channels always sum to 255 |
| ColorWheel.WheelSmooth | boards/qt_py_rp2040/examples/qt_py_rainbow.rs:89-103 | `wheel(n)` and `wheel(n wrapping+ 1)` differ by at most 3 in each channel, across sector boundaries and across the 255 to 0 wrap |
| ColorWheel.WheelIsTriangularHue | boards/qt_py_rp2040/examples/qt_py_rainbow.rs:87-104 | matches an independent definition: each channel is a triangle of slope 3, clipped at 0, that peaks at its anchor phase (red at 0 and 255, green at 85, blue at 170) |
| RainbowLoop.PhaseClosedForm | boards/qt_py_rp2040/examples/qt_py_rainbow.rs:77-80 | the phase that starts at 128 and is wrapping-incremented once per frame equals `(128 + k) mod 256` after `k` frames |
| RainbowLoop.PhaseWrapsToZero | boards/qt_py_rp2040/examples/qt_py_rainbow.rs:77-80 | after 128 frames the phase has wrapped to 0 |
| RainbowLoop.PhaseReturnsToStart | boards/qt_py_rp2040/examples/qt_py_rainbow.rs:77-80 | after 256 frames the phase is back to 128 |
| RainbowLoop.FramesPeriodic | boards/qt_py_rp2040/examples/qt_py_rainbow.rs:77-80 | the phase and the emitted colour sequence are periodic with period 256 |
| RainbowLoop.FirstFrame | boards/qt_py_rp2040/examples/qt_py_rainbow.rs:77-79 | the first frame's colour is `wheel(128) = (0,126,129)` |
| RainbowLoop.FramesSmooth | boards/qt_py_rp2040/examples/qt_py_rainbow.rs:78-80 | colours of consecutive frames differ by at most 3 per channel |
| RainbowLoop.Animate | boards/qt_py_rp2040/examples/qt_py_rainbow.rs:77-84 | after `k` frames the phase is `(128 + k) mod 256`; exactly `k` writes are made; write number `j` hands the driver exactly one pixel, the dimmed `wheel` colour of the phase current at frame `j`, taken before the phase is advanced |

## Left out

- `boards/qt_py_rp2040/examples/qt_py_blinky.rs` is not part of this model. Its only logic of its own is a `for j in 0..255u8` loop that passes `j` to foreign HSV and WS2812 code. Its timer and peripheral wiring also does not match this board's HAL.
- Clock, PLL, watchdog, SIO, pin muxing and NeoPixel power-up (qt_py_rainbow.rs:33-62) are one-shot hardware setup with no algorithmic content.
- The WS2812 bit serialisation and PIO timing live in the `ws2812_pio` crate, which is not part of this model. `Animate` records the pixel sequence handed to `write` instead.
- `brightness(…, 32)` is implemented in the `smart_leds` crate, which is not part of this model. It is the opaque per-pixel parameter `dim` of `Animate`, and its formula is not modelled.
- The 25 ms `CountDown` delay and `nb::block!` are hardware timer polling. Time is not modelled.
- The `loop` never ends. `Animate` runs a given number of frames, so every finite prefix of the frame sequence is covered.
- `.unwrap()` on the driver write, `panic_halt` and the `BOOT2` boot-loader static are runtime plumbing. The model assumes every write succeeds.
