# cube-thing in Dafny

A model of the core of cube-thing, the driver of an 8 x 8 x 8 LED cube. It has five parts:

- **The voxel frame buffer** (`Frames`, frame.dfy). This is a class over an `array3<u8>` stored `[y][x][z]`. It has get, set, zero, layer and whole-frame views, and the fixed-order 512-item traversal of `pixels()`/`pixels_mut()`.
- **The animation combinators** (`Animation`, animation.dfy). These are the frame-rate limiter, the time limiter, the chain (A then B) and the bounded repeat, with the `maybe_ended` default.
  - Each combinator is a class whose `NextFrame`/`Reset` update its fields in place. Each is proved against a pure state-transition function, and the properties are proved as lemmas about those functions.
  - Time is an explicit clock reading.
  - Inner animations are abstract counters: an inner advances, is reset, and, when it terminates, has ended once its step count reaches its length.
- **The serial protocol** (`Signals`, signals.dfy). The pins are modelled as a trace of events: latch low, latch high, and one shifted bit. Each layer is framed as latch low, the select byte least-significant bit first, 64 data bits, latch high.
- **The older all-in-one renderer** (`Render`, render.dfy). It has:
  - the 32-step lookup-table PWM ticker;
  - `Pins::display_frame`, which shifts layers out in reverse storage order;
  - its own `ended`-by-default animation contract, with a chain that differs from the newer one;
  - the `Driver` and its `step` lifecycle.
- **The Raspberry Pi backend** (`Rpi`, rpi.dfy). It has:
  - the 16-bit Galois LFSR noise, kept as its two's-complement bit pattern (`bv16`) so that `/`, `%`, `^` and `&` act as on `i16`;
  - error diffusion into signed 8-bit accumulators with the `as i8` wrap written out;
  - `display_inner`, proved against a closed form of one pass: what every error cell becomes, which noise value each call sees, and the 592 pin events it emits;
  - `display_frame` as eight such passes.
- **The offline pattern generator** (`Brightnesses`, brightnesses.dfy). This is `generate()` of generate_brightnesses.py. Its counted loop is kept, and Python's `*`, `ljust`, slicing and `int(s, 2)` are functions on `string`.

Behaviour of the code worth noting:

- The time limiter ends only when *strictly* more than `duration` has elapsed.
- The older driver resets the animation when its `ended()` holds, not `maybe_ended()`.
- The dither noise advances once per `compute_pwm` call, that is per voxel, not once per pass.
- The stored error is `(c - output) as i8`, which wraps at the two extreme inputs. It is not exactly `c - output`.

## Model

| member | source | states |
|---|---|---|
| Frames.Blank | src/frame.rs:9-11 | a new frame is an 8 x 8 x 8 cube with every voxel 0 |
| Frames.SetVoxelGetSet | src/frame.rs:13-19 | after set(x, y, z, v), get(x, y, z) (`Get`) is v and every other voxel is unchanged |
| Frames.MapVoxels | src/frame.rs:43-53 | a full pixels_mut pass that writes f(x, y, z, old) through each item leaves exactly f applied at every voxel |
| Frames.PointWriteIsSet | src/frame.rs:43-53 | writing v through the pixels_mut item for (x, y, z) alone has the same effect as set(x, y, z, v) |
| Frames.PixelsAt | src/frame.rs:33-41 | the traversal has 512 items, and item y*64 + x*8 + z is (x, y, z, value at [y][x][z]) |
| Frames.IndexDecode | src/frame.rs:33-41 | every traversal position 0..511 is the position of one in-range voxel |
| Frames.IndexOrder | src/frame.rs:33-41 | traversal order is y outermost, then x, then z, and positions are distinct |
| Frames.Frame.constructor | src/frame.rs:9-11 | Frame::new yields a fresh buffer whose every voxel is 0 |
| Frames.Frame.Layers | src/frame.rs:29-31 | layers()[y][x][z] == get(x, y, z) |
| Frames.Frame.Pixels | src/frame.rs:33-41 | pixels() has 512 items, the one at y*64 + x*8 + z being (x, y, z, get(x, y, z)) |
| Frames.Frame.Set | src/frame.rs:17-19 | set changes exactly voxel (x, y, z), to val |
| Frames.Frame.Zero | src/frame.rs:21-23 | zero makes the frame equal to a new one, whatever it held, so zeroing twice is zeroing once |
| Frames.Frame.LayerMut | src/frame.rs:25-27 | writing through layer_mut(n) changes layer n only, to what was written |
| Frames.Frame.PixelsMut | src/frame.rs:43-53 | writing f(x, y, z, old) through every item in traversal order applies f at every voxel |
| Signals.BitsRoundTrip | src/backends/rpi.rs:38-42 | shifting a byte out Lsb0 loses nothing: the bits read back give the byte |
| Signals.BitsAt | src/backends/rpi.rs:38-42 | bit k shifted out is binary digit k of the byte, least-significant first |
| Signals.SelectByteOneHot | src/backends/rpi.rs:55-56 | the select byte 1 << idx, shifted out Lsb0, has exactly bit idx set |
| Signals.LayerSignalsShape | src/backends/rpi.rs:53-66 | one layer is 74 events: latch low, 8 select bits, 64 data bits, latch high |
| Signals.LayerSignalsBits | src/backends/rpi.rs:53-66 | the shift register receives the select bits and then the data bits of a layer |
| Signals.FramedBitCount | src/backends/rpi.rs:51-67 | segments of 72 shifted bits each give 72 shifted bits per segment in all |
| Animation.AdvanceInner | src/animation.rs:7 | an inner next_frame advances that animation by exactly one step |
| Animation.FpsEndedRun | src/animation.rs:110-116 | ended (`FpsEnded`, forwarded to the inner) holds after a run iff the inner's steps plus one per advance reach its length, and after reset iff the inner is empty; maybe_ended (`FpsMaybeEnded`) agrees over a terminating inner and is never true over a non-terminating one |
| Animation.FpsAdvancesSpaced | src/animation.rs:97-103 | for any clock readings, the first inner advance is more than interval after last_frame, and each later advance is more than interval after the previous one |
| Animation.FpsRunAdvances | src/animation.rs:97-103 | a run adds one inner step per advance and leaves last_frame at the last advance's reading |
| Animation.FpsRateBound | src/animation.rs:97-103 | with all readings at most t, k advances satisfy last_frame + k*(interval+1) <= t |
| Animation.FixedFPSAnimation.constructor | src/animation.rs:11-20 | with_fps records the construction time as last_frame |
| Animation.FixedFPSAnimation.NextFrame | src/animation.rs:97-103 | if elapsed > interval, the inner advances and last_frame := now; otherwise nothing changes, the frame included |
| Animation.FixedFPSAnimation.Reset | src/animation.rs:105-107 | reset resets the inner animation only, and last_frame is kept |
| Animation.TimedEndedWindow | src/animation.rs:139-147 | without a soft end of the inner animation, ended (`TimedEnded`) holds exactly when now > started + duration |
| Animation.TimedEndedStays | src/animation.rs:139-147 | once ended, the time limiter stays ended as the clock advances |
| Animation.TimedEndedNotSoft | src/animation.rs:64-68 | a time limiter past its limit is ended, yet its maybe_ended (`TimedMaybeEnded`, the default) is false |
| Animation.TimedResetRestarts | src/animation.rs:133-136 | after reset at now, the limiter is ended at now only through the inner's maybe_ended |
| Animation.TimeLimitedAnimation.constructor | src/animation.rs:22-31 | with_duration records the construction time as started |
| Animation.TimeLimitedAnimation.NextFrame | src/animation.rs:129-131 | next_frame always advances the inner animation |
| Animation.TimeLimitedAnimation.Reset | src/animation.rs:133-136 | reset resets the inner animation and sets started := now |
| Animation.ChainAdvancesOne | src/animation.rs:159-177 | each call advances exactly one of A and B; at a switch, B is reset and advanced once in the same call; B stays active |
| Animation.ChainNotEndedWhileA | src/animation.rs:189-191 | the chain is never ended, nor maybe-ended, while A is active |
| Animation.ChainRunsAThenB | src/animation.rs:159-177 | from a fresh start, A is advanced exactly min(n, length of A) times before B's first advance, then only B advances |
| Animation.ChainEndsAfter | src/animation.rs:189-194 | from a fresh start, ended (`ChainEnded`) holds after n calls iff n > length of A and n - length of A >= length of B; maybe_ended (`ChainMaybeEnded`) agrees |
| Animation.ChainedAnimation.constructor | src/animation.rs:33-42 | chain starts with A active |
| Animation.ChainedAnimation.NextFrame | src/animation.rs:159-177 | the field updates of next_frame match the chain's transition function |
| Animation.ChainedAnimation.Reset | src/animation.rs:179-182 | reset resets A, leaves B alone and makes A active |
| Animation.RepeatCountBounded | src/animation.rs:205-222 | count <= loops is kept, count grows by at most one per call, and reset sets it to 0 |
| Animation.RepeatRunProgress | src/animation.rs:205-217 | after n calls from construction, n == count * length + steps of the current run |
| Animation.RepeatEndsAfter | src/animation.rs:205-231 | repeat(loops) over an inner of length >= 1 ends (`RepeatEnded`) after exactly (loops + 1) * length calls, not before; maybe_ended (`RepeatMaybeEnded`) likewise |
| Animation.RepeatStaysEnded | src/animation.rs:225-229 | once ended, the repeat stays ended and maybe-ended on every later call |
| Animation.RepeatTwiceOfOneStep | src/animation.rs:205-229 | loops = 2 over a one-step inner: not ended after 2 calls, ended after 3 |
| Animation.RepeatedAnimation.constructor | src/animation.rs:44-53 | repeat(times) starts with count 0 |
| Animation.RepeatedAnimation.NextFrame | src/animation.rs:205-217 | if the inner has ended and count < loops, it resets the inner and increments count, then always advances the inner |
| Animation.RepeatedAnimation.Reset | src/animation.rs:219-222 | reset resets the inner and sets count := 0 |
| Render.PwmIsPatternBit | src/render.rs:120-158 | compute_pwm (`Pwm`) is bit `frame` of BRIGHTNESS_PATS[brightness / 8], counted from the least-significant end; the index is always in the table |
| Render.PwmTicker.ComputePwm | src/render.rs:120-159 | the ticker's compute_pwm is that bit of the pattern at the ticker's current sub-frame |
| Render.PwmExtremes | src/render.rs:121-158 | brightness below 8 is off in every sub-frame; 248 or more is on in every sub-frame |
| Render.PwmTicker.constructor | src/render.rs:116-118 | the ticker starts at sub-frame 0 |
| Render.PwmTicker.NextFrame | src/render.rs:161-164 | the ticker advances by one modulo 32 and stays in [0, 32) |
| Render.LayerBitsAt | src/render.rs:86-91 | data bit r*8 + c of a layer is compute_pwm of row r, column c (row-major) |
| Render.RenderPassSegment | src/render.rs:79-95 | a pass is 8 segments of 74 events; segment idx frames storage layer 7 - idx under select byte 1 << idx |
| Render.RenderPassLayer | src/render.rs:79-95 | segment idx: latch low, select bits with only bit idx set, the 64 bits of layer 7 - idx row-major, latch high |
| Render.Pins.constructor | src/render.rs:66-77 | no pin events yet |
| Render.Pins.PushPin | src/render.rs:103-108 | push_pin emits one shifted bit |
| Render.Pins.OutByte | src/render.rs:97-101 | out_byte emits the byte's 8 bits, least-significant first |
| Render.Pins.OutRow | src/render.rs:87-90 | one row emits compute_pwm of its 8 voxels in column order |
| Render.Pins.OutLayer | src/render.rs:86-91 | one layer emits its 64 bits row-major |
| Render.Pins.OutFramedLayer | src/render.rs:81-93 | one loop iteration emits latch low, select byte, layer data, latch high |
| Render.Pins.DisplayFrame | src/render.rs:79-95 | display_frame emits the whole pass, layers in reverse storage order |
| Render.FpsEndedOrDefaultRun | src/render.rs:225-227 | this rate limiter's ended (`FpsEndedOrDefault`) holds after a run iff the inner terminates and its steps plus advances reach its length; after reset, iff the inner terminates and is empty |
| Render.TimedEndedVariants | src/render.rs:245-251 | this time limiter (`TimedEndedHard`) ends when a terminating inner ends, where the newer one, reading only maybe_ended, keeps going until time runs out |
| Render.RenderChainFreezes | src/render.rs:276-278 | once B has ended, this chain (`RenderChainNext`) advances nothing, while the newer chain still advances B |
| Render.RenderChainAgrees | src/render.rs:266-279 | while B has not ended, this chain steps exactly as the newer chain |
| Render.RenderChainRunsAThenB | src/render.rs:266-279 | from a fresh start, A advances min(n, length of A) times, then B, whose steps stop at its length |
| Render.RenderChainEndsAfter | src/render.rs:281-283 | ended (`RenderChainEnded`) holds after n calls iff n > length of A and n - length of A >= length of B, exactly when the newer chain's does |
| Render.RenderChainStaysOnEndlessA | src/render.rs:266-283 | with a non-terminating A (ended defaults to false), the chain stays on A and is never ended |
| Render.ChainedAnimation.constructor | src/render.rs:198-207 | chain starts with A active |
| Render.ChainedAnimation.NextFrame | src/render.rs:266-279 | the field updates match this chain's transition function: B advances only while it has not ended |
| Render.ChainedAnimation.Reset | src/render.rs:285-288 | reset resets A only and makes A active |
| Render.DriverAdvance | src/render.rs:320-325 | one step resets an ended animation and then advances it once |
| Render.DriverLoops | src/render.rs:320-325 | a terminating animation of length >= 1 keeps looping: its step count stays in 1..length |
| Render.Driver.constructor | src/render.rs:300-314 | Driver::new has an all-zero frame and the ticker at sub-frame 0 |
| Render.Driver.Reset | src/render.rs:316-318 | reset resets the animation |
| Render.Driver.Step | src/render.rs:320-330 | step, in order: reset if ended, one advance, display of the frame just drawn at the current sub-frame, one ticker advance |
| Rpi.NoiseTermUnit | src/backends/rpi.rs:92 | the noise term is always -1 or +1 |
| Rpi.NoiseNextPositive | src/backends/rpi.rs:91 | the noise update (`NoiseNext`) keeps a value in [1, 32767] in that range |
| Rpi.PositivePattern | src/backends/rpi.rs:82 | a bit pattern in (0, 0x8000) is exactly an i16 in [1, 32767] |
| Rpi.NoiseIterPositive | src/backends/rpi.rs:86-91 | from the seed 1, the noise is never 0 and never negative, however many calls are made |
| Rpi.DitherInputRange | src/backends/rpi.rs:92 | brightness + err + noise term lies in [-129, 383], so the i16 sum never overflows |
| Rpi.WrapI8Congruent | src/backends/rpi.rs:94 | `as i8` (`WrapI8`) keeps a value already in i8 range and otherwise moves it by a multiple of 256 |
| Rpi.DitherCarry | src/backends/rpi.rs:92-96 | for one step (`PwmStep`): on iff c > 127; the stored error is c - output exactly iff c is neither -129 nor 383, which wrap to 127 and -128 |
| Rpi.DitherWrapInputs | src/backends/rpi.rs:92-94 | the wrapping inputs need brightness 0, error -128 and term -1, or brightness 255, error 127 and term +1 |
| Rpi.DitherWrapExamples | src/backends/rpi.rs:91-94 | both wraps happen, and the first from the seed noise 1 |
| Rpi.PwmTicker.constructor | src/backends/rpi.rs:86-88 | the noise starts at 1 |
| Rpi.PwmTicker.ComputePwm | src/backends/rpi.rs:90-97 | one dithering step: the output, the new error and the new noise; no other error cell changes |
| Rpi.PassCell | src/backends/rpi.rs:58-63 | data bit r*8 + c of layer li and error cell [li][r][c] both come from the same step on that cell, which sees the noise after li*64 + r*8 + c calls |
| Rpi.PassShape | src/backends/rpi.rs:51-67 | one pass is 8 framed segments, segment li showing storage layer 7 - li under 1 << li: 592 events, 576 shifted bits |
| Rpi.PassesCount | src/backends/rpi.rs:74-78 | k passes draw 512k noise values and emit 592k events |
| Rpi.RpiBackend.constructor | src/backends/rpi.rs:22-36 | every error accumulator starts at 0 and the noise at 1 |
| Rpi.RpiBackend.PushPin | src/backends/rpi.rs:44-49 | push_pin emits one shifted bit |
| Rpi.RpiBackend.OutByte | src/backends/rpi.rs:38-42 | out_byte emits the byte's 8 bits, least-significant first |
| Rpi.RpiBackend.DitherCell | src/backends/rpi.rs:60-62 | one voxel: its own error cell takes the step's new error, the noise advances once, its bit is emitted |
| Rpi.RpiBackend.DitherRow | src/backends/rpi.rs:59-63 | one row: 8 steps in column order, touching only that row's cells |
| Rpi.RpiBackend.DitherLayer | src/backends/rpi.rs:58-64 | one layer's data: 64 steps row-major, touching only that layer's cells |
| Rpi.RpiBackend.DisplayLayer | src/backends/rpi.rs:52-66 | one layer iteration: latch low, select byte 1 << li, 64 dithered bits, latch high |
| Rpi.RpiBackend.DisplayLayers | src/backends/rpi.rs:52-67 | the layer loop updates every one of the 512 cells exactly once and advances the noise 512 times |
| Rpi.RpiBackend.DisplayInner | src/backends/rpi.rs:51-68 | display_inner is one pass of the closed form: new errors, noise after 512 calls, and the pass's events |
| Rpi.RpiBackend.DisplayFrame | src/backends/rpi.rs:74-78 | display_frame is exactly 8 passes over the same frame |
| Brightnesses.Repeat | generate_brightnesses.py:5 | s * n has length len(s) * n |
| Brightnesses.RepeatAt | generate_brightnesses.py:5 | character k of s * n is s[k mod len(s)] |
| Brightnesses.LJust | generate_brightnesses.py:6 | ljust keeps s as a prefix and pads with the fill up to the width |
| Brightnesses.Take | generate_brightnesses.py:7 | s[:n] is the prefix of length min(len(s), n) |
| Brightnesses.ParseBinary | generate_brightnesses.py:8 | n binary digits give a value below 2^n, at least 2^(n-1) with a leading 1 |
| Brightnesses.BinaryValueOnes | generate_brightnesses.py:8 | n ones read as 2^n - 1 |
| Brightnesses.BinaryValueLeadOnly | generate_brightnesses.py:8 | a 1 followed by zeros reads as 2^(n-1) |
| Brightnesses.Unit | generate_brightnesses.py:4 | "1" + "0" * i has i + 1 characters |
| Brightnesses.UnitAt | generate_brightnesses.py:4 | it is a '1' followed only by '0's |
| Brightnesses.UnpaddedLength | generate_brightnesses.py:4-5 | the repeated unit is (i+1)*(33 // (i+1)) long, between 33 - i and 33 |
| Brightnesses.PatternShape | generate_brightnesses.py:4-7 | every string (`Pattern`) is exactly 32 characters of '0'/'1', starting with '1' for i <= 32 |
| Brightnesses.PatternOnes | generate_brightnesses.py:4-7 | character k is '1' iff k is a multiple of i + 1 inside the repeated units |
| Brightnesses.PatternAt | generate_brightnesses.py:4-7 | the value of every character of the 32-character string |
| Brightnesses.PatternOnesSpaced | generate_brightnesses.py:4-6 | '1's occur only at positions divisible by i + 1 |
| Brightnesses.PatternValueRange | generate_brightnesses.py:4-8 | every value (`PatternValue`) lies in [2^31, 2^32) |
| Brightnesses.PatternValueDense | generate_brightnesses.py:4-8 | i = 0 gives 0xFFFFFFFF |
| Brightnesses.PatternValueSparse | generate_brightnesses.py:4-8 | every i from 16 to 32 gives 0x80000000 |
| Brightnesses.BuildPattern | generate_brightnesses.py:4-7 | the loop body builds the 32-character pattern for i |
| Brightnesses.Generate | generate_brightnesses.py:1-9 | 17 values for i = 16 down to 0 in that order, all 32-bit with the top bit set, the first 0x80000000 and the last 0xFFFFFFFF |
| Brightnesses.GeneratedValues | generate_brightnesses.py:3-9 | the values for i = 16 down to 0 are in [2^31, 2^32), from 0x80000000 to 0xFFFFFFFF |

## Left out

- Frames.Frame.Set: an out-of-range coordinate is a bounds panic in Rust. Here it is a precondition, so the panic itself is not modelled. The same holds for `Get`.
- Frames.Frame.LayerMut: `n >= 8` is a bounds panic in Rust. Here `n < 8` is a precondition, so that panic is not modelled either.
- Frames.Frame.LayerMut: the borrowed `&mut` layer is modelled as the caller handing over the layer it ends up writing. Interleaved writes through the borrow are not modelled.
- Frames.Frame.PixelsMut: the caller's writes through the item references are modelled as one update function applied in traversal order.
- Animation.AdvanceInner: what a concrete animation draws is abstract. The model writes a stand-in voxel, and callers learn nothing about the frame's new contents.
- The concrete animations (bounce, waves, lines, sine, the configuration in animations/mod.rs) are not modelled. They are float geometry, physics and randomness. Combinators only see them as abstract inner animations.
- Time: `Instant::now()` is an explicit clock reading passed to each call. The interval `1/fps` (a float conversion) and `duration` are natural numbers of clock ticks.
- The `RwLock`/`Arc` forwarding implementations and lock poisoning are not modelled. They only serve the concurrent preview configuration.
- `dbg!` output, GPIO acquisition and pin levels are not modelled. Pins are modelled only as the trace of events that `push_pin` and the latch edges produce.
- Render.Pins.DisplayFrame: the ticker's `compute_pwm` is passed as a function value (`PwmAt(frame)`), not called through a borrowed ticker.
- Rpi.PwmTicker.ComputePwm: the `&mut i8` argument is modelled as the error array plus the cell's indices.
- Rpi.Half: Rust's truncating `i16` division by 2 is written on the bit pattern. Its agreement with `i16` arithmetic is not proved separately; it is used only inside the noise update.
- GAMMA: the table is a 256-entry constructor argument of the backend. Its values, computed by the float code in src/dither.rs, and their monotonicity are not modelled. src/dither.rs is not part of this model.
- No convergence or error-drift property of the dithering is claimed. The code promises none, and at brightness 0 the error performs a ±1 walk that can wrap.
- Render.PwmExtremes: only the two extremes of the brightness table are proved. That the duty cycle grows with brightness is not claimed.
- Brightnesses.ParseBinary: Python's `int(s, 2)` also accepts signs, underscores and surrounding whitespace, and raises `ValueError` on anything else. Only strings of binary digits are modelled, and `generate()` only ever passes such strings (PatternShape).
- The printing loop of generate_brightnesses.py (lines 11-13) is I/O and is not modelled.
- src/main.rs, src/visual.rs and src/backends/{backend,null}.rs are not part of this model. They hold the endless main loop with feature selection, the UI, and a one-method trait with its no-op implementation.
