# TurnX native media relay: controller and frame queues

This project models the three pieces of logic in the TurnX native process
that have behaviour of their own:

- **The PID controller** (`PIDController`). It turns a measured value into
  a bounded output, one `adjust` step at a time. Each step computes the
  error against the last output and updates a sliding window of past
  errors. It then applies a two-step derivative recurrence and clamps the
  weighted sum into `[min, max]`. The source has an `f32` copy and an
  identical `f64` copy; both are modelled once, over `real`.
- **The H.264 call shim.** A process-wide `codec` is created by `start` and
  destroyed by `stop`. It owns a list of frames: `push` adds at the front
  and `pop` removes at the back.
- **The VPX compander** (`Compander`). It keeps a list of compressed frames
  and the bitrate the encoder last accepted. `push` appends, `pop` takes the
  newest frame for re-encoding, and `len` reports congestion.

Each component is a module of immutable datatypes and pure functions:
`PidController` (pid.dfy), `H264Calls` (h264_calls.dfy) and `VpxCompander`
(compander.dfy). Their shared result types live in `Outcomes`
(outcomes.dfy).

The native code has no recoverable errors. A failed `assert` or a Rust
panic ends the process. A use of the null `codec` is undefined behaviour in
C++; the model treats it as ending the process too (see "Left out"). The
model returns `Panic(reason)` for each of these cases instead of hiding
them behind a precondition. The cases are:

- `adjust` with `integral_size == 0`: the `usize` subtraction underflows.
- `adjust` with `min > max`: `clamp` panics.
- the C++ asserts in `start`, `stop`, `push` and `pop`.
- `push`, `pop` or `size` while `codec` is null (undefined behaviour,
  modelled as a panic).
- `set_bitrate` when the encoder rejects the configuration.

Calls into libvpx and OpenH264 are not modelled. What they return enters the
model as a parameter: the status of `vpx_codec_enc_config_set`, and the
bytes that `vpx_codec_get_cx_data` hands back.

In the model, index 0 of the PID window is the front of the `VecDeque`.
Index 0 of the H.264 frame queue is the front of the `std::list`.

Points where a reader might expect other behaviour, and what the code does:

- **Window length.** The field comment at pid.rs:11 says the window should
  have a fixed size, and the padding loop at pid.rs:67 fills it to
  `integral_size - 1` before one entry is added. Both point at a window of
  exactly `integral_size` entries. The trimming loop at pid.rs:63 keeps
  `integral_size` entries instead, so the code leaves `integral_size + 1`
  (see Findings).
- **Where zeros go.** The padding loop pushes its zeros at the front of the
  window, next to the newest entry, not at the back with the oldest.
- **Start value.** `new` checks nothing and stores `start_at` as given,
  even outside `[min, max]`. Only the first `adjust` brings `current` into
  range.
- **No bounded queue.** Neither frame list has a capacity or evicts
  anything. The compander's list is unbounded, and since `Vec::pop` takes
  the newest frame it is last-in first-out. The H.264 list is first-in
  first-out and also unbounded.

## Model

| member | source | states |
|---|---|---|
| `PidController.New` | native/turn_x_native/src/turnx_gst/pid.rs:32-56 | The window holds `integral_size` zeros. Both derivative fields equal `start_derivative` and the proportion equals `start_proportion`. `current` is `start_at`, unclamped. Bounds and weights are stored as given |
| `PidController.Clamp` | native/turn_x_native/src/turnx_gst/pid.rs:95 | The result lies in `[lo, hi]`. It equals `x` when `x` is inside, and otherwise the bound `x` crossed |
| `PidController.TrimBackKeepsPrefix` | native/turn_x_native/src/turnx_gst/pid.rs:63-66 | Popping from the back while the window is longer than `keep` leaves its first `min(len, keep)` entries, in order |
| `PidController.PadFrontPrependsZeros` | native/turn_x_native/src/turnx_gst/pid.rs:67-70 | Pushing zeros at the front while the window is shorter than `floor` prepends exactly `floor - len` zeros (none if already long enough) |
| `PidController.UpdateWindow` | native/turn_x_native/src/turnx_gst/pid.rs:63-72 | After trim, pad and push, the window is the new proportion, then the padding zeros, then the kept old entries. Its length is one more than the larger of the kept count and the pad target |
| `PidController.Settle` | native/turn_x_native/src/turnx_gst/pid.rs:74-97 | The new `derivative_previous` is the old `derivative`. The new `derivative` is the proportion minus the old `derivative_previous`. `current` is the clamp of the old `current` plus the weighted sum, and that is the returned value. It panics exactly when `min > max`. Bounds, weights and `integral_size` are unchanged |
| `PidController.Adjust` | native/turn_x_native/src/turnx_gst/pid.rs:58-98 | It panics exactly when `integral_size == 0` or `min > max`. Otherwise the returned value equals the stored `current` and lies in `[min, max]`, and `proportion` is `value` minus the old `current`. The window starts with the proportion. It is `integral_size + 1` long if the old window had at least `integral_size` entries, else `integral_size`. The derivative recurrence and the pre-clamp sum are as in `Settle`, and the settings are unchanged |
| `PidController.Run` | native/turn_x_native/src/turnx_gst/pid.rs:58-98 | With `integral_size >= 1` and `min <= max`, and a window of any length, every `adjust` in a series succeeds and returns a value in `[min, max]`. The last value returned is the stored `current`, and the settings never change. The window holds exactly `integral_size + 1` entries after the first call if it started with at least `integral_size`, and after the second call otherwise |
| `PidController.RunFromNew` | native/turn_x_native/src/turnx_gst/pid.rs:43-97 | After `new`, any non-empty series of `adjust` calls leaves the window at `integral_size + 1` entries. Every output lies within the bounds, even when `start_at` did not |
| `PidController.AtRestStaysPut` | native/turn_x_native/src/turnx_gst/pid.rs:58-97 | An in-range controller with an all-zero window and a zero older derivative returns its `current` unchanged when asked to adjust to it |
| `PidController.FirstWindowAfterNew` | native/turn_x_native/src/turnx_gst/pid.rs:45-81 | The first `adjust` after `new` leaves the window as the error followed by `integral_size` zeros. Its mean is the error divided by `integral_size + 1` |
| `PidController.FirstStepAfterNew` | native/turn_x_native/src/turnx_gst/pid.rs:43-97 | The first output after `new` is the clamp of a closed form. That form is `start_at` plus the error weighted by `weight_proportion`, plus the error over `integral_size + 1` weighted by `weight_integral`, plus the error minus `start_derivative` weighted by `weight_derivative` |
| `PidController.FirstStepOfSourceTest` | native/turn_x_native/src/turnx_gst/pid.rs:180-182 | On the source test's settings, the first `adjust(1000)` leaves a five-entry window and returns 530 |
| `PidController.AdjustCorrected` | native/turn_x_native/src/turnx_gst/pid.rs:63-72 | With the first loop trimming to `integral_size - 1`, the window holds exactly `integral_size` entries after every step, whatever its length before. The other guarantees of `Adjust` also hold |
| `PidController.FirstStepAfterNewCorrected` | native/turn_x_native/src/turnx_gst/pid.rs:43-97 | With the corrected window, the first step after `new` averages the error over `integral_size` entries |
| `PidController.FirstStepCorrected` | native/turn_x_native/src/turnx_gst/pid.rs:180-182 | With the corrected window, the source test's first step keeps four entries and returns 533.75 |
| `H264Calls.Start` | native/turn_x_native/src/cxx/turnx_h264_cxxcalls.cpp:68-71 | Succeeds exactly when no codec exists, and creates one with an empty queue. A second start fails its assert |
| `H264Calls.Stop` | native/turn_x_native/src/cxx/turnx_h264_cxxcalls.cpp:72-75 | Succeeds exactly when a codec exists, and removes it. Stopping with no codec fails its assert |
| `H264Calls.Push` | native/turn_x_native/src/cxx/turnx_h264_cxxcalls.cpp:76-79 | Succeeds exactly when the frame is encoded and a codec exists. Then the frame is at the front and the old queue follows, so the size grows by one. An unencoded frame fails the assert before the codec is touched |
| `H264Calls.Pop` | native/turn_x_native/src/cxx/turnx_h264_cxxcalls.cpp:80-92 | Succeeds exactly when a codec exists, its queue is non-empty and the back frame is not encoded. It removes the back frame and returns a fresh encoded frame with zero items, not the removed one. Each failure is named |
| `H264Calls.Size` | native/turn_x_native/src/cxx/turnx_h264_cxxcalls.cpp:93-95 | Returns the queue length when a codec exists. The state is not changed |
| `H264Calls.SizeCountsPushes` | native/turn_x_native/src/cxx/turnx_h264_cxxcalls.cpp:76-95 | On a live codec, pushing a series of encoded frames always succeeds and grows `size` by the number of frames |
| `H264Calls.SizeAfterPop` | native/turn_x_native/src/cxx/turnx_h264_cxxcalls.cpp:80-95 | A successful `pop` lowers `size` by one |
| `H264Calls.LeavingOrderOfPushFront` | native/turn_x_native/src/cxx/turnx_h264_cxxcalls.cpp:78-84 | A frame pushed at the front leaves after every frame already queued |
| `H264Calls.FramesLeaveInPushOrder` | native/turn_x_native/src/cxx/turnx_h264_cxxcalls.cpp:76-84 | After pushing a series of frames, the back-first leaving order is the old queue's order followed by the frames in push order (FIFO) |
| `H264Calls.PushCommutesWithPop` | native/turn_x_native/src/cxx/turnx_h264_cxxcalls.cpp:76-84 | A push does not change which frame the next pop removes |
| `H264Calls.StartThenStop` | native/turn_x_native/src/cxx/turnx_h264_cxxcalls.cpp:68-75 | `stop` after `start` returns to no codec |
| `H264Calls.PushedFramesNeverPop` | native/turn_x_native/src/cxx/turnx_h264_cxxcalls.cpp:76-85 | From any state whose queue holds only encoded frames, every successful series of calls keeps that true and contains no `pop` |
| `H264Calls.EveryPopFails` | native/turn_x_native/src/cxx/turnx_h264_cxxcalls.cpp:58-92 | Whatever calls ran from process start, the next `pop` never succeeds. With no codec it uses the null pointer (`NullCodec`). With a codec, the non-empty assert or the not-encoded assert fails, because push admits only encoded frames and pop rejects them |
| `VpxCompander.New` | native/turn_x_native/src/vpx/compand.rs:40-48 | The bitrate is `DEFAULT_BITRATE` (512), the frame list is empty, and the width and height are stored |
| `VpxCompander.SetBitrate` | native/turn_x_native/src/vpx/compand.rs:50-60 | The rate is stored exactly when the codec status is OK, and the frame list is kept. Any other status is an assertion failure that names that status |
| `VpxCompander.GetBitrate` | native/turn_x_native/src/vpx/compand.rs:62-64 | Returns the stored bitrate; `SetThenGet` and `NewKeepsDefaultBitrate` say what it reads |
| `VpxCompander.Push` | native/turn_x_native/src/vpx/compand.rs:67-69 | The frame is appended after the existing ones and `len` grows by one. Bitrate and size are unchanged |
| `VpxCompander.Pop` | native/turn_x_native/src/vpx/compand.rs:72-141 | Takes the last frame, or leaves an empty list unchanged. Only an empty list leads to a flush. The codec's output is always returned in `Some`, and the bitrate is unchanged |
| `VpxCompander.SetThenGet` | native/turn_x_native/src/vpx/compand.rs:50-64 | After an accepted `set_bitrate`, `get_bitrate` reads the new rate |
| `VpxCompander.RejectedRateNeverStored` | native/turn_x_native/src/vpx/compand.rs:50-60 | A rejected status ends in the assertion failure and never in a compander holding the new rate |
| `VpxCompander.QueueCallsKeepBitrate` | native/turn_x_native/src/vpx/compand.rs:66-146 | Any series of `push`, `pop` and `len` calls leaves bitrate, width and height as they were |
| `VpxCompander.NewKeepsDefaultBitrate` | native/turn_x_native/src/vpx/compand.rs:40-146 | After `new` and any series of `push`, `pop` and `len` calls, `get_bitrate` still reads `DEFAULT_BITRATE`, and the width and height are as given |
| `VpxCompander.PopUndoesPush` | native/turn_x_native/src/vpx/compand.rs:67-73 | A pop right after a push takes that frame back and restores the compander |
| `VpxCompander.PushAllAppends` | native/turn_x_native/src/vpx/compand.rs:67-69 | Pushing a series appends it, in order, to the end of the list |
| `VpxCompander.PopsReversePushes` | native/turn_x_native/src/vpx/compand.rs:67-73 | After frames are appended, as many pops take them back newest first (LIFO) and restore the compander |
| `VpxCompander.PushAllThenPopAll` | native/turn_x_native/src/vpx/compand.rs:67-146 | `len` counts every pushed frame. Popping as many times as pushed returns the frames in reverse order and restores the compander |
| `VpxCompander.Len` | native/turn_x_native/src/vpx/compand.rs:144-146 | Returns the number of frames in the list; `Push`, `Pop` and `PushAllThenPopAll` say how it changes |
| `VpxCompander.PushPopFromNew` | native/turn_x_native/src/vpx/compand.rs:40-146 | From a fresh compander, `len` after a batch of pushes is the batch size, and as many pops return the batch newest first and leave the compander as `new` made it |

## Findings

| source | as written | input that shows it | evidently intended | confidence | as-written member | corrected member |
|---|---|---|---|---|---|---|
| native/turn_x_native/src/turnx_gst/pid.rs:63-72 | The first loop trims the window to `integral_size` entries and the second pads it to `integral_size - 1`. Pushing the new proportion then makes `integral_size + 1` | `new(500, 2500, 0.02, 0.15, 0.01, 4, 500, 0, 0)` then `adjust(1000)`: the window is `[500, 0, 0, 0, 0]`, the mean is 100 and the output 530 | The window holds exactly `integral_size` entries, as the "fixed but adjustable size" comment (pid.rs:11) and the pad target `integral_size - 1` (pid.rs:67) describe. The first loop should trim to `integral_size - 1`, giving window `[500, 0, 0, 0]`, mean 125 and output 533.75 | medium; not executed | `PidController.FirstStepOfSourceTest` | `PidController.AdjustCorrected` |

`Adjust` keeps the code's behaviour, because it models the code as written.
`AdjustCorrected` shares every step with it except the first loop's bound.
The multi-step lemmas are about `Adjust`.

## Left out

- **Not-a-number checks and float rounding.** The asserts in `adjust`
  (pid.rs:84-87, 91-94) and `f32`/`f64` rounding are not modelled. The
  model computes over `real`, where neither can arise.
- **The `f64` copy** (pid.rs:101-169) is textually the same as the `f32`
  one that is modelled.
- **Release-mode wrap-around.** `PidController.Adjust` models
  `integral_size == 0` as a panic. In a release build the subtraction
  wraps instead, and the padding loop then runs until memory is exhausted.
  Both end the process, so one fault covers them.
- **`integral_size` and `current` are public** (pid.rs:12, 18). A caller
  may write them between calls. `Adjust`'s contract covers that for a single
  step: it takes any controller and states the window length for any
  earlier length. `Run` and `RunFromNew` assume no writes between the calls
  of a series, since `Run` keeps `integral_size` and `current` as `adjust`
  leaves them. `RunFromNew`, `FirstStepAfterNew`, `FirstStepOfSourceTest`,
  `FirstStepAfterNewCorrected` and `FirstStepCorrected` start from `new`.
- **H.264 codec construction.** The OpenH264 decoder is created and
  initialised in the codec's constructor (turnx_h264_cxxcalls.cpp:39-55),
  a foreign library call. `start` calls `make_unique` with no arguments,
  although the only constructor takes four, and the Rust declaration passes
  a width and height. The model treats `start` as creating a codec with an
  empty queue.
- **C++ asserts.** The model assumes they are compiled in. With `NDEBUG`
  they would vanish and most failed checks would carry on with defined
  behaviour: a second `start` replaces the codec (cpp:70), `stop` on no
  codec leaves it null (cpp:74), `push` queues an unencoded frame (cpp:78),
  and `pop` of an encoded back frame removes it and returns the fresh frame
  (cpp:88-91). Only `pop` on an empty queue becomes undefined behaviour
  (`back()` and `pop_back()`, cpp:83-84). `H264Calls.EveryPopFails` and
  `H264Calls.PushedFramesNeverPop` depend on the asserts being compiled in:
  without them a pop can succeed. build.rs compiles only c/turnx_vpx.c;
  this file is not built.
- **`H264Calls.Push`, `H264Calls.Pop`, `H264Calls.Size`: null `codec`.**
  These calls use `codec->` without a check
  (turnx_h264_cxxcalls.cpp:78, 82, 94). On a null `unique_ptr` that is
  undefined behaviour, not a defined abort. The model assumes it ends the
  process and returns `NullCodec`.
- **H.264 frames are values, not pointers.** The source stores pointers
  that the caller could change after `push`, so in practice a queued frame
  could become unencoded before `pop`. Such writes are not modelled, which
  is why no pop succeeds in the model. The C++ frame has no plane pointers: `union p` at cpp:17-23 declares a
  nested type, not a member, so it holds only `is_encoded` and `n_items`,
  as `Frame` does. The Rust mirror (h264/abr.rs:3-8) adds pointer fields
  and so has a different layout; that mismatch is not modelled. The memory
  that `pop` allocates and never frees is not modelled either.
- **`VpxCompander.Pop`: the encoder's output is a byte parameter.** When
  libvpx returns a null packet, the source dereferences the null packet
  pointer (compand.rs:135-136) before any `Vec` exists, which is undefined
  behaviour. That case is not represented.
  Likewise, when `vpx_codec_get_frame` returns null, `pop` dereferences it
  (`&*dx_valid_image`, compand.rs:88-97), also undefined behaviour. The
  model assumes the decoder always yields an image and records an encode
  request for it.
  Decoding, encoding, the presentation timestamp and the 25 ms deadline
  are foreign calls and are not modelled.
- **`VpxCompander.SetBitrate`: the encoder configuration is not
  modelled.** The source writes the new rate into the encoder
  configuration before checking the status. That configuration belongs to
  the codec context, which is not part of this model.
- **Codec resources.** Creating and releasing the compander's codec
  (`turnx_vpx_compander_create`, `Drop`, c/turnx_vpx.c) is allocation and
  libvpx setup only.
- **`main.rs`** is a stdio echo loop over an external port library. The
  4-byte framing lives in that library, which is not part of this model.
- **No behaviour to model:** h264/abr.rs (foreign declarations and a C
  struct), turnx_gst/abr.rs (an empty placeholder), turnx_gst/frame.rs (a
  serde-derived struct), build.rs and turnx_gst.rs.
- **No lag-sense bookkeeping.** turnx_gst/abr.rs's `Pipeline` is empty,
  and main.rs only echoes strings, so there is nothing more to model.
