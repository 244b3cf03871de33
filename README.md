# egui_oszi core: lazy X-axis origin and bounded sensor history

This project models two pieces of the `egui_oszi` time-series plotting crate in Dafny and proves properties about them.

- **X-axis normalisation** (`traits.dfy`, module `Traits`). The `TimeseriesXAxis::to_f64` trait turns an X value into a plot coordinate. For monotonic-clock instants, the first call stores the instant in the caller's empty origin slot and returns 0. Every later call returns the seconds elapsed since that origin and leaves the slot alone. For plain `f64` values the conversion is the identity and the slot is ignored. Instants are whole nanoseconds (`int`), and elapsed seconds are exact `real` quotients. The slot the plot keeps from frame to frame is the class `OriginSlot`. Its method `ToF64` is proved against the value-level function `InstantToF64`. The lemmas about a whole sequence of calls use that function.
- **Sensor-history update** (`noise.dfy`, module `Noise`). This is `NoiseExample::update_sensor_data` from the noise example. Each frame it:
  - stamps one sample per whole elapsed millisecond;
  - forces a reading to 0 when its noise is below -0.035 (a "dropout");
  - drops readings with |y| >= 2.0 (clipped);
  - appends the survivors to the history and drains the oldest entries, so that at most `POINTS_HISTORY` (100 000) remain;
  - records the frame instant.

  The history is the `seq` field of the class `NoiseExample`. The method `UpdateSensorData` is proved against the functions `Survivors` and `Trimmed`. The class invariant `Valid` holds before and after every frame. It says the history is bounded, unclipped and strictly chronological, and that every entry is older than the last frame.

## Model

| member | source | states |
|---|---|---|
| Traits.SecsSince | src/traits.rs:15 | the elapsed time from origin to x, in seconds: non-negative, equal to the nanosecond difference divided by 10^9, and zero exactly when x is the origin |
| Traits.InstantToF64 | src/traits.rs:12-21 | afterwards the slot is always filled. A filled slot is returned unchanged. An empty slot receives x and the coordinate is 0. The coordinate is always the elapsed time from the resulting origin to x |
| Traits.F64ToF64 | src/traits.rs:23-27 | the coordinate of a number is the number itself, and the origin slot comes back unchanged (so an empty slot stays empty) |
| Traits.OriginSlot.ToF64 | src/traits.rs:13-20 | the in-place call on the persistent slot returns the coordinate and leaves the slot contents given by InstantToF64 on the old slot |
| Traits.OriginIsZero | src/traits.rs:14-15 | normalising the origin instant itself yields 0 and leaves the slot unchanged |
| Traits.OriginSetOnce | src/traits.rs:14-19 | after any sequence of calls on one slot, it holds the origin it already had or else the first instant ever passed; it is filled at most once and never changed afterwards |
| Traits.SharedTimeBase | src/traits.rs:14-19 | every coordinate produced through one slot is the elapsed time since that same single origin |
| Noise.NumSamples | examples/noise.rs:47-48 | the sample count is the number of whole 1 ms periods in the elapsed time, saturated at the unsigned 32-bit maximum; those samples never reach past the elapsed time |
| Noise.GenerateWindow | examples/noise.rs:50-56 | generated timestamps strictly increase and lie in [last_frame, last_frame + n periods) |
| Noise.Substitute | examples/noise.rs:61-71 | the dropout rule keeps the timestamp and forces the reading to 0 when its noise is below -0.035; such a dropout always passes the clip filter (\|y\| < 2.0), so the filter never removes it |
| Noise.Survivors | examples/noise.rs:57-71 | no more readings survive than were generated, and every survivor passes the clip filter (\|y\| < 2.0) |
| Noise.SurvivorsSound | examples/noise.rs:57-71 | every survivor is the dropout-rule image of some generated reading; nothing is invented |
| Noise.SurvivorsComplete | examples/noise.rs:57-71 | the image of every generated reading that passes the clip filter survives; every dropout survives as a zero reading at its own timestamp, so the filter never removes a dropout |
| Noise.SurvivorsAppend | examples/noise.rs:57-71 | each reading is filtered on its own: the survivors of a concatenation are the concatenation of the survivors |
| Noise.SurvivorsChronological | examples/noise.rs:50-71 | filtering preserves generation order: the survivors of a chronological batch are chronological and all lie within the time span of the generated batch |
| Noise.Trimmed | examples/noise.rs:74-77 | the trimmed history has min(len, POINTS_HISTORY) readings and is the suffix of that length, so nothing is removed when the length is within the bound and exactly the oldest surplus readings are removed otherwise |
| Noise.TrimmedAppend | examples/noise.rs:73-77 | after extending and trimming, the history is a suffix of the old history followed by the whole new batch, or only a suffix of the new batch when the batch alone overflows |
| Noise.BatchWindow | examples/noise.rs:46-71 | the readings one frame appends are unclipped, chronological and lie between the previous frame instant and the current one |
| Noise.AppendHistory | examples/noise.rs:73 | appending such a batch keeps the history chronological, unclipped and older than the new frame instant |
| Noise.TrimmedHistory | examples/noise.rs:74-77 | draining the oldest readings keeps those properties |
| Noise.FrameKeepsHistory | examples/noise.rs:42-80 | one frame preserves the history invariant: chronological, unclipped and older than the new last frame |
| Noise.NoiseExample.constructor | examples/noise.rs:31-39 | a new example has an empty history and records both clock readings; the invariant holds |
| Noise.NoiseExample.UpdateSensorData | examples/noise.rs:42-80 | the new history is the trimmed concatenation of the old history and this frame's survivors; last_frame becomes the now read at the start; first_frame is unchanged; the invariant, including the POINTS_HISTORY bound, is preserved |

## Left out

- Random numbers and the normal distribution (examples/noise.rs:49, 54) are not modelled. Each frame receives its noise values as a sequence.
- The sine waveform and the `as_secs_f32` conversion (examples/noise.rs:58-59) are not modelled. Each frame receives its waveform values, noise included, as a sequence.
- Noise.NumSamples: uses exact integer arithmetic, with truncation and `as u32` saturation. The source computes the count through `f64` seconds multiplied by 1000.0. Floating-point rounding could differ from the exact count by one near a period boundary.
- Noise.Generate: the sample period `Duration::from_secs_f64(1.0 / SAMPLE_RATE)` is taken to be exactly 1 000 000 ns.
- `Instant + Duration` overflow is not modelled; it would panic in the source.
- Traits.SecsSince: the result is exact. `Duration::as_secs_f64` rounds to the nearest `f64`.
- Traits.InstantToF64: requires that x is not before a stored origin. The source performs the subtraction without checking this, so the result for an earlier instant is not modelled.
- Readings, noise values and the constants -0.035 and 2.0 are exact `real`s, not `f32`s. `-0.035f32` is slightly below -0.035, so a noise value between the two counts as a dropout in the model but not in the source. NaN and infinities are not modelled.
- A `VecDeque` is modelled as a sequence. Its ring-buffer layout and its preallocated capacity (examples/noise.rs:34) are not modelled.
- Noise.NoiseExample.UpdateSensorData: requires that `now` is not before `last_frame`. This holds because the clock is monotonic.
- `plot_memory` is a field of `NoiseExample` that the update does not touch, and it is not modelled. `rng` is used by the update; the noise input replaces it.
- `eframe::App::update` and `main` (examples/noise.rs:83-118) are not modelled. They cover GUI panel construction, adding the widget, repaint scheduling and the event loop.
- Profiling hooks and logging (examples/noise.rs:43-44, 85-90, 111) are not modelled.
- `TimeseriesPlot`, `TimeseriesLine` and `TimeseriesPlotMemory` are not part of this model. These are the plot widget, decimation and plot memory, and their source is not among the modelled files.
- Rust's trait polymorphism is written as two separate functions: one per implementation, each over its own slot type.
