# Playback engine of music_trainer, modelled in Dafny

music_trainer plays short recorded notes from a real-time audio output
callback. The front end sends commands (`Play`, `PlayNext`, `Stop`) over a
channel; every time the audio device asks for a buffer, the callback takes
at most one command, updates a two-case state machine (`Idle` /
`Playing{id, start, milisecs, pos}`) and a FIFO queue of `(id, milisecs)`
pairs, fills the interleaved output buffer, and sends `Finish` back when a
segment's time is up. At start-up every recording is converted to the
device's sample rate by `trans_sample` / `get_sample`.

The project has four modules:

- `Arith` (arith.dfy): uniqueness of Euclidean division and the slot
  arithmetic of interleaved frames (`i * c + j`).
- `Resample` (resample.dfy): the rate conversion. The source position
  `pos * sr / tsr` is exact (`Position` splits it into floor and fraction),
  amplitudes are reals. `GetSample` makes the same three-way choice as the
  source: blend frames `i` and `i+1`, copy frame `i`, or a silent frame as
  wide as frame 0. `TransSample` produces one frame per input frame.
- `Protocol` (protocol.dfy): one callback as pure functions. `Intake` takes
  the command, `Advance` renders, `Step` does both, and `Run` folds `Step`
  over a sequence of callbacks. Lemmas state what each case does and what
  holds across many callbacks.
- `Engine` (engine.dfy): the class `PlayData`, owned by the callback. It has
  the library as constants and the state and queue as fields. Its method
  `Callback(cmd, now, data)` runs the command intake, the expiry test, the
  queue pop and the nested `for i` / `for j` frame loops and fill loops
  over an `array<real>`. It is proved to leave exactly the state, queue,
  buffer and notifications that `Protocol.Step` gives.

The model's inputs replace the real channels and clock:
- a pending command is an `Option<Cmd>`;
- the notifications sent by one call are its result, a `seq<FrontMsg>`;
- the time is an integer number of milliseconds `now`.

## Behaviour kept from the code

- `trans_sample` returns exactly as many frames as its input
  (src/play.rs:39). It does not scale the length by the rate ratio, so
  downsampling leaves a silent tail (`DownsampledTailIsSilent`), and
  upsampling never reaches the end of the recording.
- On a handoff to the queued note, the buffer is rendered from the
  finishing note's table and channel count, from frame 0. Those were bound
  at src/play.rs:176-177, before `id` changes at :184. The new state's
  `pos` is `n / c` with the finishing note's `c`, so the queued note's
  first frames are skipped. A description in which the queued note sounds
  from its own first frame in that buffer is not what the code does.
- `PlayNext` while idle only appends to the queue. Nothing starts until a
  later `Play` segment runs out (`PlayNextWhileIdleWaits`).
- Note ids are never checked by the code. The model requires every id in
  a command or in the queue to index the library; it neither rejects nor
  clamps.
- The expiry test is strict: a segment finishes only when
  `now - start > milisecs` (src/play.rs:181).

## Model

| member | source | states |
|---|---|---|
| `Resample.Position` | src/play.rs:50-52 | the integer part plus the fraction (in [0, 1)) equal the exact source position `pos * sr / tsr` |
| `Resample.BlendBetween` | src/play.rs:57 | `a*(1-s) + b*s` with `s` in [0, 1] lies between `a` and `b` |
| `Resample.Lerp` | src/play.rs:53-58 | the blend is as wide as the narrower frame, and with a weight in [0, 1] every channel lies between the two frames' channels |
| `Resample.GetSample` | src/play.rs:44-66 | on a table whose frames all share frame 0's width, the frame produced has that width too |
| `Resample.GetSampleCases` | src/play.rs:44-66 | with `i = floor(pos*sr/tsr)` and `frac = pos*sr/tsr - i`: if `i+1 < len`, exactly the blend of frames `i` and `i+1` with weight `frac`, as wide as the narrower of the two and with every channel between theirs; if `i+1 == len`, exactly frame `i`; if `i >= len`, silence as wide as frame 0 |
| `Resample.TransSample` | src/play.rs:38-42 | exactly `input.len()` frames, whatever the two rates |
| `Resample.TransSampleIdentity` | src/play.rs:38-66 | with equal rates, a table whose frames all have the same width is returned unchanged |
| `Resample.TransSampleWidth` | src/play.rs:38-66 | a table whose frames all have width `w` converts to one whose frames all have width `w` |
| `Resample.TransSampleWithin` | src/play.rs:50-65 | if every input amplitude is in [lo, hi] (with 0 in it), so is every output amplitude |
| `Resample.DownsampledTailIsSilent` | src/play.rs:38-64 | target frames whose source position is at or past the input's length come out as silence |
| `Resample.UpsampledNeverSilent` | src/play.rs:38-59 | when `sr <= tsr` (including `sr == 0`), target frame `pos` reads source frame `i = floor(pos*sr/tsr) <= pos`, always in range: the converted frame is the blend of input frames `i` and `i+1` with the position's fraction, or input frame `i` itself when it is the last, never silence |
| `Protocol.Advance` | src/play.rs:164-214 | the render phase keeps note ids valid, keeps the buffer length, and sends at most one notification |
| `Protocol.Step` | src/play.rs:142-215 | one callback keeps note ids valid, keeps the buffer length, and sends at most one notification |
| `Protocol.Run` | src/play.rs:142-215 | a sequence of callbacks yields one buffer per call, each as long as the one handed in, and no more notifications in all than there are calls |
| `Protocol.Intake` | src/play.rs:143-162 | after intake, `Play` leaves one segment owed, `PlayNext` one more than before, `Stop` none, no command as many as before; only `Play` and `Stop` change the state; the queue is emptied or keeps its entries in order, with at most one more at the back |
| `Protocol.IntakeCommands` | src/play.rs:143-162 | `Play` gives `Playing{id, now, ms, 0}` and an empty queue; `PlayNext` appends `(id, ms)` at the back and keeps the state; `Stop` gives `Idle` and an empty queue; no command changes nothing |
| `Protocol.Expired` | src/play.rs:181 | a segment can have run out only at a time strictly after its start |
| `Protocol.FrameAt` | src/play.rs:198 | frame `min(i, len-1)` of the table: frame `i`, or the last frame past the end |
| `Protocol.Render` | src/play.rs:194-200 | the rendered buffer is exactly as long as the one handed in (its slot contents are stated by `RenderAt` and `RenderKeepsTail`) |
| `Protocol.RenderAt` | src/play.rs:195-199 | slot `i*c + j` of a rendered buffer (for `i < n/c`, `j < c`) is in range and holds channel `j` of frame `min(pos+i, len-1)` |
| `Protocol.RenderKeepsTail` | src/play.rs:194-200 | the slots from `(n/c)*c` on keep their previous values |
| `Protocol.IdleRender` | src/play.rs:165-169 | while idle, every slot becomes 0, nothing is sent, state and queue stay |
| `Protocol.PlayingStep` | src/play.rs:176-206 | a segment not run out sends nothing, keeps id, start and length, advances `pos` by `n/c`, and keeps the queue and the trailing slots |
| `Protocol.PlayingFrame` | src/play.rs:193-200 | a segment not run out writes channel `j` of frame `min(pos+i, len-1)` of its own note at slot `i*c + j`, never silence and never out of range |
| `Protocol.ExpiredIdle` | src/play.rs:180-212 | a segment run out with an empty queue sends one `Finish`, goes `Idle` and sets every slot to 0 |
| `Protocol.ExpiredHandoff` | src/play.rs:181-206 | a segment run out with `next` queued before `rest` sends one `Finish`, leaves the queue `rest`, becomes `Playing{next.id, now, next.ms, n/c}` with the finishing note's `c`, and keeps the trailing slots |
| `Protocol.HandoffFrame` | src/play.rs:176-199 | the handoff buffer holds the finishing note's frames `min(i, len-1)` at slot `i*c + j` |
| `Protocol.FinishIff` | src/play.rs:143-212 | a callback sends `[Finish]` exactly when the state after intake is `Playing` and run out, and sends nothing otherwise |
| `Protocol.AdvanceConserves` | src/play.rs:180-212 | notifications sent plus segments still owed (the playing one and the queued ones) stay the same across a render |
| `Protocol.PlayStartsAtOnce` | src/play.rs:145-153 | `Play(id, ms)` sounds in the same callback: from frame 0 of note `id`, with the queue dropped, nothing sent, and the state `Playing{id, now, ms, n/c}` |
| `Protocol.StopSilences` | src/play.rs:157-169 | `Stop` gives `Idle`, an empty queue, a silent buffer and no `Finish` |
| `Protocol.PlayNextWhileIdleWaits` | src/play.rs:154-169 | `PlayNext` while idle queues the note and stays idle and silent |
| `Protocol.QuietRunConserves` | src/play.rs:180-191 | without commands, `Finish`es sent plus segments still owed equal the segments owed at the start, over any number of callbacks |
| `Protocol.IdleRunIsSilent` | src/play.rs:165-169 | without commands, an idle engine stays idle with its queue, never sends, and every buffer is silent |
| `Protocol.FinishOnce` | src/play.rs:180-191 | a segment with an empty queue sends exactly one `Finish` and ends `Idle` if some callback finds it run out, and sends none otherwise |
| `Protocol.StopThenSilence` | src/play.rs:157-169 | `Stop` followed by quiet callbacks: every buffer silent, no `Finish`, ending idle with an empty queue |
| `Protocol.PlayThenQueue` | src/play.rs:145-191 | `Play(a)` then `PlayNext(b)` then quiet callbacks: `Finish`es sent plus segments owed is 2, so exactly two `Finish` once all is done |
| `Engine.PlayData.constructor` | src/play.rs:123-128 | a loaded library starts `Idle` with an empty queue |
| `Engine.PlayData.Callback` | src/play.rs:142-215 | the new state, queue, buffer contents and notifications are exactly `Step` of the old state, queue and buffer |
| `Engine.FillEquilibrium` | src/play.rs:166-168 | every slot of the buffer becomes 0 |
| `Engine.WriteFrames` | src/play.rs:194-200 | the buffer becomes `Render` of its old contents: whole frames from `pos`, tail-padded with the last frame, trailing slots kept |

## Left out

- Device and configuration negotiation (`get_config_f32`, `default_device`, src/play.rs:12-36), `stream.play()` (:220) and the error callback (:216) are audio-library plumbing.
- WAV decoding (`read_samples`, src/play.rs:68-84) and the loading loop of `PlayData::new` (:115-122) are file I/O. The constructor takes the tables already loaded, with `Library` as its precondition: one channel count per table, no empty table, and every channel count positive and no wider than any frame of its table. `F_ORDER` comes from `src/data.rs`, which is not part of this model.
- The `mpsc` channels are transport between threads. `try_recv` becomes an `Option<Cmd>` argument and `send` becomes the returned `seq<FrontMsg>`. The panic of `unwrap()` when the front end's receiver is gone (src/play.rs:182) is not modelled.
- `Instant::now()` (src/play.rs:148, 178, 185) is a real clock; the model takes one integer-millisecond `now` per callback and uses it for all three. Sub-millisecond elapsed times are not modelled. As a result, `Play(id, 0)` sounds for one buffer in the model, whereas the real clock has usually moved on between :148 and :178.
- `f32` rounding in `get_sample` (src/play.rs:50-57) is floating point. Positions are exact rationals and amplitudes are reals.
- `Resample.GetSample`: requires a non-zero target rate (the source divides by it as `f32`) and a non-empty table (the source indexes `samples[0]`; `trans_sample` never calls it on an empty table).
- `usize` overflow of `pos + i` and `pos + n / channels` is not modelled: positions are unbounded naturals.
- src/ui.rs (widgets, random question choice, score display) and src/main.rs (wiring) are outside the playback engine.
