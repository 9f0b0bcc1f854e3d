# A verified model of the XSI stream driver

`py/pyxsi_utils.py` drives an RTL design inside the XSI simulator one clock
cycle at a time. Its core is small:

- the signal accessors `_find_signal`, `_read_signal` and `_write_signal`;
- the clock edges `toggle_neg_edge`, `toggle_pos_edge` and `toggle_clk`;
- the reset sequence `reset_rtlsim`;
- the streaming loop `rtlsim_multi_io`.

Each cycle of the loop lowers the clock and samples every ready/valid
handshake. It then raises the clock and, a delta cycle later, drives the next
input words. The code keeps one `signals_to_write` dictionary across
iterations (py/pyxsi_utils.py:228), while the model stages a fresh list each
cycle (`Streaming.Stage`). The two write the same pairs in the same order:
every iteration assigns the same keys, and a dictionary keeps each key at its
first insertion position.

The loop returns when the requested number of output words has arrived. It
raises when `liveness_threshold` cycles in a row bring no new output.

The model has four modules, one file each:

- `binary.dfy` (`Binary`): port values as most-significant-bit-first bit
  strings. It covers the `f"{v:0{w}b}"[-w:]` formatting and `int(s, 2)`.
- `simulator.dfy` (`Simulator`): the simulator handle, made of a port map and
  a trace of the `set_port_value` and `run` calls made on it. The module
  holds name resolution, reads, writes, and in-order batches of writes.
- `clocking.dfy` (`Clocking`): the clock edges, a full period and the reset
  sequence. Each is stated as the exact events it records.
- `streaming.dfy` (`Streaming`): the read phase, the staging of input
  words, one loop iteration with its counters, and the loop itself.

Every operation that can raise returns a `Result`. A failure carries the
exception and the handle as it stood when the exception was raised.

Values the design drives are not computed, because the design is outside
this model. One port map is supplied per cycle. After the falling-edge run it
is overlaid on the handle (`Simulator.Settle`), and only ports of the same
width are taken. The loop consumes one such observation per cycle. A run that
outlasts the observations ends with the `OutOfObservations` exit.

## Model

| member | source | states |
|---|---|---|
| Binary.Encode | py/pyxsi_utils.py:131-137 | For every width `w >= 1`, the value written to a port is exactly `w` bits wide and encodes `v` modulo 2^w. |
| Binary.FormatFits | py/pyxsi_utils.py:136 | The string `f"{v:0{w}b}"[-w:]` has `w` characters and is worth `v mod 2^w`: the high bits of an over-wide value are silently dropped. |
| Binary.FormatIsEncode | py/pyxsi_utils.py:136 | For `w >= 1` that formatting expression is bit-for-bit the `w`-bit encoding of `v`. |
| Binary.FormatZeroWidth | py/pyxsi_utils.py:134-136 | For width 0 the slice `[-0:]` keeps the whole unpadded spelling of `v`, which is never empty; the model therefore takes ports to be at least one bit wide (`Word`). |
| Binary.EncodeRoundTrip | py/pyxsi_utils.py:125-137 | Reading back a written value returns it whenever it fits the width. |
| Binary.ReadThenEncode | py/pyxsi_utils.py:125-137 | Writing back the number read from a port reproduces the port's string. |
| Simulator.FindSignal | py/pyxsi_utils.py:114-122 | A name resolves exactly when it, or its lowercase form, is a port. The exact name wins, the lowercase form is the fallback, and otherwise the call raises "signal not found" for that name with the handle untouched. |
| Simulator.FindInLowercaseDesign | py/pyxsi_utils.py:114-122 | In a design whose port names are all lowercase, any spelling of a name resolves to its lowercase form, and only when that is a port. |
| Simulator.FindDependsOnNames | py/pyxsi_utils.py:115 | Resolution depends only on the set of port names, never on the values they hold. |
| Simulator.ReadSignal | py/pyxsi_utils.py:125-128 | A read succeeds exactly when the name resolves. The number read is below 2^width and encodes back to the port's string. A failed read leaves the handle as it was. |
| Simulator.WriteSignal | py/pyxsi_utils.py:131-137 | A write succeeds exactly when the name resolves and the value is not negative. An unknown name raises "signal not found" and a negative value raises the two's-complement error, both with the handle unchanged. A successful write sets only the resolved port, to the `w`-bit encoding of `v`, keeps every width, and records one write event. |
| Simulator.WriteThenRead | py/pyxsi_utils.py:125-137 | Writing a value that fits and then reading the same name returns that value. |
| Simulator.WriteLeavesOtherSignals | py/pyxsi_utils.py:131-137 | A write does not change what any other port reads. |
| Simulator.ApplyWrites | py/pyxsi_utils.py:166-168 | Writing the staged signals in order succeeds exactly when every name resolves and every value is non-negative. The events recorded are the writes in dictionary order, and the ports equal the replay of those events. |
| Clocking.NegEdge | py/pyxsi_utils.py:157-159 | The falling edge fails only when the clock name does not resolve. Otherwise it writes just the clock port, to 0, then runs 5000 time units, and changes no other port. |
| Clocking.PosEdge | py/pyxsi_utils.py:162-169 | The rising edge writes the clock to 1 and runs 5000 units. Only after that does it apply the staged writes, in order. It succeeds exactly when the clock and every staged write are valid. With nothing staged it writes only the clock. |
| Clocking.Toggle | py/pyxsi_utils.py:152-154 | A full period records a falling half cycle, a rising half cycle and then the staged writes, and nothing else. |
| Clocking.Reset | py/pyxsi_utils.py:140-149 | Reset fails exactly when the clock or the reset name does not resolve, and the clock is checked first. On success it records, in order: clock low and reset asserted; two periods; a third period after which the reset is released; and one more period. |
| Clocking.ResetHoldsThenReleases | py/pyxsi_utils.py:140-149 | The reset port holds its asserted level from the moment it is written through three rising clock edges. It changes only after the third rising edge, to its released level, and one more full period follows. |
| Clocking.ResetIdempotent | py/pyxsi_utils.py:140-149 | Resetting twice leaves every port as resetting once does. |
| Streaming.Handshake | py/pyxsi_utils.py:241-244 | The short-circuit test succeeds exactly when TREADY resolves and, if TREADY reads 1, TVALID resolves too. It is true exactly when both read 1. A missing TREADY raises for TREADY. |
| Streaming.Tail | py/pyxsi_utils.py:245 | `inputs[1:]` drops the head of a non-empty queue, and an empty queue stays empty. |
| Streaming.ReadInputs | py/pyxsi_utils.py:238-246 | Each input channel whose handshake fired loses its head word, and every other channel keeps its queue. The channels and names are unchanged. The phase fails only on a handshake signal that does not resolve, and then the handle is unchanged. |
| Streaming.Drain | py/pyxsi_utils.py:251-257 | An output channel whose handshake fired gains the word read from TDATA, and its count rises by one. Otherwise it is unchanged and counts 0. |
| Streaming.ReadOutputs | py/pyxsi_utils.py:248-257 | Every output channel is drained in order. The total number of buffered words grows by exactly the count returned. |
| Streaming.ReadPhase | py/pyxsi_utils.py:236-257 | The read phase never writes, and it succeeds exactly when every handshake, and every TDATA it needs, resolves. An input queue loses its head exactly when that channel's TREADY and TVALID both read 1. Otherwise the queue is unchanged. An output buffer gains the word on TDATA exactly when its handshake fired. The total buffer growth equals the count returned. |
| Streaming.Stage | py/pyxsi_utils.py:261-265 | For each input channel in order, the staged writes are TVALID = 1 if its queue is non-empty (0 otherwise), then TDATA = the head word (0 when empty). |
| Streaming.StageAllowed | py/pyxsi_utils.py:261-268 | The staged writes can all be made exactly when every input's TVALID and TDATA resolve and no head word is negative. A negative input word makes the rising edge raise. |
| Streaming.Tally | py/pyxsi_utils.py:272-278 | After the counters move, the cycle count is one higher and `old_output_count` equals `output_count`. `no_change_count` is 0 exactly when this cycle read a word, and otherwise one more than before. |
| Streaming.Cycle | py/pyxsi_utils.py:230-278 | One iteration never raises a stall. Queues pop and buffers grow exactly per the handshakes read on the snapshot taken after the falling edge and the design's outputs (`Streaming.Snapshot`), before any staged write. It never lowers `output_count`. The rise in `output_count` equals the growth of the buffers. The handle records exactly what `toggle_clk` with the staged writes for the new queues records. When it completes, and the ports it leaves, are stated by Streaming.CycleCompletes. |
| Streaming.CycleCompletes | py/pyxsi_utils.py:230-268 | One iteration completes exactly when the clock resolves, every handshake and needed TDATA resolves on the snapshot after the falling edge, and every staged TVALID/TDATA write is allowed. On completion the handle is that snapshot driven further: its trace extends the snapshot's, and its ports are the snapshot's ports with the rising-edge events replayed on top. So the staged input words are on the ports for the next cycle. |
| Streaming.CycleLeavesReadyAlone | py/pyxsi_utils.py:213-268 | No clock edge of the loop and no staged write touches a TREADY port, so an output's TREADY is driven only before the loop. |
| Streaming.Loop | py/pyxsi_utils.py:230-292 | A return happens only after at least one cycle, with `output_count == num_out_values` and the stall test not triggered. Its value is the cycle count. A stall is raised only with `no_change_count == liveness_threshold`. Queues only shrink from the front and buffers only grow, and the counted words equal the buffered words added. |
| Streaming.RunMultiIo | py/pyxsi_utils.py:177-292 | An output TREADY that does not resolve raises before any cycle. A return means at least one cycle ran, and the value returned is the number of cycles run. Exactly `num_out_values` words were added to the output buffers. A stall is raised no earlier than cycle `liveness_threshold`. |
| Streaming.ReadyAfterSetup | py/pyxsi_utils.py:213-214 | After the setup writes, every output's TREADY reads 1. |
| Streaming.OvershootNeverReturns | py/pyxsi_utils.py:281-282 | Once more words were read than requested, the equality test can never succeed and the run never returns. |
| Streaming.StallNeverMissed | py/pyxsi_utils.py:274-290 | From below a positive threshold, `no_change_count` never passes it. The run ends below the threshold or raises exactly at it. |
| Streaming.HitRunReturns | py/pyxsi_utils.py:272-292 | When the next cycles never meet the stall test and the last of them is the first to bring `output_count` to `num_out_values`, the loop returns right after that cycle, with the cycle count. |
| Streaming.TargetReachedReturns | py/pyxsi_utils.py:177-292 | A design that delivers the requested words with no stall makes the driver return at the cycle that delivers the last word. The value returned is the number of cycles run. |
| Streaming.FailRunRaises | py/pyxsi_utils.py:230-292 | When the next cycles go on without a stall or a hit and then a cycle raises (an unresolved signal or a negative input word), the driver raises that same exception, after exactly the cycles that completed. |
| Streaming.QuietRunStalls | py/pyxsi_utils.py:274-290 | Starting from a state with `old_output_count == output_count` and `output_count != num_out_values`: when the next cycles read no word, the loop raises the stall after exactly as many cycles as the threshold leaves. |
| Streaming.SilentDesignAbandoned | py/pyxsi_utils.py:274-290 | A design that never offers an output word is abandoned after exactly `liveness_threshold` cycles, unless zero words were requested. |
| Streaming.ZeroThresholdAbortsOnOutput | py/pyxsi_utils.py:274-290 | With a threshold of 0, the first cycle that reads a word raises the stall, even when that word completes the run: the stall test runs after the success test and wins. |

## Left out

- `load_sim_obj` and everything else that builds, compiles or loads the simulator: file system and foreign-library work outside this core.
- `hook_preclk` and `hook_postclk`: arbitrary caller callbacks. The model is the driver with both hooks absent.
- `comb_update_and_trace`: its body is empty, so it is not modelled.
- The design's evaluation inside `sim.run`: it is supplied as one port-map observation per cycle, applied after the falling-edge run. The design's reaction to the rising edge is folded into the next cycle's observation. Observed values of a different width are ignored, as a simulator port never changes width.
- Simulator.Settle: an observation may overwrite any port of matching width, including ports only the driver writes: `ap_clk`, output TREADY, and input TVALID/TDATA. The design cannot drive these in the simulator. The over-approximation keeps the all-observations lemmas sound. But the model cannot show that an output's TREADY still reads 1 inside the loop; only that no driver write lowers it (Streaming.CycleLeavesReadyAlone).
- Clocking.Reset: the design is not evaluated during reset. No observation is applied after any of its eight `sim.run(5000)` calls, so the ports the design drives keep their values through the reset.
- Clocking.ResetIdempotent: every port ends the same after a second reset only because the design is frozen during reset. With the design evaluated, only the clock and reset ports are determined by the reset events.
- Simulation time is only recorded (`Run(5000)` events); no clock or time arithmetic is modelled.
- Streaming.Loop: the loop is bounded by the list of observations. A run that would go on longer ends with `OutOfObservations`, because Dafny functions must terminate.
- Streaming.Loop: when a cycle raises partway, the model reports `io_dict` as it was at the start of that cycle. When a read fails, the code has by then already stored the updated queues of the channels processed before it. When the rising edge raises, the code has already applied the whole read phase: the popped input words and the output words appended to `io_dict["outputs"]`. The rising edge raises on a negative head word or on a TVALID/TDATA name that does not resolve.
- Simulator.Lower: `str.lower` is modelled for ASCII letters only; port names are ASCII.
- Port strings holding `X`, `Z` or other non-binary characters, on which `int(s, 2)` raises, are not modelled: port values are bit strings.
- Zero-width ports are excluded by the `Word` type. The string the code would write to one is still stated by Binary.FormatZeroWidth.
- The text of exception messages: only the kind of exception and the name or value it concerns are kept.
- `io_dict` is a pair of sequences in dictionary insertion order. The model does not forbid two channels of the same name, which a dictionary cannot hold.
