/** The cycle-level stream driver `rtlsim_multi_io` of py/pyxsi_utils.py.

    Every stream `x` of the design is a ready/valid channel with three ports
    named `x + sname + "TVALID"`, `"TREADY"` and `"TDATA"`. Each clock cycle the
    driver lowers the clock, samples the handshakes, then raises the clock and
    stages the next input words a delta cycle later. What the design drives
    between the two edges is an observation supplied per cycle. */
module Streaming {
  import opened Binary
  import opened Simulator
  import opened Clocking

  /** An input stream and the words still to be pushed into the design. */
  datatype InChannel = InChannel(name: string, queue: seq<int>)

  /** An output stream and the words read from the design so far. */
  datatype OutChannel = OutChannel(name: string, buffer: seq<nat>)

  /** `io_dict`: the "inputs" and "outputs" dictionaries, in insertion order. */
  datatype Io = Io(inputs: seq<InChannel>, outputs: seq<OutChannel>)

  function Valid(base: string): string { base + "TVALID" }
  function Ready(base: string): string { base + "TREADY" }
  function Data(base: string): string { base + "TDATA" }

  /** The handshake fires: TREADY and TVALID both read 1. */
  predicate Fired(sim: Sim, base: string)
  {
    && Resolvable(sim, Ready(base)) && Value(sim, Ready(base)) == 1
    && Resolvable(sim, Valid(base)) && Value(sim, Valid(base)) == 1
  }

  /** The handshake can be evaluated: TREADY resolves, and so does TVALID
      whenever TREADY reads 1 and TVALID is therefore consulted. */
  predicate Readable(sim: Sim, base: string)
  {
    Resolvable(sim, Ready(base)) && (Value(sim, Ready(base)) == 1 ==> Resolvable(sim, Valid(base)))
  }

  /** The short-circuit test `read(TREADY) == 1 and read(TVALID) == 1`. */
  function Handshake(sim: Sim, base: string): (r: Result<bool>)
    ensures r.Ok? <==> Readable(sim, base)
    ensures r.Ok? ==> (r.value <==> Fired(sim, base))
    ensures !Resolvable(sim, Ready(base)) ==> r == Fail(SignalNotFound(Ready(base)), sim)
    ensures r.Fail? ==> r.sim == sim && r.error.SignalNotFound?
  {
    var ready :- ReadSignal(sim, Ready(base));
    if ready != 1 then Ok(false)
    else
      var valid :- ReadSignal(sim, Valid(base));
      Ok(valid == 1)
  }

  /** Python's `inputs[1:]`: drops the head word; an empty list stays empty. */
  function Tail(q: seq<int>): (t: seq<int>)
    ensures |q| > 0 ==> [q[0]] + t == q
    ensures |q| == 0 ==> t == []
  {
    if |q| == 0 then [] else q[1..]
  }

  /** `after` is input channel `c` once its handshake was sampled: the head
      word dropped if the handshake fired, unchanged otherwise. */
  predicate Popped(sim: Sim, c: InChannel, after: InChannel, sname: string)
  {
    && after.name == c.name
    && (Fired(sim, c.name + sname) ==> after.queue == Tail(c.queue))
    && (!Fired(sim, c.name + sname) ==> after.queue == c.queue)
  }

  /** One input channel after its handshake was sampled. */
  function Pop(sim: Sim, c: InChannel, sname: string): (r: Result<InChannel>)
    ensures r.Ok? <==> Readable(sim, c.name + sname)
    ensures r.Ok? ==> Popped(sim, c, r.value, sname)
    ensures r.Fail? ==> r.sim == sim && r.error.SignalNotFound?
  {
    var fired :- Handshake(sim, c.name + sname);
    Ok(if fired then c.(queue := Tail(c.queue)) else c)
  }

  /** The read phase for the inputs: a channel whose handshake fired has had
      its head word accepted by the design and drops it. */
  function ReadInputs(sim: Sim, ins: seq<InChannel>, sname: string): (r: Result<seq<InChannel>>)
    ensures r.Ok? <==> forall i :: 0 <= i < |ins| ==> Readable(sim, ins[i].name + sname)
    ensures r.Ok? ==> |r.value| == |ins|
    ensures r.Ok? ==> forall i :: 0 <= i < |ins| ==> Popped(sim, ins[i], r.value[i], sname)
    ensures r.Fail? ==> r.sim == sim && r.error.SignalNotFound?
    decreases |ins|
  {
    if |ins| == 0 then Ok([])
    else
      ReadableCons(sim, ins, sname);
      var c :- Pop(sim, ins[0], sname);
      var rest :- ReadInputs(sim, ins[1..], sname);
      PoppedCons(sim, ins, sname, c, rest);
      Ok([c] + rest)
  }

  /** Every input handshake can be evaluated exactly when the first one can
      and all the others can. */
  lemma ReadableCons(sim: Sim, ins: seq<InChannel>, sname: string)
    requires |ins| > 0
    ensures (forall i :: 0 <= i < |ins| ==> Readable(sim, ins[i].name + sname)) <==>
      && Readable(sim, ins[0].name + sname)
      && forall i :: 0 <= i < |ins[1..]| ==> Readable(sim, ins[1..][i].name + sname)
  {
    assert forall i :: 1 <= i < |ins| ==> ins[i] == ins[1..][i - 1];
  }

  lemma PoppedCons(sim: Sim, ins: seq<InChannel>, sname: string, c: InChannel, rest: seq<InChannel>)
    requires |ins| > 0 && Popped(sim, ins[0], c, sname)
    requires |rest| == |ins| - 1 && forall i :: 0 <= i < |rest| ==> Popped(sim, ins[1..][i], rest[i], sname)
    ensures |[c] + rest| == |ins|
    ensures forall i :: 0 <= i < |ins| ==> Popped(sim, ins[i], ([c] + rest)[i], sname)
  {
    var cs := [c] + rest;
    forall i | 1 <= i < |ins|
      ensures Popped(sim, ins[i], cs[i], sname)
    {
      assert ins[i] == ins[1..][i - 1] && cs[i] == rest[i - 1];
    }
  }

  /** The number of words held in all output buffers. */
  function Words(outs: seq<OutChannel>): nat
    decreases |outs|
  {
    if |outs| == 0 then 0 else |outs[0].buffer| + Words(outs[1..])
  }

  /** The output handshake can be evaluated, and TDATA resolves when it fires. */
  predicate Drainable(sim: Sim, base: string)
  {
    Readable(sim, base) && (Fired(sim, base) ==> Resolvable(sim, Data(base)))
  }

  /** `after` is output channel `c` once its handshake was sampled: the word on
      TDATA appended if the handshake fired, unchanged otherwise. */
  predicate Drained(sim: Sim, c: OutChannel, after: OutChannel, sname: string)
  {
    && after.name == c.name
    && (Fired(sim, c.name + sname) ==>
          Resolvable(sim, Data(c.name + sname)) && after.buffer == c.buffer + [Value(sim, Data(c.name + sname))])
    && (!Fired(sim, c.name + sname) ==> after.buffer == c.buffer)
  }

  /** One output channel after its handshake was sampled, with the number of
      words read from it. */
  function Drain(sim: Sim, c: OutChannel, sname: string): (r: Result<(OutChannel, nat)>)
    ensures r.Ok? <==> Drainable(sim, c.name + sname)
    ensures r.Ok? ==> Drained(sim, c, r.value.0, sname) && |r.value.0.buffer| == |c.buffer| + r.value.1
    ensures r.Fail? ==> r.sim == sim && r.error.SignalNotFound?
  {
    var base := c.name + sname;
    var fired :- Handshake(sim, base);
    if fired then
      var d :- ReadSignal(sim, Data(base));
      Ok((c.(buffer := c.buffer + [d]), 1))
    else
      Ok((c, 0))
  }

  /** The read phase for the outputs: a channel whose handshake fired appends
      the word on TDATA. Also returns how many words were read. */
  function ReadOutputs(sim: Sim, outs: seq<OutChannel>, sname: string): (r: Result<(seq<OutChannel>, nat)>)
    ensures r.Ok? <==> forall i :: 0 <= i < |outs| ==> Drainable(sim, outs[i].name + sname)
    ensures r.Ok? ==> |r.value.0| == |outs|
    ensures r.Ok? ==> forall i :: 0 <= i < |outs| ==> Drained(sim, outs[i], r.value.0[i], sname)
    ensures r.Ok? ==> Words(r.value.0) == Words(outs) + r.value.1
    ensures r.Fail? ==> r.sim == sim && r.error.SignalNotFound?
    decreases |outs|
  {
    if |outs| == 0 then Ok(([], 0))
    else
      DrainableCons(sim, outs, sname);
      var c :- Drain(sim, outs[0], sname);
      var rest :- ReadOutputs(sim, outs[1..], sname);
      DrainedCons(sim, outs, sname, c.0, c.1, rest.0, rest.1);
      Ok(([c.0] + rest.0, rest.1 + c.1))
  }

  /** The TVALID write that offers a channel's head word, or withdraws the offer. */
  function ValidWrite(c: InChannel, sname: string): (string, int)
  {
    (Valid(c.name + sname), if |c.queue| > 0 then 1 else 0)
  }

  /** The TDATA write that presents a channel's head word, or 0 when it is empty. */
  function DataWrite(c: InChannel, sname: string): (string, int)
  {
    (Data(c.name + sname), if |c.queue| > 0 then c.queue[0] else 0)
  }

  /** The `signals_to_write` dictionary staged for the rising edge: per input
      channel, in order, its TVALID and then its TDATA. */
  function Stage(ins: seq<InChannel>, sname: string): (ws: seq<(string, int)>)
    ensures |ws| == 2 * |ins|
    ensures forall i :: 0 <= i < |ins| ==>
      ws[2 * i] == ValidWrite(ins[i], sname) && ws[2 * i + 1] == DataWrite(ins[i], sname)
    decreases |ins|
  {
    if |ins| == 0 then []
    else
      var head: seq<(string, int)> := [ValidWrite(ins[0], sname), DataWrite(ins[0], sname)];
      var rest := Stage(ins[1..], sname);
      assert forall i :: 1 <= i < |ins| ==> ins[i] == ins[1..][i - 1];
      head + rest
  }

  /** The loop variables of `rtlsim_multi_io`: the handle, `io_dict`,
      `total_cycle_count`, `output_count`, `old_output_count` and
      `no_change_count`. */
  datatype LoopState = LoopState(sim: Sim, io: Io, cycles: nat, outputCount: nat, lastOutputCount: nat, idle: nat)

  /** `a` is a prefix of `b`. */
  predicate IsPrefix<T(==)>(a: seq<T>, b: seq<T>)
  {
    |a| <= |b| && b[..|a|] == a
  }

  /** `a` is a suffix of `b`. */
  predicate IsSuffix<T(==)>(a: seq<T>, b: seq<T>)
  {
    |a| <= |b| && b[|b| - |a|..] == a
  }

  /** What one cycle can do to `io_dict`: each input queue is unchanged or
      loses its head, each output buffer is unchanged or gains one word. */
  predicate Step(before: Io, after: Io)
  {
    && |after.inputs| == |before.inputs| && |after.outputs| == |before.outputs|
    && (forall i :: 0 <= i < |before.inputs| ==>
          && after.inputs[i].name == before.inputs[i].name
          && (after.inputs[i].queue == before.inputs[i].queue
              || after.inputs[i].queue == Tail(before.inputs[i].queue)))
    && (forall i :: 0 <= i < |before.outputs| ==>
          && after.outputs[i].name == before.outputs[i].name
          && IsPrefix(before.outputs[i].buffer, after.outputs[i].buffer)
          && |after.outputs[i].buffer| <= |before.outputs[i].buffer| + 1)
  }

  /** What any number of cycles can do to `io_dict`: the same channels, each
      queue a suffix of what it was and each buffer an extension. */
  predicate Progressed(before: Io, after: Io)
  {
    && |after.inputs| == |before.inputs| && |after.outputs| == |before.outputs|
    && (forall i :: 0 <= i < |before.inputs| ==>
          after.inputs[i].name == before.inputs[i].name
          && IsSuffix(after.inputs[i].queue, before.inputs[i].queue))
    && (forall i :: 0 <= i < |before.outputs| ==>
          after.outputs[i].name == before.outputs[i].name
          && IsPrefix(before.outputs[i].buffer, after.outputs[i].buffer))
  }

  lemma StepProgresses(a: Io, b: Io)
    requires Step(a, b)
    ensures Progressed(a, b)
  {
    forall i | 0 <= i < |a.inputs|
      ensures IsSuffix(b.inputs[i].queue, a.inputs[i].queue)
    {
      var q := a.inputs[i].queue;
      if |q| > 0 && b.inputs[i].queue == Tail(q) {
        assert q[|q| - |Tail(q)|..] == q[1..];
      }
    }
  }

  lemma ProgressedTrans(a: Io, b: Io, c: Io)
    requires Progressed(a, b) && Progressed(b, c)
    ensures Progressed(a, c)
  {
    forall i | 0 <= i < |a.inputs|
      ensures IsSuffix(c.inputs[i].queue, a.inputs[i].queue)
    {
      var qa, qb, qc := a.inputs[i].queue, b.inputs[i].queue, c.inputs[i].queue;
      assert qb[|qb| - |qc|..] == qa[|qa| - |qc|..];
    }
    forall i | 0 <= i < |a.outputs|
      ensures IsPrefix(a.outputs[i].buffer, c.outputs[i].buffer)
    {
      var ba, bb, bc := a.outputs[i].buffer, b.outputs[i].buffer, c.outputs[i].buffer;
      assert bc[..|ba|] == bc[..|bb|][..|ba|];
    }
  }

  /** The read phase moves `io_dict` by one step. */
  lemma ReadPhaseStep(sim: Sim, io: Io, sname: string, ins: seq<InChannel>, outs: seq<OutChannel>)
    requires ReadFrom(sim, io, Io(ins, outs), sname)
    ensures Step(io, Io(ins, outs))
  {
    forall i | 0 <= i < |io.outputs|
      ensures IsPrefix(io.outputs[i].buffer, outs[i].buffer)
    {
      assert Drained(sim, io.outputs[i], outs[i], sname);
      var b := io.outputs[i].buffer;
      assert outs[i].buffer[..|b|] == b;
    }
  }

  /** The handle after one full cycle records the same events as `toggle_clk`
      with the staged writes. */
  lemma CycleTrace(sim: Sim, s1: Sim, s2: Sim, s3: Sim, ws: seq<(string, int)>)
    requires Resolvable(sim, DefaultClock)
    requires s1.trace == sim.trace + HalfCycle(sim, DefaultClock, 0) && Widths(s1) == Widths(sim)
    requires s2.trace == s1.trace && Widths(s2) == Widths(s1)
    requires Resolvable(s2, DefaultClock) && WritesAllowed(s2, ws)
    requires s3.trace == s2.trace + HalfCycle(s2, DefaultClock, 1) + WriteEvents(s2, ws)
    ensures WritesAllowed(sim, ws)
    ensures s3.trace == sim.trace + ToggleEvents(sim, DefaultClock, ws)
  {
    HalfCycleFrame(sim, s2, DefaultClock, 1);
    WriteEventsFrame(sim, s2, ws);
    ToggleTrace(sim.trace, s2.trace, s3.trace, HalfCycle(sim, DefaultClock, 0),
                HalfCycle(sim, DefaultClock, 1), WriteEvents(sim, ws));
  }

  /** The counter updates at the end of an iteration, after `got` words were
      read: `no_change_count` grows while `output_count` stands still and drops
      to 0 when it moves. */
  function Tally(st: LoopState, sim: Sim, io: Io, got: nat): (r: LoopState)
    ensures r.sim == sim && r.io == io && r.cycles == st.cycles + 1
    ensures r.outputCount == st.outputCount + got
    ensures r.lastOutputCount == r.outputCount
    ensures r.idle == 0 || r.idle == st.idle + 1
    ensures st.lastOutputCount == st.outputCount ==> (r.idle == 0 <==> got > 0)
  {
    var count := st.outputCount + got;
    if count == st.lastOutputCount then
      LoopState(sim, io, st.cycles + 1, count, st.lastOutputCount, st.idle + 1)
    else
      LoopState(sim, io, st.cycles + 1, count, count, 0)
  }

  /** `after` is `io_dict` once every handshake was sampled on `sim`: an input
      queue pops its head exactly when its TREADY and TVALID read 1, and an
      output buffer gains the word on TDATA exactly when its handshake fired. */
  predicate ReadFrom(sim: Sim, before: Io, after: Io, sname: string)
  {
    && |after.inputs| == |before.inputs| && |after.outputs| == |before.outputs|
    && (forall i :: 0 <= i < |before.inputs| ==> Popped(sim, before.inputs[i], after.inputs[i], sname))
    && (forall i :: 0 <= i < |before.outputs| ==> Drained(sim, before.outputs[i], after.outputs[i], sname))
  }

  /** The read phase: every input handshake, then every output handshake, on
      the values sampled after the falling edge. Reads never change the handle. */
  function ReadPhase(sim: Sim, io: Io, sname: string): (r: Result<(Io, nat)>)
    ensures r.Ok? <==>
      && (forall i :: 0 <= i < |io.inputs| ==> Readable(sim, io.inputs[i].name + sname))
      && (forall i :: 0 <= i < |io.outputs| ==> Drainable(sim, io.outputs[i].name + sname))
    ensures r.Fail? ==> r.sim == sim && r.error.SignalNotFound?
    ensures r.Ok? ==> Step(io, r.value.0) && Words(r.value.0.outputs) == Words(io.outputs) + r.value.1
    ensures r.Ok? ==> ReadFrom(sim, io, r.value.0, sname)
  {
    var ins :- ReadInputs(sim, io.inputs, sname);
    var outs :- ReadOutputs(sim, io.outputs, sname);
    ReadPhaseStep(sim, io, sname, ins, outs.0);
    Ok((Io(ins, outs.0), outs.1))
  }

  /** Draining the first channel and then the rest drains every channel. */
  /** Every output channel can be drained exactly when the first one can and
      all the others can. */
  lemma DrainableCons(sim: Sim, outs: seq<OutChannel>, sname: string)
    requires |outs| > 0
    ensures (forall i :: 0 <= i < |outs| ==> Drainable(sim, outs[i].name + sname)) <==>
      && Drainable(sim, outs[0].name + sname)
      && forall i :: 0 <= i < |outs[1..]| ==> Drainable(sim, outs[1..][i].name + sname)
  {
    assert forall i :: 1 <= i < |outs| ==> outs[i] == outs[1..][i - 1];
  }

  lemma DrainedCons(sim: Sim, outs: seq<OutChannel>, sname: string, c: OutChannel, n: nat, rest: seq<OutChannel>, m: nat)
    requires |outs| > 0 && Drained(sim, outs[0], c, sname) && |c.buffer| == |outs[0].buffer| + n
    requires |rest| == |outs| - 1 && forall i :: 0 <= i < |rest| ==> Drained(sim, outs[1..][i], rest[i], sname)
    requires Words(rest) == Words(outs[1..]) + m
    ensures |[c] + rest| == |outs|
    ensures forall i :: 0 <= i < |outs| ==> Drained(sim, outs[i], ([c] + rest)[i], sname)
    ensures Words([c] + rest) == Words(outs) + (m + n)
  {
    var cs := [c] + rest;
    assert cs[1..] == rest;
    forall i | 1 <= i < |outs|
      ensures Drained(sim, outs[i], cs[i], sname)
    {
      assert outs[i] == outs[1..][i - 1] && cs[i] == rest[i - 1];
    }
  }

  /** The port values the read phase samples: the handle after the falling
      edge, with the design's outputs for this cycle applied. */
  function Snapshot(st: LoopState, observed: map<string, Word>): Sim
    requires Resolvable(st.sim, DefaultClock)
  {
    Settle(NegEdge(st.sim, DefaultClock).value, observed)
  }

  /** One iteration completes: the clock resolves, every handshake the read
      phase samples resolves, and the writes staged for the new queues can all
      be made. */
  predicate CycleAllowed(st: LoopState, observed: map<string, Word>, sname: string)
  {
    && Resolvable(st.sim, DefaultClock)
    && ReadPhase(Snapshot(st, observed), st.io, sname).Ok?
    && WritesAllowed(st.sim, Stage(ReadPhase(Snapshot(st, observed), st.io, sname).value.0.inputs, sname))
  }

  /** The edges and the read phase of one iteration, before the counters move. */
  function Clocked(st: LoopState, observed: map<string, Word>, sname: string): (r: Result<(Sim, Io, nat)>)
    ensures r.Fail? ==> !r.error.Stalled?
    ensures r.Ok? ==> Completed(st, observed, sname, r.value.0, r.value.1, r.value.2)
  {
    var s1 :- NegEdge(st.sim, DefaultClock);
    var s2 := Settle(s1, observed);
    var read :- ReadPhase(s2, st.io, sname);
    var ws := Stage(read.0.inputs, sname);
    WriteEventsFrame(st.sim, s2, ws);
    FindDependsOnNames(st.sim, s2, DefaultClock);
    var s3 :- PosEdge(s2, DefaultClock, ws);
    ClockedPost(st, observed, sname, read.0, read.1, s3);
    Ok((s3, read.0, read.1))
  }

  /** An iteration from `st` completed with the handle at `s3`, the channels
      at `io` and `n` words read: the channels moved as the handshakes sampled
      on the snapshot say, and the handle is the snapshot driven further by the
      rising edge and the staged writes. */
  predicate Completed(st: LoopState, observed: map<string, Word>, sname: string, s3: Sim, io: Io, n: nat)
  {
    && Step(st.io, io) && Words(io.outputs) == Words(st.io.outputs) + n
    && Widths(s3) == Widths(st.sim)
    && Resolvable(st.sim, DefaultClock) && WritesAllowed(st.sim, Stage(io.inputs, sname))
    && s3.trace == st.sim.trace + ToggleEvents(st.sim, DefaultClock, Stage(io.inputs, sname))
    && ReadFrom(Snapshot(st, observed), st.io, io, sname)
    && Recorded(Snapshot(st, observed), s3)
  }

  /** What a completed iteration leaves, from the facts of its three phases. */
  lemma ClockedPost(st: LoopState, observed: map<string, Word>, sname: string, io: Io, n: nat, s3: Sim)
    requires Resolvable(st.sim, DefaultClock)
    requires ReadPhase(Snapshot(st, observed), st.io, sname) == Ok((io, n))
    requires PosEdge(Snapshot(st, observed), DefaultClock, Stage(io.inputs, sname)) == Ok(s3)
    ensures Completed(st, observed, sname, s3, io, n)
  {
    var s1 := NegEdge(st.sim, DefaultClock).value;
    var s2 := Snapshot(st, observed);
    CycleTrace(st.sim, s1, s2, s3, Stage(io.inputs, sname));
  }

  /** One iteration of the `while` loop: falling edge, observation of the
      design, read phase, staging, rising edge with the staged writes, and the
      counter updates. */
  function Cycle(st: LoopState, observed: map<string, Word>, sname: string): (r: Result<LoopState>)
    ensures r.Fail? ==> !r.error.Stalled?
    ensures r.Ok? ==>
      && r.value.cycles == st.cycles + 1
      && Step(st.io, r.value.io)
      && r.value.outputCount >= st.outputCount
      && r.value.outputCount - st.outputCount == Words(r.value.io.outputs) - Words(st.io.outputs)
      && r.value.lastOutputCount == r.value.outputCount
      && (r.value.idle == 0 || r.value.idle == st.idle + 1)
      && (st.lastOutputCount == st.outputCount ==> (r.value.idle == 0 <==> r.value.outputCount > st.outputCount))
    ensures r.Ok? ==>
      && Widths(r.value.sim) == Widths(st.sim)
      && Resolvable(st.sim, DefaultClock) && WritesAllowed(st.sim, Stage(r.value.io.inputs, sname))
      && r.value.sim.trace == st.sim.trace + ToggleEvents(st.sim, DefaultClock, Stage(r.value.io.inputs, sname))
      && ReadFrom(Snapshot(st, observed), st.io, r.value.io, sname)
  {
    var c :- Clocked(st, observed, sname);
    Ok(Tally(st, c.0, c.1, c.2))
  }

  /** An iteration completes exactly when its clock, handshakes and staged
      writes are all valid. It then leaves the handle at the snapshot driven
      further by the rising edge and the staged writes: every port the edge
      and the writes do not touch keeps its snapshot value. */
  lemma CycleCompletes(st: LoopState, observed: map<string, Word>, sname: string)
    ensures Cycle(st, observed, sname).Ok? <==> CycleAllowed(st, observed, sname)
    ensures Cycle(st, observed, sname).Ok? ==> Recorded(Snapshot(st, observed), Cycle(st, observed, sname).value.sim)
  {
    var c := Clocked(st, observed, sname);
    ClockedCompletes(st, observed, sname);
    if c.Ok? {
      assert Cycle(st, observed, sname) == Ok(Tally(st, c.value.0, c.value.1, c.value.2));
    }
  }

  lemma ClockedCompletes(st: LoopState, observed: map<string, Word>, sname: string)
    ensures Clocked(st, observed, sname).Ok? <==> CycleAllowed(st, observed, sname)
  {
    if Resolvable(st.sim, DefaultClock) {
      var s2 := Snapshot(st, observed);
      var read := ReadPhase(s2, st.io, sname);
      if read.Ok? {
        var ws := Stage(read.value.0.inputs, sname);
        WriteEventsFrame(st.sim, s2, ws);
        FindDependsOnNames(st.sim, s2, DefaultClock);
      }
    }
  }

  /** The arguments that stay fixed during the loop: the stream infix `sname`,
      `num_out_values` and `liveness_threshold`. */
  datatype Config = Config(sname: string, target: int, threshold: int)

  /** How the driver ends: it returns the cycle count, or raises. A run that
      is still going when the supplied observations end is `OutOfObservations`. */
  datatype Exit = Returned(cycles: nat) | Raised(error: Error) | OutOfObservations

  datatype Outcome = Outcome(exit: Exit, last: LoopState)

  /** The `while not output_done` loop, one observation per cycle. After each
      cycle the stall test is decisive: when the success flag and the stall
      test are both set in the same cycle, the exception wins. */
  function Loop(st: LoopState, cfg: Config, obs: seq<map<string, Word>>): (o: Outcome)
    ensures o.exit.Returned? ==>
      && o.exit.cycles == o.last.cycles && o.last.cycles > st.cycles
      && o.last.outputCount == cfg.target && o.last.idle != cfg.threshold
    ensures o.exit.Raised? && o.exit.error.Stalled? ==>
      o.exit.error == Stalled(cfg.threshold) && o.last.idle == cfg.threshold && o.last.cycles > st.cycles
    ensures o.exit.OutOfObservations? ==> o.last.cycles == st.cycles + |obs|
    ensures st.cycles <= o.last.cycles <= st.cycles + |obs|
    ensures o.last.idle <= st.idle + (o.last.cycles - st.cycles)
    ensures Progressed(st.io, o.last.io)
    ensures o.last.outputCount - st.outputCount == Words(o.last.io.outputs) - Words(st.io.outputs)
    decreases |obs|
  {
    if |obs| == 0 then Outcome(OutOfObservations, st)
    else
      match Cycle(st, obs[0], cfg.sname)
      case Fail(e, s) => Outcome(Raised(e), st.(sim := s))
      case Ok(next) =>
        StepProgresses(st.io, next.io);
        if next.idle == cfg.threshold then Outcome(Raised(Stalled(cfg.threshold)), next)
        else if next.outputCount == cfg.target then Outcome(Returned(next.cycles), next)
        else
          var o := Loop(next, cfg, obs[1..]);
          ProgressedTrans(st.io, next.io, o.last.io);
          o
  }

  /** The `_write_signal(..TREADY, 1)` calls made before the loop, one per output. */
  function ReadyWrites(outs: seq<OutChannel>, sname: string): (ws: seq<(string, int)>)
    ensures |ws| == |outs|
    ensures forall i :: 0 <= i < |outs| ==> ws[i] == (Ready(outs[i].name + sname), 1)
  {
    seq(|outs|, i requires 0 <= i < |outs| => (Ready(outs[i].name + sname), 1))
  }

  function Start(sim: Sim, io: Io): LoopState
  {
    LoopState(sim, io, 0, 0, 0, 0)
  }

  /** `rtlsim_multi_io`: raise every output's TREADY, then run the loop. */
  function RunMultiIo(sim: Sim, io: Io, target: int, sname: string, threshold: int,
                      obs: seq<map<string, Word>>): (o: Outcome)
    ensures ApplyWrites(sim, ReadyWrites(io.outputs, sname)).Fail? ==>
      o.exit.Raised? && o.exit.error.SignalNotFound? && o.last.cycles == 0
    ensures o.exit.Returned? ==>
      && o.exit.cycles == o.last.cycles && o.exit.cycles >= 1
      && target >= 0 && Words(o.last.io.outputs) == Words(io.outputs) + target
    ensures o.exit.Raised? && o.exit.error.Stalled? ==> 0 <= threshold <= o.last.cycles
    ensures Progressed(io, o.last.io)
  {
    match ApplyWrites(sim, ReadyWrites(io.outputs, sname))
    case Fail(e, s) =>
      assert Progressed(io, io) by {
        forall i | 0 <= i < |io.inputs| ensures IsSuffix(io.inputs[i].queue, io.inputs[i].queue) {
          var q := io.inputs[i].queue;
          assert q[|q| - |q|..] == q;
        }
      }
      Outcome(Raised(e), Start(s, io))
    case Ok(s) => Loop(Start(s, io), Config(sname, target, threshold), obs)
  }

  /** The staged writes can all be made exactly when every input channel's
      TVALID and TDATA resolve and no head word is negative. */
  lemma StageAllowed(sim: Sim, ins: seq<InChannel>, sname: string)
    ensures WritesAllowed(sim, Stage(ins, sname)) <==>
      forall i :: 0 <= i < |ins| ==>
        && Resolvable(sim, Valid(ins[i].name + sname))
        && Resolvable(sim, Data(ins[i].name + sname))
        && (|ins[i].queue| > 0 ==> ins[i].queue[0] >= 0)
  {
    var ws := Stage(ins, sname);
    if WritesAllowed(sim, ws) {
      forall i | 0 <= i < |ins|
        ensures Resolvable(sim, Valid(ins[i].name + sname)) && Resolvable(sim, Data(ins[i].name + sname))
        ensures |ins[i].queue| > 0 ==> ins[i].queue[0] >= 0
      {
        assert ws[2 * i] == ValidWrite(ins[i], sname);
        assert ws[2 * i + 1] == DataWrite(ins[i], sname);
      }
    }
    if forall i :: 0 <= i < |ins| ==>
        && Resolvable(sim, Valid(ins[i].name + sname))
        && Resolvable(sim, Data(ins[i].name + sname))
        && (|ins[i].queue| > 0 ==> ins[i].queue[0] >= 0)
    {
      forall k | 0 <= k < |ws|
        ensures Resolvable(sim, ws[k].0) && ws[k].1 >= 0
      {
        var i := k / 2;
        assert k == 2 * i || k == 2 * i + 1;
        assert ws[2 * i] == ValidWrite(ins[i], sname) && ws[2 * i + 1] == DataWrite(ins[i], sname);
      }
    }
  }

  lemma LastOfAppend(a: string, b: string)
    requires |b| > 0
    ensures (a + b)[|a + b| - 1] == b[|b| - 1]
  {
  }

  /** Every staged write names a TVALID or a TDATA port. */
  lemma StageNames(ins: seq<InChannel>, sname: string, k: nat)
    requires k < |Stage(ins, sname)|
    ensures var n := Stage(ins, sname)[k].0; |n| > 0 && (n[|n| - 1] == 'D' || n[|n| - 1] == 'A')
  {
    var i := k / 2;
    var base := ins[i].name + sname;
    if k == 2 * i {
      LastOfAppend(base, "TVALID");
    } else {
      assert k == 2 * i + 1;
      LastOfAppend(base, "TDATA");
    }
  }

  /** Ports reached from names with different last letters, even after
      lowering, are different ports. */
  lemma DistinctEndings(sim: Sim, a: string, b: string)
    requires Resolvable(sim, a) && Resolvable(sim, b) && |a| > 0 && |b| > 0
    requires a[|a| - 1] == 'Y'
    requires b[|b| - 1] in {'D', 'A', 'k'}
    ensures Port(sim, a) != Port(sim, b)
  {
    PortEnding(sim, a);
    PortEnding(sim, b);
    var pa, pb := Port(sim, a), Port(sim, b);
    assert pa[|pa| - 1] in {'Y', 'y'};
    assert pb[|pb| - 1] in {'D', 'd', 'A', 'a', 'k'};
  }

  /** No clock edge of the loop and no staged write touches the port of any
      TREADY signal: an output's TREADY is driven only before the loop. */
  lemma CycleLeavesReadyAlone(sim: Sim, ins: seq<InChannel>, sname: string, base: string)
    requires Resolvable(sim, DefaultClock) && WritesAllowed(sim, Stage(ins, sname))
    requires Resolvable(sim, Ready(base))
    ensures var t := ToggleEvents(sim, DefaultClock, Stage(ins, sname));
      forall j :: 0 <= j < |t| ==> !WritesTo(t[j], Port(sim, Ready(base)))
  {
    var ws := Stage(ins, sname);
    var t := ToggleEvents(sim, DefaultClock, ws);
    var n := Ready(base);
    var r := Port(sim, n);
    LastOfAppend(base, "TREADY");
    DistinctEndings(sim, n, DefaultClock);
    forall j | 0 <= j < |t|
      ensures !WritesTo(t[j], r)
    {
      ToggleEventAt(sim, DefaultClock, ws, j);
      if j >= 4 {
        StageNames(ins, sname, j - 4);
        DistinctEndings(sim, n, ws[j - 4].0);
      }
    }
  }

  /** After the setup writes every output's TREADY reads 1. */
  lemma ReadyAfterSetup(sim: Sim, outs: seq<OutChannel>, sname: string)
    requires ApplyWrites(sim, ReadyWrites(outs, sname)).Ok?
    ensures forall i :: 0 <= i < |outs| ==>
      ReadSignal(ApplyWrites(sim, ReadyWrites(outs, sname)).value, Ready(outs[i].name + sname)) == Ok(1)
  {
    var ws := ReadyWrites(outs, sname);
    var s := ApplyWrites(sim, ws).value;
    var t := WriteEvents(sim, ws);
    WriteEventsIndex(sim, ws);
    assert s.trace[|sim.trace|..] == t;
    forall i | 0 <= i < |outs|
      ensures ReadSignal(s, Ready(outs[i].name + sname)) == Ok(1)
    {
      var n := Ready(outs[i].name + sname);
      var p := Port(sim, n);
      var w := Encode(1, Width(sim, n));
      assert t[i] == Write(p, w);
      forall k | 0 <= k < |t| && WritesTo(t[k], p)
        ensures t[k].value == w
      {
        assert t[k] == WriteOf(sim, ws[k].0, 1);
      }
      ReplaySameWrites(sim.ports, t, p, w, i);
      FindDependsOnNames(sim, s, n);
      OneFits(Width(sim, n));
      EncodeRoundTrip(ReadSignal(s, n).value, Width(sim, n));
    }
  }

  /** Once more words were read than requested, the run can no longer return. */
  lemma {:induction false} OvershootNeverReturns(st: LoopState, cfg: Config, obs: seq<map<string, Word>>)
    requires st.outputCount > cfg.target
    ensures !Loop(st, cfg, obs).exit.Returned?
    decreases |obs|
  {
    if |obs| > 0 {
      var c := Cycle(st, obs[0], cfg.sname);
      if c.Fail? {
        LoopRaisesAt(st, cfg, obs, c.error, c.sim);
      } else if c.value.idle == cfg.threshold {
        LoopStallsAt(st, cfg, obs, c.value);
      } else {
        LoopContinues(st, cfg, obs, c.value);
        OvershootNeverReturns(c.value, cfg, obs[1..]);
      }
    }
  }

  /** The stall test never lets the silent-cycle count pass the threshold: the
      run ends below it, or raises exactly at it. */
  lemma {:induction false} StallNeverMissed(st: LoopState, cfg: Config, obs: seq<map<string, Word>>)
    requires st.idle < cfg.threshold
    ensures var o := Loop(st, cfg, obs);
      o.last.idle < cfg.threshold || o.exit == Raised(Stalled(cfg.threshold))
    decreases |obs|
  {
    if |obs| > 0 {
      var c := Cycle(st, obs[0], cfg.sname);
      if c.Fail? {
        LoopRaisesAt(st, cfg, obs, c.error, c.sim);
      } else if c.value.idle == cfg.threshold {
        LoopStallsAt(st, cfg, obs, c.value);
      } else if c.value.outputCount == cfg.target {
        LoopReturnsAt(st, cfg, obs, c.value);
      } else {
        LoopContinues(st, cfg, obs, c.value);
        StallNeverMissed(c.value, cfg, obs[1..]);
      }
    }
  }

  /** `states` are the loop states after each of the next `|states|` cycles
      from `st`: every one of those cycles completes. */
  predicate Chain(st: LoopState, sname: string, obs: seq<map<string, Word>>, states: seq<LoopState>)
    decreases |states|
  {
    |states| == 0 ||
      (&& |obs| > 0 && Cycle(st, obs[0], sname) == Ok(states[0])
       && Chain(states[0], sname, obs[1..], states[1..]))
  }

  /** Every state of `states` has read exactly `count` words. */
  predicate Quiet(count: int, states: seq<LoopState>)
  {
    forall k :: 0 <= k < |states| ==> states[k].outputCount == count
  }

  lemma QuietTail(count: int, states: seq<LoopState>)
    requires |states| > 0 && Quiet(count, states)
    ensures Quiet(count, states[1..])
  {
    var rest := states[1..];
    assert forall k :: 0 <= k < |rest| ==> rest[k] == states[k + 1];
  }

  /** A chain of cycles none of which reads a word. */
  predicate QuietRun(st: LoopState, sname: string, obs: seq<map<string, Word>>, states: seq<LoopState>)
  {
    Chain(st, sname, obs, states) && Quiet(st.outputCount, states)
  }

  /** The counters along a run that succeeds at its last state: the stall
      test never fires, and only the last state has `output_count` equal to
      `num_out_values`. */
  predicate Hits(cfg: Config, states: seq<LoopState>)
  {
    && |states| > 0
    && (forall k :: 0 <= k < |states| ==> states[k].idle != cfg.threshold)
    && (forall k :: 0 <= k < |states| - 1 ==> states[k].outputCount != cfg.target)
    && states[|states| - 1].outputCount == cfg.target
  }

  lemma HitsTail(cfg: Config, states: seq<LoopState>)
    requires |states| > 1 && Hits(cfg, states)
    ensures Hits(cfg, states[1..])
  {
    var rest := states[1..];
    assert forall k :: 0 <= k < |rest| ==> rest[k] == states[k + 1];
  }

  /** A chain of cycles that ends by reaching the target, as `Hits` says. */
  predicate HitRun(st: LoopState, cfg: Config, obs: seq<map<string, Word>>, states: seq<LoopState>)
  {
    Chain(st, cfg.sname, obs, states) && Hits(cfg, states)
  }

  /** The run returns at the first cycle whose count reaches the target
      without a stall, with the number of cycles run so far. */
  lemma {:induction false} HitRunReturns(st: LoopState, cfg: Config, obs: seq<map<string, Word>>, states: seq<LoopState>)
    requires HitRun(st, cfg, obs, states)
    ensures Loop(st, cfg, obs) == Outcome(Returned(st.cycles + |states|), states[|states| - 1])
    decreases |states|
  {
    HitRunHead(st, cfg, obs, states);
    if |states| == 1 {
      LoopReturnsAt(st, cfg, obs, states[0]);
    } else {
      LoopContinues(st, cfg, obs, states[0]);
      HitRunTail(st, cfg, obs, states);
      LastOfTail(states);
      HitRunReturns(states[0], cfg, obs[1..], states[1..]);
      assert states[0].cycles + |states[1..]| == st.cycles + |states|;
    }
  }

  /** A cycle that reaches the target without a stall ends the run. */
  lemma LoopReturnsAt(st: LoopState, cfg: Config, obs: seq<map<string, Word>>, next: LoopState)
    requires |obs| > 0 && Cycle(st, obs[0], cfg.sname) == Ok(next)
    requires next.idle != cfg.threshold && next.outputCount == cfg.target
    ensures Loop(st, cfg, obs) == Outcome(Returned(next.cycles), next)
  {
  }

  /** A cycle that meets the stall test ends the run with the stall exception. */
  lemma LoopStallsAt(st: LoopState, cfg: Config, obs: seq<map<string, Word>>, next: LoopState)
    requires |obs| > 0 && Cycle(st, obs[0], cfg.sname) == Ok(next) && next.idle == cfg.threshold
    ensures Loop(st, cfg, obs) == Outcome(Raised(Stalled(cfg.threshold)), next)
  {
  }

  /** A cycle that neither stalls nor reaches the target hands over to the next. */
  lemma LoopContinues(st: LoopState, cfg: Config, obs: seq<map<string, Word>>, next: LoopState)
    requires |obs| > 0 && Cycle(st, obs[0], cfg.sname) == Ok(next)
    requires next.idle != cfg.threshold && next.outputCount != cfg.target
    ensures Loop(st, cfg, obs) == Loop(next, cfg, obs[1..])
  {
  }

  lemma HitRunHead(st: LoopState, cfg: Config, obs: seq<map<string, Word>>, states: seq<LoopState>)
    requires HitRun(st, cfg, obs, states)
    ensures |obs| > 0 && Cycle(st, obs[0], cfg.sname) == Ok(states[0])
    ensures states[0].cycles == st.cycles + 1 && states[0].idle != cfg.threshold
    ensures |states| == 1 <==> states[0].outputCount == cfg.target
  {
  }

  lemma HitRunTail(st: LoopState, cfg: Config, obs: seq<map<string, Word>>, states: seq<LoopState>)
    requires |states| > 1 && HitRun(st, cfg, obs, states)
    ensures HitRun(states[0], cfg, obs[1..], states[1..])
  {
    HitsTail(cfg, states);
  }

  /** The counters along a run that goes on: no state meets the stall test or
      reaches `num_out_values`. */
  predicate Continues(cfg: Config, states: seq<LoopState>)
  {
    forall k :: 0 <= k < |states| ==> states[k].idle != cfg.threshold && states[k].outputCount != cfg.target
  }

  lemma ContinuesTail(cfg: Config, states: seq<LoopState>)
    requires |states| > 0 && Continues(cfg, states)
    ensures Continues(cfg, states[1..])
  {
    var rest := states[1..];
    assert forall k :: 0 <= k < |rest| ==> rest[k] == states[k + 1];
  }

  /** The state after the chain `states` from `st`. */
  function Last(st: LoopState, states: seq<LoopState>): LoopState
  {
    if |states| == 0 then st else states[|states| - 1]
  }

  /** A chain of cycles that goes on, followed by a cycle that raises `e`
      with the handle at `s`. */
  predicate FailRun(st: LoopState, cfg: Config, obs: seq<map<string, Word>>, states: seq<LoopState>, e: Error, s: Sim)
  {
    && |states| < |obs| && Chain(st, cfg.sname, obs, states) && Continues(cfg, states)
    && Cycle(Last(st, states), obs[|states|], cfg.sname) == Fail(e, s)
  }

  /** An exception raised by a cycle ends the run with that exception: the
      driver neither catches it nor runs another cycle. */
  lemma {:induction false} FailRunRaises(st: LoopState, cfg: Config, obs: seq<map<string, Word>>, states: seq<LoopState>,
                                         e: Error, s: Sim)
    requires FailRun(st, cfg, obs, states, e, s)
    ensures Loop(st, cfg, obs) == Outcome(Raised(e), Last(st, states).(sim := s))
    ensures Loop(st, cfg, obs).last.cycles == st.cycles + |states|
    decreases |states|
  {
    if |states| == 0 {
      LoopRaisesAt(st, cfg, obs, e, s);
    } else {
      FailRunHead(st, cfg, obs, states, e, s);
      LoopContinues(st, cfg, obs, states[0]);
      FailRunTail(st, cfg, obs, states, e, s);
      FailRunRaises(states[0], cfg, obs[1..], states[1..], e, s);
    }
  }

  /** A cycle that raises ends the run. */
  lemma LoopRaisesAt(st: LoopState, cfg: Config, obs: seq<map<string, Word>>, e: Error, s: Sim)
    requires |obs| > 0 && Cycle(st, obs[0], cfg.sname) == Fail(e, s)
    ensures Loop(st, cfg, obs) == Outcome(Raised(e), st.(sim := s))
  {
  }

  lemma FailRunHead(st: LoopState, cfg: Config, obs: seq<map<string, Word>>, states: seq<LoopState>, e: Error, s: Sim)
    requires |states| > 0 && FailRun(st, cfg, obs, states, e, s)
    ensures |obs| > 0 && Cycle(st, obs[0], cfg.sname) == Ok(states[0])
    ensures states[0].cycles == st.cycles + 1
    ensures states[0].idle != cfg.threshold && states[0].outputCount != cfg.target
  {
  }

  lemma FailRunTail(st: LoopState, cfg: Config, obs: seq<map<string, Word>>, states: seq<LoopState>, e: Error, s: Sim)
    requires |states| > 0 && FailRun(st, cfg, obs, states, e, s)
    ensures FailRun(states[0], cfg, obs[1..], states[1..], e, s)
    ensures Last(states[0], states[1..]) == Last(st, states)
  {
    ContinuesTail(cfg, states);
    LastShift(st, obs, states);
  }

  /** Index arithmetic of dropping the first state of a chain. */
  lemma LastShift(st: LoopState, obs: seq<map<string, Word>>, states: seq<LoopState>)
    requires 0 < |states| < |obs|
    ensures Last(states[0], states[1..]) == Last(st, states)
    ensures obs[1..][|states[1..]|] == obs[|states|]
  {
  }

  /** A design that stays silent is abandoned after exactly as many cycles as
      the threshold leaves, with the stall exception. */
  lemma {:induction false} QuietRunStalls(st: LoopState, cfg: Config, obs: seq<map<string, Word>>, states: seq<LoopState>)
    requires st.lastOutputCount == st.outputCount && st.outputCount != cfg.target
    requires |states| > 0 && st.idle + |states| == cfg.threshold
    requires QuietRun(st, cfg.sname, obs, states)
    ensures Loop(st, cfg, obs) == Outcome(Raised(Stalled(cfg.threshold)), states[|states| - 1])
    ensures Loop(st, cfg, obs).last.cycles == st.cycles + |states|
    decreases |states|
  {
    CycleQuiet(st, obs[0], cfg.sname);
    if |states| == 1 {
      LoopStallsAt(st, cfg, obs, states[0]);
    } else {
      LoopContinues(st, cfg, obs, states[0]);
      QuietTail(st.outputCount, states);
      LastOfTail(states);
      QuietRunStalls(states[0], cfg, obs[1..], states[1..]);
    }
  }

  /** Index arithmetic of dropping the first element. */
  lemma LastOfTail<T>(s: seq<T>)
    requires |s| > 1
    ensures s[1..][|s[1..]| - 1] == s[|s| - 1]
  {
  }

  lemma CycleQuiet(st: LoopState, observed: map<string, Word>, sname: string)
    requires st.lastOutputCount == st.outputCount
    requires Cycle(st, observed, sname).Ok? && Cycle(st, observed, sname).value.outputCount == st.outputCount
    ensures var next := Cycle(st, observed, sname).value;
      next.idle == st.idle + 1 && next.lastOutputCount == next.outputCount && next.cycles == st.cycles + 1
  {
  }

  /** A design that never offers an output word is abandoned after exactly
      `liveness_threshold` cycles, unless no word was asked for. */
  lemma SilentDesignAbandoned(sim: Sim, io: Io, target: int, sname: string, threshold: int,
                              obs: seq<map<string, Word>>, states: seq<LoopState>)
    requires ApplyWrites(sim, ReadyWrites(io.outputs, sname)).Ok?
    requires target != 0 && threshold == |states| > 0
    requires QuietRun(Start(ApplyWrites(sim, ReadyWrites(io.outputs, sname)).value, io), sname, obs, states)
    ensures RunMultiIo(sim, io, target, sname, threshold, obs).exit == Raised(Stalled(threshold))
    ensures RunMultiIo(sim, io, target, sname, threshold, obs).last.cycles == threshold
  {
    var s := ApplyWrites(sim, ReadyWrites(io.outputs, sname)).value;
    QuietRunStalls(Start(s, io), Config(sname, target, threshold), obs, states);
  }

  /** A design that delivers the requested words without ever meeting the
      stall test is run until the cycle that delivers the last of them, and
      the driver returns the number of cycles run. */
  lemma TargetReachedReturns(sim: Sim, io: Io, target: int, sname: string, threshold: int,
                             obs: seq<map<string, Word>>, states: seq<LoopState>)
    requires ApplyWrites(sim, ReadyWrites(io.outputs, sname)).Ok?
    requires HitRun(Start(ApplyWrites(sim, ReadyWrites(io.outputs, sname)).value, io),
                    Config(sname, target, threshold), obs, states)
    ensures RunMultiIo(sim, io, target, sname, threshold, obs) == Outcome(Returned(|states|), states[|states| - 1])
  {
    var s := ApplyWrites(sim, ReadyWrites(io.outputs, sname)).value;
    HitRunReturns(Start(s, io), Config(sname, target, threshold), obs, states);
  }

  /** With a zero threshold the first cycle that reads a word raises, even
      when that word completes the run. */
  lemma ZeroThresholdAbortsOnOutput(st: LoopState, cfg: Config, obs: seq<map<string, Word>>)
    requires cfg.threshold == 0 && st.lastOutputCount == st.outputCount
    requires |obs| > 0 && Cycle(st, obs[0], cfg.sname).Ok?
    requires Cycle(st, obs[0], cfg.sname).value.outputCount > st.outputCount
    ensures Loop(st, cfg, obs) == Outcome(Raised(Stalled(0)), Cycle(st, obs[0], cfg.sname).value)
  {
    LoopStallsAt(st, cfg, obs, Cycle(st, obs[0], cfg.sname).value);
  }
}
